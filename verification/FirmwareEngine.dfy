/** The firmware transfer: the calls it makes on a device, the progress it reports and its checksum. */
module FirmwareEngine {
  import opened Bytes
  import opened Checksum

  const CHUNK_SIZE := 64

  datatype IoCall =
    | EnterBootloader
    | WaitForBootloader
    | SendMarker(first: byte, second: byte)
    | SendChunk(index: nat, chunk: seq<byte>)
    | PostVerify

  const START_MARKER := SendMarker(0xBA, 0xC0)
  const COMPLETE_MARKER := SendMarker(0xBA, 0xC2)

  /** A device: what a call does to its state `S`, and the error of type `E` it may end in. */
  type Io<!S, !E> = (S, IoCall) -> (S, Option<E>)

  datatype ProgressPhase =
    Enter | Wait | TransferStart | TransferChunks | TransferComplete | Verify | Complete | Failed

  datatype ProgressEvent = ProgressEvent(phase: ProgressPhase, progress: real)

  datatype Summary = Summary(size: nat, chunkCount: nat, checksum: nat)

  datatype Result<+E> = Success(summary: Summary) | EmptyImage | IoError(error: E)

  // ---- The planned calls and events ----

  function ChunkCount(size: nat): nat {
    (size + CHUNK_SIZE - 1) / CHUNK_SIZE
  }

  function ChunkAt(image: seq<byte>, i: nat): seq<byte>
    requires i < ChunkCount(|image|)
  {
    image[CHUNK_SIZE * i..Min(CHUNK_SIZE * (i + 1), |image|)]
  }

  function ChunkCalls(image: seq<byte>, n: nat): (calls: seq<IoCall>)
    requires n <= ChunkCount(|image|)
    ensures |calls| == n
  {
    seq(n, i requires 0 <= i < n => SendChunk(i, ChunkAt(image, i)))
  }

  function Opening(): (calls: seq<IoCall>)
    ensures |calls| == 3
  {
    [EnterBootloader, WaitForBootloader, START_MARKER]
  }

  /** The calls of a transfer in which nothing fails. An empty image stops after the start marker. */
  function Plan(image: seq<byte>): seq<IoCall> {
    Opening() + if image == [] then [] else ChunkCalls(image, ChunkCount(|image|)) + [COMPLETE_MARKER, PostVerify]
  }

  function ChunkProgress(i: nat, count: nat): real
    requires i < count
  {
    0.30 + 0.55 * ((i + 1) as real / count as real)
  }

  function ChunkEvents(count: nat, n: nat): (events: seq<ProgressEvent>)
    requires n <= count
    ensures |events| == n
  {
    seq(n, i requires 0 <= i < n => ProgressEvent(TransferChunks, ChunkProgress(i, count)))
  }

  function OpeningEvents(): (events: seq<ProgressEvent>)
    ensures |events| == 3
  {
    [ProgressEvent(Enter, 0.10), ProgressEvent(Wait, 0.20), ProgressEvent(TransferStart, 0.30)]
  }

  /** One event before each planned call and one at the end. */
  function PlannedEvents(image: seq<byte>): (events: seq<ProgressEvent>)
    ensures |events| == |Plan(image)| + 1
  {
    if image == [] then OpeningEvents() + [ProgressEvent(Failed, 1.0)]
    else
      OpeningEvents() + ChunkEvents(ChunkCount(|image|), ChunkCount(|image|))
      + [ProgressEvent(TransferComplete, 0.90), ProgressEvent(Verify, 0.95), ProgressEvent(Complete, 1.0)]
  }

  /** The state, the number of calls made and the error after making calls up to the first that fails. */
  function Drive<S, E>(io: Io<S, E>, s: S, calls: seq<IoCall>): (out: (S, nat, Option<E>))
    ensures out.1 <= |calls| && (out.2.None? ==> out.1 == |calls|) && (out.2.Some? ==> out.1 > 0)
  {
    if calls == [] then (s, 0, None)
    else
      var (s', n, error) := Drive(io, s, calls[..|calls| - 1]);
      if error.Some? then (s', n, error)
      else
        var (s'', failure) := io(s', calls[|calls| - 1]);
        (s'', |calls|, failure)
  }

  function Outcome<E>(image: seq<byte>, error: Option<E>): Result<E> {
    if error.Some? then IoError(error.value) else if image == [] then EmptyImage else Success(Summarize(image))
  }

  // ---- The checksum ----

  const WORD := 0x1_0000_0000
  const LOW_24 := 0x100_0000

  /** The byte at an index, with 0xFF behind the end. */
  function PaddedAt(image: seq<byte>, i: nat): byte {
    if i < |image| then image[i] else 0xFF
  }

  /** A 32-bit running total of the first `n` padded bytes. */
  function PaddedTotal(image: seq<byte>, n: nat): nat {
    if n == 0 then 0 else (PaddedTotal(image, n - 1) + PaddedAt(image, n - 1)) % WORD
  }

  function PaddedLength(size: nat): nat {
    CHUNK_SIZE * ChunkCount(size)
  }

  function Lower24Bits(checksum: nat): nat {
    checksum % LOW_24
  }

  function Summarize(image: seq<byte>): Summary {
    Summary(|image|, ChunkCount(|image|), Lower24Bits(PaddedTotal(image, PaddedLength(|image|))))
  }

  method PaddedChecksum64(image: seq<byte>) returns (total: nat)
    ensures total == PaddedTotal(image, PaddedLength(|image|))
  {
    total := 0;
    for index := 0 to PaddedLength(|image|)
      invariant total == PaddedTotal(image, index)
    {
      var b := if index < |image| then image[index] else 0xFF;
      total := (total + b) % WORD;
    }
  }

  method SummarizeManifestBytes(bytes: seq<byte>) returns (summary: Summary)
    ensures summary == Summarize(bytes)
  {
    var total := PaddedChecksum64(bytes);
    summary := Summary(|bytes|, ChunkCount(|bytes|), Lower24Bits(total));
  }

  // ---- The engine ----

  class DefaultFirmwareEngine<!S, !E> {
    const io: Io<S, E>
    var device: S
    var calls: seq<IoCall>

    constructor (io: Io<S, E>, device: S)
      ensures this.io == io && this.device == device && calls == []
    {
      this.io, this.device, calls := io, device, [];
    }

    method Call(call: IoCall) returns (error: Option<E>)
      modifies this
      ensures (device, error) == io(old(device), call) && calls == old(calls) + [call]
    {
      var (s, failure) := io(device, call);
      device, error, calls := s, failure, calls + [call];
    }

    /** The first `n` planned calls have been made since state `s`, all of them well, each behind its event. */
    ghost predicate Reached(s: S, before: seq<IoCall>, image: seq<byte>, n: nat, events: seq<ProgressEvent>)
      reads this
    {
      && n <= |Plan(image)| && Drive(io, s, Plan(image)[..n]) == (device, n, None)
      && calls == before + Plan(image)[..n] && events == PlannedEvents(image)[..n]
    }

    /** Reports the next event and makes the next call of the plan. */
    method Proceed(ghost s: S, ghost before: seq<IoCall>, ghost image: seq<byte>, ghost n: nat,
                   events: seq<ProgressEvent>, event: ProgressEvent, call: IoCall)
        returns (reported: seq<ProgressEvent>, error: Option<E>)
      requires n < |Plan(image)| && Plan(image)[n] == call && PlannedEvents(image)[n] == event
      requires Reached(s, before, image, n, events)
      modifies this
      ensures error.None? ==> Reached(s, before, image, n + 1, reported)
      ensures error.Some? ==> Drive(io, s, Plan(image)) == (device, n + 1, error)
      ensures reported == PlannedEvents(image)[..n + 1] && calls == before + Plan(image)[..n + 1]
    {
      hide Plan, PlannedEvents;
      reported := events + [event];
      error := Call(call);
      Stage(io, s, Plan(image), n + 1, device, error);
    }

    lemma NothingReached(image: seq<byte>)
      ensures Reached(device, calls, image, 0, [])
    {
      PlanShape(image);
      DriveNothing(io, device);
    }

    lemma AllReached(s: S, before: seq<IoCall>, image: seq<byte>, events: seq<ProgressEvent>)
      requires Reached(s, before, image, |Plan(image)|, events)
      ensures Drive(io, s, Plan(image)) == (device, |Plan(image)|, None)
      ensures calls == before + Plan(image)[..|Plan(image)|] && events == PlannedEvents(image)[..|Plan(image)|]
    {
      assert Plan(image)[..|Plan(image)|] == Plan(image);
    }

    /** Sends the image chunk by chunk, up to the first failure. */
    method SendChunks(ghost s: S, ghost before: seq<IoCall>, image: seq<byte>, events: seq<ProgressEvent>)
        returns (reported: seq<ProgressEvent>, error: Option<E>)
      requires image != [] && Reached(s, before, image, 3, events)
      modifies this
      ensures error.None? ==> Reached(s, before, image, 3 + ChunkCount(|image|), reported)
      ensures error.Some? ==>
                var n := Drive(io, s, Plan(image)).1;
                && Drive(io, s, Plan(image)) == (device, n, error)
                && reported == PlannedEvents(image)[..n] && calls == before + Plan(image)[..n]
    {
      hide Plan, PlannedEvents, Drive;
      var chunkCount := ChunkCount(|image|);
      PlanShape(image);
      reported, error := events, None;
      for i := 0 to chunkCount
        invariant error.None? && Reached(s, before, image, 3 + i, reported)
      {
        PlannedChunk(image, i);
        var ratio := (i + 1) as real / chunkCount as real;
        var event := ProgressEvent(ProgressPhase.TransferChunks, 0.30 + 0.55 * ratio);
        var chunk := image[CHUNK_SIZE * i..Min(CHUNK_SIZE * (i + 1), |image|)];
        reported, error := Proceed(s, before, image, 3 + i, reported, event, SendChunk(i, chunk));
        if error.Some? {
          return;
        }
      }
    }

    /** The events are those handed to the progress callback, in order. */
    method Execute(image: seq<byte>) returns (result: Result<E>, events: seq<ProgressEvent>)
      modifies this
      ensures var (s, n, error) := Drive(io, old(device), Plan(image));
              && device == s && calls == old(calls) + Plan(image)[..n]
              && events == PlannedEvents(image)[..if error.Some? then n else n + 1]
              && result == Outcome(image, error)
    {
      hide Plan, PlannedEvents, PaddedTotal, Lower24Bits, Drive;
      ghost var s, before := device, calls;
      var error: Option<E>;
      PlanShape(image);
      NothingReached(image);
      hide Reached;
      events, error := Proceed(s, before, image, 0, [], ProgressEvent(Enter, 0.10), EnterBootloader);
      if error.Some? {
        return IoError(error.value), events;
      }
      events, error := Proceed(s, before, image, 1, events, ProgressEvent(Wait, 0.20), WaitForBootloader);
      if error.Some? {
        return IoError(error.value), events;
      }
      events, error := Proceed(s, before, image, 2, events, ProgressEvent(TransferStart, 0.30), START_MARKER);
      if error.Some? {
        return IoError(error.value), events;
      }
      var chunkCount := ChunkCount(|image|);
      if chunkCount == 0 {
        AllReached(s, before, image, events);
        events := events + [ProgressEvent(Failed, 1.0)];
        return EmptyImage, events;
      }
      events, error := SendChunks(s, before, image, events);
      if error.Some? {
        return IoError(error.value), events;
      }
      var complete := ProgressEvent(TransferComplete, 0.90);
      events, error := Proceed(s, before, image, 3 + chunkCount, events, complete, COMPLETE_MARKER);
      if error.Some? {
        return IoError(error.value), events;
      }
      events, error := Proceed(s, before, image, 4 + chunkCount, events, ProgressEvent(Verify, 0.95), PostVerify);
      if error.Some? {
        return IoError(error.value), events;
      }
      AllReached(s, before, image, events);
      events := events + [ProgressEvent(Complete, 1.0)];
      var total := PaddedChecksum64(image);
      result := Success(Summary(|image|, chunkCount, Lower24Bits(total)));
    }
  }

  lemma DriveNothing<S, E>(io: Io<S, E>, s: S)
    ensures Drive(io, s, []) == (s, 0, None)
  {
  }

  /** After call `n` of a plan whose earlier calls went well. */
  lemma Stage<S, E>(io: Io<S, E>, s: S, plan: seq<IoCall>, n: nat, s': S, error: Option<E>)
    requires 0 < n <= |plan| && Drive(io, s, plan[..n - 1]).2.None?
    requires (s', error) == io(Drive(io, s, plan[..n - 1]).0, plan[n - 1])
    ensures Drive(io, s, plan[..n]) == (s', n, error)
    ensures error.Some? ==> Drive(io, s, plan) == (s', n, error)
    ensures n == |plan| ==> plan[..n] == plan
  {
    assert plan[..n][..n - 1] == plan[..n - 1];
    if error.Some? {
      FirstFailure(io, s, plan, n);
    } else if n == |plan| {
      assert plan[..n] == plan;
    }
  }

  /** Once a call has failed the rest of the plan is not carried out. */
  lemma {:induction false} FirstFailure<S, E>(io: Io<S, E>, s: S, plan: seq<IoCall>, n: nat)
    requires n <= |plan| && Drive(io, s, plan[..n]).2.Some?
    ensures Drive(io, s, plan) == Drive(io, s, plan[..n])
  {
    if n == |plan| {
      assert plan[..n] == plan;
    } else {
      assert plan[..|plan| - 1][..n] == plan[..n];
      FirstFailure(io, s, plan[..|plan| - 1], n);
    }
  }

  lemma PlanShape(image: seq<byte>)
    ensures var plan, all, n := Plan(image), PlannedEvents(image), ChunkCount(|image|);
            && |plan| == (if n == 0 then 3 else 5 + n) && (n == 0 <==> image == [])
            && plan[..3] == Opening() && all[..3] == OpeningEvents() && plan[..0] == [] && all[..0] == []
            && plan[0] == EnterBootloader && plan[1] == WaitForBootloader && plan[2] == START_MARKER
            && all[0] == ProgressEvent(Enter, 0.10) && all[1] == ProgressEvent(Wait, 0.20)
            && all[2] == ProgressEvent(TransferStart, 0.30)
            && (n == 0 ==> all[3] == ProgressEvent(Failed, 1.0))
            && (n > 0 ==> plan[3 + n] == COMPLETE_MARKER && plan[4 + n] == PostVerify)
            && (n > 0 ==> all[3 + n] == ProgressEvent(TransferComplete, 0.90))
            && (n > 0 ==> all[4 + n] == ProgressEvent(Verify, 0.95))
            && (n > 0 ==> all[5 + n] == ProgressEvent(Complete, 1.0))
  {
  }

  lemma PlannedChunk(image: seq<byte>, i: nat)
    requires i < ChunkCount(|image|)
    ensures Plan(image)[3 + i] == SendChunk(i, ChunkAt(image, i))
    ensures PlannedEvents(image)[3 + i] == ProgressEvent(TransferChunks, ChunkProgress(i, ChunkCount(|image|)))
  {
  }

  // ---- Properties ----

  /** The last call made is the only one that may have failed. */
  lemma {:induction false} FailureIsLast<S, E>(io: Io<S, E>, s: S, plan: seq<IoCall>)
    ensures var (s', n, error) := Drive(io, s, plan);
            && Drive(io, s, plan[..n]) == (s', n, error)
            && (n > 0 ==>
                  var (before, made, none) := Drive(io, s, plan[..n - 1]);
                  made == n - 1 && none.None? && io(before, plan[n - 1]) == (s', error))
  {
    if plan != [] {
      var init := plan[..|plan| - 1];
      FailureIsLast(io, s, init);
      var (s', n, error) := Drive(io, s, plan);
      if Drive(io, s, init).2.Some? {
        assert init[..n] == plan[..n] && init[..n - 1] == plan[..n - 1];
      } else {
        assert plan[..n] == plan && plan[..n - 1] == init;
      }
    }
  }

  /** The image bytes that some calls carry, in order. */
  function Carried(calls: seq<IoCall>): seq<byte> {
    if calls == [] then []
    else
      var last := calls[|calls| - 1];
      Carried(calls[..|calls| - 1]) + if last.SendChunk? then last.chunk else []
  }

  lemma {:induction false} ChunksRebuild(image: seq<byte>, n: nat)
    requires n <= ChunkCount(|image|)
    ensures Carried(ChunkCalls(image, n)) == image[..Min(CHUNK_SIZE * n, |image|)]
  {
    if n > 0 {
      ChunksRebuild(image, n - 1);
      assert ChunkCalls(image, n)[..n - 1] == ChunkCalls(image, n - 1);
      var from := CHUNK_SIZE * (n - 1);
      assert image[..Min(CHUNK_SIZE * n, |image|)] == image[..from] + ChunkAt(image, n - 1);
    }
  }

  /** However far a transfer gets, what it has carried is a prefix of the image, and in the end the image. */
  lemma {:induction false} CarriedIsPrefix(image: seq<byte>, n: nat)
    requires n <= |Plan(image)|
    ensures Carried(Plan(image)[..n])
            == image[..Min(CHUNK_SIZE * Min(if n < 3 then 0 else n - 3, ChunkCount(|image|)), |image|)]
    ensures n == |Plan(image)| ==> Carried(Plan(image)) == image
  {
    hide Carried;
    var plan, count := Plan(image), ChunkCount(|image|);
    if n <= 3 {
      CarriedStep(plan, 0, n);
    } else if n <= 3 + count {
      assert plan[..n] == Opening() + ChunkCalls(image, n - 3);
      CarriedConcat(Opening(), ChunkCalls(image, n - 3));
      ChunksRebuild(image, n - 3);
    } else {
      CarriedIsPrefix(image, 3 + count);
      CarriedStep(plan, 3 + count, n);
    }
    assert plan[..|plan|] == plan;
    assert Carried(Opening()) == [] by { CarriedStep(Opening(), 0, 3); assert Opening()[..3] == Opening(); }
  }

  /** Calls that are not chunks carry nothing. */
  lemma {:induction false} CarriedStep(calls: seq<IoCall>, from: nat, to: nat)
    requires from <= to <= |calls| && forall i :: from <= i < to ==> !calls[i].SendChunk?
    ensures Carried(calls[..to]) == Carried(calls[..from])
    ensures from == 0 ==> Carried(calls[..to]) == []
  {
    if from < to {
      assert calls[..to][..to - 1] == calls[..to - 1];
      CarriedStep(calls, from, to - 1);
    }
  }

  lemma {:induction false} CarriedConcat(a: seq<IoCall>, b: seq<IoCall>)
    ensures Carried(a + b) == Carried(a) + Carried(b)
  {
    if b == [] {
      assert a + b == a;
    } else {
      assert (a + b)[..|a + b| - 1] == a + b[..|b| - 1];
      CarriedConcat(a, b[..|b| - 1]);
    }
  }

  /**
   Every call and what is announced right before it: the bootloader, the start marker, the chunks in order,
   the complete marker and the verification, each at its place in the transfer.
   */
  lemma CallsAndEvents(image: seq<byte>, k: nat)
    requires k < |Plan(image)|
    ensures var n, event := ChunkCount(|image|), PlannedEvents(image)[k];
            match Plan(image)[k]
            case EnterBootloader => k == 0 && event == ProgressEvent(Enter, 0.10)
            case WaitForBootloader => k == 1 && event == ProgressEvent(Wait, 0.20)
            case SendMarker(first, second) =>
              && first == 0xBA
              && (k == 2 ==> second == 0xC0 && event == ProgressEvent(TransferStart, 0.30))
              && (k != 2 ==> k == n + 3 && second == 0xC2 && event == ProgressEvent(TransferComplete, 0.90))
            case SendChunk(i, chunk) =>
              && k == i + 3 && i < n && 64 * i + |chunk| <= |image| && chunk == image[64 * i..64 * i + |chunk|]
              && event == ProgressEvent(TransferChunks, 0.30 + 0.55 * ((i + 1) as real / n as real))
            case PostVerify => k == n + 4 && event == ProgressEvent(Verify, 0.95)
    ensures |Plan(image)| == (if image == [] then 3 else ChunkCount(|image|) + 5)
    ensures PlannedEvents(image)[|Plan(image)|] == ProgressEvent(if image == [] then Failed else Complete, 1.0)
  {
    hide Plan, PlannedEvents;
    PlanShape(image);
    if 3 <= k < 3 + ChunkCount(|image|) {
      PlannedChunk(image, k - 3);
    }
  }

  /** All chunks but the last are full and none is empty. */
  lemma ChunkSizes(image: seq<byte>, i: nat)
    requires i < ChunkCount(|image|)
    ensures 0 < |ChunkAt(image, i)| <= 64
    ensures i < ChunkCount(|image|) - 1 ==> |ChunkAt(image, i)| == 64
    ensures i == ChunkCount(|image|) - 1 ==> |ChunkAt(image, i)| == |image| - 64 * i
  {
  }

  /** Progress stays between 0 and 1 and never goes back. */
  lemma ProgressNeverDecreases(image: seq<byte>, i: nat, j: nat)
    requires i <= j < |PlannedEvents(image)|
    ensures 0.0 <= PlannedEvents(image)[i].progress <= PlannedEvents(image)[j].progress <= 1.0
  {
    var count := ChunkCount(|image|);
    if image != [] {
      ChunkProgressBounds(i - 3, j - 3, count);
    }
  }

  lemma ChunkProgressBounds(i: int, j: int, count: nat)
    ensures 0 <= j < count ==> 0.30 <= ChunkProgress(j, count) <= 0.85
    ensures 0 <= i < count ==> 0.30 <= ChunkProgress(i, count) <= 0.85
    ensures 0 <= i <= j < count ==> ChunkProgress(i, count) <= ChunkProgress(j, count)
  {
    if 0 <= i < count { RatioBounds(i + 1, count, count); }
    if 0 <= j < count { RatioBounds(j + 1, count, count); }
    if 0 <= i <= j < count { RatioBounds(i + 1, j + 1, count); }
  }

  lemma RatioBounds(a: nat, b: nat, count: nat)
    requires a <= b && count > 0
    ensures 0.0 <= a as real / count as real <= b as real / count as real
    ensures a <= count ==> a as real / count as real <= 1.0
  {
  }

  /** The wrapping total, cut to 24 bits, is the byte sum plus 255 for every padding byte, modulo 2^24. */
  lemma ChecksumMeaning(image: seq<byte>)
    ensures var summary, padding := Summarize(image), PaddedLength(|image|) - |image|;
            && summary.size == |image| && |image| + padding == 64 * summary.chunkCount && 0 <= padding < 64
            && summary.checksum == (Sum(image) + 255 * padding) % 0x100_0000
  {
    hide Sum, PaddedTotal;
    var n := PaddedLength(|image|);
    TotalOfImage(image, |image|);
    TotalOfPadding(image, n - |image|);
    assert image[..|image|] == image;
    LowBits(Sum(image) + 255 * (n - |image|));
  }

  lemma {:induction false} TotalOfImage(image: seq<byte>, n: nat)
    requires n <= |image|
    ensures PaddedTotal(image, n) == Sum(image[..n]) % WORD
  {
    if n > 0 {
      TotalOfImage(image, n - 1);
      assert image[..n][..n - 1] == image[..n - 1];
      AddModulo(Sum(image[..n - 1]), image[n - 1]);
    }
  }

  lemma {:induction false} TotalOfPadding(image: seq<byte>, extra: nat)
    ensures PaddedTotal(image, |image| + extra) == (Sum(image) + 255 * extra) % WORD
  {
    if extra == 0 {
      TotalOfImage(image, |image|);
      assert image[..|image|] == image;
    } else {
      hide Sum;
      TotalOfPadding(image, extra - 1);
      AddModulo(Sum(image) + 255 * (extra - 1), 255);
    }
  }

  lemma AddModulo(x: nat, b: nat)
    ensures (x % WORD + b) % WORD == (x + b) % WORD
  {
    var sum := x % WORD + b;
    assert x + b == (x / WORD + sum / WORD) * WORD + sum % WORD;
  }

  lemma LowBits(x: nat)
    ensures x % WORD % LOW_24 == x % LOW_24
  {
  }
}
