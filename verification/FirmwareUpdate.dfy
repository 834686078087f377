/** The bridge's firmware update: a simulated device behind the engine, one retry, and the progress stream. */
module FirmwareUpdate {
  import opened Bytes
  import opened FirmwareEngine

  datatype Query = GetUsbVersion | GetRev

  datatype Failure = BootloaderTimeout | IntegrityMismatch | IncompleteTransfer | PostVerifyFailed

  datatype RuntimeState = RuntimeState(
    timeouts: byte, integrityFailure: bool, incompleteTransfer: bool, postVerifyFailure: bool, supportsGetRev: bool,
    queries: seq<Query>)

  /** The texts of the stream; only the empty one tells a client that all is well. */
  datatype Label =
    | Empty
    | EmptyPayload
    | StagingFailed
    | PreflightFailed
    | PreflightOk
    | PhaseIs(phase: ProgressPhase)
    | Retry
    | PostVerifyQueries(queries: seq<Query>)
    | Fault(failure: Failure)
    | EmptyImageFault

  datatype Progress = Progress(progress: real, err: Label)

  /** What one call does to the simulated device. */
  function Bridge(s: RuntimeState, call: IoCall): (RuntimeState, Option<Failure>) {
    match call
    case EnterBootloader => (s, None)
    case WaitForBootloader =>
      if s.timeouts > 0 then (s.(timeouts := s.timeouts - 1), Some(BootloaderTimeout)) else (s, None)
    case SendMarker(_, _) =>
      if call == COMPLETE_MARKER && s.integrityFailure then (s, Some(IntegrityMismatch))
      else if call == COMPLETE_MARKER && s.incompleteTransfer then (s, Some(IncompleteTransfer))
      else (s, None)
    case SendChunk(_, _) => (s, None)
    case PostVerify =>
      (s.(queries := s.queries + [GetUsbVersion] + if s.supportsGetRev then [GetRev] else []),
       if s.postVerifyFailure then Some(PostVerifyFailed) else None)
  }

  // ---- Scenarios ----

  const BOOT_TIMEOUT_FAIL := "BOOT_TIMEOUT_FAIL"
  const INTEGRITY_FAIL := "INTEGRITY_FAIL"
  const INCOMPLETE_TRANSFER := "INCOMPLETE_TRANSFER"
  const POST_VERIFY_FAIL := "POST_VERIFY_FAIL"

  predicate StartsWith(payload: seq<byte>, text: string) {
    |text| <= |payload| && forall i :: 0 <= i < |text| ==> payload[i] == text[i] as int
  }

  function FromPayload(payload: seq<byte>): RuntimeState {
    var fine := RuntimeState(0, false, false, false, true, []);
    if StartsWith(payload, BOOT_TIMEOUT_FAIL) then fine.(timeouts := 2)
    else if StartsWith(payload, INTEGRITY_FAIL) then fine.(integrityFailure := true)
    else if StartsWith(payload, INCOMPLETE_TRANSFER) then fine.(incompleteTransfer := true)
    else if StartsWith(payload, POST_VERIFY_FAIL) then fine.(postVerifyFailure := true)
    else fine
  }

  // ---- The stream ----

  function MapPhaseEvent(event: ProgressEvent): Progress {
    Progress(event.progress, if event.phase == Complete then Empty else PhaseIs(event.phase))
  }

  function MapEvents(events: seq<ProgressEvent>): (out: seq<Progress>)
    ensures |out| == |events|
  {
    seq(|events|, i requires 0 <= i < |events| => MapPhaseEvent(events[i]))
  }

  function RunEvents(image: seq<byte>, s: RuntimeState): seq<Progress> {
    var (s', n, error) := Drive(Bridge, s, Plan(image));
    MapEvents(PlannedEvents(image)[..if error.Some? then n else n + 1])
  }

  /** The items from one engine run on, when `attempts` timeouts have been retried. */
  function Attempts(image: seq<byte>, s: RuntimeState, attempts: nat): seq<Progress>
    requires attempts <= 1
    decreases 1 - attempts
  {
    var (s', n, error) := Drive(Bridge, s, Plan(image));
    var events := RunEvents(image, s);
    match Outcome(image, error)
    case Success(_) => events + [Progress(0.99, PostVerifyQueries(s'.queries)), Progress(1.0, Empty)]
    case EmptyImage => events + [Progress(1.0, EmptyImageFault)]
    case IoError(failure) =>
      if failure.BootloaderTimeout? && attempts == 0
      then events + [Progress(0.20, Retry)] + Attempts(image, s', 1)
      else events + [Progress(1.0, Fault(failure))]
  }

  /** Staging the payload and preflight are decided outside; everything after them is not. */
  function Stream(payload: seq<byte>, staged: bool, allowed: bool): seq<Progress> {
    if payload == [] then [Progress(0.0, EmptyPayload)]
    else if !staged then [Progress(0.0, StagingFailed)]
    else if !allowed then [Progress(0.0, PreflightFailed)]
    else [Progress(0.05, PreflightOk)] + Attempts(payload, FromPayload(payload), 0)
  }

  method StreamProgress(payload: seq<byte>, staged: bool, allowed: bool) returns (events: seq<Progress>)
    ensures events == Stream(payload, staged, allowed)
  {
    hide Attempts, RunEvents, Plan, Drive, FromPayload;
    if |payload| == 0 {
      return [Progress(0.0, EmptyPayload)];
    }
    if !staged {
      return [Progress(0.0, StagingFailed)];
    }
    if !allowed {
      return [Progress(0.0, PreflightFailed)];
    }
    var state := FromPayload(payload);
    events := [Progress(0.05, PreflightOk)];
    var attempts := 0;
    while true
      invariant attempts <= 1
      invariant events + Attempts(payload, state, attempts) == Stream(payload, staged, allowed)
      decreases 1 - attempts
    {
      AttemptsStep(payload, state, attempts);
      var engine := new DefaultFirmwareEngine<RuntimeState, Failure>(Bridge, state);
      var result, phaseEvents := engine.Execute(payload);
      var mapped := MapEvents(phaseEvents);
      assert mapped == RunEvents(payload, state) by { RunEventsAre(payload, state); }
      events, state := events + mapped, engine.device;
      match result {
        case Success(_) =>
          return events + [Progress(0.99, PostVerifyQueries(state.queries)), Progress(1.0, Empty)];
        case EmptyImage =>
          return events + [Progress(1.0, EmptyImageFault)];
        case IoError(failure) =>
          if failure.BootloaderTimeout? && attempts == 0 {
            attempts := attempts + 1;
            events := events + [Progress(0.20, Retry)];
          } else {
            return events + [Progress(1.0, Fault(failure))];
          }
      }
    }
  }

  lemma RunEventsAre(image: seq<byte>, s: RuntimeState)
    ensures var (s', n, error) := Drive(Bridge, s, Plan(image));
            RunEvents(image, s) == MapEvents(PlannedEvents(image)[..if error.Some? then n else n + 1])
  {
  }

  lemma AttemptsStep(image: seq<byte>, s: RuntimeState, attempts: nat)
    requires attempts <= 1
    ensures var (s', n, error) := Drive(Bridge, s, Plan(image));
            var events, out := RunEvents(image, s), Outcome(image, error);
            Attempts(image, s, attempts) ==
              if out.Success? then events + [Progress(0.99, PostVerifyQueries(s'.queries)), Progress(1.0, Empty)]
              else if out.EmptyImage? then events + [Progress(1.0, EmptyImageFault)]
              else if out.error.BootloaderTimeout? && attempts == 0
              then events + [Progress(0.20, Retry)] + Attempts(image, s', 1)
              else events + [Progress(1.0, Fault(out.error))]
  {
  }

  // ---- Properties ----

  /** The failure one run on a nonempty image ends in, read off the device's state. */
  function FailureOf(s: RuntimeState): Option<Failure> {
    if s.timeouts > 0 then Some(BootloaderTimeout)
    else if s.integrityFailure then Some(IntegrityMismatch)
    else if s.incompleteTransfer then Some(IncompleteTransfer)
    else if s.postVerifyFailure then Some(PostVerifyFailed)
    else None
  }

  function StateAfterRun(s: RuntimeState): RuntimeState {
    if s.timeouts > 0 then s.(timeouts := s.timeouts - 1)
    else if s.integrityFailure || s.incompleteTransfer then s
    else s.(queries := s.queries + [GetUsbVersion] + if s.supportsGetRev then [GetRev] else [])
  }

  function CallsMade(s: RuntimeState, count: nat): nat {
    if s.timeouts > 0 then 2 else if s.integrityFailure || s.incompleteTransfer then 4 + count else 5 + count
  }

  lemma {:induction false} ChunksPass(image: seq<byte>, s: RuntimeState, n: nat)
    requires n <= ChunkCount(|image|) && s.timeouts == 0
    ensures Drive(Bridge, s, Opening() + ChunkCalls(image, n)) == (s, 3 + n, None)
  {
    var calls := Opening() + ChunkCalls(image, n);
    if n > 0 {
      assert calls[..2 + n] == Opening() + ChunkCalls(image, n - 1);
      ChunksPass(image, s, n - 1);
    } else {
      assert calls == Opening();
      OpeningPasses(s);
    }
  }

  lemma OpeningPasses(s: RuntimeState)
    requires s.timeouts == 0
    ensures Drive(Bridge, s, Opening()) == (s, 3, None)
  {
    assert Opening()[..2][..1] == [EnterBootloader] && Opening()[..2][..1][..0] == [];
    assert Drive(Bridge, s, Opening()[..2][..1]) == (s, 1, None);
    assert Drive(Bridge, s, Opening()[..2]) == (s, 2, None);
  }

  lemma TimeoutStops(s: RuntimeState, plan: seq<IoCall>)
    requires s.timeouts > 0 && |plan| >= 2 && plan[0] == EnterBootloader && plan[1] == WaitForBootloader
    ensures Drive(Bridge, s, plan) == (s.(timeouts := s.timeouts - 1), 2, Some(BootloaderTimeout))
  {
    assert plan[..2][..1] == [EnterBootloader] && plan[..2][..1][..0] == [];
    assert Drive(Bridge, s, plan[..2][..1]) == (s, 1, None);
    FirstFailure(Bridge, s, plan, 2);
  }

  /** How one engine run on the simulated device goes. */
  lemma RunOutcome(image: seq<byte>, s: RuntimeState)
    requires image != []
    ensures Drive(Bridge, s, Plan(image)) == (StateAfterRun(s), CallsMade(s, ChunkCount(|image|)), FailureOf(s))
  {
    hide ChunkCalls;
    var plan, count := Plan(image), ChunkCount(|image|);
    if s.timeouts > 0 {
      TimeoutStops(s, plan);
    } else {
      ChunksPass(image, s, count);
      assert plan[..|plan| - 1][..3 + count] == Opening() + ChunkCalls(image, count);
      assert plan[3 + count] == COMPLETE_MARKER && plan[4 + count] == PostVerify;
    }
  }

  predicate Clean(s: RuntimeState) {
    !s.integrityFailure && !s.incompleteTransfer && !s.postVerifyFailure
  }

  /** The final run: the second when the first one timed out. */
  function FinalState(s: RuntimeState): RuntimeState {
    if s.timeouts > 0 then s.(timeouts := s.timeouts - 1) else s
  }

  predicate Starts(p: Progress) {
    p.err == PhaseIs(Enter)
  }

  function Count(stream: seq<Progress>, p: Progress -> bool): nat {
    if stream == [] then 0
    else Count(stream[..|stream| - 1], p) + if p(stream[|stream| - 1]) then 1 else 0
  }

  lemma {:induction false} CountConcat(a: seq<Progress>, b: seq<Progress>, p: Progress -> bool)
    ensures Count(a + b, p) == Count(a, p) + Count(b, p)
  {
    if b == [] {
      assert a + b == a;
    } else {
      assert (a + b)[..|a + b| - 1] == a + b[..|b| - 1];
      CountConcat(a, b[..|b| - 1], p);
    }
  }

  lemma {:induction false} CountNone(a: seq<Progress>, p: Progress -> bool)
    requires forall i :: 0 <= i < |a| ==> !p(a[i])
    ensures Count(a, p) == 0
  {
    if a != [] {
      CountNone(a[..|a| - 1], p);
    }
  }

  /** What one run reports: it starts once, and reports an empty text exactly when it succeeds, at the very end. */
  lemma RunReport(image: seq<byte>, s: RuntimeState)
    requires image != []
    ensures var events := RunEvents(image, s);
            && |events| >= 2 && Starts(events[0]) && (forall i :: 0 < i < |events| ==> !Starts(events[i]))
            && (forall i :: 0 <= i < |events| - 1 ==> events[i].err != Empty)
            && (events[|events| - 1].err == Empty <==> FailureOf(s).None?)
            && (FailureOf(s).None? ==> events[|events| - 1].progress == 1.0)
            && (forall i, j :: 0 <= i <= j < |events| ==> 0.05 <= events[i].progress <= events[j].progress <= 1.0)
            && (s.timeouts > 0 ==> events[|events| - 1].progress == 0.20) && events[0].progress == 0.10
  {
    hide Plan, PlannedEvents, ChunkProgress;
    RunOutcome(image, s);
    PlanShape(image);
    var events, all, count := RunEvents(image, s), PlannedEvents(image), ChunkCount(|image|);
    forall i | 0 <= i < |all|
      ensures (all[i].phase == Enter <==> i == 0) && (all[i].phase == Complete <==> i == 5 + count)
    {
      PhaseAt(image, i);
    }
    forall i, j | 0 <= i <= j < |events| ensures 0.05 <= events[i].progress <= events[j].progress <= 1.0 {
      ProgressNeverDecreases(image, i, j);
      ProgressNeverDecreases(image, 0, i);
    }
  }

  lemma PhaseAt(image: seq<byte>, i: nat)
    requires image != [] && i < |PlannedEvents(image)|
    ensures PlannedEvents(image)[i].phase == Enter <==> i == 0
    ensures PlannedEvents(image)[i].phase == Complete <==> i == 5 + ChunkCount(|image|)
  {
  }

  function LastOf(stream: seq<Progress>): Progress
    requires stream != []
  {
    stream[|stream| - 1]
  }

  /** The items behind the events of the only or the second run. */
  function Ending(s: RuntimeState): seq<Progress> {
    var failure := FailureOf(s);
    if failure.None? then [Progress(0.99, PostVerifyQueries(StateAfterRun(s).queries)), Progress(1.0, Empty)]
    else [Progress(1.0, Fault(failure.value))]
  }

  /** The whole stream behind the preflight item: one run, or a timed-out run, a retry and a second run. */
  lemma AttemptsAre(image: seq<byte>, s: RuntimeState)
    requires image != []
    ensures Attempts(image, s, 0) ==
              (if s.timeouts > 0 then RunEvents(image, s) + [Progress(0.20, Retry)] else [])
              + RunEvents(image, FinalState(s)) + Ending(FinalState(s))
  {
    hide RunEvents, Drive, Plan;
    RunOutcome(image, s);
    AttemptsStep(image, s, 0);
    if s.timeouts > 0 {
      RunOutcome(image, FinalState(s));
      AttemptsStep(image, FinalState(s), 1);
    }
  }

  /** The engine runs twice after a first timeout and once otherwise, never more often. */
  lemma RunsAtMostTwice(image: seq<byte>, s: RuntimeState)
    requires image != []
    ensures Count(Attempts(image, s, 0), Starts) == if s.timeouts > 0 then 2 else 1
  {
    hide Attempts, RunEvents, Count;
    AttemptsAre(image, s);
    RunStartsOnce(image, s);
    RunStartsOnce(image, FinalState(s));
    var retry, ending := [Progress(0.20, Retry)], Ending(FinalState(s));
    CountNone(retry, Starts);
    CountNone(ending, Starts);
    CountNone([], Starts);
    var first := if s.timeouts > 0 then RunEvents(image, s) + retry else [];
    CountConcat(RunEvents(image, s), retry, Starts);
    CountConcat(first, RunEvents(image, FinalState(s)), Starts);
    CountConcat(first + RunEvents(image, FinalState(s)), ending, Starts);
  }

  lemma RunStartsOnce(image: seq<byte>, s: RuntimeState)
    requires image != []
    ensures Count(RunEvents(image, s), Starts) == 1
  {
    hide RunEvents, Count;
    RunReport(image, s);
    var events := RunEvents(image, s);
    assert events == [events[0]] + events[1..];
    CountConcat([events[0]], events[1..], Starts);
    CountNone(events[1..], Starts);
    CountOne(events[0], Starts);
  }

  lemma CountOne(x: Progress, p: Progress -> bool)
    requires p(x)
    ensures Count([x], p) == 1
  {
  }

  /**
   The update succeeds iff at most one timeout is pending and nothing else is wrong. The last item is
   at 1.0, and its text is empty iff the final run passed its verification; an empty text appears
   nowhere in the stream of a failed update.
   */
  lemma SucceedsIff(image: seq<byte>, s: RuntimeState)
    requires image != []
    ensures var stream := Attempts(image, s, 0);
            && stream != [] && LastOf(stream).progress == 1.0
            && (LastOf(stream).err == Empty <==> s.timeouts <= 1 && Clean(s))
            && (LastOf(stream).err == Empty <==> Drive(Bridge, FinalState(s), Plan(image)).2.None?)
            && (LastOf(stream).err != Empty ==> forall i :: 0 <= i < |stream| ==> stream[i].err != Empty)
            && (LastOf(stream).err != Empty ==> LastOf(stream).err == Fault(FailureOf(FinalState(s)).value))
  {
    hide Attempts, RunEvents, Drive, Plan;
    AttemptsAre(image, s);
    RunReport(image, s);
    RunReport(image, FinalState(s));
    RunOutcome(image, FinalState(s));
    var stream := Attempts(image, s, 0);
    if LastOf(stream).err != Empty {
      forall i | 0 <= i < |stream| ensures stream[i].err != Empty {
        var final := RunEvents(image, FinalState(s));
        var first := if s.timeouts > 0 then RunEvents(image, s) + [Progress(0.20, Retry)] else [];
        assert stream == first + final + Ending(FinalState(s));
      }
    }
  }

  /** A success ends in the identity queries of the final run, reported at 0.99, and a clean end at 1.0. */
  lemma SuccessEnding(image: seq<byte>, s: RuntimeState)
    requires image != [] && s.timeouts <= 1 && Clean(s)
    ensures var stream := Attempts(image, s, 0);
            var asked := s.queries + if s.supportsGetRev then [GetUsbVersion, GetRev] else [GetUsbVersion];
            |stream| >= 2 && stream[|stream| - 2..] == [Progress(0.99, PostVerifyQueries(asked)), Progress(1.0, Empty)]
  {
    hide Attempts, RunEvents;
    AttemptsAre(image, s);
    var ending := Ending(FinalState(s));
    var front :| Attempts(image, s, 0) == front + ending;
    assert (front + ending)[|front|..] == ending;
    assert s.queries + [GetUsbVersion] + [GetRev] == s.queries + [GetUsbVersion, GetRev];
    assert s.queries + [GetUsbVersion] + [] == s.queries + [GetUsbVersion];
    assert Attempts(image, s, 0)[|Attempts(image, s, 0)| - 2..] == ending;
  }

  /** The item of a run that reports an event of the engine shows its progress, and its phase unless it is the end. */
  lemma EventsShown(image: seq<byte>, s: RuntimeState, i: nat)
    requires i < |RunEvents(image, s)|
    ensures i < |PlannedEvents(image)|
    ensures var item, event := RunEvents(image, s)[i], PlannedEvents(image)[i];
            && item.progress == event.progress
            && item.err == match event.phase case Complete => Empty case _ => PhaseIs(event.phase)
  {
    hide Plan, PlannedEvents;
  }

  ghost predicate NeverDecreases(stream: seq<Progress>) {
    forall i, j :: 0 <= i <= j < |stream| ==> stream[i].progress <= stream[j].progress
  }

  /** Unlike a single run, the stream goes back: on a retry, and from the engine's 1.0 to the 0.99 of a success. */
  lemma StreamNeverDecreasesIff(image: seq<byte>, s: RuntimeState)
    requires image != []
    ensures NeverDecreases([Progress(0.05, PreflightOk)] + Attempts(image, s, 0)) <==> s.timeouts == 0 && !Clean(s)
  {
    hide Attempts, RunEvents;
    AttemptsAre(image, s);
    RunReport(image, s);
    RunReport(image, FinalState(s));
    var stream := [Progress(0.05, PreflightOk)] + Attempts(image, s, 0);
    var n := |RunEvents(image, s)|;
    if s.timeouts > 0 {
      assert stream[n + 1] == Progress(0.20, Retry) && stream[n + 2] == RunEvents(image, FinalState(s))[0];
    } else if Clean(s) {
      assert stream[n] == RunEvents(image, s)[n - 1] && stream[n + 1].progress == 0.99;
    } else {
      forall i, j | 0 <= i <= j < |stream| ensures stream[i].progress <= stream[j].progress {
        assert stream == [Progress(0.05, PreflightOk)] + RunEvents(image, s) + Ending(s);
      }
    }
  }

  /** Which requests succeed: those past preflight whose payload starts with none of the failure markers. */
  lemma StreamSucceedsIff(payload: seq<byte>, staged: bool, allowed: bool)
    ensures var stream := Stream(payload, staged, allowed);
            && stream != []
            && (if payload == [] || !staged || !allowed then stream == [Progress(0.0, stream[0].err)]
                else stream[0] == Progress(0.05, PreflightOk))
            && (LastOf(stream).err == Empty <==>
                  payload != [] && staged && allowed &&
                  forall text :: text in {"BOOT_TIMEOUT_FAIL", "INTEGRITY_FAIL", "INCOMPLETE_TRANSFER",
                                          "POST_VERIFY_FAIL"} ==>
                    !StartsWith(payload, text))
  {
    hide Attempts, StartsWith;
    if payload != [] {
      SucceedsIff(payload, FromPayload(payload));
    }
  }

  /** How a request that is not refused ends, by the text its payload starts with. */
  lemma PayloadDecides(payload: seq<byte>)
    requires payload != []
    ensures var end := LastOf(Stream(payload, true, true)).err;
            && (StartsWith(payload, "BOOT_TIMEOUT_FAIL") ==> end == Fault(BootloaderTimeout))
            && (StartsWith(payload, "INTEGRITY_FAIL") ==> end == Fault(IntegrityMismatch))
            && (StartsWith(payload, "INCOMPLETE_TRANSFER") ==> end == Fault(IncompleteTransfer))
            && (StartsWith(payload, "POST_VERIFY_FAIL") ==> end == Fault(PostVerifyFailed))
  {
    TextsDiffer(payload);
    hide Attempts, StartsWith;
    SucceedsIff(payload, FromPayload(payload));
  }

  lemma TextsDiffer(payload: seq<byte>)
    ensures StartsWith(payload, "BOOT_TIMEOUT_FAIL") ==> payload[0] == 66
    ensures StartsWith(payload, "INTEGRITY_FAIL") ==> payload[0] == 73 && payload[2] == 84
    ensures StartsWith(payload, "INCOMPLETE_TRANSFER") ==> payload[0] == 73 && payload[2] == 67
    ensures StartsWith(payload, "POST_VERIFY_FAIL") ==> payload[0] == 80
  {
  }
}
