/** Bounds, provenance and error classes of the query protocol, against every device. */
module FlowProofs {
  import opened Bytes
  import opened Checksum
  import opened FlowSpec

  // ---- Recognising answers ----

  /** The unique shift, read off without a search order. */
  ghost predicate EchoedAt(cmd: byte, response: Frame, k: nat) {
    k <= 8 && response[k] == cmd && AllZero(response[..k])
  }

  lemma {:induction false} ShiftFromFindsLeast(cmd: byte, response: Frame, k: nat)
    ensures match ShiftFrom(cmd, response, k)
            case Some(n) => EchoedAt(cmd, response, n) && forall m :: k <= m < n ==> !EchoedAt(cmd, response, m)
            case None => forall m :: k <= m ==> !EchoedAt(cmd, response, m)
    decreases 9 - k
  {
    if k <= 8 && !EchoedAt(cmd, response, k) {
      ShiftFromFindsLeast(cmd, response, k + 1);
    }
  }

  /** An answer is accepted iff the command byte follows 0 to 8 zeros; it is returned with them moved to its end. */
  lemma NormalizeMeaning(cmd: byte, response: Frame)
    ensures Normalize(cmd, response).Some? <==> exists k :: EchoedAt(cmd, response, k)
    ensures Normalize(cmd, response).Some? ==>
              exists k :: EchoedAt(cmd, response, k) && Normalize(cmd, response) == Some(Strip(response, k))
    ensures Normalize(cmd, response).Some? ==> Normalize(cmd, response).value[0] == cmd
  {
    ShiftFromFindsLeast(cmd, response, 0);
  }

  /** Shifting an echoed frame right by up to 8 zeros loses only the bytes pushed off its end. */
  lemma NormalizeRecoversShifted(cmd: byte, frame: Frame, k: nat)
    requires cmd != 0 && frame[0] == cmd && k <= 8
    ensures Normalize(cmd, Zeros(k) + frame[..64 - k]) == Some(frame[..64 - k] + Zeros(k))
  {
  }

  // ---- Progress of a run ----

  /** Transfer `i` carries the frame its role calls for, and a primary read waits for its write to settle. */
  ghost predicate RightTransfer(log: seq<Transfer>, i: nat, own: Frame)
    requires i < |log|
  {
    match log[i]
    case SetReport(role, frame, _, start, end) =>
      start <= end &&
      (match role
       case Direct => frame == own
       case Forward => frame == own
       case Status => frame == StatusFrame()
       case Flush => frame == FlushFrame()
       case Prepare => frame == PrepareFrame()
       case Followup => false
       case Plain => false)
    case GetReport(role, _, start, end) =>
      start <= end && role != Forward &&
      (role == Direct ==>
        && i > 0 && log[i - 1].SetReport? && log[i - 1].role == Direct && log[i - 1].failure.None?
        && start >= log[i - 1].end + DEFAULT_DELAY_MS * NANOS_PER_MS)
  }

  /**
   `w'` continues `w`: the log only grows, by transfers with roles in `roles` that carry the right
   frames, follow one another and fall between the two clock values.
   */
  ghost predicate Progress(w: World, w': World, own: Frame, roles: set<Role>) {
    && |w.log| <= |w'.log| && w'.log[..|w.log|] == w.log && w.now <= w'.now
    && (forall i :: |w.log| <= i < |w'.log| ==>
          && w'.log[i].role in roles && RightTransfer(w'.log, i, own)
          && w.now <= w'.log[i].start && w'.log[i].end <= w'.now)
    && (forall i, j :: |w.log| <= i < j < |w'.log| ==> w'.log[i].end <= w'.log[j].start)
  }

  // ---- Counting transfers ----

  function Writes(log: seq<Transfer>): nat {
    if log == [] then 0 else Writes(log[..|log| - 1]) + if log[|log| - 1].SetReport? then 1 else 0
  }

  function Reads(log: seq<Transfer>): nat {
    if log == [] then 0 else Reads(log[..|log| - 1]) + if log[|log| - 1].GetReport? then 1 else 0
  }

  /** Writes of the caller's own frame. */
  function OwnWrites(log: seq<Transfer>): nat {
    if log == [] then 0
    else OwnWrites(log[..|log| - 1]) +
         var t := log[|log| - 1]; if t.SetReport? && (t.role == Direct || t.role == Forward) then 1 else 0
  }

  datatype Cost = Cost(sets: nat, gets: nat, own: nat)

  function Plus(a: Cost, b: Cost): Cost {
    Cost(a.sets + b.sets, a.gets + b.gets, a.own + b.own)
  }

  function Times(n: nat, a: Cost): (c: Cost)
    ensures c == Cost(n * a.sets, n * a.gets, n * a.own)
  {
    if n == 0 then Cost(0, 0, 0) else Plus(a, Times(n - 1, a))
  }

  ghost predicate Spends(w: World, w': World, cost: Cost) {
    && Writes(w'.log) <= Writes(w.log) + cost.sets
    && Reads(w'.log) <= Reads(w.log) + cost.gets
    && OwnWrites(w'.log) <= OwnWrites(w.log) + cost.own
  }

  /** A stretch of the protocol: right transfers only, with roles in `roles`, at most `cost` of them. */
  ghost predicate Stretch(w: World, w': World, own: Frame, roles: set<Role>, cost: Cost) {
    Progress(w, w', own, roles) && Spends(w, w', cost)
  }

  lemma Chain(w: World, w1: World, w2: World, own: Frame, roles: set<Role>, a: Cost, b: Cost)
    requires Stretch(w, w1, own, roles, a) && Stretch(w1, w2, own, roles, b)
    ensures Stretch(w, w2, own, roles, Plus(a, b))
  {
    hide Writes, Reads, OwnWrites, RightTransfer;
    forall i | 0 <= i < |w1.log| ensures w2.log[i] == w1.log[i] {
      assert w2.log[..|w1.log|][i] == w1.log[i];
    }
    forall i | |w.log| <= i < |w1.log| ensures RightTransfer(w2.log, i, own) {
      assert RightTransfer(w1.log, i, own);
      SamePrefix(w1.log, w2.log, i, own);
    }
    assert w2.log[..|w.log|] == w1.log[..|w.log|];
  }

  lemma SamePrefix(log: seq<Transfer>, log': seq<Transfer>, i: nat, own: Frame)
    requires i < |log| <= |log'| && log'[..|log|] == log && RightTransfer(log, i, own)
    ensures RightTransfer(log', i, own)
  {
  }

  lemma Widen(w: World, w': World, own: Frame, roles: set<Role>, cost: Cost, more: set<Role>, cost': Cost)
    requires Stretch(w, w', own, roles, cost) && roles <= more
    requires cost.sets <= cost'.sets && cost.gets <= cost'.gets && cost.own <= cost'.own
    ensures Stretch(w, w', own, more, cost')
  {
  }

  const FREE := Cost(0, 0, 0)
  const ONE_GET := Cost(0, 1, 0)
  const POLL_ROLES := {Status, Flush}

  lemma Waiting(w: World, w': World, own: Frame, roles: set<Role>)
    requires w'.log == w.log && w.now <= w'.now
    ensures Stretch(w, w', own, roles, FREE)
  {
  }

  /** One write of the caller's own frame, and one of another frame. */
  const OWN_SET := Cost(1, 0, 1)
  const ONE_SET := Cost(1, 0, 0)

  lemma Writing(dev: Device, w: World, role: Role, frame: Frame, own: Frame, roles: set<Role>)
    requires role in roles && role !in {Followup, Plain}
    requires frame ==
               match role
               case Status => StatusFrame()
               case Flush => FlushFrame()
               case Prepare => PrepareFrame()
               case _ => own
    ensures var cost := if role == Direct || role == Forward then OWN_SET else ONE_SET;
            Stretch(w, Write(dev, w, role, frame).0, own, roles, cost)
  {
  }

  lemma Reading(dev: Device, w: World, role: Role, own: Frame, roles: set<Role>)
    requires role in roles && role !in {Forward, Direct}
    ensures Stretch(w, Read(dev, w, role).0, own, roles, ONE_GET)
  {
  }

  /** After a stretch: a pause and a read that is not the primary one. */
  lemma WaitAndRead(dev: Device, w: World, w1: World, ms: nat, role: Role, own: Frame, roles: set<Role>, cost: Cost)
    requires Stretch(w, w1, own, roles, cost) && role in roles && role !in {Forward, Direct}
    ensures Stretch(w, Read(dev, Sleep(dev, w1, ms), role).0, own, roles, Plus(cost, ONE_GET))
  {
    hide Stretch;
    var w2 := Sleep(dev, w1, ms);
    Pausing(dev, w, w1, ms, own, roles, cost);
    Reading(dev, w2, role, own, roles);
    Chain(w, w2, Read(dev, w2, role).0, own, roles, cost, ONE_GET);
  }

  lemma Pausing(dev: Device, w: World, w1: World, ms: nat, own: Frame, roles: set<Role>, cost: Cost)
    requires Stretch(w, w1, own, roles, cost)
    ensures Stretch(w, Sleep(dev, w1, ms), own, roles, cost)
  {
  }

  // ---- Provenance ----

  /** The accepted frame is the last thing the device said, with its leading zeros moved to the end. */
  ghost predicate LastRead(w: World, cmd: byte, frame: Frame) {
    && w.log != []
    && var t := w.log[|w.log| - 1];
       t.GetReport? && t.answer.Data? && Normalize(cmd, t.answer.frame) == Some(frame)
  }

  /** Transfer `i` delivered the caller's own frame. */
  ghost predicate OwnWriteAt(log: seq<Transfer>, i: nat, own: Frame)
    requires i < |log|
  {
    && log[i].SetReport? && (log[i].role == Direct || log[i].role == Forward)
    && log[i].frame == own && log[i].failure.None?
  }

  /** Between `w` and the last transfer of `w'` the caller's own frame was delivered. */
  ghost predicate OwnWritten(w: World, w': World, own: Frame) {
    exists i :: |w.log| <= i < |w'.log| - 1 && OwnWriteAt(w'.log, i, own)
  }

  lemma OwnFirst(dev: Device, w: World, role: Role, own: Frame, w': World)
    requires (role == Direct || role == Forward) && Write(dev, w, role, own).1.None?
    requires var w1 := Write(dev, w, role, own).0; |w1.log| <= |w'.log| && w'.log[..|w1.log|] == w1.log
    requires w'.log != [] && w'.log[|w'.log| - 1].GetReport?
    ensures OwnWritten(w, w', own)
  {
    var w1 := Write(dev, w, role, own).0;
    assert w'.log[|w.log|] == w'.log[..|w1.log|][|w.log|];
    assert OwnWriteAt(w'.log, |w.log|, own);
  }

  lemma OwnKept(w: World, w1: World, w2: World, own: Frame)
    requires |w.log| <= |w1.log| && OwnWritten(w1, w2, own)
    ensures OwnWritten(w, w2, own)
  {
  }

  lemma ReadIsLast(w: World, cmd: byte, frame: Frame)
    requires LastRead(w, cmd, frame)
    ensures w.log != [] && w.log[|w.log| - 1].GetReport?
  {
  }

  // ---- Polling ----

  lemma ReadCachedStretch(dev: Device, w: World, cmd: byte, own: Frame, roles: set<Role>)
    requires Flush in roles
    ensures var (w', found) := ReadCached(dev, w, cmd);
            && Stretch(w, w', own, roles, Cost(1, 1, 0))
            && (found.Some? ==> LastRead(w', cmd, found.value))
  {
    hide Normalize, FlushFrame, Stretch, StatusFrame, PrepareFrame;
    var (w1, failure) := Write(dev, w, Flush, FlushFrame());
    Writing(dev, w, Flush, FlushFrame(), own, roles);
    if failure.Some? {
      Widen(w, w1, own, roles, ONE_SET, roles, Cost(1, 1, 0));
    } else {
      WaitAndRead(dev, w, w1, 8, Flush, own, roles, ONE_SET);
    }
  }

  /** The status exchange of a poll, alone and with the pause behind it. */
  lemma StatusStretch(dev: Device, w: World, own: Frame, roles: set<Role>)
    requires Status in roles
    ensures var w1 := Write(dev, w, Status, StatusFrame()).0;
            var w2 := Read(dev, Sleep(dev, w1, 20), Status).0;
            && Stretch(w, w1, own, roles, Cost(2, 2, 0)) && Stretch(w, w2, own, roles, Cost(1, 1, 0))
            && Stretch(w, w2, own, roles, Cost(2, 2, 0)) && Stretch(w, Sleep(dev, w2, 20), own, roles, Cost(2, 2, 0))
  {
    hide Stretch, StatusFrame, Write, Read, Sleep, FlushFrame, PrepareFrame;
    var w1 := Write(dev, w, Status, StatusFrame()).0;
    var w2 := Read(dev, Sleep(dev, w1, 20), Status).0;
    Writing(dev, w, Status, StatusFrame(), own, roles);
    Widen(w, w1, own, roles, ONE_SET, roles, Cost(2, 2, 0));
    WaitAndRead(dev, w, w1, 20, Status, own, roles, ONE_SET);
    Pausing(dev, w, w2, 20, own, roles, Cost(1, 1, 0));
    Widen(w, w2, own, roles, Cost(1, 1, 0), roles, Cost(2, 2, 0));
    Widen(w, Sleep(dev, w2, 20), own, roles, Cost(1, 1, 0), roles, Cost(2, 2, 0));
  }

  lemma PollOnceStretch(dev: Device, w: World, cmd: byte, own: Frame, roles: set<Role>)
    requires Status in roles && Flush in roles
    ensures var (w', round) := PollOnce(dev, w, cmd);
            && Stretch(w, w', own, roles, Cost(2, 2, 0))
            && (round.Done? ==> LastRead(w', cmd, round.value))
  {
    hide Stretch, HasResponse, StatusFrame, LastRead, Write, Read, Sleep, ReadCached, FlushFrame, PrepareFrame;
    hide Normalize;
    StatusStretch(dev, w, own, roles);
    var w1 := Write(dev, w, Status, StatusFrame()).0;
    var w2 := Read(dev, Sleep(dev, w1, 20), Status).0;
    var w3 := ReadCached(dev, w2, cmd).0;
    ReadCachedStretch(dev, w2, cmd, own, roles);
    assert Stretch(w, w3, own, roles, Cost(2, 2, 0)) by {
      Chain(w, w2, w3, own, roles, Cost(1, 1, 0), Cost(1, 1, 0));
    }
  }

  lemma {:induction false} PollCycleStretch(dev: Device, w: World, cmd: byte, n: nat, own: Frame, roles: set<Role>)
    requires POLL_ROLES <= roles
    ensures var (w', found) := PollCycle(dev, w, cmd, n);
            && Stretch(w, w', own, roles, Cost(2 * n, 2 * n, 0))
            && (found.Some? ==> LastRead(w', cmd, found.value))
    decreases n
  {
    hide Stretch, LastRead, PollOnce, StatusFrame, FlushFrame, PrepareFrame;
    if n == 0 {
      Waiting(w, w, own, roles);
    } else {
      var (w1, round) := PollOnce(dev, w, cmd);
      PollOnceStretch(dev, w, cmd, own, roles);
      Widen(w, w1, own, roles, Cost(2, 2, 0), roles, Cost(2 * n, 2 * n, 0));
      if round.Again? {
        PollCycleStretch(dev, w1, cmd, n - 1, own, roles);
        Chain(w, w1, PollCycle(dev, w1, cmd, n - 1).0, own, roles, Cost(2, 2, 0), Cost(2 * (n - 1), 2 * (n - 1), 0));
      }
    }
  }

  lemma ExpiredStretch(dev: Device, w: World, w1: World, opts: Options, started: nat, own: Frame, roles: set<Role>,
                       cost: Cost)
    requires Stretch(w, w1, own, roles, cost)
    ensures Stretch(w, Expired(dev, w1, opts.budget, started).0, own, roles, cost)
    ensures Expired(dev, w1, opts.budget, started).0.log == w1.log
  {
  }

  /** The cost of one round of polling after a forwarded send. */
  function RoundCost(opts: Options): Cost {
    Cost(2 * opts.statusPolls, 2 * opts.statusPolls, 0)
  }

  lemma PollRoundStretch(dev: Device, w: World, cmd: byte, opts: Options, started: nat, own: Frame, roles: set<Role>)
    requires POLL_ROLES <= roles
    ensures var (w', round) := PollRound(dev, w, cmd, opts, started);
            && Stretch(w, w', own, roles, RoundCost(opts))
            && (round.Done? ==> LastRead(w', cmd, round.value))
  {
    hide Stretch, LastRead, PollCycle, Sleep, Expired, StatusFrame, FlushFrame, PrepareFrame;
    var w1 := PollCycle(dev, w, cmd, opts.statusPolls).0;
    PollCycleStretch(dev, w, cmd, opts.statusPolls, own, roles);
    Pausing(dev, w, w1, 20, own, roles, RoundCost(opts));
    ExpiredStretch(dev, w, Sleep(dev, w1, 20), opts, started, own, roles, RoundCost(opts));
  }

  lemma {:induction false} PollRoundsStretch(dev: Device, w: World, cmd: byte, opts: Options, rounds: nat,
                                             started: nat, own: Frame, roles: set<Role>)
    requires POLL_ROLES <= roles
    ensures var (w', found) := PollRounds(dev, w, cmd, opts, rounds, started);
            && Stretch(w, w', own, roles, Times(rounds, RoundCost(opts)))
            && (found.Some? ==> LastRead(w', cmd, found.value))
    decreases rounds
  {
    hide Stretch, LastRead, PollRound, RoundCost, StatusFrame, FlushFrame, PrepareFrame;
    if rounds == 0 {
      Waiting(w, w, own, roles);
    } else {
      var w1 := PollRound(dev, w, cmd, opts, started).0;
      PollRoundStretch(dev, w, cmd, opts, started, own, roles);
      Widen(w, w1, own, roles, RoundCost(opts), roles, Times(rounds, RoundCost(opts)));
      PollRoundsStretch(dev, w1, cmd, opts, rounds - 1, started, own, roles);
      var w2 := PollRounds(dev, w1, cmd, opts, rounds - 1, started).0;
      Chain(w, w1, w2, own, roles, RoundCost(opts), Times(rounds - 1, RoundCost(opts)));
    }
  }

  // ---- Forwarding ----

  const FORWARD_ROLES := {Prepare, Forward, Status, Flush}

  function SendCost(opts: Options): Cost {
    Plus(OWN_SET, Times(Max(opts.forwardPolls, 1), RoundCost(opts)))
  }

  /** The last transfer is a forwarding send that failed with `error`. */
  ghost predicate ForwardFailed(w: World, error: TransportError) {
    && w.log != []
    && var t := w.log[|w.log| - 1];
       t.SetReport? && t.role == Forward && t.failure.Some? && error == Usb(t.failure.value)
  }

  /** A forwarding path that ended in `w'`: with an answer to the frame it delivered, or with a failed send. */
  ghost predicate Forwarded(w: World, w': World, cmd: byte, own: Frame, result: Result<Frame>) {
    match result
    case Ok(frame) => LastRead(w', cmd, frame) && OwnWritten(w, w', own)
    case Err(error) => ForwardFailed(w', error)
  }

  lemma ForwardedKept(w: World, w1: World, w2: World, cmd: byte, own: Frame, result: Result<Frame>)
    requires |w.log| <= |w1.log| && Forwarded(w1, w2, cmd, own, result)
    ensures Forwarded(w, w2, cmd, own, result)
  {
    hide LastRead, OwnWriteAt;
    if result.Ok? {
      OwnKept(w, w1, w2, own);
    }
  }

  lemma ForwardOnceStretch(dev: Device, w: World, cmd: byte, own: Frame, opts: Options, started: nat)
    ensures var (w', round) := ForwardOnce(dev, w, cmd, own, opts, started);
            && Stretch(w, w', own, FORWARD_ROLES, SendCost(opts))
            && (round.Done? ==> Forwarded(w, w', cmd, own, round.value))
  {
    hide Stretch, LastRead, PollRounds, Sleep, Write, ForwardFailed, Expired, Times, RoundCost, Read, Max, OwnWritten;
    hide StatusFrame, FlushFrame, PrepareFrame;
    var polls := Max(opts.forwardPolls, 1);
    var w1 := Expired(dev, w, opts.budget, started).0;
    var w2 := Write(dev, w1, Forward, own).0;
    var w3 := Sleep(dev, w2, 30);
    assert Stretch(w, w1, own, FORWARD_ROLES, FREE) && Stretch(w, w1, own, FORWARD_ROLES, SendCost(opts)) by {
      Waiting(w, w, own, FORWARD_ROLES);
      ExpiredStretch(dev, w, w, opts, started, own, FORWARD_ROLES, FREE);
      Widen(w, w1, own, FORWARD_ROLES, FREE, FORWARD_ROLES, SendCost(opts));
    }
    assert Stretch(w, w2, own, FORWARD_ROLES, OWN_SET) by {
      Writing(dev, w1, Forward, own, own, FORWARD_ROLES);
      Chain(w, w1, w2, own, FORWARD_ROLES, FREE, OWN_SET);
    }
    assert Stretch(w, w2, own, FORWARD_ROLES, SendCost(opts)) by {
      Widen(w, w2, own, FORWARD_ROLES, OWN_SET, FORWARD_ROLES, SendCost(opts));
    }
    assert Stretch(w, w3, own, FORWARD_ROLES, OWN_SET) by {
      Pausing(dev, w, w2, 30, own, FORWARD_ROLES, OWN_SET);
    }
    var (w4, found) := PollRounds(dev, w3, cmd, opts, polls, started);
    PollRoundsStretch(dev, w3, cmd, opts, polls, started, own, FORWARD_ROLES);
    Chain(w, w3, w4, own, FORWARD_ROLES, OWN_SET, Times(polls, RoundCost(opts)));
    FailedSendIsLast(dev, w1, own);
    if Write(dev, w1, Forward, own).1.None? && found.Some? {
      assert w1.log == w.log by {
        Waiting(w, w, own, FORWARD_ROLES);
        ExpiredStretch(dev, w, w, opts, started, own, FORWARD_ROLES, FREE);
      }
      ForwardedAnswer(dev, w, w1, cmd, own, opts, w4, found.value, Times(polls, RoundCost(opts)));
    }
  }

  lemma ForwardedAnswer(dev: Device, w: World, w1: World, cmd: byte, own: Frame, opts: Options, w4: World,
                        frame: Frame, cost: Cost)
    requires w1.log == w.log && Write(dev, w1, Forward, own).1.None? && LastRead(w4, cmd, frame)
    requires Stretch(Sleep(dev, Write(dev, w1, Forward, own).0, 30), w4, own, FORWARD_ROLES, cost)
    ensures OwnWritten(w, w4, own)
  {
    hide Stretch, LastRead, OwnWritten, Write;
    var w2 := Write(dev, w1, Forward, own).0;
    Grows(Sleep(dev, w2, 30), w4, own, FORWARD_ROLES, cost);
    ReadIsLast(w4, cmd, frame);
    OwnFirst(dev, w1, Forward, own, w4);
    OwnKept(w, w1, w4, own);
  }

  lemma FailedSendIsLast(dev: Device, w: World, own: Frame)
    ensures var (w', failure) := Write(dev, w, Forward, own);
            failure.Some? ==> ForwardFailed(w', Usb(failure.value))
  {
  }

  lemma {:induction false} ForwardSendsStretch(dev: Device, w: World, cmd: byte, own: Frame, opts: Options,
                                               sends: nat, started: nat)
    ensures var (w', result) := ForwardSends(dev, w, cmd, own, opts, sends, started);
            && Stretch(w, w', own, FORWARD_ROLES, Times(sends, SendCost(opts)))
            && (result.Some? ==> Forwarded(w, w', cmd, own, result.value))
    decreases sends
  {
    hide Stretch, Forwarded, ForwardOnce, SendCost, StatusFrame, FlushFrame, PrepareFrame;
    if sends == 0 {
      Waiting(w, w, own, FORWARD_ROLES);
    } else {
      var w1 := ForwardOnce(dev, w, cmd, own, opts, started).0;
      ForwardOnceStretch(dev, w, cmd, own, opts, started);
      Grows(w, w1, own, FORWARD_ROLES, SendCost(opts));
      Widen(w, w1, own, FORWARD_ROLES, SendCost(opts), FORWARD_ROLES, Times(sends, SendCost(opts)));
      ForwardSendsStretch(dev, w1, cmd, own, opts, sends - 1, started);
      var (w2, result) := ForwardSends(dev, w1, cmd, own, opts, sends - 1, started);
      Chain(w, w1, w2, own, FORWARD_ROLES, SendCost(opts), Times(sends - 1, SendCost(opts)));
      if result.Some? {
        ForwardedKept(w, w1, w2, cmd, own, result.value);
      }
    }
  }

  predicate SkipsForwarding(opts: Options) {
    opts.forwardSends == 0 && opts.budget.None?
  }

  function ForwardCost(opts: Options): Cost {
    if SkipsForwarding(opts) then FREE else Plus(Cost(1, 1, 0), Times(Max(opts.forwardSends, 1), SendCost(opts)))
  }

  lemma ForwardPathStretch(dev: Device, w: World, cmd: byte, own: Frame, opts: Options)
    ensures var (w', result) := ForwardPath(dev, w, cmd, own, opts);
            && Stretch(w, w', own, FORWARD_ROLES, ForwardCost(opts))
            && (result.Some? ==> Forwarded(w, w', cmd, own, result.value))
  {
    hide Stretch, Forwarded, ForwardSends, SendCost, Times, Write, Read, Sleep, PrepareFrame, StatusFrame, FlushFrame;
    if SkipsForwarding(opts) {
      Waiting(w, w, own, FORWARD_ROLES);
    } else {
      var w1, sends := ReadClock(dev, PrepareForwarding(dev, w)), Max(opts.forwardSends, 1);
      PrepareStretch(dev, w, own);
      Grows(w, w1, own, FORWARD_ROLES, Cost(1, 1, 0));
      ForwardSendsStretch(dev, w1, cmd, own, opts, sends, w1.now);
      var (w2, result) := ForwardSends(dev, w1, cmd, own, opts, sends, w1.now);
      Chain(w, w1, w2, own, FORWARD_ROLES, Cost(1, 1, 0), Times(sends, SendCost(opts)));
      if result.Some? {
        ForwardedKept(w, w1, w2, cmd, own, result.value);
      }
    }
  }

  lemma PrepareStretch(dev: Device, w: World, own: Frame)
    ensures Stretch(w, ReadClock(dev, PrepareForwarding(dev, w)), own, FORWARD_ROLES, Cost(1, 1, 0))
  {
    hide Stretch, Write, Read, Sleep, PrepareFrame, StatusFrame, FlushFrame;
    var p1 := Write(dev, w, Prepare, PrepareFrame()).0;
    var p2 := PrepareForwarding(dev, w);
    assert Stretch(w, p2, own, FORWARD_ROLES, Cost(1, 1, 0)) by {
      Writing(dev, w, Prepare, PrepareFrame(), own, FORWARD_ROLES);
      WaitAndRead(dev, w, p1, 2, Prepare, own, FORWARD_ROLES, ONE_SET);
      Widen(w, p1, own, FORWARD_ROLES, ONE_SET, FORWARD_ROLES, Cost(1, 1, 0));
    }
    Waiting(p2, ReadClock(dev, p2), own, FORWARD_ROLES);
    Chain(w, p2, ReadClock(dev, p2), own, FORWARD_ROLES, Cost(1, 1, 0), FREE);
  }

  // ---- The direct loop ----

  /** The error of a primary transfer that failed. */
  function PrimaryFailure(t: Transfer): Option<string> {
    if t.role != Direct then None
    else if t.SetReport? then t.failure
    else if t.answer.Failure? then Some(t.answer.message) else None
  }

  /** The latest primary failure at or after index `from`. */
  function LastPrimaryFailure(log: seq<Transfer>, from: nat): Option<string> {
    if |log| <= from then None
    else
      var latest := PrimaryFailure(log[|log| - 1]);
      if latest.Some? then latest else LastPrimaryFailure(log[..|log| - 1], from)
  }

  lemma {:induction false} SplitFailure(log: seq<Transfer>, log': seq<Transfer>, from: nat)
    requires from <= |log| <= |log'| && log'[..|log|] == log
    ensures var late := LastPrimaryFailure(log', |log|);
            LastPrimaryFailure(log', from) == if late.Some? then late else LastPrimaryFailure(log, from)
    decreases |log'|
  {
    if |log| < |log'| {
      var init := log'[..|log'| - 1];
      assert init[..|log|] == log;
      SplitFailure(log, init, from);
    } else {
      assert log' == log;
    }
  }

  lemma {:induction false} NoPrimaryNoFailure(log: seq<Transfer>, from: nat)
    requires forall i :: from <= i < |log| ==> log[i].role != Direct
    ensures LastPrimaryFailure(log, from) == None
  {
    if from < |log| {
      NoPrimaryNoFailure(log[..|log| - 1], from);
    }
  }

  /** There is a latest primary failure iff some primary transfer failed. */
  lemma {:induction false} FailureIff(log: seq<Transfer>, from: nat)
    ensures LastPrimaryFailure(log, from).None? <==> forall i :: from <= i < |log| ==> PrimaryFailure(log[i]).None?
  {
    if from < |log| {
      var init := log[..|log| - 1];
      FailureIff(init, from);
      assert forall i :: 0 <= i < |init| ==> init[i] == log[i];
    }
  }

  /** A stretch without primary transfers leaves the latest primary failure as it was. */
  lemma SkipNonPrimary(w: World, w': World, own: Frame, roles: set<Role>, cost: Cost, from: nat)
    requires Stretch(w, w', own, roles, cost) && Direct !in roles && from <= |w.log|
    ensures LastPrimaryFailure(w'.log, from) == LastPrimaryFailure(w.log, from)
  {
    hide RightTransfer, Spends;
    SplitFailure(w.log, w'.log, from);
    NoPrimaryNoFailure(w'.log, |w.log|);
  }

  const FOLLOW_ROLES := {Status, Flush, Followup}

  function DirectRoles(opts: Options): set<Role> {
    if opts.allowFollowups then {Direct} + FOLLOW_ROLES else {Direct}
  }

  /** A placeholder starts with 0 and so answers command 0; only other commands are followed up. */
  predicate FollowsUp(opts: Options, cmd: byte) {
    opts.allowFollowups && cmd != 0
  }

  function AttemptCost(opts: Options, cmd: byte): Cost {
    if FollowsUp(opts, cmd) then Cost(12, 13, 1) else Cost(1, 1, 1)
  }

  lemma NoPlaceholderForZero(response: Frame)
    ensures Normalize(0, response).None? ==> !IsPlaceholder(response)
  {
    assert response[..8][0] == response[0];
  }

  lemma FollowUpStretch(dev: Device, w: World, cmd: byte, response: Frame, opts: Options, own: Frame)
    requires Normalize(cmd, response).None?
    ensures var (w', outcome) := FollowUp(dev, w, cmd, response, opts);
            && Stretch(w, w', own, FOLLOW_ROLES, if FollowsUp(opts, cmd) then Cost(11, 12, 0) else FREE)
            && (outcome.Answered? ==> LastRead(w', cmd, outcome.frame))
            && (outcome.Unrecognised? ==> outcome.actual != cmd) && !outcome.Failed?
            && (!FollowsUp(opts, cmd) ==> w' == w)
  {
    hide Stretch, ReadCached, PollCycle, LastRead, IsPlaceholder, Normalize, Read;
    Unrecognisable(cmd);
    NoPlaceholderForZero(response);
    Waiting(w, w, own, FOLLOW_ROLES);
    Widen(w, w, own, FOLLOW_ROLES, FREE, FOLLOW_ROLES, Cost(11, 12, 0));
    var w1 := ReadCached(dev, w, cmd).0;
    var w2 := PollCycle(dev, w1, cmd, 5).0;
    assert Stretch(w, w1, own, FOLLOW_ROLES, Cost(1, 1, 0)) by {
      ReadCachedStretch(dev, w, cmd, own, FOLLOW_ROLES);
    }
    assert Stretch(w, w2, own, FOLLOW_ROLES, Cost(11, 11, 0)) by {
      PollCycleStretch(dev, w1, cmd, 5, own, FOLLOW_ROLES);
      Chain(w, w1, w2, own, FOLLOW_ROLES, Cost(1, 1, 0), Cost(10, 10, 0));
    }
    ReadCachedStretch(dev, w, cmd, own, FOLLOW_ROLES);
    PollCycleStretch(dev, w1, cmd, 5, own, FOLLOW_ROLES);
    Widen(w, w1, own, FOLLOW_ROLES, Cost(1, 1, 0), FOLLOW_ROLES, Cost(11, 12, 0));
    Widen(w, w2, own, FOLLOW_ROLES, Cost(11, 11, 0), FOLLOW_ROLES, Cost(11, 12, 0));
    FollowupRead(dev, w2, cmd);
    assert Stretch(w, Read(dev, w2, Followup).0, own, FOLLOW_ROLES, Cost(11, 12, 0)) by {
      Reading(dev, w2, Followup, own, FOLLOW_ROLES);
      Chain(w, w2, Read(dev, w2, Followup).0, own, FOLLOW_ROLES, Cost(11, 11, 0), ONE_GET);
    }
  }

  lemma Unrecognisable(cmd: byte)
    ensures forall response: Frame :: Normalize(cmd, response).None? ==> response[0] != cmd
  {
  }

  lemma FollowupRead(dev: Device, w: World, cmd: byte)
    ensures var (w', answer) := Read(dev, w, Followup);
            answer.Data? && Normalize(cmd, answer.frame).Some? ==>
              LastRead(w', cmd, Normalize(cmd, answer.frame).value)
  {
  }

  lemma PrimaryWrite(dev: Device, w: World, own: Frame, roles: set<Role>)
    requires Direct in roles
    ensures var (w1, failure) := Write(dev, w, Direct, own);
            && Stretch(w, w1, own, roles, Cost(1, 0, 1))
            && LastPrimaryFailure(w1.log, |w.log|) == failure
  {
  }

  /** A primary read that comes long enough after a successful primary write. */
  lemma SettledRead(dev: Device, w: World, own: Frame, roles: set<Role>)
    requires Direct in roles && w.log != []
    requires var t := w.log[|w.log| - 1];
             t.SetReport? && t.role == Direct && t.failure.None? && w.now >= t.end + DEFAULT_DELAY_MS * NANOS_PER_MS
    ensures var (w', answer) := Read(dev, w, Direct);
            && Stretch(w, w', own, roles, ONE_GET)
            && LastPrimaryFailure(w'.log, |w.log|) == (if answer.Failure? then Some(answer.message) else None)
            && |w.log| < |w'.log| && w'.log[|w'.log| - 1] == GetReport(Direct, answer, w.now, w'.now)
  {
  }

  /** A successful primary write, the settling pause, and the primary read. */
  lemma PrimaryRead(dev: Device, w: World, own: Frame, roles: set<Role>)
    requires Direct in roles && Write(dev, w, Direct, own).1.None?
    ensures var w1 := Sleep(dev, Write(dev, w, Direct, own).0, DEFAULT_DELAY_MS);
            var (w2, answer) := Read(dev, w1, Direct);
            && Stretch(w, w2, own, roles, Cost(1, 1, 1))
            && LastPrimaryFailure(w2.log, |w.log|) == (if answer.Failure? then Some(answer.message) else None)
            && |w.log| < |w2.log| && w2.log[|w2.log| - 1] == GetReport(Direct, answer, w1.now, w2.now)
  {
    hide Stretch, LastPrimaryFailure;
    var w0 := Write(dev, w, Direct, own).0;
    var w1 := Sleep(dev, w0, DEFAULT_DELAY_MS);
    var w2 := Read(dev, w1, Direct).0;
    PrimaryWrite(dev, w, own, roles);
    Pausing(dev, w, w0, DEFAULT_DELAY_MS, own, roles, Cost(1, 0, 1));
    SettledRead(dev, w1, own, roles);
    Chain(w, w1, w2, own, roles, Cost(1, 0, 1), ONE_GET);
    assert w2.log[..|w1.log|] == w1.log;
    SplitFailure(w1.log, w2.log, |w.log|);
  }

  lemma DirectAttemptStretch(dev: Device, w: World, cmd: byte, own: Frame, opts: Options, attempt: nat)
    ensures var (w', outcome) := DirectAttempt(dev, w, cmd, own, opts, attempt);
            && Stretch(w, w', own, DirectRoles(opts), AttemptCost(opts, cmd))
            && LastPrimaryFailure(w'.log, |w.log|) == (if outcome.Failed? then Some(outcome.message) else None)
            && (outcome.Answered? ==> LastRead(w', cmd, outcome.frame) && OwnWritten(w, w', own))
            && (outcome.Unrecognised? ==> outcome.actual != cmd)
  {
    hide Stretch, LastRead, Normalize, FollowUp, Write, Read, LastPrimaryFailure, OwnWritten;
    var roles, cost := DirectRoles(opts), AttemptCost(opts, cmd);
    var (w1, failure) := Write(dev, w, Direct, own);
    PrimaryWrite(dev, w, own, roles);
    if failure.Some? {
      PauseStretch(dev, w, w1, cmd, opts, attempt, own, roles, Cost(1, 0, 1));
    } else {
      var (w2, answer) := Read(dev, Sleep(dev, w1, DEFAULT_DELAY_MS), Direct);
      PrimaryRead(dev, w, own, roles);
      Widen(w, w2, own, roles, Cost(1, 1, 1), roles, cost);
      match answer
      case Failure(message) => PauseStretch(dev, w, w2, cmd, opts, attempt, own, roles, Cost(1, 1, 1));
      case Data(response) =>
        if Normalize(cmd, response).Some? {
          PrimaryAnswer(w2, cmd, response);
        } else {
          FollowUpAttempt(dev, w, w2, cmd, response, opts, own);
        }
        if DirectAttempt(dev, w, cmd, own, opts, attempt).1.Answered? {
          DirectAnswer(dev, w, cmd, own, opts, attempt);
        }
    }
  }

  /** An answer of a direct attempt comes after the write that opened the attempt. */
  lemma DirectAnswer(dev: Device, w: World, cmd: byte, own: Frame, opts: Options, attempt: nat)
    requires Write(dev, w, Direct, own).1.None? && DirectAttempt(dev, w, cmd, own, opts, attempt).1.Answered?
    requires var (w', outcome) := DirectAttempt(dev, w, cmd, own, opts, attempt); LastRead(w', cmd, outcome.frame)
    ensures OwnWritten(w, DirectAttempt(dev, w, cmd, own, opts, attempt).0, own)
  {
    hide Stretch, LastRead, Normalize, FollowUp, Write, OwnWritten;
    var w1 := Write(dev, w, Direct, own).0;
    var (w2, answer) := Read(dev, Sleep(dev, w1, DEFAULT_DELAY_MS), Direct);
    var (w', outcome) := DirectAttempt(dev, w, cmd, own, opts, attempt);
    assert w2.log[..|w1.log|] == w1.log;
    if Normalize(cmd, answer.frame).None? {
      FollowUpStretch(dev, w2, cmd, answer.frame, opts, own);
      Grows(w2, w', own, FOLLOW_ROLES, if FollowsUp(opts, cmd) then Cost(11, 12, 0) else FREE);
      assert w'.log[..|w1.log|] == w'.log[..|w2.log|][..|w1.log|];
    }
    ReadIsLast(w', cmd, outcome.frame);
    OwnFirst(dev, w, Direct, own, w');
  }

  lemma PrimaryAnswer(w: World, cmd: byte, response: Frame)
    requires w.log != [] && w.log[|w.log| - 1].GetReport? && w.log[|w.log| - 1].answer == Data(response)
    requires Normalize(cmd, response).Some?
    ensures LastRead(w, cmd, Normalize(cmd, response).value)
  {
  }

  lemma PauseStretch(dev: Device, w: World, w1: World, cmd: byte, opts: Options, attempt: nat, own: Frame,
                     roles: set<Role>, cost: Cost)
    requires Stretch(w, w1, own, roles, cost) && cost.sets <= 1 && cost.gets <= 1 && cost.own <= 1
    ensures Stretch(w, Pause(dev, w1, opts, attempt), own, roles, AttemptCost(opts, cmd))
    ensures Pause(dev, w1, opts, attempt).log == w1.log
  {
  }

  lemma FollowUpAttempt(dev: Device, w: World, w2: World, cmd: byte, response: Frame, opts: Options, own: Frame)
    requires Stretch(w, w2, own, DirectRoles(opts), Cost(1, 1, 1)) && Normalize(cmd, response).None?
    requires LastPrimaryFailure(w2.log, |w.log|) == None
    ensures var (w', outcome) := FollowUp(dev, w2, cmd, response, opts);
            && Stretch(w, w', own, DirectRoles(opts), AttemptCost(opts, cmd))
            && LastPrimaryFailure(w'.log, |w.log|) == None && !outcome.Failed?
            && (outcome.Answered? ==> LastRead(w', cmd, outcome.frame))
            && (outcome.Unrecognised? ==> outcome.actual != cmd)
  {
    hide Stretch, LastRead, Normalize, FollowUp, LastPrimaryFailure;
    var w3 := FollowUp(dev, w2, cmd, response, opts).0;
    FollowUpStretch(dev, w2, cmd, response, opts, own);
    assert |w.log| <= |w2.log| by { Grows(w, w2, own, DirectRoles(opts), Cost(1, 1, 1)); }
    if FollowsUp(opts, cmd) {
      SkipNonPrimary(w2, w3, own, FOLLOW_ROLES, Cost(11, 12, 0), |w.log|);
      Widen(w2, w3, own, FOLLOW_ROLES, Cost(11, 12, 0), DirectRoles(opts), Cost(11, 12, 0));
      Chain(w, w2, w3, own, DirectRoles(opts), Cost(1, 1, 1), Cost(11, 12, 0));
    }
  }

  lemma Grows(w: World, w': World, own: Frame, roles: set<Role>, cost: Cost)
    requires Stretch(w, w', own, roles, cost)
    ensures |w.log| <= |w'.log| && w'.log[..|w.log|] == w.log
  {
  }

  /** How the direct loop ends: an answer it just read, or the error its transfers call for. */
  ghost predicate DirectVerdict(w: World, w': World, cmd: byte, own: Frame, retries: nat, earlier: Option<string>,
                                result: Result<Frame>)
    requires |w.log| <= |w'.log|
  {
    var late := LastPrimaryFailure(w'.log, |w.log|);
    match result
    case Ok(frame) => LastRead(w', cmd, frame) && OwnWritten(w, w', own)
    case Err(error) =>
      if late.Some? then error == Usb(late.value)
      else if earlier.Some? then error == Usb(earlier.value)
      else error.EchoMismatch? && error.expected == cmd && error.attempts == retries
  }

  lemma {:induction false} DirectLoopStretch(dev: Device, w: World, cmd: byte, own: Frame, opts: Options, attempt: nat,
                                             lastFailure: Option<string>, lastActual: byte)
    requires attempt <= opts.retries
    ensures var (w', result) := DirectLoop(dev, w, cmd, own, opts, attempt, lastFailure, lastActual);
            && Stretch(w, w', own, DirectRoles(opts), Times(opts.retries - attempt, AttemptCost(opts, cmd)))
            && |w.log| <= |w'.log|
            && DirectVerdict(w, w', cmd, own, opts.retries, lastFailure, result)
            && (result.Err? && result.error.EchoMismatch? && (attempt < opts.retries || lastActual != cmd) ==>
                  result.error.actual != cmd)
    decreases opts.retries - attempt
  {
    hide Stretch, LastRead, OwnWritten, DirectAttempt, DirectRoles, AttemptCost, LastPrimaryFailure;
    var roles, cost := DirectRoles(opts), AttemptCost(opts, cmd);
    if attempt == opts.retries {
      Waiting(w, w, own, roles);
      NoPrimaryNoFailure(w.log, |w.log|);
    } else {
      var (w1, outcome) := DirectAttempt(dev, w, cmd, own, opts, attempt);
      DirectAttemptStretch(dev, w, cmd, own, opts, attempt);
      Grows(w, w1, own, roles, cost);
      Widen(w, w1, own, roles, cost, roles, Times(opts.retries - attempt, cost));
      if !outcome.Answered? {
        var failure := if outcome.Failed? then Some(outcome.message) else lastFailure;
        var actual := if outcome.Failed? then lastActual else outcome.actual;
        var (w2, result) := DirectLoop(dev, w1, cmd, own, opts, attempt + 1, failure, actual);
        DirectLoopStretch(dev, w1, cmd, own, opts, attempt + 1, failure, actual);
        Grows(w1, w2, own, roles, Times(opts.retries - attempt - 1, cost));
        Chain(w, w1, w2, own, roles, cost, Times(opts.retries - attempt - 1, cost));
        SplitFailure(w1.log, w2.log, |w.log|);
        if result.Ok? {
          OwnKept(w, w1, w2, own);
        }
      }
    }
  }

  // ---- The whole query ----

  function QueryRoles(opts: Options, forwarded: bool): set<Role> {
    DirectRoles(opts) + if forwarded then FORWARD_ROLES else {}
  }

  function DirectCost(opts: Options, cmd: byte): Cost {
    Times(opts.retries, AttemptCost(opts, cmd))
  }

  function QueryCost(opts: Options, cmd: byte, forwarded: bool): Cost {
    if !forwarded then DirectCost(opts, cmd)
    else Plus(ForwardCost(opts), if opts.fallback then DirectCost(opts, cmd) else FREE)
  }

  /** The number of attempts that a mismatch reports. */
  function Attempts(opts: Options, forwarded: bool): nat {
    if forwarded && !opts.fallback then opts.forwardSends else opts.retries
  }

  /** Nothing answered `cmd` in `attempts` attempts. */
  predicate Mismatched(cmd: byte, error: TransportError, attempts: nat) {
    error.EchoMismatch? && error.expected == cmd && error.attempts == attempts
  }

  /**
   Every query terminates within its bound, uses only the transfers its options allow, answers only
   with the last thing read, which it read after delivering its own frame, and otherwise fails with
   the error its transfers call for.
   */
  lemma QueryGuarantee(dev: Device, w: World, dongle: bool, cmd: byte, own: Frame, opts: Options)
    ensures var forwarded := Forwards(dongle, cmd, opts);
            var (w', result) := Query(dev, w, dongle, cmd, own, opts);
            var failure := LastPrimaryFailure(w'.log, |w.log|);
            && Stretch(w, w', own, QueryRoles(opts, forwarded), QueryCost(opts, cmd, forwarded))
            && (result.Ok? ==> LastRead(w', cmd, result.value) && result.value[0] == cmd && OwnWritten(w, w', own))
            && (result.Err? ==>
                  if failure.Some? then result.error == Usb(failure.value)
                  else Mismatched(cmd, result.error, Attempts(opts, forwarded))
                       || (forwarded && ForwardFailed(w', result.error)))
  {
    hide Stretch, LastRead, OwnWritten, ForwardPath, DirectLoop, ForwardFailed, DirectCost, ForwardCost;
    hide LastPrimaryFailure, IsDongleLocal, Normalize, Exhausted;
    var forwarded := Forwards(dongle, cmd, opts);
    var roles, full, direct := QueryRoles(opts, forwarded), QueryCost(opts, cmd, forwarded), DirectCost(opts, cmd);
    var (w', result) := Query(dev, w, dongle, cmd, own, opts);
    if !forwarded {
      DirectPart(dev, w, cmd, own, opts);
      Widen(w, w', own, DirectRoles(opts), direct, roles, full);
    } else {
      var (w1, first) := ForwardPath(dev, w, cmd, own, opts);
      ForwardPart(dev, w, cmd, own, opts);
      Widen(w, w1, own, FORWARD_ROLES, ForwardCost(opts), roles, ForwardCost(opts));
      Widen(w, w1, own, roles, ForwardCost(opts), roles, full);
      if first.None? && opts.fallback {
        DirectPart(dev, w1, cmd, own, opts);
        Widen(w1, w', own, DirectRoles(opts), direct, roles, direct);
        Chain(w, w1, w', own, roles, ForwardCost(opts), direct);
        SplitFailure(w1.log, w'.log, |w.log|);
        if result.Ok? {
          OwnKept(w, w1, w', own);
        }
      }
    }
    if result.Ok? {
      EchoFirst(w', cmd, result.value);
    }
  }

  lemma DirectPart(dev: Device, w: World, cmd: byte, own: Frame, opts: Options)
    ensures var (w', result) := DirectLoop(dev, w, cmd, own, opts, 0, None, 0);
            && Stretch(w, w', own, DirectRoles(opts), DirectCost(opts, cmd))
            && |w.log| <= |w'.log| && w'.log[..|w.log|] == w.log
            && DirectVerdict(w, w', cmd, own, opts.retries, None, result)
  {
    hide Stretch, DirectLoop, DirectVerdict, AttemptCost, Times;
    DirectLoopStretch(dev, w, cmd, own, opts, 0, None, 0);
    Grows(w, DirectLoop(dev, w, cmd, own, opts, 0, None, 0).0, own, DirectRoles(opts), DirectCost(opts, cmd));
  }

  lemma ForwardPart(dev: Device, w: World, cmd: byte, own: Frame, opts: Options)
    ensures var (w1, first) := ForwardPath(dev, w, cmd, own, opts);
            && Stretch(w, w1, own, FORWARD_ROLES, ForwardCost(opts))
            && |w.log| <= |w1.log| && w1.log[..|w.log|] == w.log
            && LastPrimaryFailure(w1.log, |w.log|) == None
            && (first.Some? ==> Forwarded(w, w1, cmd, own, first.value))
  {
    hide Stretch, ForwardPath, Forwarded, ForwardCost;
    var w1 := ForwardPath(dev, w, cmd, own, opts).0;
    ForwardPathStretch(dev, w, cmd, own, opts);
    Grows(w, w1, own, FORWARD_ROLES, ForwardCost(opts));
    SkipNonPrimary(w, w1, own, FORWARD_ROLES, ForwardCost(opts), |w.log|);
    NoPrimaryNoFailure(w.log, |w.log|);
  }

  /** An unanswered direct query ends in a mismatch iff none of its primary transfers failed. */
  lemma DirectMismatchIff(dev: Device, w: World, dongle: bool, cmd: byte, own: Frame, opts: Options)
    requires !Forwards(dongle, cmd, opts)
    ensures var (w', result) := Query(dev, w, dongle, cmd, own, opts);
            result.Err? ==>
              (result.error.EchoMismatch? <==> forall i :: |w.log| <= i < |w'.log| ==> PrimaryFailure(w'.log[i]).None?)
  {
    hide Query, Stretch, LastRead, OwnWritten, Forwards, ForwardFailed, LastPrimaryFailure, PrimaryFailure;
    hide QueryCost, QueryRoles;
    QueryGuarantee(dev, w, dongle, cmd, own, opts);
    FailureIff(Query(dev, w, dongle, cmd, own, opts).0.log, |w.log|);
  }

  lemma EchoFirst(w: World, cmd: byte, frame: Frame)
    requires LastRead(w, cmd, frame)
    ensures frame[0] == cmd
  {
  }

  // ---- Raw queries and plain sends ----

  /** None of the transfers from index `from` to before `to` read a frame. */
  ghost predicate NoFrameRead(log: seq<Transfer>, from: nat, to: int)
    requires to <= |log|
  {
    forall i :: from <= i < to ==> !(log[i].GetReport? && log[i].answer.Data?)
  }

  lemma RawRoundReads(dev: Device, w: World, own: Frame)
    ensures var (w1, failure) := Write(dev, w, Direct, own);
            var (w2, answer) := Read(dev, Sleep(dev, w1, DEFAULT_DELAY_MS), Direct);
            && NoFrameRead(w1.log, |w.log|, |w1.log|)
            && NoFrameRead(w2.log, |w.log|, if answer.Data? then |w2.log| - 1 else |w2.log|)
  {
  }

  lemma RawRoundStretch(dev: Device, w: World, own: Frame, attempt: nat)
    ensures var (w1, failure) := Write(dev, w, Direct, own);
            var (w2, answer) := Read(dev, Sleep(dev, w1, DEFAULT_DELAY_MS), Direct);
            var (w3, why) := if failure.Some? then (Pause(dev, w1, Regular(), attempt), failure)
                             else if answer.Failure? then (Pause(dev, w2, Regular(), attempt), Some(answer.message))
                             else (w2, None);
            && Stretch(w, w3, own, {Direct}, Cost(1, 1, 1)) && LastPrimaryFailure(w3.log, |w.log|) == why
            && (why.None? ==> |w.log| < |w3.log| && w3.log[|w3.log| - 1].GetReport?)
            && (why.None? ==> w3.log[|w3.log| - 1].answer == answer)
            && NoFrameRead(w3.log, |w.log|, if why.None? then |w3.log| - 1 else |w3.log|)
  {
    RawRoundReads(dev, w, own);
    hide Stretch, Write, Read, LastPrimaryFailure, NoFrameRead;
    var (w1, failure) := Write(dev, w, Direct, own);
    var (w2, answer) := Read(dev, Sleep(dev, w1, DEFAULT_DELAY_MS), Direct);
    if failure.Some? {
      PrimaryWrite(dev, w, own, {Direct});
      Pausing(dev, w, w1, DEFAULT_DELAY_MS, own, {Direct}, Cost(1, 0, 1));
      Widen(w, Pause(dev, w1, Regular(), attempt), own, {Direct}, Cost(1, 0, 1), {Direct}, Cost(1, 1, 1));
    } else {
      PrimaryRead(dev, w, own, {Direct});
      Pausing(dev, w, w2, DEFAULT_DELAY_MS, own, {Direct}, Cost(1, 1, 1));
    }
  }

  /**
   A raw query answers with the first frame it reads; its error is always the last primary failure,
   never a timeout.
   */
  lemma {:induction false} RawQueryGuarantee(dev: Device, w: World, cmd: byte, own: Frame, attempt: nat,
                                             earlier: Option<string>)
    requires attempt <= QUERY_RETRIES && (attempt == QUERY_RETRIES ==> earlier.Some?)
    ensures var (w', result) := RawLoop(dev, w, cmd, own, attempt, earlier);
            var failure := LastPrimaryFailure(w'.log, |w.log|);
            && Stretch(w, w', own, {Direct}, Times(QUERY_RETRIES - attempt, Cost(1, 1, 1)))
            && (result.Ok? ==> |w.log| < |w'.log| && w'.log[|w'.log| - 1].GetReport?)
            && (result.Ok? ==> w'.log[|w'.log| - 1].answer == Data(result.value) && OwnWritten(w, w', own))
            && |w.log| <= |w'.log| && NoFrameRead(w'.log, |w.log|, if result.Ok? then |w'.log| - 1 else |w'.log|)
            && (result.Err? ==> failure.Some? || earlier.Some?)
            && (result.Err? ==> result.error == Usb(if failure.Some? then failure.value else earlier.value))
    decreases QUERY_RETRIES - attempt
  {
    hide Stretch, Write, Read, Times, Pause, LastPrimaryFailure, NoFrameRead, OwnWritten;
    if attempt == QUERY_RETRIES {
      Waiting(w, w, own, {Direct});
      NoPrimaryNoFailure(w.log, |w.log|);
      assert NoFrameRead(w.log, |w.log|, |w.log|) by { NothingRead(w.log); }
    } else {
      var left := QUERY_RETRIES - attempt;
      var (w1, failure) := Write(dev, w, Direct, own);
      var (w2, answer) := Read(dev, Sleep(dev, w1, DEFAULT_DELAY_MS), Direct);
      RawRoundStretch(dev, w, own, attempt);
      if failure.None? && answer.Data? {
        Grows(w, w2, own, {Direct}, Cost(1, 1, 1));
        RawRoundOwn(dev, w, own);
        Widen(w, w2, own, {Direct}, Cost(1, 1, 1), {Direct}, Times(left, Cost(1, 1, 1)));
      } else {
        var w3 := if failure.Some? then Pause(dev, w1, Regular(), attempt) else Pause(dev, w2, Regular(), attempt);
        var why := if failure.Some? then failure else Some(answer.message);
        RawQueryGuarantee(dev, w3, cmd, own, attempt + 1, why);
        var (w4, result) := RawLoop(dev, w3, cmd, own, attempt + 1, why);
        Grows(w, w3, own, {Direct}, Cost(1, 1, 1));
        Grows(w3, w4, own, {Direct}, Times(left - 1, Cost(1, 1, 1)));
        Chain(w, w3, w4, own, {Direct}, Cost(1, 1, 1), Times(left - 1, Cost(1, 1, 1)));
        SplitFailure(w3.log, w4.log, |w.log|);
        JoinReads(w3.log, w4.log, |w.log|, if result.Ok? then |w4.log| - 1 else |w4.log|);
        if result.Ok? {
          OwnKept(w, w3, w4, own);
        }
      }
    }
  }

  lemma RawRoundOwn(dev: Device, w: World, own: Frame)
    ensures var (w1, failure) := Write(dev, w, Direct, own);
            failure.None? ==> OwnWritten(w, Read(dev, Sleep(dev, w1, DEFAULT_DELAY_MS), Direct).0, own)
  {
    hide OwnWritten;
    var (w1, failure) := Write(dev, w, Direct, own);
    if failure.None? {
      OwnFirst(dev, w, Direct, own, Read(dev, Sleep(dev, w1, DEFAULT_DELAY_MS), Direct).0);
    }
  }

  lemma NothingRead(log: seq<Transfer>)
    ensures NoFrameRead(log, |log|, |log|)
  {
  }

  lemma JoinReads(log: seq<Transfer>, log': seq<Transfer>, from: nat, to: int)
    requires |log| <= |log'| && log'[..|log|] == log && to <= |log'|
    requires NoFrameRead(log, from, |log|) && NoFrameRead(log', |log|, to)
    ensures NoFrameRead(log', from, to)
  {
    assert forall i :: 0 <= i < |log| ==> log'[i] == log'[..|log|][i];
  }

  /** A plain send stops at its first successful write, and reports the failure of its third write otherwise. */
  lemma {:induction false} SendGuarantee(dev: Device, w: World, own: Frame, attempt: nat)
    requires attempt < SEND_RETRIES
    ensures var (w', result) := SendLoop(dev, w, own, attempt);
            var n, left := |w'.log|, SEND_RETRIES - attempt;
            && Stretch(w, w', own, {Direct}, Cost(left, 0, left)) && |w.log| < n <= |w.log| + left
            && (forall i :: |w.log| <= i < n ==> w'.log[i].SetReport?)
            && (forall i :: |w.log| <= i < n - 1 ==> w'.log[i].failure.Some?)
            && (result.Ok? ==> w'.log[n - 1].failure.None?)
            && (result.Err? ==> n == |w.log| + left && w'.log[n - 1].failure.Some?)
            && (result.Err? ==> result.error == Usb(w'.log[n - 1].failure.value))
    decreases SEND_RETRIES - attempt
  {
    hide Stretch;
    var left := SEND_RETRIES - attempt;
    var (w1, failure) := Write(dev, w, Direct, own);
    PrimaryWrite(dev, w, own, {Direct});
    Widen(w, w1, own, {Direct}, Cost(1, 0, 1), {Direct}, Cost(left, 0, left));
    if failure.Some? && attempt + 1 < SEND_RETRIES {
      var w2 := Sleep(dev, w1, DEFAULT_DELAY_MS);
      var w3 := SendLoop(dev, w2, own, attempt + 1).0;
      Pausing(dev, w, w1, DEFAULT_DELAY_MS, own, {Direct}, Cost(1, 0, 1));
      SendGuarantee(dev, w2, own, attempt + 1);
      Grows(w2, w3, own, {Direct}, Cost(left - 1, 0, left - 1));
      assert w3.log[|w.log|] == w3.log[..|w2.log|][|w.log|];
      Chain(w, w2, w3, own, {Direct}, Cost(1, 0, 1), Cost(left - 1, 0, left - 1));
    }
  }

  /**
   The bounds of a query with the numbers of a regular one: forwarded through a dongle, and direct.
   Command 0 is never followed up and needs less.
   */
  lemma RegularBounds(opts: Options, cmd: byte)
    requires opts.retries == 5 && opts.allowFollowups && opts.fallback
    requires opts.forwardSends == 5 && opts.forwardPolls == 15 && opts.statusPolls == 5
    ensures QueryCost(opts, cmd, true) == if cmd != 0 then Cost(816, 816, 10) else Cost(761, 756, 10)
    ensures QueryCost(opts, cmd, false) == if cmd != 0 then Cost(60, 65, 5) else Cost(5, 5, 5)
    ensures Regular() == Options(5, true, true, 5, 15, 5, None, true)
  {
    hide Times;
    assert RoundCost(opts) == Cost(10, 10, 0);
    assert Times(15, RoundCost(opts)) == Cost(150, 150, 0);
    assert SendCost(opts) == Cost(151, 150, 1);
    assert Times(5, SendCost(opts)) == Cost(755, 750, 5);
    assert Times(5, Cost(12, 13, 1)) == Cost(60, 65, 5) && Times(5, Cost(1, 1, 1)) == Cost(5, 5, 5);
    assert DirectCost(opts, cmd) == if cmd != 0 then Cost(60, 65, 5) else Cost(5, 5, 5);
  }

  /** The bound of a discovery query, which never forwards and uses no status or flush frames. */
  lemma DiscoveryBounds(opts: Options, configuredRetries: nat, dongle: bool, cmd: byte)
    requires opts == Discovery(configuredRetries)
    ensures var r := Max(configuredRetries, 1);
            && QueryCost(opts, cmd, false) == Cost(r, r, r) && QueryRoles(opts, false) == {Direct}
            && !Forwards(dongle, cmd, opts)
  {
    hide Times, Max, IsDongleLocal;
  }
}
