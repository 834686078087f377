/** The transfer bounds of the query protocol are exact: a device that answers nothing useful reaches them. */
module FlowTight {
  import opened Bytes
  import opened Checksum
  import opened FlowSpec
  import opened FlowProofs

  const BLANK: Frame := Zeros(64)
  const READY: Frame := [1] + Zeros(63)

  /** An answer that does not hold the command: zeros, which a caller follows up, or for command 0 a leading 1. */
  function Useless(cmd: byte): Frame {
    if cmd == 0 then READY else BLANK
  }

  /** Announces a response to every status poll and otherwise answers uselessly. */
  function WorstAnswer(cmd: byte, w: World): Answer {
    if w.log != [] && w.log[|w.log| - 1].SetReport? && w.log[|w.log| - 1].role == Status then Data(READY)
    else Data(Useless(cmd))
  }

  /** The worst device answers at once; it fails at most one write, the transfer with index `stumble`. */
  function Worst(cmd: byte, stumble: Option<nat>): Device {
    Device((w: World, frame: Frame) => if stumble == Some(|w.log|) then Some("stall") else None,
           (w: World) => WorstAnswer(cmd, w), (w: World) => 0)
  }

  /** A worst device that will not fail any more. */
  ghost predicate Steady(dev: Device, cmd: byte, w: World) {
    exists stumble: Option<nat> :: dev == Worst(cmd, stumble) && (stumble.Some? ==> stumble.value < |w.log|)
  }

  /** Exactly `cost` was spent between `w` and `w'`. */
  ghost predicate Spent(w: World, w': World, cost: Cost) {
    && |w.log| <= |w'.log|
    && Writes(w'.log) == Writes(w.log) + cost.sets
    && Reads(w'.log) == Reads(w.log) + cost.gets
    && OwnWrites(w'.log) == OwnWrites(w.log) + cost.own
  }

  ghost predicate EndsInRead(w: World) {
    w.log != [] && w.log[|w.log| - 1].GetReport?
  }

  lemma StaysSteady(dev: Device, cmd: byte, w: World, w': World)
    requires Steady(dev, cmd, w) && |w.log| <= |w'.log|
    ensures Steady(dev, cmd, w')
  {
  }

  lemma SpentWrite(dev: Device, cmd: byte, w: World, role: Role, frame: Frame)
    requires Steady(dev, cmd, w)
    ensures var (w', failure) := Write(dev, w, role, frame);
            && failure.None? && Spent(w, w', if role == Direct || role == Forward then OWN_SET else ONE_SET)
            && w'.log == w.log + [SetReport(role, frame, None, w.now, w.now)]
  {
  }

  lemma SpentRead(dev: Device, cmd: byte, w: World, role: Role)
    requires Steady(dev, cmd, w)
    ensures var (w', answer) := Read(dev, w, role);
            Spent(w, w', ONE_GET) && EndsInRead(w') && answer == WorstAnswer(cmd, w)
  {
  }

  /** One write, a pause, one read. */
  lemma SpentExchange(dev: Device, cmd: byte, w: World, role: Role, frame: Frame, ms: nat)
    requires Steady(dev, cmd, w)
    ensures var w1 := Write(dev, w, role, frame).0;
            var (w2, answer) := Read(dev, Sleep(dev, w1, ms), role);
            && Write(dev, w, role, frame).1.None?
            && Spent(w, w2, Cost(1, 1, if role == Direct || role == Forward then 1 else 0)) && EndsInRead(w2)
            && answer == Data(if role == Status then READY else Useless(cmd))
  {
    hide Worst, Useless, Writes, Reads, OwnWrites;
    SpentWrite(dev, cmd, w, role, frame);
    var w1 := Sleep(dev, Write(dev, w, role, frame).0, ms);
    StaysSteady(dev, cmd, w, w1);
    SpentRead(dev, cmd, w1, role);
  }

  lemma UselessUnrecognised(cmd: byte)
    ensures Normalize(cmd, Useless(cmd)).None? && HasResponse(READY)
    ensures IsPlaceholder(Useless(cmd)) <==> cmd != 0
  {
    ShiftFromFindsLeast(cmd, Useless(cmd), 0);
    if cmd == 0 {
      NoPlaceholderForZero(READY);
    }
  }

  lemma SpentCached(dev: Device, w: World, cmd: byte)
    requires Steady(dev, cmd, w)
    ensures var (w', found) := ReadCached(dev, w, cmd);
            found.None? && Spent(w, w', Cost(1, 1, 0)) && EndsInRead(w')
  {
    hide Steady, Write, Read, Sleep, Writes, Reads, OwnWrites, FlushFrame, Normalize, EndsInRead, Useless, BLANK, READY;
    SpentExchange(dev, cmd, w, Flush, FlushFrame(), 8);
    UselessUnrecognised(cmd);
  }

  lemma SpentPoll(dev: Device, w: World, cmd: byte)
    requires Steady(dev, cmd, w)
    ensures var (w', round) := PollOnce(dev, w, cmd);
            round.Again? && Spent(w, w', Cost(2, 2, 0)) && EndsInRead(w')
  {
    hide Steady, Write, Read, Sleep, Writes, Reads, OwnWrites, StatusFrame, HasResponse, ReadCached;
    hide EndsInRead, Useless;
    hide BLANK, READY;
    SpentExchange(dev, cmd, w, Status, StatusFrame(), 20);
    UselessUnrecognised(cmd);
    var w2 := Read(dev, Sleep(dev, Write(dev, w, Status, StatusFrame()).0, 20), Status).0;
    StaysSteady(dev, cmd, w, w2);
    SpentCached(dev, w2, cmd);
  }

  lemma {:induction false} SpentCycle(dev: Device, w: World, cmd: byte, n: nat)
    requires Steady(dev, cmd, w)
    ensures var (w', found) := PollCycle(dev, w, cmd, n);
            found.None? && Spent(w, w', Cost(2 * n, 2 * n, 0)) && (n > 0 ==> EndsInRead(w'))
    decreases n
  {
    hide Steady, PollOnce, Writes, Reads, OwnWrites;
    if n > 0 {
      var w1 := PollOnce(dev, w, cmd).0;
      SpentPoll(dev, w, cmd);
      StaysSteady(dev, cmd, w, w1);
      SpentCycle(dev, w1, cmd, n - 1);
    }
  }

  lemma {:induction false} SpentRounds(dev: Device, w: World, cmd: byte, opts: Options, rounds: nat, started: nat)
    requires Steady(dev, cmd, w) && opts.budget.None?
    ensures var (w', found) := PollRounds(dev, w, cmd, opts, rounds, started);
            found.None? && Spent(w, w', Times(rounds, RoundCost(opts)))
    decreases rounds
  {
    hide Steady, PollCycle, Writes, Reads, OwnWrites;
    if rounds > 0 {
      var w1 := PollRound(dev, w, cmd, opts, started).0;
      SpentCycle(dev, w, cmd, opts.statusPolls);
      StaysSteady(dev, cmd, w, w1);
      SpentRounds(dev, w1, cmd, opts, rounds - 1, started);
    }
  }

  lemma SpentSend(dev: Device, w: World, cmd: byte, own: Frame, opts: Options, started: nat)
    requires Steady(dev, cmd, w) && opts.budget.None?
    ensures var (w', round) := ForwardOnce(dev, w, cmd, own, opts, started);
            round.Again? && Spent(w, w', SendCost(opts))
  {
    hide Steady, PollRounds, Write, Writes, Reads, OwnWrites, RoundCost, Times, Max;
    SpentWrite(dev, cmd, w, Forward, own);
    var w1 := Sleep(dev, Write(dev, w, Forward, own).0, 30);
    StaysSteady(dev, cmd, w, w1);
    SpentRounds(dev, w1, cmd, opts, Max(opts.forwardPolls, 1), started);
  }

  lemma {:induction false} SpentSends(dev: Device, w: World, cmd: byte, own: Frame, opts: Options, sends: nat,
                                      started: nat)
    requires Steady(dev, cmd, w) && opts.budget.None?
    ensures var (w', result) := ForwardSends(dev, w, cmd, own, opts, sends, started);
            result.None? && Spent(w, w', Times(sends, SendCost(opts)))
    decreases sends
  {
    hide Steady, ForwardOnce, Writes, Reads, OwnWrites, SendCost;
    if sends > 0 {
      var w1 := ForwardOnce(dev, w, cmd, own, opts, started).0;
      SpentSend(dev, w, cmd, own, opts, started);
      StaysSteady(dev, cmd, w, w1);
      SpentSends(dev, w1, cmd, own, opts, sends - 1, started);
    }
  }

  lemma SpentForwarding(dev: Device, w: World, cmd: byte, own: Frame, opts: Options)
    requires Steady(dev, cmd, w) && opts.budget.None?
    ensures var (w', result) := ForwardPath(dev, w, cmd, own, opts);
            result.None? && Spent(w, w', ForwardCost(opts))
  {
    hide Steady, ForwardSends, Write, Read, Writes, Reads, OwnWrites, SendCost, PrepareFrame, EndsInRead, Times;
    hide Useless, BLANK, READY;
    if !SkipsForwarding(opts) {
      SpentExchange(dev, cmd, w, Prepare, PrepareFrame(), 2);
      var w1 := ReadClock(dev, PrepareForwarding(dev, w));
      StaysSteady(dev, cmd, w, w1);
      SpentSends(dev, w1, cmd, own, opts, Max(opts.forwardSends, 1), w1.now);
    }
  }

  lemma SpentFollowUp(dev: Device, w: World, cmd: byte, opts: Options)
    requires Steady(dev, cmd, w)
    ensures var (w', outcome) := FollowUp(dev, w, cmd, Useless(cmd), opts);
            && outcome == Unrecognised(Useless(cmd)[0])
            && Spent(w, w', if FollowsUp(opts, cmd) then Cost(11, 12, 0) else FREE)
  {
    hide Steady, Read, Writes, Reads, OwnWrites, Normalize, IsPlaceholder, PollCycle, ReadCached, Useless, BLANK, READY;
    UselessUnrecognised(cmd);
    if FollowsUp(opts, cmd) {
      var w1 := ReadCached(dev, w, cmd).0;
      SpentCached(dev, w, cmd);
      StaysSteady(dev, cmd, w, w1);
      var w2 := PollCycle(dev, w1, cmd, 5).0;
      SpentCycle(dev, w1, cmd, 5);
      StaysSteady(dev, cmd, w, w2);
      SpentRead(dev, cmd, w2, Followup);
    }
  }

  lemma SpentAttempt(dev: Device, w: World, cmd: byte, own: Frame, opts: Options, attempt: nat)
    requires Steady(dev, cmd, w)
    ensures var (w', outcome) := DirectAttempt(dev, w, cmd, own, opts, attempt);
            outcome == Unrecognised(Useless(cmd)[0]) && Spent(w, w', AttemptCost(opts, cmd))
  {
    hide Steady, Write, Read, Sleep, Writes, Reads, OwnWrites, Normalize, FollowUp, Useless, BLANK, READY;
    SpentExchange(dev, cmd, w, Direct, own, DEFAULT_DELAY_MS);
    UselessUnrecognised(cmd);
    var w2 := Read(dev, Sleep(dev, Write(dev, w, Direct, own).0, DEFAULT_DELAY_MS), Direct).0;
    StaysSteady(dev, cmd, w, w2);
    SpentFollowUp(dev, w2, cmd, opts);
  }

  /** The direct loop uses up its attempts and reports the failure it came with, if any. */
  lemma {:induction false} SpentDirect(dev: Device, w: World, cmd: byte, own: Frame, opts: Options, attempt: nat,
                                       lastFailure: Option<string>, lastActual: byte)
    requires Steady(dev, cmd, w) && attempt <= opts.retries
    ensures var (w', result) := DirectLoop(dev, w, cmd, own, opts, attempt, lastFailure, lastActual);
            && result.Err?
            && (if lastFailure.Some? then result.error == Usb(lastFailure.value)
                else result.error.EchoMismatch? && result.error.expected == cmd)
            && Spent(w, w', Times(opts.retries - attempt, AttemptCost(opts, cmd)))
    decreases opts.retries - attempt
  {
    hide Steady, DirectAttempt, Writes, Reads, OwnWrites, AttemptCost, Useless;
    if attempt < opts.retries {
      var (w1, outcome) := DirectAttempt(dev, w, cmd, own, opts, attempt);
      SpentAttempt(dev, w, cmd, own, opts, attempt);
      StaysSteady(dev, cmd, w, w1);
      assert DirectLoop(dev, w, cmd, own, opts, attempt, lastFailure, lastActual)
          == DirectLoop(dev, w1, cmd, own, opts, attempt + 1, lastFailure, outcome.actual);
      SpentDirect(dev, w1, cmd, own, opts, attempt + 1, lastFailure, outcome.actual);
      hide DirectLoop, Exhausted;
      assert Times(opts.retries - attempt, AttemptCost(opts, cmd))
          == Plus(AttemptCost(opts, cmd), Times(opts.retries - attempt - 1, AttemptCost(opts, cmd)));
    }
  }

  /** Without a time budget the proved bound is reached, for every command and all options. */
  lemma BoundReached(w: World, dongle: bool, cmd: byte, own: Frame, opts: Options)
    requires opts.budget.None?
    ensures var (w', result) := Query(Worst(cmd, None), w, dongle, cmd, own, opts);
            && result.Err? && result.error.EchoMismatch? && result.error.expected == cmd
            && Spent(w, w', QueryCost(opts, cmd, Forwards(dongle, cmd, opts)))
  {
    hide DirectLoop, ForwardPath, Worst, Writes, Reads, OwnWrites, AttemptCost, ForwardCost, Times, IsDongleLocal;
    var dev := Worst(cmd, None);
    assert Steady(dev, cmd, w);
    hide Steady;
    if Forwards(dongle, cmd, opts) {
      var w1 := ForwardPath(dev, w, cmd, own, opts).0;
      SpentForwarding(dev, w, cmd, own, opts);
      StaysSteady(dev, cmd, w, w1);
      SpentDirect(dev, w1, cmd, own, opts, 0, None, 0);
    } else {
      SpentDirect(dev, w, cmd, own, opts, 0, None, 0);
    }
  }

  /** In particular a forwarded query can take 816 writes and 816 reads and send its own frame ten times. */
  lemma RegularBoundReached(w: World, cmd: byte, own: Frame, opts: Options)
    requires cmd != 0 && !IsDongleLocal(cmd) && opts == Regular()
    ensures Spent(w, Query(Worst(cmd, None), w, true, cmd, own, opts).0, Cost(816, 816, 10))
  {
    hide Query, Worst, Writes, Reads, OwnWrites, IsDongleLocal, Times, QueryCost;
    RegularBounds(opts, cmd);
    BoundReached(w, true, cmd, own, opts);
  }

  lemma {:induction false} SteadyNeverFails(dev: Device, w: World, cmd: byte, own: Frame, opts: Options, attempt: nat,
                                            lastFailure: Option<string>, lastActual: byte)
    requires Steady(dev, cmd, w) && attempt <= opts.retries
    ensures var w' := DirectLoop(dev, w, cmd, own, opts, attempt, lastFailure, lastActual).0;
            |w.log| <= |w'.log| && w'.log[..|w.log|] == w.log && LastPrimaryFailure(w'.log, |w.log|).None?
    decreases opts.retries - attempt
  {
    hide Steady, DirectAttempt, LastPrimaryFailure, AttemptCost, Stretch, LastRead, OwnWritten, Spent, Useless;
    hide DirectRoles;
    if attempt == opts.retries {
      NoPrimaryNoFailure(w.log, |w.log|);
    } else {
      var (w1, outcome) := DirectAttempt(dev, w, cmd, own, opts, attempt);
      SpentAttempt(dev, w, cmd, own, opts, attempt);
      DirectAttemptStretch(dev, w, cmd, own, opts, attempt);
      Grows(w, w1, own, DirectRoles(opts), AttemptCost(opts, cmd));
      StaysSteady(dev, cmd, w, w1);
      SteadyNeverFails(dev, w1, cmd, own, opts, attempt + 1, lastFailure, outcome.actual);
      var w2 := DirectLoop(dev, w1, cmd, own, opts, attempt + 1, lastFailure, outcome.actual).0;
      SplitFailure(w1.log, w2.log, |w.log|);
      assert w2.log[..|w.log|] == w2.log[..|w1.log|][..|w.log|];
    }
  }

  /**
   One failed write decides the error although no later primary transfer fails and every later attempt
   ends in a mismatch: the caller gets that old failure.
   */
  lemma OldFailureReported(w: World, cmd: byte, own: Frame, opts: Options)
    requires opts.retries > 0
    ensures var (w', result) := Query(Worst(cmd, Some(|w.log|)), w, false, cmd, own, opts);
            && result == Err(Usb("stall"))
            && (forall i :: |w.log| < i < |w'.log| ==> PrimaryFailure(w'.log[i]).None?)
  {
    hide Writes, Reads, OwnWrites, Spent, DirectAttempt, LastPrimaryFailure, PrimaryFailure;
    var dev := Worst(cmd, Some(|w.log|));
    var w1 := DirectAttempt(dev, w, cmd, own, opts, 0).0;
    FirstAttemptStalls(w, cmd, own, opts);
    assert Steady(dev, cmd, w1);
    hide Steady;
    SpentDirect(dev, w1, cmd, own, opts, 1, Some("stall"), 0);
    SteadyNeverFails(dev, w1, cmd, own, opts, 1, Some("stall"), 0);
    FailureIff(DirectLoop(dev, w1, cmd, own, opts, 1, Some("stall"), 0).0.log, |w1.log|);
  }

  lemma FirstAttemptStalls(w: World, cmd: byte, own: Frame, opts: Options)
    ensures var (w1, outcome) := DirectAttempt(Worst(cmd, Some(|w.log|)), w, cmd, own, opts, 0);
            outcome == Failed("stall") && |w1.log| == |w.log| + 1
  {
  }
}
