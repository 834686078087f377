/** What the log of a failed query shows: every attempt was made, and the mismatch names what was heard last. */
module FlowEffort {
  import opened Bytes
  import opened Checksum
  import opened FlowSpec
  import opened FlowProofs
  import opened FlowOrder

  /** The first byte of a direct or follow-up answer. */
  function HeardIn(t: Transfer): Option<byte> {
    if t.GetReport? && t.answer.Data? && t.role in {Direct, Followup} then Some(t.answer.frame[0]) else None
  }

  /** The first byte heard last, at or after index `from`. */
  function LastHeard(log: seq<Transfer>, from: nat): Option<byte> {
    if |log| <= from then None
    else
      var latest := HeardIn(log[|log| - 1]);
      if latest.Some? then latest else LastHeard(log[..|log| - 1], from)
  }

  /** The writes of a role at or after index `from`. */
  function Written(log: seq<Transfer>, from: nat, role: Role): nat {
    if |log| <= from then 0
    else
      Written(log[..|log| - 1], from, role) +
      if log[|log| - 1].SetReport? && log[|log| - 1].role == role then 1 else 0
  }

  lemma {:induction false} Split(log: seq<Transfer>, log': seq<Transfer>, from: nat, role: Role)
    requires from <= |log| <= |log'| && log'[..|log|] == log
    ensures var late := LastHeard(log', |log|);
            LastHeard(log', from) == if late.Some? then late else LastHeard(log, from)
    ensures Written(log', from, role) == Written(log, from, role) + Written(log', |log|, role)
    decreases |log'|
  {
    if |log| < |log'| {
      var init := log'[..|log'| - 1];
      assert init[..|log|] == log;
      Split(log, init, from, role);
    } else {
      assert log' == log;
    }
  }

  lemma {:induction false} OthersDoNotCount(log: seq<Transfer>, from: nat, role: Role)
    ensures (forall i :: from <= i < |log| ==> log[i].role !in {Direct, Followup}) ==> LastHeard(log, from) == None
    ensures (forall i :: from <= i < |log| ==> log[i].role != role) ==> Written(log, from, role) == 0
  {
    if from < |log| {
      var init := log[..|log| - 1];
      OthersDoNotCount(init, from, role);
      assert forall i :: 0 <= i < |init| ==> init[i] == log[i];
    }
  }

  /** A stretch with other roles changes neither. */
  lemma SkipOthers(w: World, w': World, own: Frame, roles: set<Role>, cost: Cost, from: nat, role: Role)
    requires Stretch(w, w', own, roles, cost) && from <= |w.log|
    ensures roles !! {Direct, Followup} ==> LastHeard(w'.log, from) == LastHeard(w.log, from)
    ensures role !in roles ==> Written(w'.log, from, role) == Written(w.log, from, role)
  {
    hide RightTransfer, Spends;
    Split(w.log, w'.log, from, role);
    OthersDoNotCount(w'.log, |w.log|, role);
  }

  lemma OneMore(w: World, w': World, t: Transfer, from: nat, role: Role)
    requires w'.log == w.log + [t] && from <= |w.log|
    ensures LastHeard(w'.log, from) == if HeardIn(t).Some? then HeardIn(t) else LastHeard(w.log, from)
    ensures Written(w'.log, from, role) == Written(w.log, from, role) + if t.SetReport? && t.role == role then 1 else 0
    ensures from < |w'.log|
  {
    assert w'.log[..|w'.log| - 1] == w.log;
  }

  lemma FollowUpEffort(dev: Device, w: World, cmd: byte, response: Frame, opts: Options, own: Frame, from: nat)
    requires Normalize(cmd, response).None? && from <= |w.log| && LastHeard(w.log, from) == Some(response[0])
    ensures var (w', outcome) := FollowUp(dev, w, cmd, response, opts);
            && from <= |w'.log| && Written(w'.log, from, Direct) == Written(w.log, from, Direct)
            && (outcome.Unrecognised? ==> LastHeard(w'.log, from) == Some(outcome.actual)) && !outcome.Failed?
  {
    hide Stretch, ReadCached, PollCycle, Normalize, IsPlaceholder, LastHeard, Written;
    var w1 := ReadCached(dev, w, cmd).0;
    ReadCachedStretch(dev, w, cmd, own, POLL_ROLES);
    Grows(w, w1, own, POLL_ROLES, Cost(1, 1, 0));
    SkipOthers(w, w1, own, POLL_ROLES, Cost(1, 1, 0), from, Direct);
    var w2 := PollCycle(dev, w1, cmd, 5).0;
    PollCycleStretch(dev, w1, cmd, 5, own, POLL_ROLES);
    Grows(w1, w2, own, POLL_ROLES, Cost(10, 10, 0));
    SkipOthers(w1, w2, own, POLL_ROLES, Cost(10, 10, 0), from, Direct);
    var (w3, answer) := Read(dev, w2, Followup);
    OneMore(w2, w3, GetReport(Followup, answer, w2.now, w3.now), from, Direct);
  }

  lemma AttemptEffort(dev: Device, w: World, cmd: byte, own: Frame, opts: Options, attempt: nat)
    ensures var (w', outcome) := DirectAttempt(dev, w, cmd, own, opts, attempt);
            && |w.log| <= |w'.log| && w'.log[..|w.log|] == w.log && Written(w'.log, |w.log|, Direct) == 1
            && (!outcome.Answered? ==>
                  LastHeard(w'.log, |w.log|) == if outcome.Failed? then None else Some(outcome.actual))
  {
    hide Normalize, FollowUp, LastHeard, Written, DirectRoles, AttemptCost, Stretch;
    var from := |w.log|;
    DirectAttemptStretch(dev, w, cmd, own, opts, attempt);
    Grows(w, DirectAttempt(dev, w, cmd, own, opts, attempt).0, own, DirectRoles(opts), AttemptCost(opts, cmd));
    var (w1, failure) := Write(dev, w, Direct, own);
    OthersDoNotCount(w.log, from, Direct);
    OneMore(w, w1, SetReport(Direct, own, failure, w.now, w1.now), from, Direct);
    var w2 := Sleep(dev, w1, DEFAULT_DELAY_MS);
    var (w3, answer) := Read(dev, w2, Direct);
    OneMore(w2, w3, GetReport(Direct, answer, w2.now, w3.now), from, Direct);
    if failure.None? && answer.Data? && Normalize(cmd, answer.frame).None? {
      FollowUpEffort(dev, w3, cmd, answer.frame, opts, own, from);
    }
  }

  lemma {:induction false} DirectLoopEffort(dev: Device, w: World, cmd: byte, own: Frame, opts: Options, attempt: nat,
                                            lastFailure: Option<string>, lastActual: byte)
    requires attempt <= opts.retries
    ensures var (w', result) := DirectLoop(dev, w, cmd, own, opts, attempt, lastFailure, lastActual);
            && |w.log| <= |w'.log| && w'.log[..|w.log|] == w.log
            && (result.Err? ==> Written(w'.log, |w.log|, Direct) == opts.retries - attempt)
            && (result.Err? && result.error.EchoMismatch? ==>
                  var heard := LastHeard(w'.log, |w.log|);
                  result.error.actual == if heard.Some? then heard.value else lastActual)
    decreases opts.retries - attempt
  {
    hide DirectAttempt, LastHeard, Written;
    if attempt == opts.retries {
      OthersDoNotCount(w.log, |w.log|, Direct);
    } else {
      AttemptEffort(dev, w, cmd, own, opts, attempt);
      var (w1, outcome) := DirectAttempt(dev, w, cmd, own, opts, attempt);
      if !outcome.Answered? {
        var failure := if outcome.Failed? then Some(outcome.message) else lastFailure;
        var actual := if outcome.Failed? then lastActual else outcome.actual;
        DirectLoopEffort(dev, w1, cmd, own, opts, attempt + 1, failure, actual);
        var w2 := DirectLoop(dev, w1, cmd, own, opts, attempt + 1, failure, actual).0;
        Split(w1.log, w2.log, |w.log|, Direct);
        assert w2.log[..|w.log|] == w2.log[..|w1.log|][..|w.log|];
      }
    }
  }

  /**
   A query that fails has made all its direct attempts, unless its forwarding already failed or it has none
   to fall back on; and a mismatch names the first byte of what the device said last, or 0 if it said nothing.
   */
  lemma FailsAfterAllAttempts(dev: Device, w: World, dongle: bool, cmd: byte, own: Frame, opts: Options)
    ensures var forwarded := Forwards(dongle, cmd, opts);
            var (w', result) := Query(dev, w, dongle, cmd, own, opts);
            && |w.log| <= |w'.log|
            && (result.Err? ==>
                  || Written(w'.log, |w.log|, Direct) == opts.retries
                  || (forwarded && ForwardFailed(w', result.error)) || (forwarded && !opts.fallback))
            && (result.Err? && result.error.EchoMismatch? ==>
                  var heard := LastHeard(w'.log, |w.log|);
                  result.error.actual == if heard.Some? then heard.value else 0)
  {
    hide DirectLoop, ForwardPath, LastHeard, Written, IsDongleLocal, Stretch, Forwarded, ForwardFailed, ForwardCost;
    if !Forwards(dongle, cmd, opts) {
      DirectLoopEffort(dev, w, cmd, own, opts, 0, None, 0);
    } else {
      var (w1, first) := ForwardPath(dev, w, cmd, own, opts);
      ForwardPathStretch(dev, w, cmd, own, opts);
      Grows(w, w1, own, FORWARD_ROLES, ForwardCost(opts));
      OthersDoNotCount(w.log, |w.log|, Direct);
      SkipOthers(w, w1, own, FORWARD_ROLES, ForwardCost(opts), |w.log|, Direct);
      if first.None? && opts.fallback {
        DirectLoopEffort(dev, w1, cmd, own, opts, 0, None, 0);
        Split(w1.log, DirectLoop(dev, w1, cmd, own, opts, 0, None, 0).0.log, |w.log|, Direct);
      } else if first.Some? && first.value.Err? {
        FailedForward(w, w1, cmd, own, first.value);
      }
    }
  }

  lemma FailedForward(w: World, w': World, cmd: byte, own: Frame, result: Result<Frame>)
    requires Forwarded(w, w', cmd, own, result) && result.Err?
    ensures ForwardFailed(w', result.error) && result.error.Usb?
  {
  }

  /** A raw query that fails has made five attempts. */
  lemma {:induction false} RawFailsAfterFive(dev: Device, w: World, cmd: byte, own: Frame, attempt: nat,
                                             lastFailure: Option<string>)
    requires attempt <= 5
    ensures var (w', result) := RawLoop(dev, w, cmd, own, attempt, lastFailure);
            && |w.log| <= |w'.log| && w'.log[..|w.log|] == w.log
            && (result.Err? ==> Written(w'.log, |w.log|, Direct) == 5 - attempt)
    decreases 5 - attempt
  {
    hide LastHeard, Written;
    OthersDoNotCount(w.log, |w.log|, Direct);
    if attempt < 5 {
      var (w1, failure) := Write(dev, w, Direct, own);
      OneMore(w, w1, SetReport(Direct, own, failure, w.now, w1.now), |w.log|, Direct);
      if failure.Some? {
        RawGoesOn(dev, w, Pause(dev, w1, Regular(), attempt), cmd, own, attempt, failure);
      } else {
        var w2 := Sleep(dev, w1, DEFAULT_DELAY_MS);
        var (w3, answer) := Read(dev, w2, Direct);
        OneMore(w2, w3, GetReport(Direct, answer, w2.now, w3.now), |w.log|, Direct);
        if answer.Failure? {
          RawGoesOn(dev, w, Pause(dev, w3, Regular(), attempt), cmd, own, attempt, Some(answer.message));
        }
      }
    }
  }

  lemma RawGoesOn(dev: Device, w: World, w1: World, cmd: byte, own: Frame, attempt: nat, failure: Option<string>)
    requires attempt < 5 && |w.log| <= |w1.log| && w1.log[..|w.log|] == w.log && Written(w1.log, |w.log|, Direct) == 1
    ensures var (w', result) := RawLoop(dev, w1, cmd, own, attempt + 1, failure);
            && |w.log| <= |w'.log| && w'.log[..|w.log|] == w.log
            && (result.Err? ==> Written(w'.log, |w.log|, Direct) == 5 - attempt)
    decreases 5 - attempt, 0
  {
    hide LastHeard, Written, RawLoop;
    RawFailsAfterFive(dev, w1, cmd, own, attempt + 1, failure);
    var w' := RawLoop(dev, w1, cmd, own, attempt + 1, failure).0;
    Split(w1.log, w'.log, |w.log|, Direct);
    assert w'.log[..|w.log|] == w'.log[..|w1.log|][..|w.log|];
  }

  // ---- Polling and forwarding ----

  /** The last transfer is part of a status exchange, and failed. */
  predicate StatusFailed(w: World) {
    && w.log != []
    && var t := w.log[|w.log| - 1];
       t.role == Status && if t.SetReport? then t.failure.Some? else t.answer.Failure?
  }

  lemma PollOnceEffort(dev: Device, w: World, cmd: byte, own: Frame)
    ensures var (w', round) := PollOnce(dev, w, cmd);
            && |w.log| <= |w'.log| && w'.log[..|w.log|] == w.log && Written(w'.log, |w.log|, Status) == 1
            && (round.GiveUp? ==> StatusFailed(w'))
  {
    hide ReadCached, LastHeard, Written, StatusFrame, HasResponse, Stretch;
    OthersDoNotCount(w.log, |w.log|, Status);
    var (w1, failure) := Write(dev, w, Status, StatusFrame());
    OneMore(w, w1, SetReport(Status, StatusFrame(), failure, w.now, w1.now), |w.log|, Status);
    var w2 := Sleep(dev, w1, 20);
    var (w3, answer) := Read(dev, w2, Status);
    OneMore(w2, w3, GetReport(Status, answer, w2.now, w3.now), |w.log|, Status);
    var w4 := ReadCached(dev, w3, cmd).0;
    ReadCachedStretch(dev, w3, cmd, own, {Flush});
    Grows(w3, w4, own, {Flush}, Cost(1, 1, 0));
    SkipOthers(w3, w4, own, {Flush}, Cost(1, 1, 0), |w.log|, Status);
    assert w4.log[..|w.log|] == w4.log[..|w3.log|][..|w.log|];
  }

  /** A poll cycle that finds nothing has polled as often as it may, unless a status exchange failed. */
  lemma {:induction false} PollsUntilFailure(dev: Device, w: World, cmd: byte, n: nat, own: Frame)
    ensures var (w', found) := PollCycle(dev, w, cmd, n);
            && |w.log| <= |w'.log| && w'.log[..|w.log|] == w.log
            && (found.None? ==> Written(w'.log, |w.log|, Status) == n || StatusFailed(w'))
    decreases n
  {
    hide PollOnce, LastHeard, Written, StatusFailed;
    if n == 0 {
      OthersDoNotCount(w.log, |w.log|, Status);
    } else {
      PollOnceEffort(dev, w, cmd, own);
      var (w1, round) := PollOnce(dev, w, cmd);
      if round.Again? {
        PollsUntilFailure(dev, w1, cmd, n - 1, own);
        var w2 := PollCycle(dev, w1, cmd, n - 1).0;
        Split(w1.log, w2.log, |w.log|, Status);
        assert w2.log[..|w.log|] == w2.log[..|w1.log|][..|w.log|];
      }
    }
  }

  /** The time budget is used up. */
  predicate OutOfTime(w: World, opts: Options, started: int) {
    opts.budget.Some? && w.now - started >= opts.budget.value
  }

  lemma ForwardOnceEffort(dev: Device, w: World, cmd: byte, own: Frame, opts: Options, started: nat)
    ensures var (w', round) := ForwardOnce(dev, w, cmd, own, opts, started);
            && |w.log| <= |w'.log| && w'.log[..|w.log|] == w.log
            && (round.GiveUp? ==> w'.log == w.log && OutOfTime(w', opts, started))
            && (round.Again? ==> Written(w'.log, |w.log|, Forward) == 1)
  {
    hide PollRounds, LastHeard, Written, Stretch, Times, RoundCost;
    OthersDoNotCount(w.log, |w.log|, Forward);
    var (w1, expired) := Expired(dev, w, opts.budget, started);
    var (w2, failure) := Write(dev, w1, Forward, own);
    OneMore(w1, w2, SetReport(Forward, own, failure, w1.now, w2.now), |w.log|, Forward);
    var w3, polls := Sleep(dev, w2, 30), Max(opts.forwardPolls, 1);
    var w4 := PollRounds(dev, w3, cmd, opts, polls, started).0;
    PollRoundsStretch(dev, w3, cmd, opts, polls, started, own, POLL_ROLES);
    Grows(w3, w4, own, POLL_ROLES, Times(polls, RoundCost(opts)));
    SkipOthers(w3, w4, own, POLL_ROLES, Times(polls, RoundCost(opts)), |w.log|, Forward);
    assert w4.log[..|w.log|] == w4.log[..|w3.log|][..|w.log|];
  }

  lemma {:induction false} SendsUntilOutOfTime(dev: Device, w: World, cmd: byte, own: Frame, opts: Options, sends: nat,
                                               started: nat)
    ensures var (w', result) := ForwardSends(dev, w, cmd, own, opts, sends, started);
            && |w.log| <= |w'.log| && w'.log[..|w.log|] == w.log
            && (result.None? ==> Written(w'.log, |w.log|, Forward) == sends || OutOfTime(w', opts, started))
    decreases sends
  {
    hide ForwardOnce, LastHeard, Written, OutOfTime;
    if sends == 0 {
      OthersDoNotCount(w.log, |w.log|, Forward);
    } else {
      ForwardOnceEffort(dev, w, cmd, own, opts, started);
      var (w1, round) := ForwardOnce(dev, w, cmd, own, opts, started);
      if round.Again? {
        SendsUntilOutOfTime(dev, w1, cmd, own, opts, sends - 1, started);
        var w2 := ForwardSends(dev, w1, cmd, own, opts, sends - 1, started).0;
        Split(w1.log, w2.log, |w.log|, Forward);
        assert w2.log[..|w.log|] == w2.log[..|w1.log|][..|w.log|];
      }
    }
  }

  /** Forwarding gives up only after all its sends, or when the time since its preparation is used up. */
  lemma ForwardsUntilOutOfTime(dev: Device, w: World, cmd: byte, own: Frame, opts: Options)
    requires opts.forwardSends > 0 || opts.budget.Some?
    ensures var (w', result) := ForwardPath(dev, w, cmd, own, opts);
            var prepared := PrepareForwarding(dev, w);
            && |w.log| <= |w'.log|
            && (result.None? ==>
                  || Written(w'.log, |w.log|, Forward) == Max(opts.forwardSends, 1)
                  || OutOfTime(w', opts, prepared.now + dev.lag(prepared)))
  {
    hide ForwardSends, LastHeard, Written, OutOfTime, PrepareForwarding, Stretch;
    var w1 := ReadClock(dev, PrepareForwarding(dev, w));
    PrepareStretch(dev, w, own);
    Grows(w, w1, own, FORWARD_ROLES, Cost(1, 1, 0));
    NothingForwarded(dev, w);
    SendsUntilOutOfTime(dev, w1, cmd, own, opts, Max(opts.forwardSends, 1), w1.now);
    Split(w1.log, ForwardPath(dev, w, cmd, own, opts).0.log, |w.log|, Forward);
  }

  lemma NothingForwarded(dev: Device, w: World)
    ensures Written(PrepareForwarding(dev, w).log, |w.log|, Forward) == 0
  {
    hide PrepareFrame, LastHeard;
    OthersDoNotCount(PrepareForwarding(dev, w).log, |w.log|, Forward);
  }
}
