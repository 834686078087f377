/** The order and the timing of a query's transfers: which transfer may follow which, and how soon. */
module FlowOrder {
  import opened Bytes
  import opened Checksum
  import opened FlowSpec
  import opened FlowProofs

  const MS := 1_000_000

  /** A dongle status that announces a response. */
  predicate Announces(status: Frame) {
    status[0] != 0 || status[1] == 1
  }

  predicate StartsWithZeros(response: Frame) {
    forall i :: 0 <= i < 8 ==> response[i] == 0
  }

  /** How long a read waits behind its write. */
  function SettleMs(role: Role): nat {
    match role
    case Prepare => 2
    case Status => 20
    case Flush => 8
    case _ => 100
  }

  /** What calls for a look into the dongle's cache: an announcement, or a placeholder instead of an answer. */
  predicate CallsForFlush(t: Transfer, opts: Options) {
    && t.GetReport? && t.answer.Data?
    && ((t.role == Status && Announces(t.answer.frame))
        || (t.role == Direct && opts.allowFollowups && StartsWithZeros(t.answer.frame)))
  }

  /** `u` is a read, and the one that belongs to the write `t`. */
  predicate ReadsBack(t: Transfer, u: Transfer) {
    u.GetReport? && u.role == t.role && u.start >= t.end + SettleMs(t.role) * MS
  }

  /** A status exchange without an announcement. */
  predicate Idle(t: Transfer) {
    t.role == Status && if t.SetReport? then t.failure.Some? else (t.answer.Data? ==> !Announces(t.answer.frame))
  }

  /** What may come right after `t` in a query. */
  ghost predicate Follows(t: Transfer, u: Transfer, cmd: byte, opts: Options) {
    && (if t.SetReport? && t.failure.None? && t.role != Forward then ReadsBack(t, u)
        else u.GetReport? ==> u.role == Followup && t.role in {Status, Flush})
    && (u.SetReport? && u.role == Flush <==> CallsForFlush(t, opts))
    && !(u.SetReport? && u.role == Prepare)
    && !(t.SetReport? && t.role == Forward && t.failure.Some?)
    && (t.GetReport? && t.answer.Data? && t.role in {Flush, Direct, Followup} ==> Normalize(cmd, t.answer.frame).None?)
    && (t.role == Forward ==> u.start >= t.end + 30 * MS)
    && (PrimaryFailure(t).Some? ==> u.SetReport? && u.role == Direct && u.start >= t.end + 100 * MS)
    && (Idle(t) && u.role != Followup ==> u.start >= t.end + 20 * MS)
  }

  /** A query of `cmd` that starts at index `from` of the log, with a write of role `first`. */
  datatype Asked = Asked(from: nat, first: Role, cmd: byte, opts: Options)

  /** The log of the query so far starts as it should and every transfer follows the one before. */
  ghost predicate Legal(w: World, q: Asked) {
    && q.from <= |w.log|
    && (q.from < |w.log| ==> w.log[q.from].SetReport? && w.log[q.from].role == q.first)
    && forall i :: q.from < i < |w.log| ==> Follows(w.log[i - 1], w.log[i], q.cmd, q.opts)
  }

  /** Transfer `u` may come next. */
  ghost predicate May(w: World, q: Asked, u: Transfer) {
    if |w.log| <= q.from then u.SetReport? && u.role == q.first else Follows(w.log[|w.log| - 1], u, q.cmd, q.opts)
  }

  /** Any write with a role in `kinds`, and a follow-up read if that is in `kinds`, may start now. */
  ghost predicate Ready(w: World, q: Asked, kinds: set<Role>) {
    forall u: Transfer :: u.role in kinds && (u.SetReport? <==> u.role != Followup) && u.start >= w.now ==> May(w, q, u)
  }

  lemma Append(w: World, w': World, q: Asked, u: Transfer)
    requires Legal(w, q) && May(w, q, u) && w'.log == w.log + [u]
    ensures Legal(w', q) && q.from < |w'.log| && w'.log[|w'.log| - 1] == u
  {
    hide Follows;
  }

  /** Nothing happens but time passes. */
  lemma Later(w: World, w': World, q: Asked, kinds: set<Role>)
    requires w'.log == w.log && w'.now >= w.now
    ensures Legal(w, q) ==> Legal(w', q)
    ensures Ready(w, q, kinds) ==> Ready(w', q, kinds)
  {
    hide Follows;
  }

  lemma WriteNext(dev: Device, w: World, role: Role, frame: Frame, q: Asked)
    requires Legal(w, q) && Ready(w, q, {role}) && role != Followup
    ensures var (w', failure) := Write(dev, w, role, frame);
            && Legal(w', q) && q.from < |w'.log|
            && w'.log[|w'.log| - 1] == SetReport(role, frame, failure, w.now, w'.now)
  {
    hide Legal, Follows;
    var (w', failure) := Write(dev, w, role, frame);
    var u := SetReport(role, frame, failure, w.now, w'.now);
    assert May(w, q, u);
    Append(w, w', q, u);
  }

  /** The read that belongs to the write just made. */
  lemma ReadBack(dev: Device, w: World, w1: World, role: Role, q: Asked)
    requires Legal(w, q) && q.from < |w.log| && w1.log == w.log
    requires role in {Prepare, Status, Flush, Direct} && w1.now >= w.now + SettleMs(role) * MS
    requires var t := w.log[|w.log| - 1]; t.SetReport? && t.failure.None? && t.role == role && t.end == w.now
    ensures var (w', answer) := Read(dev, w1, role);
            && Legal(w', q) && q.from < |w'.log|
            && w'.log[|w'.log| - 1] == GetReport(role, answer, w1.now, w'.now)
  {
    hide Legal;
    var (w', answer) := Read(dev, w1, role);
    Append(w, w', q, GetReport(role, answer, w1.now, w'.now));
  }

  // ---- Polling ----

  const NEXT := {Status, Forward, Direct}

  /** After a flush that found nothing anything may come. */
  lemma AfterFlush(w: World, q: Asked)
    requires q.from < |w.log|
    requires var t := w.log[|w.log| - 1];
             && t.role == Flush && (t.SetReport? ==> t.failure.Some?)
             && (t.GetReport? && t.answer.Data? ==> Normalize(q.cmd, t.answer.frame).None?)
    ensures Ready(w, q, NEXT + {Followup})
  {
    hide Normalize;
  }

  lemma ReadCachedOrder(dev: Device, w: World, q: Asked)
    requires Legal(w, q) && Ready(w, q, {Flush})
    ensures var (w', found) := ReadCached(dev, w, q.cmd);
            Legal(w', q) && (found.None? ==> Ready(w', q, NEXT + {Followup}))
  {
    hide Legal, Normalize, FlushFrame, Ready;
    var (w1, failure) := Write(dev, w, Flush, FlushFrame());
    WriteNext(dev, w, Flush, FlushFrame(), q);
    if failure.None? {
      ReadBack(dev, w1, Sleep(dev, w1, 8), Flush, q);
    }
    var (w', found) := ReadCached(dev, w, q.cmd);
    if found.None? {
      AfterFlush(w', q);
    }
  }

  /** After an idle status exchange only a follow-up read may come at once, anything after 20 ms. */
  lemma AfterIdle(w: World, w': World, q: Asked)
    requires q.from < |w.log| && Idle(w.log[|w.log| - 1]) && w.log[|w.log| - 1].end == w.now
    requires w'.log == w.log && w'.now >= w.now + 20 * MS
    ensures Ready(w, q, {Followup}) && Ready(w', q, NEXT + {Followup})
  {
  }

  lemma Fewer(w: World, q: Asked, kinds: set<Role>, fewer: set<Role>)
    requires Ready(w, q, kinds) && fewer <= kinds
    ensures Ready(w, q, fewer)
  {
    hide Follows;
  }

  /** An announcement, or a placeholder, calls for a flush and for nothing else. */
  lemma FlushDue(w: World, q: Asked)
    requires q.from < |w.log| && CallsForFlush(w.log[|w.log| - 1], q.opts)
    requires var t := w.log[|w.log| - 1]; t.role == Direct ==> Normalize(q.cmd, t.answer.frame).None?
    ensures Ready(w, q, {Flush})
  {
    hide Normalize;
  }

  lemma PollOnceOrder(dev: Device, w: World, q: Asked)
    requires Legal(w, q) && Ready(w, q, {Status})
    ensures var (w', round) := PollOnce(dev, w, q.cmd);
            && Legal(w', q)
            && (round.Again? ==> Ready(w', q, NEXT + {Followup}))
            && (round.GiveUp? ==> Ready(w', q, {Followup}) && Ready(Sleep(dev, w', 20), q, NEXT + {Followup}))
  {
    hide Legal, Normalize, StatusFrame, Ready, ReadCached;
    var (w1, failure) := Write(dev, w, Status, StatusFrame());
    WriteNext(dev, w, Status, StatusFrame(), q);
    if failure.Some? {
      AfterIdle(w1, Sleep(dev, w1, 20), q);
    } else {
      ReadBack(dev, w1, Sleep(dev, w1, 20), Status, q);
      var (w2, status) := Read(dev, Sleep(dev, w1, 20), Status);
      if status.Failure? || !HasResponse(status.frame) {
        AfterIdle(w2, Sleep(dev, w2, 20), q);
        Later(w2, Sleep(dev, w2, 20), q, {});
      } else {
        FlushDue(w2, q);
        ReadCachedOrder(dev, w2, q);
        var (w3, found) := ReadCached(dev, w2, q.cmd);
        assert PollOnce(dev, w, q.cmd).0 == w3;
      }
    }
  }

  /** When a poll cycle finds nothing, a follow-up read may come at once, anything after a pause. */
  ghost predicate Polled(dev: Device, w: World, q: Asked, n: nat) {
    && (n > 0 ==> Ready(w, q, {Followup}))
    && Ready(Sleep(dev, w, 20), q, NEXT)
  }

  lemma {:induction false} PollCycleOrder(dev: Device, w: World, q: Asked, n: nat)
    requires Legal(w, q) && Ready(w, q, NEXT)
    ensures var (w', found) := PollCycle(dev, w, q.cmd, n);
            Legal(w', q) && (found.None? ==> Polled(dev, w', q, n))
    decreases n
  {
    hide Legal, Ready, PollOnce;
    if n == 0 {
      Later(w, Sleep(dev, w, 20), q, NEXT);
    } else {
      Fewer(w, q, NEXT, {Status});
      PollOnceOrder(dev, w, q);
      var (w1, round) := PollOnce(dev, w, q.cmd);
      match round
      case Done(_) =>
      case GiveUp => Fewer(Sleep(dev, w1, 20), q, NEXT + {Followup}, NEXT);
      case Again =>
        Fewer(w1, q, NEXT + {Followup}, NEXT);
        if n == 1 {
          Fewer(w1, q, NEXT + {Followup}, {Followup});
          Later(w1, Sleep(dev, w1, 20), q, NEXT);
        } else {
          PollCycleOrder(dev, w1, q, n - 1);
        }
    }
  }

  lemma PollRoundOrder(dev: Device, w: World, q: Asked, started: nat)
    requires Legal(w, q) && Ready(w, q, NEXT)
    ensures var (w', round) := PollRound(dev, w, q.cmd, q.opts, started);
            Legal(w', q) && (!round.Done? ==> Ready(w', q, NEXT))
  {
    hide Legal, Ready, PollCycle;
    var w1 := PollCycle(dev, w, q.cmd, q.opts.statusPolls).0;
    PollCycleOrder(dev, w, q, q.opts.statusPolls);
    var w2 := Sleep(dev, w1, 20);
    Later(w1, w2, q, {});
    Later(w2, Expired(dev, w2, q.opts.budget, started).0, q, NEXT);
  }

  lemma {:induction false} PollRoundsOrder(dev: Device, w: World, q: Asked, rounds: nat, started: nat)
    requires Legal(w, q) && Ready(w, q, NEXT)
    ensures var (w', found) := PollRounds(dev, w, q.cmd, q.opts, rounds, started);
            Legal(w', q) && (found.None? ==> Ready(w', q, NEXT))
    decreases rounds
  {
    hide Legal, Ready, PollRound;
    if rounds > 0 {
      PollRoundOrder(dev, w, q, started);
      var (w1, round) := PollRound(dev, w, q.cmd, q.opts, started);
      if round.Again? {
        PollRoundsOrder(dev, w1, q, rounds - 1, started);
      }
    }
  }

  // ---- Forwarding ----

  /** A forwarded frame that went through is given 30 ms. */
  lemma AfterForward(w: World, w': World, q: Asked)
    requires q.from < |w.log| && w'.log == w.log && w'.now >= w.now + 30 * MS
    requires var t := w.log[|w.log| - 1]; t.SetReport? && t.role == Forward && t.failure.None? && t.end == w.now
    ensures Ready(w', q, NEXT)
  {
  }

  lemma ForwardOnceOrder(dev: Device, w: World, q: Asked, own: Frame, started: nat)
    requires Legal(w, q) && Ready(w, q, NEXT)
    ensures var (w', round) := ForwardOnce(dev, w, q.cmd, own, q.opts, started);
            Legal(w', q) && (!round.Done? ==> Ready(w', q, NEXT))
  {
    hide Legal, Ready, PollRounds;
    var (w1, expired) := Expired(dev, w, q.opts.budget, started);
    Later(w, w1, q, NEXT);
    if !expired {
      Fewer(w1, q, NEXT, {Forward});
      WriteNext(dev, w1, Forward, own, q);
      var (w2, failure) := Write(dev, w1, Forward, own);
      if failure.None? {
        var w3 := Sleep(dev, w2, 30);
        Later(w2, w3, q, {});
        AfterForward(w2, w3, q);
        PollRoundsOrder(dev, w3, q, Max(q.opts.forwardPolls, 1), started);
        var (w4, found) := PollRounds(dev, w3, q.cmd, q.opts, Max(q.opts.forwardPolls, 1), started);
        assert ForwardOnce(dev, w, q.cmd, own, q.opts, started).0 == w4;
      }
    }
  }

  lemma {:induction false} ForwardSendsOrder(dev: Device, w: World, q: Asked, own: Frame, sends: nat, started: nat)
    requires Legal(w, q) && Ready(w, q, NEXT)
    ensures var (w', result) := ForwardSends(dev, w, q.cmd, own, q.opts, sends, started);
            Legal(w', q) && (result.None? ==> Ready(w', q, NEXT))
    decreases sends
  {
    hide Legal, Ready, ForwardOnce;
    if sends > 0 {
      ForwardOnceOrder(dev, w, q, own, started);
      var (w1, round) := ForwardOnce(dev, w, q.cmd, own, q.opts, started);
      if round.Again? {
        ForwardSendsOrder(dev, w1, q, own, sends - 1, started);
      }
    }
  }

  lemma AfterPrepare(w: World, q: Asked)
    requires q.from < |w.log|
    requires var t := w.log[|w.log| - 1]; t.role == Prepare && (t.SetReport? ==> t.failure.Some?)
    ensures Ready(w, q, NEXT)
  {
  }

  lemma PrepareOrder(dev: Device, w: World, q: Asked)
    requires q.from == |w.log| && q.first == Prepare
    ensures var w' := PrepareForwarding(dev, w); Legal(w', q) && Ready(w', q, NEXT)
  {
    hide Legal, Ready, PrepareFrame;
    NothingYet(w, q);
    WriteNext(dev, w, Prepare, PrepareFrame(), q);
    var (w1, failure) := Write(dev, w, Prepare, PrepareFrame());
    if failure.None? {
      ReadBack(dev, w1, Sleep(dev, w1, 2), Prepare, q);
    }
    AfterPrepare(PrepareForwarding(dev, w), q);
  }

  lemma NothingYet(w: World, q: Asked)
    requires q.from == |w.log| && q.first != Followup
    ensures Legal(w, q) && Ready(w, q, {q.first})
  {
  }

  lemma ForwardPathOrder(dev: Device, w: World, q: Asked, own: Frame)
    requires q.from == |w.log| && q.first == Prepare && !SkipsForwarding(q.opts)
    ensures var (w', result) := ForwardPath(dev, w, q.cmd, own, q.opts);
            Legal(w', q) && (result.None? ==> Ready(w', q, NEXT))
  {
    hide Legal, Ready, ForwardSends, PrepareForwarding;
    PrepareOrder(dev, w, q);
    var w1 := PrepareForwarding(dev, w);
    var w2 := ReadClock(dev, w1);
    Later(w1, w2, q, NEXT);
    ForwardSendsOrder(dev, w2, q, own, Max(q.opts.forwardSends, 1), w2.now);
  }

  // ---- The direct loop ----

  /** What a failed primary transfer needs before the next attempt. */
  lemma AfterFailure(w: World, w': World, q: Asked)
    requires q.from < |w.log| && PrimaryFailure(w.log[|w.log| - 1]).Some? && w.log[|w.log| - 1].end == w.now
    requires w'.log == w.log && w'.now >= w.now + 100 * MS
    ensures Ready(w', q, {Direct})
  {
  }

  /** After an unrecognised answer that calls for no flush the next attempt may start. */
  lemma AfterAnswer(w: World, q: Asked)
    requires q.from < |w.log|
    requires var t := w.log[|w.log| - 1];
             && t.GetReport? && t.role in {Direct, Followup} && (t.role == Direct ==> t.answer.Data?)
             && (t.answer.Data? ==> Normalize(q.cmd, t.answer.frame).None?) && !CallsForFlush(t, q.opts)
    ensures Ready(w, q, {Direct})
  {
    hide Normalize;
  }

  lemma FollowUpOrder(dev: Device, w: World, q: Asked, response: Frame)
    requires Legal(w, q) && q.from < |w.log| && Normalize(q.cmd, response).None?
    requires var t := w.log[|w.log| - 1]; t.GetReport? && t.role == Direct && t.answer == Data(response)
    ensures var (w', outcome) := FollowUp(dev, w, q.cmd, response, q.opts);
            Legal(w', q) && (!outcome.Answered? ==> Ready(w', q, {Direct}))
  {
    hide Legal, Ready, ReadCached, PollCycle, Normalize;
    assert StartsWithZeros(response) <==> IsPlaceholder(response) by { ZerosArePlaceholder(response); }
    if q.opts.allowFollowups && IsPlaceholder(response) {
      FlushDue(w, q);
      ReadCachedOrder(dev, w, q);
      var (w1, cached) := ReadCached(dev, w, q.cmd);
      if cached.None? {
        Fewer(w1, q, NEXT + {Followup}, NEXT);
        PollCycleOrder(dev, w1, q, 5);
        var (w2, polled) := PollCycle(dev, w1, q.cmd, 5);
        if polled.None? {
          FollowupOrder(dev, w2, q);
        }
      }
    } else {
      AfterAnswer(w, q);
    }
  }

  lemma ZerosArePlaceholder(response: Frame)
    ensures StartsWithZeros(response) <==> IsPlaceholder(response)
  {
    assert forall i :: 0 <= i < 8 ==> response[..8][i] == response[i];
  }

  lemma FollowupOrder(dev: Device, w: World, q: Asked)
    requires Legal(w, q) && Ready(w, q, {Followup})
    ensures var (w', answer) := Read(dev, w, Followup);
            && Legal(w', q)
            && ((answer.Data? && Normalize(q.cmd, answer.frame).Some?) || Ready(w', q, {Direct}))
  {
    hide Legal, Normalize, Follows;
    var (w', answer) := Read(dev, w, Followup);
    var u := GetReport(Followup, answer, w.now, w'.now);
    assert May(w, q, u);
    Append(w, w', q, u);
    if !(answer.Data? && Normalize(q.cmd, answer.frame).Some?) {
      AfterAnswer(w', q);
    }
  }

  lemma DirectAttemptOrder(dev: Device, w: World, q: Asked, own: Frame, attempt: nat)
    requires Legal(w, q) && Ready(w, q, {Direct})
    ensures var (w', outcome) := DirectAttempt(dev, w, q.cmd, own, q.opts, attempt);
            Legal(w', q) && (!outcome.Answered? && attempt + 1 < q.opts.retries ==> Ready(w', q, {Direct}))
  {
    hide Legal, Ready, Normalize, FollowUp;
    var (w1, failure) := Write(dev, w, Direct, own);
    WriteNext(dev, w, Direct, own, q);
    if failure.Some? {
      PausedAttempt(dev, w1, q, attempt);
    } else {
      var (w2, answer) := Read(dev, Sleep(dev, w1, DEFAULT_DELAY_MS), Direct);
      ReadBack(dev, w1, Sleep(dev, w1, DEFAULT_DELAY_MS), Direct, q);
      match answer
      case Failure(_) => PausedAttempt(dev, w2, q, attempt);
      case Data(response) =>
        if Normalize(q.cmd, response).None? {
          FollowUpOrder(dev, w2, q, response);
        }
    }
  }

  lemma PausedAttempt(dev: Device, w: World, q: Asked, attempt: nat)
    requires Legal(w, q) && q.from < |w.log|
    requires PrimaryFailure(w.log[|w.log| - 1]).Some? && w.log[|w.log| - 1].end == w.now
    ensures var w' := Pause(dev, w, q.opts, attempt);
            Legal(w', q) && (attempt + 1 < q.opts.retries ==> Ready(w', q, {Direct}))
  {
    hide Legal, Ready;
    var w' := Pause(dev, w, q.opts, attempt);
    Later(w, w', q, {});
    if attempt + 1 < q.opts.retries {
      AfterFailure(w, w', q);
    }
  }

  lemma {:induction false} DirectLoopOrder(dev: Device, w: World, q: Asked, own: Frame, attempt: nat,
                                           lastFailure: Option<string>, lastActual: byte)
    requires attempt <= q.opts.retries && Legal(w, q) && (attempt < q.opts.retries ==> Ready(w, q, {Direct}))
    ensures Legal(DirectLoop(dev, w, q.cmd, own, q.opts, attempt, lastFailure, lastActual).0, q)
    decreases q.opts.retries - attempt
  {
    hide Legal, Ready, DirectAttempt;
    if attempt < q.opts.retries {
      DirectAttemptOrder(dev, w, q, own, attempt);
      var (w1, outcome) := DirectAttempt(dev, w, q.cmd, own, q.opts, attempt);
      match outcome
      case Answered(_) =>
      case Failed(message) => DirectLoopOrder(dev, w1, q, own, attempt + 1, Some(message), lastActual);
      case Unrecognised(actual) => DirectLoopOrder(dev, w1, q, own, attempt + 1, lastFailure, actual);
    }
  }

  // ---- The whole query ----

  /** The commands a dongle answers itself. */
  predicate Local(cmd: byte) {
    cmd in {0xF0, 0xF6, 0xF7, 0xF8, 0x7A, 0xFB, 0xFC, 0xFD, 0xFE}
  }

  /**
   Every transfer of a query follows the one before it as the protocol says, against every device. The first
   one prepares the dongle iff the query goes through it; nothing comes after a recognised answer or a
   failed forwarding send.
   */
  lemma QueryOrder(dev: Device, w: World, dongle: bool, cmd: byte, own: Frame, opts: Options, i: nat)
    ensures var log := Query(dev, w, dongle, cmd, own, opts).0.log;
            && |w.log| <= |log|
            && (|w.log| < |log| ==> log[|w.log|].SetReport?)
            && (|w.log| < |log| ==>
                  log[|w.log|].role == if opts.allowForwarding && dongle && !Local(cmd) && !SkipsForwarding(opts)
                                       then Prepare else Direct)
            && (|w.log| < i < |log| ==> Follows(log[i - 1], log[i], cmd, opts))
  {
    hide Follows, Ready, DirectLoop, ForwardPath;
    var through := Forwards(dongle, cmd, opts) && !SkipsForwarding(opts);
    var q := Asked(|w.log|, if through then Prepare else Direct, cmd, opts);
    if through {
      ForwardPathOrder(dev, w, q, own);
      var (w1, first) := ForwardPath(dev, w, cmd, own, opts);
      if first.None? && opts.fallback {
        Fewer(w1, q, NEXT, {Direct});
        DirectLoopOrder(dev, w1, q, own, 0, None, 0);
      }
    } else {
      NothingYet(w, q);
      DirectLoopOrder(dev, w, q, own, 0, None, 0);
      SkippedPath(dev, w, cmd, own, opts);
    }
  }

  lemma SkippedPath(dev: Device, w: World, cmd: byte, own: Frame, opts: Options)
    ensures SkipsForwarding(opts) ==> ForwardPath(dev, w, cmd, own, opts) == (w, None)
  {
  }

  // ---- Raw queries and plain sends ----

  lemma {:induction false} RawLoopOrder(dev: Device, w: World, q: Asked, own: Frame, attempt: nat,
                                        lastFailure: Option<string>)
    requires q.opts == Regular() && attempt <= 5 && Legal(w, q) && (attempt < 5 ==> Ready(w, q, {Direct}))
    ensures Legal(RawLoop(dev, w, q.cmd, own, attempt, lastFailure).0, q)
    decreases 5 - attempt
  {
    hide Legal, Ready;
    if attempt < 5 {
      var (w1, failure) := Write(dev, w, Direct, own);
      WriteNext(dev, w, Direct, own, q);
      if failure.Some? {
        PausedAttempt(dev, w1, q, attempt);
        RawLoopOrder(dev, Pause(dev, w1, Regular(), attempt), q, own, attempt + 1, failure);
      } else {
        var (w2, answer) := Read(dev, Sleep(dev, w1, DEFAULT_DELAY_MS), Direct);
        ReadBack(dev, w1, Sleep(dev, w1, DEFAULT_DELAY_MS), Direct, q);
        if answer.Failure? {
          PausedAttempt(dev, w2, q, attempt);
          RawLoopOrder(dev, Pause(dev, w2, Regular(), attempt), q, own, attempt + 1, Some(answer.message));
        }
      }
    }
  }

  lemma {:induction false} SendLoopOrder(dev: Device, w: World, q: Asked, own: Frame, attempt: nat)
    requires attempt < 3 && Legal(w, q) && Ready(w, q, {Direct})
    ensures Legal(SendLoop(dev, w, own, attempt).0, q)
    decreases 3 - attempt
  {
    hide Legal, Ready;
    var (w1, failure) := Write(dev, w, Direct, own);
    WriteNext(dev, w, Direct, own, q);
    if failure.Some? && attempt < 2 {
      var w2 := Sleep(dev, w1, DEFAULT_DELAY_MS);
      Later(w1, w2, q, {});
      AfterFailure(w1, w2, q);
      SendLoopOrder(dev, w2, q, own, attempt + 1);
    }
  }

  /** A raw query keeps the same order, and a plain send the same pause between its at most three writes. */
  lemma RawAndSendOrder(dev: Device, w: World, cmd: byte, own: Frame, i: nat)
    ensures var log := RawLoop(dev, w, cmd, own, 0, None).0.log;
            |w.log| < i < |log| ==> Follows(log[i - 1], log[i], cmd, Regular())
    ensures var (w', result) := SendLoop(dev, w, own, 0);
            && |w'.log| <= |w.log| + 3 && (result.Err? ==> |w'.log| == |w.log| + 3)
            && (|w.log| < i < |w'.log| ==>
                  w'.log[i].SetReport? && w'.log[i].frame == own && w'.log[i].start >= w'.log[i - 1].end + 100 * MS)
  {
    hide RawLoop, SendLoop, Ready;
    var q := Asked(|w.log|, Direct, cmd, Regular());
    NothingYet(w, q);
    RawLoopOrder(dev, w, q, own, 0, None);
    SendLoopOrder(dev, w, q, own, 0);
    SendGuarantee(dev, w, own, 0);
    hide Follows;
    var log := SendLoop(dev, w, own, 0).0.log;
    if |w.log| < i < |log| {
      assert Follows(log[i - 1], log[i], cmd, Regular());
      FailedWriteThen(log[i - 1], log[i], cmd);
    }
  }

  lemma FailedWriteThen(t: Transfer, u: Transfer, cmd: byte)
    requires Follows(t, u, cmd, Regular()) && t.SetReport? && t.role == Direct && t.failure.Some?
    ensures u.start >= t.end + 100 * MS
  {
  }

  // ---- Frames and budget ----

  /** The frames of the dongle protocol, apart from their checksums. */
  lemma PollFrames(i: nat)
    requires i < 64 && i != 7
    ensures StatusFrame()[i] == (if i == 0 then 0xF7 else 0) && FlushFrame()[i] == (if i == 0 then 0xFC else 0)
    ensures PrepareFrame()[i] == if i == 0 then 0xFE else if i == 1 then 64 else 0
  {
    hide Sum;
  }

  /** Forwarding sends at or after index `from` start before the deadline. */
  ghost predicate SendsBefore(log: seq<Transfer>, from: nat, deadline: int) {
    forall i :: from <= i < |log| && log[i].role == Forward ==> log[i].start < deadline
  }

  lemma NoSends(w: World, w': World, own: Frame, roles: set<Role>, cost: Cost, from: nat, deadline: int)
    requires Stretch(w, w', own, roles, cost) && Forward !in roles && SendsBefore(w.log, from, deadline)
    ensures SendsBefore(w'.log, from, deadline)
  {
    hide RightTransfer, Spends;
    forall i | from <= i < |w'.log| && w'.log[i].role == Forward ensures w'.log[i].start < deadline {
      assert i < |w.log| ==> w'.log[..|w.log|][i] == w.log[i];
    }
  }

  lemma SendInTime(dev: Device, w: World, own: Frame, from: nat, deadline: int)
    requires SendsBefore(w.log, from, deadline) && w.now < deadline
    ensures SendsBefore(Write(dev, w, Forward, own).0.log, from, deadline)
  {
  }

  lemma {:induction false} SendsInBudget(dev: Device, w: World, cmd: byte, own: Frame, opts: Options, sends: nat,
                                         started: nat, from: nat)
    requires opts.budget.Some? && SendsBefore(w.log, from, started + opts.budget.value)
    ensures SendsBefore(ForwardSends(dev, w, cmd, own, opts, sends, started).0.log, from, started + opts.budget.value)
    decreases sends
  {
    hide PollRounds, SendsBefore, Stretch, Write;
    var (w1, expired) := Expired(dev, w, opts.budget, started);
    if sends > 0 && !expired {
      var polls, deadline := Max(opts.forwardPolls, 1), started + opts.budget.value;
      SendInTime(dev, w1, own, from, deadline);
      var (w2, failure) := Write(dev, w1, Forward, own);
      if failure.None? {
        var w3 := Sleep(dev, w2, 30);
        var (w4, found) := PollRounds(dev, w3, cmd, opts, polls, started);
        PollRoundsStretch(dev, w3, cmd, opts, polls, started, own, POLL_ROLES);
        NoSends(w3, w4, own, POLL_ROLES, Times(polls, RoundCost(opts)), from, deadline);
        if found.None? {
          SendsInBudget(dev, w4, cmd, own, opts, sends - 1, started, from);
        }
      }
    }
  }

  /** With a budget no forwarding send starts later than that long after the exchange that prepared it. */
  lemma BudgetKept(dev: Device, w: World, dongle: bool, cmd: byte, own: Frame, opts: Options, i: nat)
    requires opts.budget.Some?
    ensures var log, prepared := Query(dev, w, dongle, cmd, own, opts).0.log, PrepareForwarding(dev, w);
            |w.log| <= i < |log| && log[i].role == Forward ==>
              log[i].start < prepared.now + dev.lag(prepared) + opts.budget.value
  {
    hide DirectLoop, ForwardSends, PrepareForwarding, Stretch, SendsBefore, IsDongleLocal, DirectCost;
    var w1, w' := ReadClock(dev, PrepareForwarding(dev, w)), Query(dev, w, dongle, cmd, own, opts).0;
    var deadline := w1.now + opts.budget.value;
    if !Forwards(dongle, cmd, opts) {
      DirectPart(dev, w, cmd, own, opts);
      NothingSent(w.log, deadline);
      NoSends(w, w', own, DirectRoles(opts), DirectCost(opts, cmd), |w.log|, deadline);
    } else {
      PreparationSends(dev, w, deadline);
      SendsInBudget(dev, w1, cmd, own, opts, Max(opts.forwardSends, 1), w1.now, |w.log|);
      var (w2, first) := ForwardPath(dev, w, cmd, own, opts);
      if first.None? && opts.fallback {
        DirectPart(dev, w2, cmd, own, opts);
        NoSends(w2, w', own, DirectRoles(opts), DirectCost(opts, cmd), |w.log|, deadline);
      }
    }
    AtIndex(w'.log, |w.log|, deadline, i);
  }

  lemma NothingSent(log: seq<Transfer>, deadline: int)
    ensures SendsBefore(log, |log|, deadline)
  {
  }

  lemma AtIndex(log: seq<Transfer>, from: nat, deadline: int, i: nat)
    requires SendsBefore(log, from, deadline)
    ensures from <= i < |log| && log[i].role == Forward ==> log[i].start < deadline
  {
  }

  lemma PreparationSends(dev: Device, w: World, deadline: int)
    ensures SendsBefore(PrepareForwarding(dev, w).log, |w.log|, deadline)
  {
    hide PrepareFrame;
  }
}
