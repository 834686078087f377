/** The worker loop that feeds one keyboard's reports to its virtual keyboard, and its four exits. */
module InputWorker {
  import opened Bytes
  import opened Keymap
  import opened InputSpec
  import InputProofs
  import opened InputEngine

  const DISCONNECT_ERROR_THRESHOLD := 10

  type Buffer = b: seq<byte> | |b| == 8 witness Zeros(8)

  /** What one interrupt read yields: `length` bytes of the buffer, a lost device, or another error. */
  datatype Read = Received(length: nat, buffer: Buffer, now: Instant) | Disconnected | Failed

  /** Everything the outside decides about one turn of the loop. */
  datatype Tick = Tick(shutdown: bool, metricsDue: bool, read: Read, emitOk: bool)

  datatype Exit = Running | Shutdown | Lost | TooManyErrors | EmitFailed

  /** The full reports among some turns, as operations of the input engine. */
  function Ops(ticks: seq<Tick>): seq<Op> {
    if ticks == [] then []
    else
      var last := ticks[|ticks| - 1].read;
      Ops(ticks[..|ticks| - 1]) +
      if last.Received? && last.length >= 8 then [Report(last.buffer, last.now)] else []
  }

  /** How many reads in a row have just failed. */
  function FailingStreak(ticks: seq<Tick>): nat {
    if ticks == [] || !ticks[|ticks| - 1].read.Failed? then 0
    else FailingStreak(ticks[..|ticks| - 1]) + 1
  }

  function StateBefore(debounceMs: nat, script: seq<Tick>, j: nat): (p: Processor)
    requires j <= |script|
    ensures |p.released| == 256
  {
    Run(New(debounceMs), Ops(script[..j]))
  }

  /** Why the loop leaves in a turn that starts in state `p` and makes the error count `failures`. */
  function TurnExit(p: Processor, tick: Tick, failures: nat): Exit
    requires |p.released| == 256
  {
    if tick.shutdown then Shutdown
    else
      match tick.read
      case Disconnected => Lost
      case Failed => if failures >= DISCONNECT_ERROR_THRESHOLD then TooManyErrors else Running
      case Received(length, buffer, now) =>
        if length >= 8 && !tick.emitOk && Emit(p, Report(buffer, now)) != [] then EmitFailed else Running
  }

  /** Why the loop leaves in turn `j`, given that it reached it. */
  function ExitAt(debounceMs: nat, script: seq<Tick>, j: nat): Exit
    requires j < |script|
  {
    TurnExit(StateBefore(debounceMs, script, j), script[j], FailingStreak(script[..j + 1]))
  }

  /** What a turn delivers to the virtual keyboard: its events, or a release of everything on exit. */
  function TurnEvents(p: Processor, tick: Tick, exit: Exit): seq<KeyAction>
    requires |p.released| == 256
  {
    if !tick.emitOk then []
    else if exit in {Shutdown, Lost, TooManyErrors} then Emit(p, ReleaseAll)
    else if tick.read.Received? && tick.read.length >= 8 then Emit(p, Report(tick.read.buffer, tick.read.now))
    else []
  }

  /** A streak of `n` failures means exactly that the last `n` reads failed. */
  lemma {:induction false} StreakMeaning(ticks: seq<Tick>, n: nat)
    ensures FailingStreak(ticks) >= n <==>
            n <= |ticks| && forall i :: |ticks| - n <= i < |ticks| ==> ticks[i].read.Failed?
  {
    if n != 0 && ticks != [] {
      StreakMeaning(ticks[..|ticks| - 1], n - 1);
      if n <= |ticks| && ticks[|ticks| - 1].read.Failed? {
        assert forall i :: |ticks| - n <= i < |ticks| - 1 ==> ticks[i] == ticks[..|ticks| - 1][i];
      }
    }
  }

  /** The error exit comes with exactly the tenth failure in a row. */
  lemma TenthFailure(debounceMs: nat, script: seq<Tick>, j: nat)
    requires j < |script| && ExitAt(debounceMs, script, j) == TooManyErrors
    requires forall i :: 0 <= i < j ==> ExitAt(debounceMs, script, i) == Running
    ensures FailingStreak(script[..j + 1]) == 10
  {
    assert script[..j + 1][..j] == script[..j];
    if j > 0 {
      assert ExitAt(debounceMs, script, j - 1) == Running;
      assert script[..j][j - 1] == script[j - 1];
    }
  }

  /** A turn leaves the loop for exactly one of four reasons, each read off the script. */
  lemma ExitReasons(debounceMs: nat, script: seq<Tick>, j: nat)
    requires j < |script|
    ensures var exit, tick, ops := ExitAt(debounceMs, script, j), script[j], Ops(script[..j]);
            && (exit == Shutdown <==> tick.shutdown)
            && (exit == Lost <==> !tick.shutdown && tick.read.Disconnected?)
            && (exit == TooManyErrors <==>
                  !tick.shutdown && j >= 9 && forall i :: j - 9 <= i <= j ==> script[i].read.Failed?)
            && (exit == EmitFailed <==>
                  && !tick.shutdown && tick.read.Received? && tick.read.length >= 8 && !tick.emitOk
                  && Trace(New(debounceMs), ops + [Report(tick.read.buffer, tick.read.now)])
                       != Trace(New(debounceMs), ops))
  {
    hide Emit, Apply, FailingStreak, Trace;
    TenFailures(script, j);
    if script[j].read.Received? {
      ReportShows(debounceMs, Ops(script[..j]), Report(script[j].read.buffer, script[j].read.now));
    }
  }

  lemma TenFailures(script: seq<Tick>, j: nat)
    requires j < |script|
    ensures FailingStreak(script[..j + 1]) >= 10 <==> j >= 9 && forall i :: j - 9 <= i <= j ==> script[i].read.Failed?
  {
    var before := script[..j + 1];
    StreakMeaning(before, 10);
    assert forall i :: 0 <= i <= j ==> before[i] == script[i];
  }

  /** An operation shows in the events of a run iff it emits any. */
  lemma ReportShows(debounceMs: nat, ops: seq<Op>, op: Op)
    ensures Trace(New(debounceMs), ops + [op]) != Trace(New(debounceMs), ops) <==>
              Emit(Run(New(debounceMs), ops), op) != []
  {
    hide Emit, Apply;
    RunStep(New(debounceMs), ops, [op]);
  }

  /** The operations are exactly the reads of at least eight bytes, in the order of the turns. */
  lemma {:induction false} OpsMeaning(ticks: seq<Tick>, j: nat)
    requires j < |ticks|
    ensures var read, n := ticks[j].read, |Ops(ticks[..j])|;
            if read.Received? && read.length >= 8
            then n < |Ops(ticks)| && Ops(ticks)[n] == Report(read.buffer, read.now) && |Ops(ticks[..j + 1])| == n + 1
            else |Ops(ticks[..j + 1])| == n
    ensures Ops(ticks[..j]) <= Ops(ticks)
  {
    if j < |ticks| - 1 {
      var init := ticks[..|ticks| - 1];
      OpsMeaning(init, j);
      assert init[..j] == ticks[..j] && init[..j + 1] == ticks[..j + 1];
    } else {
      assert ticks[..j + 1] == ticks;
    }
  }

  function Forget(p: Processor): Processor {
    p.(metrics := NO_METRICS)
  }

  /** Counters never influence tracking or events. */
  lemma CountersIrrelevant(p: Processor, q: Processor, op: Op)
    requires |p.released| == 256 && |q.released| == 256 && Forget(p) == Forget(q)
    ensures Emit(p, op) == Emit(q, op) && Forget(Apply(p, op)) == Forget(Apply(q, op))
  {
    hide HidToLinux, ModifierEdges;
    if op.Report? && |op.bytes| >= 8 {
      var keys := Keys(op.bytes);
      FreshIgnoresCounters(p, q, keys, op.now);
      assert NewSlots(p, keys, op.now) == NewSlots(q, keys, op.now);
      assert NewReleased(p, keys, op.now) == NewReleased(q, keys, op.now);
    }
  }

  lemma {:induction false} FreshIgnoresCounters(p: Processor, q: Processor, keys: seq<byte>, now: Instant)
    requires |p.released| == 256 && |q.released| == 256 && Forget(p) == Forget(q)
    ensures PressedCodes(p, keys, now) == PressedCodes(q, keys, now)
  {
    hide HidToLinux;
    if keys != [] {
      FreshIgnoresCounters(p, q, keys[..|keys| - 1], now);
    }
  }

  /** One turn of the loop, against a counter-free twin of the processor's state. */
  method Turn(processor: InputProcessor, tick: Tick, errors: nat, ghost twin: Processor)
      returns (exit: Exit, events: seq<KeyAction>, newErrors: nat)
    requires processor.Valid() && |twin.released| == 256 && Forget(processor.Model()) == Forget(twin)
    modifies processor, processor.releaseTimes
    ensures processor.Valid() && fresh({processor.prevKeys} - {old(processor.prevKeys)})
    ensures fresh({processor.releaseTimes} - {old(processor.releaseTimes)})
    ensures newErrors == if tick.read.Failed? then errors + 1 else 0
    ensures exit == TurnExit(twin, tick, newErrors) && events == TurnEvents(twin, tick, exit)
    ensures exit == Running ==> Forget(processor.Model()) == Forget(Run(twin, Ops([tick])))
  {
    hide Emit, Apply;
    if tick.metricsDue {
      var _ := processor.TakeMetrics();
    }
    CountersIrrelevant(processor.Model(), twin, ReleaseAll);
    exit, events, newErrors := Running, [], if tick.read.Failed? then errors + 1 else 0;
    if tick.shutdown {
      exit := Shutdown;
    } else if tick.read.Disconnected? {
      exit := Lost;
    } else if tick.read.Failed? {
      if newErrors >= DISCONNECT_ERROR_THRESHOLD {
        exit := TooManyErrors;
      }
    } else if tick.read.length >= 8 {
      ghost var op := Report(tick.read.buffer, tick.read.now);
      CountersIrrelevant(processor.Model(), twin, op);
      events := processor.ProcessReportAt(tick.read.buffer, tick.read.now);
      assert [op][..0] == [] && Run(twin, [op]) == Apply(twin, op);
      if events != [] && !tick.emitOk {
        return EmitFailed, [], 0;
      }
    }
    if exit != Running {
      events := processor.ReleaseAllKeys();
      events := if tick.emitOk then events else [];
    }
  }

  /**
   Runs the loop over a script of outside decisions. It stops in the first turn that has a reason
   to stop; in every exit but a failed emit it releases all keys, so what the virtual keyboard
   received balances to zero.
   */
  method RunWorker(debounceMs: nat, script: seq<Tick>)
      returns (exit: Exit, delivered: seq<KeyAction>, used: nat)
    ensures used <= |script|
    ensures forall j :: 0 <= j < used ==> ExitAt(debounceMs, script, j) == Running
    ensures exit == if used < |script| then ExitAt(debounceMs, script, used) else Running
    ensures used < |script| ==> exit != Running
    ensures delivered == Trace(New(debounceMs), Ops(script[..used])) +
              if used < |script| then TurnEvents(StateBefore(debounceMs, script, used), script[used], exit) else []
    ensures exit in {Shutdown, Lost, TooManyErrors} && script[used].emitOk ==>
              forall keycode: nat :: keycode != 0 ==> Balance(delivered, keycode) == 0
  {
    hide Emit, Apply, Balance, TurnExit, TurnEvents, Trace, Run, Ops, New;
    var processor := new InputProcessor(debounceMs);
    delivered := [];
    used := 0;
    var errors := 0;
    Start(debounceMs, script);
    while used < |script|
      invariant used <= |script|
      invariant fresh(processor) && fresh(processor.prevKeys) && fresh(processor.releaseTimes) && processor.Valid()
      invariant Forget(processor.Model()) == Forget(StateBefore(debounceMs, script, used))
      invariant delivered == Trace(New(debounceMs), Ops(script[..used]))
      invariant errors == FailingStreak(script[..used])
      invariant forall j :: 0 <= j < used ==> ExitAt(debounceMs, script, j) == Running
    {
      var tick := script[used];
      ghost var before := StateBefore(debounceMs, script, used);
      var events;
      exit, events, errors := Turn(processor, tick, errors, before);
      assert script[..used + 1][..used] == script[..used];
      delivered := delivered + events;
      if exit != Running {
        if exit in {Shutdown, Lost, TooManyErrors} && tick.emitOk {
          ExitBalanced(debounceMs, script, used);
        }
        return;
      }
      NextState(debounceMs, script, used);
      used := used + 1;
    }
    exit := Running;
  }

  lemma Start(debounceMs: nat, script: seq<Tick>)
    ensures script[..0] == [] && Ops([]) == [] && StateBefore(debounceMs, script, 0) == New(debounceMs)
    ensures Trace(New(debounceMs), []) == []
  {
  }

  lemma OpsStep(script: seq<Tick>, j: nat)
    requires j < |script|
    ensures Ops(script[..j + 1]) == Ops(script[..j]) + Ops([script[j]]) && |Ops([script[j]])| <= 1
  {
    assert script[..j + 1][..j] == script[..j];
    assert [script[j]][..0] == [];
  }

  lemma RunStep(p: Processor, ops: seq<Op>, more: seq<Op>)
    requires |p.released| == 256 && |more| <= 1
    ensures Run(p, ops + more) == Run(Run(p, ops), more)
    ensures Trace(p, ops + more) == Trace(p, ops) + if more == [] then [] else Emit(Run(p, ops), more[0])
  {
    hide Emit, Apply;
    if more != [] {
      assert (ops + more)[..|ops|] == ops && more[..0] == [];
    } else {
      assert ops + more == ops;
    }
  }

  /** A turn that goes on extends the history by its full report, and its events are the history's. */
  lemma NextState(debounceMs: nat, script: seq<Tick>, j: nat)
    requires j < |script| && ExitAt(debounceMs, script, j) == Running
    ensures StateBefore(debounceMs, script, j + 1) == Run(StateBefore(debounceMs, script, j), Ops([script[j]]))
    ensures Trace(New(debounceMs), Ops(script[..j + 1])) ==
            Trace(New(debounceMs), Ops(script[..j])) +
            TurnEvents(StateBefore(debounceMs, script, j), script[j], Running)
  {
    hide Emit, Apply, Run, Trace;
    OpsStep(script, j);
    RunStep(New(debounceMs), Ops(script[..j]), Ops([script[j]]));
    assert [script[j]][..0] == [];
  }

  lemma ExitBalanced(debounceMs: nat, script: seq<Tick>, j: nat)
    requires j < |script| && script[j].emitOk
    requires ExitAt(debounceMs, script, j) in {Shutdown, Lost, TooManyErrors}
    ensures var events := Trace(New(debounceMs), Ops(script[..j])) +
                          TurnEvents(StateBefore(debounceMs, script, j), script[j], ExitAt(debounceMs, script, j));
            forall keycode: nat :: keycode != 0 ==> Balance(events, keycode) == 0
  {
    hide Emit, Apply, Balance, TurnExit;
    var ops, p := Ops(script[..j]), StateBefore(debounceMs, script, j);
    var events := Trace(New(debounceMs), ops) + TurnEvents(p, script[j], ExitAt(debounceMs, script, j));
    assert (ops + [ReleaseAll])[..|ops|] == ops;
    assert events == Trace(New(debounceMs), ops + [ReleaseAll]);
    forall keycode: nat | keycode != 0 ensures Balance(events, keycode) == 0 {
      InputProofs.NoStuckKeys(debounceMs, ops, keycode);
    }
  }
}
