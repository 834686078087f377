/** The report processor in its imperative form: loops over bits and slots with local seen-tables. */
module InputEngine {
  import opened Bytes
  import opened Keymap
  import opened InputSpec
  import InputProofs

  lemma ReleaseStep(slots: seq<byte>, i: nat, keys: seq<byte>)
    requires i < |slots|
    ensures slots[..i + 1] == slots[..i] + [slots[i]]
    ensures var first := slots[i] != 0 && slots[i] !in slots[..i];
            && Duplicates(slots[..i + 1]) == Duplicates(slots[..i]) + (if slots[i] != 0 && !first then 1 else 0)
            && Actions(ReleasedCodes(slots[..i + 1], keys), RELEASE) ==
               Actions(ReleasedCodes(slots[..i], keys), RELEASE) +
               if first && slots[i] !in keys && HidToLinux(slots[i]) != 0
               then [KeyAction(HidToLinux(slots[i]), RELEASE)] else []
  {
  }

  lemma NothingYet(p: Processor, keys: seq<byte>, now: Instant)
    requires |p.released| == 256
    ensures Duplicates([]) == |SuppressedCodes(p, [], now)| == 0
    ensures Actions(ReleasedCodes([], keys), RELEASE) == Actions(PressedCodes(p, [], now), PRESS) == []
  {
  }

  lemma PressStep(p: Processor, keys: seq<byte>, i: nat, now: Instant)
    requires i < |keys| && |p.released| == 256
    ensures keys[..i + 1] == keys[..i] + [keys[i]]
    ensures var first := keys[i] != 0 && keys[i] !in keys[..i];
            && Duplicates(keys[..i + 1]) == Duplicates(keys[..i]) + (if keys[i] != 0 && !first then 1 else 0)
            && |SuppressedCodes(p, keys[..i + 1], now)| == |SuppressedCodes(p, keys[..i], now)| +
               (if first && !Tracks(p, keys[i], now) then 1 else 0)
            && Actions(PressedCodes(p, keys[..i + 1], now), PRESS) == Actions(PressedCodes(p, keys[..i], now), PRESS) +
               if first && Fresh(p, keys[i], now) then [KeyAction(HidToLinux(keys[i]), PRESS)] else []
  {
  }

  lemma NoBits(bit: nat)
    requires bit < 8
    ensures !Bit(0, bit)
  {
  }

  lemma NewSlotAt(p: Processor, keys: seq<byte>, i: nat, now: Instant)
    requires i < |keys| && |p.released| == 256
    ensures |NewSlots(p, keys, now)| == |keys|
    ensures var kept := keys[i] != 0 && keys[i] !in keys[..i] && Tracks(p, keys[i], now);
            NewSlots(p, keys, now)[i] == if kept then keys[i] else 0
  {
  }

  lemma ValidIgnoresCounters(p: Processor, q: Processor)
    requires InputSpec.Valid(p) && q == p.(metrics := q.metrics)
    ensures InputSpec.Valid(q)
  {
  }

  /** Stamping releases depends on no counter and touches no code of the report. */
  lemma ClocksIgnoreCounters(p: Processor, q: Processor, keys: seq<byte>, now: Instant)
    requires |p.released| == 256 && q == p.(metrics := q.metrics)
    ensures NewReleased(q, keys, now) == NewReleased(p, keys, now) && |NewReleased(p, keys, now)| == 256
    ensures forall h: byte :: h in keys ==> NewReleased(p, keys, now)[h] == p.released[h]
  {
  }

  class InputProcessor {
    var prevModifiers: byte
    var prevKeys: array<byte>
    const debounceMs: nat
    var releaseTimes: array<Option<Instant>>
    var metrics: Metrics

    ghost predicate Sized()
      reads this
    {
      prevKeys as object != releaseTimes && prevKeys.Length == SLOTS && releaseTimes.Length == 256
    }

    ghost predicate Valid()
      reads this, prevKeys, releaseTimes
    {
      Sized() && InputSpec.Valid(Model())
    }

    ghost function Model(): Processor
      reads this, prevKeys, releaseTimes
    {
      Processor(prevModifiers, prevKeys[..], debounceMs, releaseTimes[..], metrics)
    }

    constructor (debounceMs: nat)
      ensures Valid() && fresh(prevKeys) && fresh(releaseTimes)
      ensures Model() == New(debounceMs)
    {
      prevModifiers := 0;
      prevKeys := new byte[SLOTS](i => 0);
      this.debounceMs := debounceMs;
      releaseTimes := new Option<Instant>[256](i => None);
      metrics := NO_METRICS;
      new;
      assert prevKeys[..] == Zeros(SLOTS);
      assert releaseTimes[..] == seq(256, h => None);
    }

    /** One report, at an explicit time: the new state and the events are those of the specification. */
    method ProcessReportAt(report: seq<byte>, now: Instant) returns (actions: seq<KeyAction>)
      requires Valid()
      modifies this, releaseTimes
      ensures Valid() && fresh({prevKeys} - {old(prevKeys)}) && releaseTimes == old(releaseTimes)
      ensures Model() == Apply(old(Model()), Report(report, now))
      ensures actions == Emit(old(Model()), Report(report, now))
    {
      hide HidToLinux, ModifierEdges, Firsts, InputSpec.Valid, NewSlots, NewReleased, Actions, Duplicates;
      hide ReleasedCodes, PressedCodes, SuppressedCodes;
      ghost var p := Model();
      metrics := metrics.(reportsTotal := metrics.reportsTotal + 1);
      if |report| < 8 {
        metrics := metrics.(reportsShort := metrics.reportsShort + 1);
        ValidIgnoresCounters(p, Model());
        return [];
      }
      var modifiers, keys := report[0], report[2..8];
      ClocksIgnoreCounters(p, Model(), keys, now);
      actions := ModifierEvents(prevModifiers, modifiers);
      var released := ReleaseMissing(keys, now);
      actions := actions + released;
      var newKeys, pressed := PressFresh(keys, now, p);
      actions := actions + pressed;
      prevModifiers := modifiers;
      prevKeys := newKeys;
      metrics := metrics.(actionsEmitted := metrics.actionsEmitted + |actions|);
      assert InputSpec.Valid(Apply(p, Report(report, now))) by { InputProofs.ReportRefinesSets(p, report, now); }
    }

    method ModifierEvents(before: byte, after: byte) returns (actions: seq<KeyAction>)
      ensures actions == ModifierEdges(before, after, RELEASE, 8) + ModifierEdges(before, after, PRESS, 8)
    {
      hide Bit, ModifierKeycode;
      actions := [];
      for bit := 0 to 8
        invariant actions == ModifierEdges(before, after, RELEASE, bit)
      {
        if Bit(before, bit) && !Bit(after, bit) {
          actions := actions + [KeyAction(ModifierKeycode(bit), RELEASE)];
        }
      }
      for bit := 0 to 8
        invariant actions == ModifierEdges(before, after, RELEASE, 8) + ModifierEdges(before, after, PRESS, bit)
      {
        if !Bit(before, bit) && Bit(after, bit) {
          actions := actions + [KeyAction(ModifierKeycode(bit), PRESS)];
        }
      }
    }

    /** Releases every tracked code missing from `keys` and stamps its release time. */
    method ReleaseMissing(keys: seq<byte>, now: Instant) returns (actions: seq<KeyAction>)
      requires Sized()
      modifies this`metrics, releaseTimes
      ensures actions == Actions(ReleasedCodes(prevKeys[..], keys), RELEASE)
      ensures prevKeys[..] == old(prevKeys[..])
      ensures releaseTimes[..] == NewReleased(old(Model()), keys, now)
      ensures metrics == old(metrics).(duplicatePrev := old(metrics).duplicatePrev + Duplicates(prevKeys[..]))
    {
      hide HidToLinux, Firsts, Duplicates, ReleasedCodes, Actions;
      var seen := new bool[256](i => false);
      actions := [];
      NothingYet(Model(), keys, now);
      assert prevKeys[..0] == [];
      for i := 0 to SLOTS
        invariant prevKeys[..] == old(prevKeys[..])
        invariant forall h: byte :: seen[h] <==> h != 0 && h in prevKeys[..i]
        invariant actions == Actions(ReleasedCodes(prevKeys[..i], keys), RELEASE)
        invariant forall h: byte ::
                    var missing := h != 0 && h in prevKeys[..i] && h !in keys;
                    releaseTimes[h] == if missing then Some(now) else old(releaseTimes[h])
        invariant metrics == old(metrics).(duplicatePrev := old(metrics).duplicatePrev + Duplicates(prevKeys[..i]))
      {
        var hid := prevKeys[i];
        ReleaseStep(prevKeys[..], i, keys);
        if hid == 0 {
          continue;
        }
        if seen[hid] {
          metrics := metrics.(duplicatePrev := metrics.duplicatePrev + 1);
          continue;
        }
        seen[hid] := true;
        if hid !in keys {
          var keycode := HidToLinux(hid);
          if keycode != 0 {
            actions := actions + [KeyAction(keycode, RELEASE)];
          }
          releaseTimes[hid] := Some(now);
        }
      }
      assert prevKeys[..SLOTS] == prevKeys[..];
    }

    /** Presses every fresh code of `keys` and builds the next slot array. */
    method PressFresh(keys: seq<byte>, now: Instant, ghost p: Processor)
        returns (newKeys: array<byte>, actions: seq<KeyAction>)
      requires Sized() && |keys| == SLOTS && |p.released| == 256
      requires p.slots == prevKeys[..] && p.debounceMs == debounceMs
      requires forall h: byte :: h != 0 && h in keys ==> releaseTimes[h] == p.released[h]
      modifies this`metrics
      ensures fresh(newKeys) && newKeys.Length == SLOTS && newKeys[..] == NewSlots(p, keys, now)
      ensures actions == Actions(PressedCodes(p, keys, now), PRESS)
      ensures metrics == old(metrics).(
        suppressed := old(metrics).suppressed + |SuppressedCodes(p, keys, now)|,
        duplicateCurrent := old(metrics).duplicateCurrent + Duplicates(keys))
    {
      hide HidToLinux, Firsts, Duplicates, NewSlots, PressedCodes, SuppressedCodes, Actions;
      var seen := new bool[256](i => false);
      newKeys := new byte[SLOTS](i => 0);
      actions := [];
      NothingYet(p, keys, now);
      NewSlotAt(p, keys, 0, now);
      assert keys[..0] == [];
      for i := 0 to SLOTS
        invariant forall h: byte :: seen[h] <==> h != 0 && h in keys[..i]
        invariant forall j :: 0 <= j < i ==> newKeys[j] == NewSlots(p, keys, now)[j]
        invariant forall j :: i <= j < SLOTS ==> newKeys[j] == 0
        invariant actions == Actions(PressedCodes(p, keys[..i], now), PRESS)
        invariant metrics == old(metrics).(
          suppressed := old(metrics).suppressed + |SuppressedCodes(p, keys[..i], now)|,
          duplicateCurrent := old(metrics).duplicateCurrent + Duplicates(keys[..i]))
      {
        var hid := keys[i];
        PressStep(p, keys, i, now);
        NewSlotAt(p, keys, i, now);
        if hid == 0 {
          continue;
        }
        if seen[hid] {
          metrics := metrics.(duplicateCurrent := metrics.duplicateCurrent + 1);
          continue;
        }
        seen[hid] := true;
        if hid in prevKeys[..] {
          newKeys[i] := hid;
          continue;
        }
        var keycode := HidToLinux(hid);
        if keycode == 0 {
          newKeys[i] := hid;
          continue;
        }
        if debounceMs > 0 && releaseTimes[hid].Some? &&
           Elapsed(now, releaseTimes[hid].value) / NANOS_PER_MILLI < debounceMs {
          metrics := metrics.(suppressed := metrics.suppressed + 1);
          continue;
        }
        actions := actions + [KeyAction(keycode, PRESS)];
        newKeys[i] := hid;
      }
      assert keys[..SLOTS] == keys;
    }

    /** Hands out the counters of the current window and starts a new one. */
    method TakeMetrics() returns (snapshot: Metrics)
      requires Valid()
      modifies this`metrics
      ensures Valid() && snapshot == old(metrics)
      ensures Model() == old(Model()).(metrics := NO_METRICS)
    {
      snapshot := metrics;
      metrics := NO_METRICS;
    }

    /** Releases everything that is held and forgets all release times. */
    method ReleaseAllKeys() returns (actions: seq<KeyAction>)
      requires Valid()
      modifies this
      ensures Valid() && fresh(prevKeys) && fresh(releaseTimes)
      ensures Model() == Apply(old(Model()), ReleaseAll)
      ensures actions == Emit(old(Model()), ReleaseAll)
    {
      hide HidToLinux, Firsts, Duplicates, ModifierKeycode, ReleasedCodes, Actions, Bit;
      var seen := new bool[256](i => false);
      actions := [];
      NothingYet(Model(), [], 0);
      assert prevKeys[..0] == [];
      for i := 0 to SLOTS
        invariant unchanged(this)
        invariant forall h: byte :: seen[h] <==> h != 0 && h in prevKeys[..i]
        invariant actions == Actions(ReleasedCodes(prevKeys[..i], []), RELEASE)
      {
        var hid := prevKeys[i];
        ReleaseStep(prevKeys[..], i, []);
        if hid == 0 {
          continue;
        }
        if seen[hid] {
          continue;
        }
        seen[hid] := true;
        var keycode := HidToLinux(hid);
        if keycode != 0 {
          actions := actions + [KeyAction(keycode, RELEASE)];
        }
      }
      assert prevKeys[..SLOTS] == prevKeys[..];
      ghost var keyActions := actions;
      for bit := 0 to 8
        invariant unchanged(this)
        invariant actions == keyActions + ModifierEdges(prevModifiers, 0, RELEASE, bit)
      {
        NoBits(bit);
        if Bit(prevModifiers, bit) {
          actions := actions + [KeyAction(ModifierKeycode(bit), RELEASE)];
        }
      }
      prevModifiers := 0;
      prevKeys := new byte[SLOTS](i => 0);
      releaseTimes := new Option<Instant>[256](i => None);
      assert prevKeys[..] == Zeros(SLOTS);
      assert releaseTimes[..] == seq(256, h => None);
    }
  }
}
