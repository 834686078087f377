/** What every run of the keyboard input engine guarantees. */
module InputProofs {
  import opened Bytes
  import opened Keymap
  import opened InputSpec

  // ---- Events and balances ----

  lemma {:induction false} BalanceConcat(a: seq<KeyAction>, b: seq<KeyAction>, keycode: nat)
    ensures Balance(a + b, keycode) == Balance(a, keycode) + Balance(b, keycode)
  {
    if b == [] {
      assert a + b == a;
    } else {
      assert (a + b)[..|a + b| - 1] == a + b[..|b| - 1];
      BalanceConcat(a, b[..|b| - 1], keycode);
    }
  }

  ghost predicate NoRepeats(codes: seq<byte>) {
    forall i, j :: 0 <= i < j < |codes| ==> codes[i] != codes[j]
  }

  lemma {:induction false} FirstsElements(slots: seq<byte>, keep: byte -> bool)
    ensures forall h :: h in Firsts(slots, keep) <==> h in Codes(slots) && keep(h)
    ensures NoRepeats(Firsts(slots, keep))
  {
    if slots != [] {
      var init, h := slots[..|slots| - 1], slots[|slots| - 1];
      FirstsElements(init, keep);
      assert slots == init + [h];
      assert forall x :: x in Codes(slots) <==> x in Codes(init) || (x == h && h != 0);
      if h != 0 && h !in init && keep(h) {
        assert Firsts(slots, keep) == Firsts(init, keep) + [h];
        assert h !in Firsts(init, keep);
      } else {
        assert Firsts(slots, keep) == Firsts(init, keep);
      }
    }
  }

  /** A duplicate-free list of codes moves the balance by the number of codes that produce the keycode. */
  lemma {:induction false} CodesBalance(codes: seq<byte>, value: int, keycode: nat)
    requires NoRepeats(codes)
    ensures var n := |Producing(Elements(codes), keycode)|;
            Balance(Actions(codes, value), keycode) == if value == PRESS then n else -n
  {
    hide HidToLinux, Producing, Elements, Actions;
    if codes == [] {
      assert Producing(Elements(codes), keycode) == {} by { NothingProduced(keycode); }
      assert Actions(codes, value) == [] by { ActionsShape(codes, value); }
    } else {
      var init, h := codes[..|codes| - 1], codes[|codes| - 1];
      assert codes == init + [h] && h !in init;
      CodesBalance(init, value, keycode);
      ActionsShape(codes, value);
      ProducingOneMore(init, h, keycode);
    }
  }

  lemma NothingProduced(keycode: nat)
    ensures Producing(Elements([]), keycode) == {}
  {
  }

  lemma ActionsShape(codes: seq<byte>, value: int)
    ensures |Actions(codes, value)| == |codes|
    ensures codes != [] ==>
              var init, h := codes[..|codes| - 1], codes[|codes| - 1];
              Actions(codes, value) == Actions(init, value) + [KeyAction(HidToLinux(h), value)]
  {
    hide HidToLinux;
  }

  lemma ProducingOneMore(init: seq<byte>, h: byte, keycode: nat)
    requires h !in init
    ensures var more := Producing(Elements(init), keycode);
            && h !in more
            && Producing(Elements(init + [h]), keycode) == if HidToLinux(h) == keycode then more + {h} else more
  {
    hide HidToLinux;
    assert Elements(init + [h]) == Elements(init) + {h};
  }

  function ModifiersKept(before: byte, after: byte, keycode: nat, bits: nat): nat
    requires bits <= 8
  {
    if bits == 0 then 0
    else ModifiersKept(before, after, keycode, bits - 1) +
         if Bit(before, bits - 1) && Bit(after, bits - 1) && ModifierKeycode(bits - 1) == keycode then 1 else 0
  }

  lemma {:induction false} ModifierBalance(before: byte, after: byte, keycode: nat, bits: nat)
    requires bits <= 8
    ensures ModifiersOn(before, keycode, bits) + Balance(ModifierEdges(before, after, RELEASE, bits), keycode)
         == ModifiersKept(before, after, keycode, bits)
    ensures ModifiersKept(before, after, keycode, bits) + Balance(ModifierEdges(before, after, PRESS, bits), keycode)
         == ModifiersOn(after, keycode, bits)
  {
    if bits != 0 {
      hide ModifierKeycode, Bit;
      ModifierBalance(before, after, keycode, bits - 1);
      var was, now, code := Bit(before, bits - 1), Bit(after, bits - 1), ModifierKeycode(bits - 1);
      var up := if !was && now then [KeyAction(code, PRESS)] else [];
      var down := if was && !now then [KeyAction(code, RELEASE)] else [];
      BalanceConcat(ModifierEdges(before, after, RELEASE, bits - 1), down, keycode);
      BalanceConcat(ModifierEdges(before, after, PRESS, bits - 1), up, keycode);
    }
  }

  // ---- One report against the set machine ----

  /** Codes tracked after a report, on sets: no slot order, no duplicates. */
  function TrackedAfter(p: Processor, reported: set<byte>, now: Instant): set<byte>
    requires |p.released| == 256
  {
    set h | h in reported && (h in Codes(p.slots) || HidToLinux(h) == 0 || !Suppressed(p, h, now))
  }

  function Mapped(codes: set<byte>): set<byte> {
    set h | h in codes && HidToLinux(h) != 0
  }

  /** The slot loops refine the set machine: slot order and repeated codes never matter. */
  lemma ReportRefinesSets(p: Processor, bytes: seq<byte>, now: Instant)
    requires Valid(p) && |bytes| >= 8
    ensures var q, keys := Apply(p, Report(bytes, now)), Keys(bytes);
            && Valid(q) && q.modifiers == bytes[0]
            && Codes(q.slots) == TrackedAfter(p, Codes(keys), now)
            && Elements(ReleasedCodes(p.slots, keys)) == Mapped(Codes(p.slots) - Codes(keys))
            && Elements(PressedCodes(p, keys, now)) == Mapped(Codes(q.slots) - Codes(p.slots))
            && Elements(SuppressedCodes(p, keys, now)) == Codes(keys) - Codes(q.slots)
            && NoRepeats(ReleasedCodes(p.slots, keys))
            && NoRepeats(PressedCodes(p, keys, now))
            && NoRepeats(SuppressedCodes(p, keys, now))
  {
    hide HidToLinux, Suppressed;
    var q, keys := Apply(p, Report(bytes, now)), Keys(bytes);
    NewSlotsCodes(p, keys, now);
    FirstsElements(p.slots, (h: byte) => h !in keys && HidToLinux(h) != 0);
    FirstsElements(keys, (h: byte) => Fresh(p, h, now));
    FirstsElements(keys, (h: byte) => !Tracks(p, h, now));
  }

  lemma NewSlotsCodes(p: Processor, keys: seq<byte>, now: Instant)
    requires |p.released| == 256
    ensures Distinct(NewSlots(p, keys, now))
    ensures Codes(NewSlots(p, keys, now)) == TrackedAfter(p, Codes(keys), now)
  {
    hide HidToLinux, Suppressed;
    forall h | h in TrackedAfter(p, Codes(keys), now) ensures h in NewSlots(p, keys, now) {
      var i := FirstIndex(keys, h);
      assert NewSlots(p, keys, now)[i] == h;
    }
  }

  lemma {:induction false} FirstIndex(keys: seq<byte>, h: byte) returns (i: nat)
    requires h in keys
    ensures i < |keys| && keys[i] == h && h !in keys[..i]
  {
    var init := keys[..|keys| - 1];
    if h in init {
      i := FirstIndex(init, h);
      assert keys[..i] == init[..i];
    } else {
      i := |keys| - 1;
    }
  }

  // ---- Conservation ----

  lemma ModifierCapacity(modifiers: byte, keycode: nat, bits: nat)
    requires bits <= 8
    ensures ModifiersOn(modifiers, keycode, bits) <= 1
    ensures ModifiersOn(modifiers, keycode, bits) == 1 ==>
            exists bit :: 0 <= bit < bits && ModifierKeycode(bit) == keycode
  {
  }

  /** A keycode is never produced by more sources at once than the tables allow. */
  lemma HeldCapacity(codes: set<byte>, modifiers: byte, keycode: nat)
    requires keycode != 0
    ensures |Producing(codes, keycode)| + ModifiersOn(modifiers, keycode, 8) <= Capacity(keycode)
  {
    hide HidToLinux, ModifierKeycode, Bit;
    ModifierCapacity(modifiers, keycode, 8);
    var found := Producing(codes, keycode);
    if h :| h in found {
      forall g | g in found ensures g == h || {g, h} == {0x31, 0x32} {
        HidToLinuxNearlyInjective(g, h);
      }
      forall bit | 0 <= bit < 8 ensures ModifierKeycode(bit) != keycode {
        ModifierKeycodesDisjoint(bit, bit, h);
      }
      if g :| g in found && g != h {
        assert found <= {0x31, 0x32};
        SubsetSize(found, {0x31, 0x32});
        BackslashKeycode();
      } else {
        assert found == {h};
      }
    }
  }

  lemma BackslashKeycode()
    ensures HidToLinux(0x31) == HidToLinux(0x32) == 43
  {
  }

  lemma SubsetSize(a: set<byte>, b: set<byte>)
    requires a <= b
    ensures |a| <= |b|
  {
    assert b == a + (b - a);
  }

  /** Starting from balance `start`, every prefix of `actions` keeps the balance between 0 and the capacity. */
  ghost predicate Within(start: int, actions: seq<KeyAction>, keycode: nat) {
    forall n :: 0 <= n <= |actions| ==> 0 <= start + Balance(actions[..n], keycode) <= Capacity(keycode)
  }

  lemma WithinConcat(start: int, a: seq<KeyAction>, b: seq<KeyAction>, keycode: nat)
    requires Within(start, a, keycode) && Within(start + Balance(a, keycode), b, keycode)
    ensures Within(start, a + b, keycode)
  {
    forall n | 0 <= n <= |a + b|
      ensures 0 <= start + Balance((a + b)[..n], keycode) <= Capacity(keycode)
    {
      if n <= |a| {
        assert (a + b)[..n] == a[..n];
      } else {
        assert (a + b)[..n] == a + b[..n - |a|];
        BalanceConcat(a, b[..n - |a|], keycode);
      }
    }
  }

  /** Events of one kind move the balance one way, so the end points bound all prefixes. */
  lemma {:induction false} OneWayWithin(start: int, actions: seq<KeyAction>, value: int, keycode: nat)
    requires forall i :: 0 <= i < |actions| ==> actions[i].value == value
    requires 0 <= start <= Capacity(keycode)
    requires 0 <= start + Balance(actions, keycode) <= Capacity(keycode)
    ensures Within(start, actions, keycode)
  {
    if actions != [] {
      var init := actions[..|actions| - 1];
      OneWayBalance(init, value, keycode);
      OneWayWithin(start, init, value, keycode);
      forall n | 0 <= n <= |actions|
        ensures 0 <= start + Balance(actions[..n], keycode) <= Capacity(keycode)
      {
        if n < |actions| {
          assert actions[..n] == init[..n];
        } else {
          assert actions[..n] == actions;
        }
      }
    }
  }

  lemma {:induction false} OneWayBalance(actions: seq<KeyAction>, value: int, keycode: nat)
    requires forall i :: 0 <= i < |actions| ==> actions[i].value == value
    ensures if value == PRESS then Balance(actions, keycode) >= 0 else Balance(actions, keycode) <= 0
  {
    if actions != [] {
      OneWayBalance(actions[..|actions| - 1], value, keycode);
    }
  }

  lemma {:induction false} EdgesOneWay(before: byte, after: byte, value: int, bits: nat)
    requires bits <= 8
    ensures forall i :: 0 <= i < |ModifierEdges(before, after, value, bits)| ==>
              ModifierEdges(before, after, value, bits)[i].value == value
  {
    hide ModifierKeycode, Bit;
    if bits != 0 {
      EdgesOneWay(before, after, value, bits - 1);
    }
  }

  /** The four phases of a report, and what is held after each of them. */
  lemma ReportBalance(p: Processor, bytes: seq<byte>, now: Instant, keycode: nat)
    requires Valid(p) && |bytes| >= 8 && keycode != 0
    ensures var op, keys := Report(bytes, now), Keys(bytes);
            var up, down := ReleasedCodes(p.slots, keys), PressedCodes(p, keys, now);
            && Balance(Actions(up, RELEASE), keycode) == -|Producing(Elements(up), keycode)|
            && Balance(Actions(down, PRESS), keycode) == |Producing(Elements(down), keycode)|
            && |Producing(Codes(p.slots), keycode)| - |Producing(Elements(up), keycode)|
                 == |Producing(Codes(p.slots) - Elements(up), keycode)|
            && |Producing(Codes(p.slots) - Elements(up), keycode)| + |Producing(Elements(down), keycode)|
                 == |Producing(Codes(Apply(p, op).slots), keycode)|
  {
    hide HidToLinux, Suppressed, Firsts, Producing, NewSlots, NewReleased, Balance, Actions, Distinct, NoRepeats;
    var op, keys := Report(bytes, now), Keys(bytes);
    var q, up, down := Apply(p, op), ReleasedCodes(p.slots, keys), PressedCodes(p, keys, now);
    ReportRefinesSets(p, bytes, now);
    CodesBalance(up, RELEASE, keycode);
    CodesBalance(down, PRESS, keycode);
    ProducingStep(Codes(p.slots), Codes(keys), Codes(q.slots), keycode);
  }

  /** The same step on sets of codes: what is kept plus what is pressed is what is tracked next. */
  lemma ProducingStep(tracked: set<byte>, reported: set<byte>, after: set<byte>, keycode: nat)
    requires keycode != 0 && tracked * reported <= after <= reported
    ensures var up, down := Mapped(tracked - reported), Mapped(after - tracked);
            && |Producing(tracked, keycode)| == |Producing(tracked - up, keycode)| + |Producing(up, keycode)|
            && |Producing(after, keycode)| == |Producing(tracked - up, keycode)| + |Producing(down, keycode)|
  {
    hide HidToLinux;
    var up, down := Mapped(tracked - reported), Mapped(after - tracked);
    assert Producing(tracked, keycode) == Producing(tracked - up, keycode) + Producing(up, keycode);
    assert Producing(after, keycode) == Producing(tracked - up, keycode) + Producing(down, keycode);
  }

  /** One operation: what it emits is exactly the change of what is held, and no prefix leaves the bounds. */
  lemma OpBalance(p: Processor, op: Op, keycode: nat)
    requires Valid(p) && keycode != 0
    ensures Valid(Apply(p, op))
    ensures Held(p, keycode) + Balance(Emit(p, op), keycode) == Held(Apply(p, op), keycode)
    ensures Within(Held(p, keycode), Emit(p, op), keycode)
  {
    HeldCapacity(Codes(p.slots), p.modifiers, keycode);
    match op
    case ReleaseAll => ReleaseAllPhases(p, keycode);
    case Report(bytes, now) =>
      if |bytes| >= 8 {
        ReportPhases(p, bytes, now, keycode);
      }
  }

  lemma ReportPhases(p: Processor, bytes: seq<byte>, now: Instant, keycode: nat)
    requires Valid(p) && |bytes| >= 8 && keycode != 0
    ensures var op := Report(bytes, now);
            && Valid(Apply(p, op))
            && Held(p, keycode) + Balance(Emit(p, op), keycode) == Held(Apply(p, op), keycode)
            && Within(Held(p, keycode), Emit(p, op), keycode)
  {
    hide HidToLinux, Suppressed, ModifierKeycode, Bit, Firsts, Producing, NewSlots, NewReleased, Capacity;
    hide ModifierEdges, Balance, Actions, Within, ModifiersOn;
    var op, keys, after := Report(bytes, now), Keys(bytes), bytes[0];
    var q, start := Apply(p, op), Held(p, keycode);
    var upCodes, downCodes := ReleasedCodes(p.slots, keys), PressedCodes(p, keys, now);
    var modUp, modDown := ModifierEdges(p.modifiers, after, RELEASE, 8), ModifierEdges(p.modifiers, after, PRESS, 8);
    var up, down := Actions(upCodes, RELEASE), Actions(downCodes, PRESS);
    ReportRefinesSets(p, bytes, now);
    ReportBalance(p, bytes, now, keycode);
    ModifierBalance(p.modifiers, after, keycode, 8);
    HeldCapacity(Codes(p.slots), p.modifiers, keycode);
    HeldCapacity(Codes(p.slots), after, keycode);
    HeldCapacity(Codes(p.slots) - Elements(upCodes), after, keycode);
    HeldCapacity(Codes(q.slots), after, keycode);
    OneWay(p.modifiers, after, upCodes, downCodes);
    OneWayBalance(modUp, RELEASE, keycode);
    OneWayWithin(start, modUp, RELEASE, keycode);
    var b1 := start + Balance(modUp, keycode);
    OneWayWithin(b1, modDown, PRESS, keycode);
    var b2 := b1 + Balance(modDown, keycode);
    OneWayWithin(b2, up, RELEASE, keycode);
    var b3 := b2 + Balance(up, keycode);
    OneWayWithin(b3, down, PRESS, keycode);
    BalanceConcat(modUp, modDown, keycode);
    WithinConcat(start, modUp, modDown, keycode);
    BalanceConcat(modUp + modDown, up, keycode);
    WithinConcat(start, modUp + modDown, up, keycode);
    BalanceConcat(modUp + modDown + up, down, keycode);
    WithinConcat(start, modUp + modDown + up, down, keycode);
  }

  lemma OneWay(before: byte, after: byte, up: seq<byte>, down: seq<byte>)
    ensures forall i :: 0 <= i < |ModifierEdges(before, after, RELEASE, 8)| ==>
            ModifierEdges(before, after, RELEASE, 8)[i].value == RELEASE
    ensures forall i :: 0 <= i < |ModifierEdges(before, after, PRESS, 8)| ==>
            ModifierEdges(before, after, PRESS, 8)[i].value == PRESS
    ensures forall i :: 0 <= i < |Actions(up, RELEASE)| ==> Actions(up, RELEASE)[i].value == RELEASE
    ensures forall i :: 0 <= i < |Actions(down, PRESS)| ==> Actions(down, PRESS)[i].value == PRESS
  {
    hide HidToLinux, ModifierEdges;
    EdgesOneWay(before, after, RELEASE, 8);
    EdgesOneWay(before, after, PRESS, 8);
  }

  lemma ReleaseAllPhases(p: Processor, keycode: nat)
    requires Valid(p) && keycode != 0
    ensures Valid(Apply(p, ReleaseAll)) && Held(Apply(p, ReleaseAll), keycode) == 0
    ensures Held(p, keycode) + Balance(Emit(p, ReleaseAll), keycode) == 0
    ensures Within(Held(p, keycode), Emit(p, ReleaseAll), keycode)
  {
    hide HidToLinux, ModifierKeycode;
    var codes := ReleasedCodes(p.slots, []);
    var up, modUp := Actions(codes, RELEASE), ModifierEdges(p.modifiers, 0, RELEASE, 8);
    FirstsElements(p.slots, (h: byte) => h !in [] && HidToLinux(h) != 0);
    CodesBalance(codes, RELEASE, keycode);
    assert Producing(Elements(codes), keycode) == Producing(Codes(p.slots), keycode);
    assert Producing(Codes(Zeros(SLOTS)), keycode) == {};
    NoModifiers(p.modifiers, keycode, 8);
    ModifierBalance(p.modifiers, 0, keycode, 8);
    BalanceConcat(up, modUp, keycode);
    HeldCapacity(Codes(p.slots), p.modifiers, keycode);
    OneWay(p.modifiers, 0, codes, []);
    BothRelease(up, modUp);
    OneWayWithin(Held(p, keycode), up + modUp, RELEASE, keycode);
  }

  lemma BothRelease(a: seq<KeyAction>, b: seq<KeyAction>)
    requires forall i :: 0 <= i < |a| ==> a[i].value == RELEASE
    requires forall i :: 0 <= i < |b| ==> b[i].value == RELEASE
    ensures forall i :: 0 <= i < |a + b| ==> (a + b)[i].value == RELEASE
  {
  }

  lemma NoModifiers(before: byte, keycode: nat, bits: nat)
    requires bits <= 8
    ensures ModifiersOn(0, keycode, bits) == 0 == ModifiersKept(before, 0, keycode, bits)
  {
    if bits != 0 {
      NoModifiers(before, keycode, bits - 1);
      assert 0 / Mask(bits - 1) == 0;
    }
  }

  // ---- Whole runs ----

  /**
   Event conservation: over any run, presses minus releases of a keycode equal the change of the
   number of sources holding it down, and no prefix of the event stream leaves [0, capacity].
   */
  lemma {:induction false} Conservation(p: Processor, ops: seq<Op>, keycode: nat)
    requires Valid(p) && keycode != 0
    ensures Valid(Run(p, ops))
    ensures Held(p, keycode) + Balance(Trace(p, ops), keycode) == Held(Run(p, ops), keycode)
    ensures Within(Held(p, keycode), Trace(p, ops), keycode)
  {
    hide HidToLinux, Suppressed, Held, Emit, Apply, Balance, Distinct, Within, Capacity;
    if ops == [] {
      EmptyWithin(p, keycode);
    } else {
      var init, op := ops[..|ops| - 1], ops[|ops| - 1];
      Conservation(p, init, keycode);
      OpBalance(Run(p, init), op, keycode);
      BalanceConcat(Trace(p, init), Emit(Run(p, init), op), keycode);
      WithinConcat(Held(p, keycode), Trace(p, init), Emit(Run(p, init), op), keycode);
    }
  }

  lemma EmptyWithin(p: Processor, keycode: nat)
    requires keycode != 0
    ensures Balance([], keycode) == 0 && Within(Held(p, keycode), [], keycode)
  {
    HeldCapacity(Codes(p.slots), p.modifiers, keycode);
  }

  lemma NewHoldsNothing(debounceMs: nat, keycode: nat)
    ensures Valid(New(debounceMs)) && Held(New(debounceMs), keycode) == 0
  {
    hide HidToLinux;
    assert Producing(Codes(Zeros(SLOTS)), keycode) == {};
    NoModifiers(0, keycode, 8);
  }

  /** No stuck and no phantom key: a run that ends in a release-all leaves every keycode balanced. */
  lemma NoStuckKeys(debounceMs: nat, ops: seq<Op>, keycode: nat)
    requires keycode != 0
    ensures Balance(Trace(New(debounceMs), ops + [ReleaseAll]), keycode) == 0
    ensures Within(0, Trace(New(debounceMs), ops + [ReleaseAll]), keycode)
  {
    hide HidToLinux, Suppressed, Held, Emit, Balance, Distinct, Within, Capacity, New;
    var all := ops + [ReleaseAll];
    assert all[..|all| - 1] == ops;
    NewHoldsNothing(debounceMs, keycode);
    Conservation(New(debounceMs), ops, keycode);
    Conservation(New(debounceMs), all, keycode);
    ReleaseAllPhases(Run(New(debounceMs), ops), keycode);
  }

  const BOTH_BACKSLASHES: seq<byte> := [0, 0, 0x31, 0x32, 0, 0, 0, 0]

  lemma BothBackslashesTracked()
    ensures {0x31, 0x32} <= Producing(Codes(Apply(New(0), Report(BOTH_BACKSLASHES, 0)).slots), 43)
  {
    hide HidToLinux, Apply, Valid, Within;
    NewHoldsNothing(0, 43);
    ReportRefinesSets(New(0), BOTH_BACKSLASHES, 0);
    var keys := Keys(BOTH_BACKSLASHES);
    assert keys[0] == 0x31 && keys[1] == 0x32;
    assert 0x31 in Codes(keys) && 0x32 in Codes(keys);
    BackslashKeycode();
  }

  /** The bound 2 is reached: the two codes of keycode 43 press it twice in one report. */
  lemma BackslashPressedTwice()
    ensures Balance(Trace(New(0), [Report(BOTH_BACKSLASHES, 0)]), 43) == 2
  {
    hide HidToLinux, Emit, Balance, Valid, Within, Apply, Producing;
    var ops := [Report(BOTH_BACKSLASHES, 0)];
    NewHoldsNothing(0, 43);
    Conservation(New(0), ops, 43);
    var q := Apply(New(0), ops[0]);
    assert ops[..0] == [] && Run(New(0), ops) == q;
    BothBackslashesTracked();
    SubsetSize({0x31, 0x32}, Producing(Codes(q.slots), 43));
    HeldCapacity(Codes(q.slots), q.modifiers, 43);
  }

  // ---- Counters ----

  lemma {:induction false} NoRepeatsSize(codes: seq<byte>)
    requires NoRepeats(codes)
    ensures |Elements(codes)| == |codes|
  {
    if codes == [] {
      assert Elements(codes) == {};
    } else {
      var init, h := codes[..|codes| - 1], codes[|codes| - 1];
      NoRepeatsSize(init);
      assert codes == init + [h];
      assert Elements(codes) == Elements(init) + {h};
    }
  }

  lemma {:induction false} SlotCounts(slots: seq<byte>)
    ensures NonzeroCount(slots) == |Codes(slots)| + Duplicates(slots)
    ensures Distinct(slots) ==> Duplicates(slots) == 0
  {
    hide Codes;
    if slots == [] {
      assert Codes(slots) == {} by { NoCodes(); }
    } else {
      SlotCounts(slots[..|slots| - 1]);
      CodesOneMore(slots);
    }
  }

  lemma NoCodes()
    ensures Codes([]) == {}
  {
  }

  lemma CodesOneMore(slots: seq<byte>)
    requires slots != []
    ensures var init, h := slots[..|slots| - 1], slots[|slots| - 1];
            && (h in Codes(init) <==> h in init && h != 0)
            && Codes(slots) == if h == 0 || h in init then Codes(init) else Codes(init) + {h}
  {
    assert slots == slots[..|slots| - 1] + [slots[|slots| - 1]];
  }

  /** Every nonzero slot of a report is tracked, suppressed or a duplicate, and the counters say which. */
  lemma CountersAgree(p: Processor, bytes: seq<byte>, now: Instant)
    requires Valid(p) && |bytes| >= 8
    ensures var q := Apply(p, Report(bytes, now));
            && q.metrics.duplicatePrev == p.metrics.duplicatePrev
            && NonzeroCount(q.slots) == |Codes(q.slots)|
            && NonzeroCount(Keys(bytes)) == NonzeroCount(q.slots)
                 + (q.metrics.suppressed - p.metrics.suppressed)
                 + (q.metrics.duplicateCurrent - p.metrics.duplicateCurrent)
            && q.metrics.actionsEmitted == p.metrics.actionsEmitted + |Emit(p, Report(bytes, now))|
  {
    hide HidToLinux, Suppressed, Firsts, NewSlots, NewReleased, NoRepeats, Distinct, Duplicates, NonzeroCount, Emit;
    var q, keys := Apply(p, Report(bytes, now)), Keys(bytes);
    ReportRefinesSets(p, bytes, now);
    NoRepeatsSize(SuppressedCodes(p, keys, now));
    SlotCounts(keys);
    SlotCounts(p.slots);
    SlotCounts(q.slots);
    assert Codes(keys) == Codes(q.slots) + (Codes(keys) - Codes(q.slots));
  }

  /** Only the sets matter: permuting or repeating slots changes neither tracking nor events. */
  lemma SlotOrderIrrelevant(p: Processor, p': Processor, bytes: seq<byte>, bytes': seq<byte>, now: Instant)
    requires Valid(p) && Valid(p') && |bytes| >= 8 && |bytes'| >= 8
    requires Codes(p.slots) == Codes(p'.slots) && p.released == p'.released && p.debounceMs == p'.debounceMs
    requires Codes(Keys(bytes)) == Codes(Keys(bytes'))
    ensures var q, q' := Apply(p, Report(bytes, now)), Apply(p', Report(bytes', now));
            && Codes(q.slots) == Codes(q'.slots) && q.released == q'.released
            && Elements(ReleasedCodes(p.slots, Keys(bytes))) == Elements(ReleasedCodes(p'.slots, Keys(bytes')))
            && Elements(PressedCodes(p, Keys(bytes), now)) == Elements(PressedCodes(p', Keys(bytes'), now))
  {
    hide HidToLinux, Firsts, NewSlots;
    ReportRefinesSets(p, bytes, now);
    ReportRefinesSets(p', bytes', now);
    forall h: byte
      ensures (h != 0 && h in p.slots) == (h != 0 && h in p'.slots)
      ensures (h != 0 && h in Keys(bytes)) == (h != 0 && h in Keys(bytes'))
    {
      assert (h in Codes(p.slots)) == (h in Codes(p'.slots));
      assert (h in Codes(Keys(bytes))) == (h in Codes(Keys(bytes')));
    }
  }

  // ---- Debounce ----

  function Tracked(debounceMs: nat, ops: seq<Op>): set<byte> {
    Codes(Run(New(debounceMs), ops).slots)
  }

  predicate IsFullReport(op: Op) {
    op.Report? && |op.bytes| >= 8
  }

  /** Operation `i` releases the tracked code `hid`. */
  predicate Releases(debounceMs: nat, ops: seq<Op>, i: nat, hid: byte)
    requires i < |ops|
  {
    IsFullReport(ops[i]) && hid in Tracked(debounceMs, ops[..i]) && hid !in Keys(ops[i].bytes)
  }

  /** Operation `i` emits a press for `hid`. */
  predicate Presses(debounceMs: nat, ops: seq<Op>, i: nat, hid: byte)
    requires i < |ops|
  {
    IsFullReport(ops[i]) &&
    hid in PressedCodes(Run(New(debounceMs), ops[..i]), Keys(ops[i].bytes), ops[i].now)
  }

  /** Time of the latest release of `hid` since the last release-all, read off the history. */
  function LastRelease(debounceMs: nat, ops: seq<Op>, hid: byte): Option<Instant> {
    if ops == [] then None
    else
      var i := |ops| - 1;
      if ops[i].ReleaseAll? then None
      else if Releases(debounceMs, ops, i, hid) then Some(ops[i].now)
      else LastRelease(debounceMs, ops[..i], hid)
  }

  /** The release clock holds exactly the latest release in the history. */
  lemma {:induction false} ReleaseClock(debounceMs: nat, ops: seq<Op>, hid: byte)
    ensures Run(New(debounceMs), ops).released[hid] == LastRelease(debounceMs, ops, hid)
  {
    hide NewSlots, Count;
    if ops != [] {
      ReleaseClock(debounceMs, ops[..|ops| - 1], hid);
    }
  }

  /** Keeps the debounce setting along a run. */
  lemma {:induction false} RunKeepsSetting(p: Processor, ops: seq<Op>)
    requires |p.released| == 256
    ensures Run(p, ops).debounceMs == p.debounceMs
  {
    hide NewSlots, Count, NewReleased;
    if ops != [] {
      RunKeepsSetting(p, ops[..|ops| - 1]);
    }
  }

  /** When an untracked mapped code in a report is pressed: exactly outside its debounce window. */
  lemma PressRule(debounceMs: nat, ops: seq<Op>, i: nat, hid: byte)
    requires i < |ops| && IsFullReport(ops[i])
    requires hid != 0 && HidToLinux(hid) != 0
    requires hid in Keys(ops[i].bytes) && hid !in Tracked(debounceMs, ops[..i])
    ensures Presses(debounceMs, ops, i, hid) <==>
            var last := LastRelease(debounceMs, ops[..i], hid);
            debounceMs == 0 || last.None? ||
            (ops[i].now - last.value) / 1_000_000 >= debounceMs
    ensures Presses(debounceMs, ops, i, hid) <==> hid in Tracked(debounceMs, ops[..i + 1])
  {
    hide HidToLinux, Firsts, NewSlots, NewReleased, Count, Distinct;
    var p := Run(New(debounceMs), ops[..i]);
    ReleaseClock(debounceMs, ops[..i], hid);
    RunKeepsSetting(New(debounceMs), ops[..i]);
    NewHoldsNothing(debounceMs, 1);
    Conservation(New(debounceMs), ops[..i], 1);
    ReportRefinesSets(p, ops[i].bytes, ops[i].now);
    assert ops[..i + 1][..i] == ops[..i];
    assert hid in Elements(PressedCodes(p, Keys(ops[i].bytes), ops[i].now)) <==> Presses(debounceMs, ops, i, hid);
  }

  ghost predicate TimesNondecreasing(ops: seq<Op>) {
    forall i, j :: 0 <= i < j < |ops| && ops[i].Report? && ops[j].Report? ==> ops[i].now <= ops[j].now
  }

  lemma {:induction false} LastReleaseSince(debounceMs: nat, ops: seq<Op>, i: nat, hid: byte)
    requires i < |ops| && Releases(debounceMs, ops, i, hid) && TimesNondecreasing(ops)
    requires forall m :: i < m < |ops| ==> ops[m].Report?
    ensures var last := LastRelease(debounceMs, ops, hid);
            last.Some? && ops[i].now <= last.value
    decreases |ops|
  {
    hide Tracked;
    var n := |ops| - 1;
    if i < n {
      assert ops[..n][..i] == ops[..i];
      LastReleaseSince(debounceMs, ops[..n], i, hid);
    }
  }

  /**
   Debounce separation: between a release of a code and any later press of it, with no release-all
   in between, at least the configured number of whole milliseconds has passed.
   */
  lemma DebounceSeparation(debounceMs: nat, ops: seq<Op>, i: nat, j: nat, hid: byte)
    requires i < j < |ops| && TimesNondecreasing(ops)
    requires Releases(debounceMs, ops, i, hid) && Presses(debounceMs, ops, j, hid)
    requires forall m :: i < m < j ==> ops[m].Report?
    ensures (ops[j].now - ops[i].now) / 1_000_000 >= debounceMs
  {
    hide HidToLinux, Firsts, NewSlots, NewReleased, Count, Distinct, LastRelease;
    var before, p := ops[..j], Run(New(debounceMs), ops[..j]);
    assert before[..i] == ops[..i];
    LastReleaseSince(debounceMs, before, i, hid);
    ReleaseClock(debounceMs, before, hid);
    RunKeepsSetting(New(debounceMs), before);
    FirstsElements(Keys(ops[j].bytes), (h: byte) => Fresh(p, h, ops[j].now));
    assert Fresh(p, hid, ops[j].now);
  }

  /** Chatter inside the window never restarts it: while the code stays untracked its clock stands still. */
  lemma {:induction false} ChatterKeepsWindow(debounceMs: nat, ops: seq<Op>, more: seq<Op>, hid: byte)
    requires forall m :: 0 <= m < |more| ==> more[m].Report? && hid !in Tracked(debounceMs, ops + more[..m])
    ensures LastRelease(debounceMs, ops + more, hid) == LastRelease(debounceMs, ops, hid)
  {
    hide Tracked;
    if more == [] {
      assert ops + more == ops;
    } else {
      var init := more[..|more| - 1];
      forall m | 0 <= m < |init| ensures init[..m] == more[..m] {
      }
      ChatterKeepsWindow(debounceMs, ops, init, hid);
      assert (ops + more)[..|ops + more| - 1] == ops + init;
    }
  }
}
