/** The order of the events of one report, and what the counters count over a run. */
module InputOrder {
  import opened Bytes
  import opened Keymap
  import opened InputSpec

  // ---- Events by kind ----

  predicate IsModifierCode(keycode: nat) {
    exists bit :: 0 <= bit < 8 && ModifierKeycode(bit) == keycode
  }

  predicate IsKeyCode(keycode: nat) {
    exists hid: byte :: HidToLinux(hid) == keycode && keycode != 0
  }

  /** Modifier releases, modifier presses, key releases, key presses. */
  function Rank(e: KeyAction): nat {
    (if IsModifierCode(e.keycode) then 0 else 2) + if e.value == PRESS then 1 else 0
  }

  lemma KindsExclude(keycode: nat)
    requires IsKeyCode(keycode)
    ensures !IsModifierCode(keycode)
  {
    hide HidToLinux;
    var hid: byte :| HidToLinux(hid) == keycode && keycode != 0;
    forall bit | 0 <= bit < 8 ensures ModifierKeycode(bit) != keycode {
      ModifierKeycodesDisjoint(bit, bit, hid);
    }
  }

  // ---- Modifier events ----

  /** Two events of modifier bits, the lower bit first. */
  ghost predicate BitsInOrder(e: KeyAction, f: KeyAction) {
    exists a, b :: 0 <= a < b < 8 && ModifierKeycode(a) == e.keycode && ModifierKeycode(b) == f.keycode
  }

  ghost predicate FromBit(e: KeyAction, value: int, bits: nat) {
    e.value == value && exists bit :: 0 <= bit < bits && bit < 8 && ModifierKeycode(bit) == e.keycode
  }

  /** All `events` come from the first `bits` modifier bits, by ascending bit. */
  ghost predicate ModifierEvents(events: seq<KeyAction>, value: int, bits: nat) {
    && (forall i :: 0 <= i < |events| ==> FromBit(events[i], value, bits))
    && (forall i, j :: 0 <= i < j < |events| ==> BitsInOrder(events[i], events[j]))
  }

  lemma {:induction false} EdgesInOrder(before: byte, after: byte, value: int, bits: nat)
    requires bits <= 8
    ensures ModifierEvents(ModifierEdges(before, after, value, bits), value, bits)
  {
    hide ModifierKeycode, Bit;
    if bits > 0 {
      var bit := bits - 1;
      EdgesInOrder(before, after, value, bit);
      OneMoreBit(ModifierEdges(before, after, value, bit), value, bit);
    }
  }

  lemma OneMoreBit(events: seq<KeyAction>, value: int, bit: nat)
    requires bit < 8 && ModifierEvents(events, value, bit)
    ensures ModifierEvents(events, value, bit + 1)
    ensures ModifierEvents(events + [KeyAction(ModifierKeycode(bit), value)], value, bit + 1)
  {
    hide ModifierKeycode;
    var e := KeyAction(ModifierKeycode(bit), value);
    assert FromBit(e, value, bit + 1);
    forall i | 0 <= i < |events| ensures FromBit(events[i], value, bit + 1) && BitsInOrder(events[i], e) {
      assert FromBit(events[i], value, bit);
      var lower :| 0 <= lower < bit && ModifierKeycode(lower) == events[i].keycode;
      assert ModifierKeycode(bit) == e.keycode;
    }
  }

  // ---- Key events ----

  /** Slot `a` holds a nonzero code that no earlier slot holds. */
  predicate First(slots: seq<byte>, a: int) {
    0 <= a < |slots| && slots[a] != 0 && slots[a] !in slots[..a]
  }

  /** The slots of the codes that `Firsts` keeps. */
  lemma {:induction false} FirstSlots(slots: seq<byte>, keep: byte -> bool) returns (at: seq<nat>)
    ensures |at| == |Firsts(slots, keep)|
    ensures forall i :: 0 <= i < |at| ==> First(slots, at[i]) && slots[at[i]] == Firsts(slots, keep)[i]
    ensures forall i :: 0 <= i < |at| ==> keep(Firsts(slots, keep)[i])
    ensures forall i, j :: 0 <= i < j < |at| ==> at[i] < at[j]
  {
    if slots == [] {
      at := [];
    } else {
      var last := |slots| - 1;
      at := FirstSlots(slots[..last], keep);
      forall a | First(slots[..last], a) ensures First(slots, a) {
        assert slots[..last][..a] == slots[..a];
      }
      if slots[last] != 0 && slots[last] !in slots[..last] && keep(slots[last]) {
        at := at + [last];
      }
    }
  }

  /** Two events of codes held by the slots, the one that occurs first there coming first. */
  ghost predicate SlotsInOrder(slots: seq<byte>, e: KeyAction, f: KeyAction) {
    exists a, b ::
      && a < b && First(slots, a) && First(slots, b)
      && HidToLinux(slots[a]) == e.keycode && HidToLinux(slots[b]) == f.keycode
  }

  ghost predicate FromSlot(slots: seq<byte>, e: KeyAction, value: int) {
    e.value == value && e.keycode != 0 && exists a :: First(slots, a) && HidToLinux(slots[a]) == e.keycode
  }

  /** All `events` come from slots of `slots`, in slot order. */
  ghost predicate KeyEvents(slots: seq<byte>, events: seq<KeyAction>, value: int) {
    && (forall i :: 0 <= i < |events| ==> FromSlot(slots, events[i], value))
    && (forall i, j :: 0 <= i < j < |events| ==> SlotsInOrder(slots, events[i], events[j]))
  }

  lemma KeyEventsInOrder(slots: seq<byte>, keep: byte -> bool, value: int)
    requires forall h: byte :: keep(h) ==> HidToLinux(h) != 0
    ensures KeyEvents(slots, Actions(Firsts(slots, keep), value), value)
  {
    hide HidToLinux, First;
    var at := FirstSlots(slots, keep);
  }

  /** `e` comes from a set modifier bit or from a slot, as its rank says. */
  ghost predicate Sourced(p: Processor, keys: seq<byte>, e: KeyAction) {
    match Rank(e)
    case 0 => FromBit(e, RELEASE, 8)
    case 1 => FromBit(e, PRESS, 8)
    case 2 => FromSlot(p.slots, e, RELEASE)
    case _ => FromSlot(keys, e, PRESS)
  }

  lemma RankOfBit(e: KeyAction, value: int)
    requires FromBit(e, value, 8) && (value == PRESS || value == RELEASE)
    ensures Rank(e) == if value == PRESS then 1 else 0
  {
    hide ModifierKeycode;
  }

  lemma RankOfSlot(slots: seq<byte>, e: KeyAction, value: int)
    requires FromSlot(slots, e, value) && (value == PRESS || value == RELEASE)
    ensures Rank(e) == if value == PRESS then 3 else 2
  {
    hide HidToLinux, ModifierKeycode;
    assert IsKeyCode(e.keycode);
    KindsExclude(e.keycode);
  }

  /** One stretch of events of the same rank, in the order of their sources. */
  ghost predicate Block(p: Processor, keys: seq<byte>, events: seq<KeyAction>, rank: nat) {
    && (forall i :: 0 <= i < |events| ==> Rank(events[i]) == rank && Sourced(p, keys, events[i]))
    && (forall i, j :: 0 <= i < j < |events| ==> InOrder(p, keys, events[i], events[j]))
  }

  /** What the order of two events of one report says about their sources. */
  ghost predicate InOrder(p: Processor, keys: seq<byte>, e: KeyAction, f: KeyAction) {
    && Rank(e) <= Rank(f)
    && (Rank(e) == Rank(f) && Rank(e) <= 1 ==> BitsInOrder(e, f))
    && (Rank(e) == Rank(f) == 2 ==> SlotsInOrder(p.slots, e, f))
    && (Rank(e) == Rank(f) == 3 ==> SlotsInOrder(keys, e, f))
  }

  lemma ModifierBlock(p: Processor, keys: seq<byte>, after: byte, value: int)
    requires value == PRESS || value == RELEASE
    ensures Block(p, keys, ModifierEdges(p.modifiers, after, value, 8), if value == PRESS then 1 else 0)
  {
    hide ModifierEdges, Rank, FromBit, BitsInOrder;
    EdgesInOrder(p.modifiers, after, value, 8);
    forall e | FromBit(e, value, 8) ensures Rank(e) == if value == PRESS then 1 else 0 {
      RankOfBit(e, value);
    }
  }

  lemma ReleaseEvents(slots: seq<byte>, keys: seq<byte>)
    ensures KeyEvents(slots, Actions(ReleasedCodes(slots, keys), RELEASE), RELEASE)
  {
    hide HidToLinux, FromSlot, SlotsInOrder, Actions, Firsts;
    KeyEventsInOrder(slots, (h: byte) => h !in keys && HidToLinux(h) != 0, RELEASE);
  }

  lemma PressEvents(p: Processor, keys: seq<byte>, now: Instant)
    requires |p.released| == 256
    ensures KeyEvents(keys, Actions(PressedCodes(p, keys, now), PRESS), PRESS)
  {
    hide HidToLinux, FromSlot, SlotsInOrder, Actions, Firsts, Suppressed;
    KeyEventsInOrder(keys, (h: byte) => Fresh(p, h, now), PRESS);
  }

  lemma KeyBlock(p: Processor, keys: seq<byte>, events: seq<KeyAction>, value: int)
    requires value == PRESS || value == RELEASE
    requires KeyEvents(if value == PRESS then keys else p.slots, events, value)
    ensures Block(p, keys, events, if value == PRESS then 3 else 2)
  {
    hide HidToLinux, Rank, FromSlot, SlotsInOrder;
    var slots := if value == PRESS then keys else p.slots;
    forall e | FromSlot(slots, e, value) ensures Rank(e) == if value == PRESS then 3 else 2 {
      RankOfSlot(slots, e, value);
    }
  }

  ghost predicate Sorted(p: Processor, keys: seq<byte>, events: seq<KeyAction>) {
    && (forall i :: 0 <= i < |events| ==> Sourced(p, keys, events[i]))
    && (forall i, j :: 0 <= i < j < |events| ==> InOrder(p, keys, events[i], events[j]))
  }

  lemma JoinBlock(p: Processor, keys: seq<byte>, events: seq<KeyAction>, block: seq<KeyAction>, rank: nat)
    requires Sorted(p, keys, events) && Block(p, keys, block, rank)
    requires forall i :: 0 <= i < |events| ==> Rank(events[i]) < rank
    ensures Sorted(p, keys, events + block)
    ensures forall i :: 0 <= i < |events + block| ==> Rank((events + block)[i]) <= rank
  {
    hide Rank, Sourced, BitsInOrder, SlotsInOrder;
  }

  /**
   The order of a report's events: all modifier events before all key events, in each kind releases before
   presses, modifiers by ascending bit, keys by ascending slot (of the previous report for releases, of this
   one for presses).
   */
  lemma EventOrder(p: Processor, bytes: seq<byte>, now: Instant, i: nat, j: nat)
    requires |p.released| == 256 && |bytes| >= 8 && i < j < |Emit(p, Report(bytes, now))|
    ensures var e, f := Emit(p, Report(bytes, now))[i], Emit(p, Report(bytes, now))[j];
            && Sourced(p, Keys(bytes), e) && Sourced(p, Keys(bytes), f)
            && Rank(e) <= Rank(f)
            && (Rank(e) == Rank(f) && Rank(e) <= 1 ==> BitsInOrder(e, f))
            && (Rank(e) == Rank(f) == 2 ==> SlotsInOrder(p.slots, e, f))
            && (Rank(e) == Rank(f) == 3 ==> SlotsInOrder(Keys(bytes), e, f))
  {
    hide Rank, Sourced, BitsInOrder, SlotsInOrder, ModifierEdges, Actions, ReleasedCodes, PressedCodes, Block;
    var keys := Keys(bytes);
    var a, b := ModifierEdges(p.modifiers, bytes[0], RELEASE, 8), ModifierEdges(p.modifiers, bytes[0], PRESS, 8);
    var c, d := Actions(ReleasedCodes(p.slots, keys), RELEASE), Actions(PressedCodes(p, keys, now), PRESS);
    ModifierBlock(p, keys, bytes[0], RELEASE);
    ModifierBlock(p, keys, bytes[0], PRESS);
    ReleaseEvents(p.slots, keys);
    KeyBlock(p, keys, c, RELEASE);
    PressEvents(p, keys, now);
    KeyBlock(p, keys, d, PRESS);
    JoinBlock(p, keys, [], a, 0);
    assert [] + a == a;
    JoinBlock(p, keys, a, b, 1);
    JoinBlock(p, keys, a + b, c, 2);
    JoinBlock(p, keys, a + b + c, d, 3);
    assert Emit(p, Report(bytes, now)) == a + b + c + d;
  }

  /** Releasing everything only releases, all keys by ascending slot before all modifiers by ascending bit. */
  lemma ReleaseAllOrder(p: Processor, i: nat, j: nat)
    requires |p.released| == 256 && i < j < |Emit(p, ReleaseAll)|
    ensures var e, f := Emit(p, ReleaseAll)[i], Emit(p, ReleaseAll)[j];
            && e.value == RELEASE && f.value == RELEASE
            && (IsModifierCode(e.keycode) ==> BitsInOrder(e, f))
            && (!IsModifierCode(f.keycode) ==> SlotsInOrder(p.slots, e, f))
  {
    hide BitsInOrder, SlotsInOrder, ModifierEdges, Actions, ReleasedCodes, IsModifierCode, FromBit, FromSlot;
    ReleaseEvents(p.slots, []);
    KeyBlock(p, [], Actions(ReleasedCodes(p.slots, []), RELEASE), RELEASE);
    ModifierBlock(p, [], 0, RELEASE);
    BlockOfReleases(p, Actions(ReleasedCodes(p.slots, []), RELEASE), 2);
    BlockOfReleases(p, ModifierEdges(p.modifiers, 0, RELEASE, 8), 0);
  }

  lemma BlockOfReleases(p: Processor, events: seq<KeyAction>, rank: nat)
    requires Block(p, [], events, rank) && (rank == 0 || rank == 2)
    ensures forall i :: 0 <= i < |events| ==> events[i].value == RELEASE
    ensures forall i :: 0 <= i < |events| ==> (IsModifierCode(events[i].keycode) <==> rank == 0)
  {
    hide ModifierKeycode, HidToLinux, IsModifierCode, BitsInOrder, SlotsInOrder;
    forall i | 0 <= i < |events|
      ensures events[i].value == RELEASE && (IsModifierCode(events[i].keycode) <==> rank == 0)
    {
      assert Rank(events[i]) == rank && Sourced(p, [], events[i]);
    }
  }

  // ---- Reading a report ----

  /** The number whose binary digits are the modifier bits from `bit` on. */
  function Number(modifiers: byte, bit: nat): nat
    requires bit <= 8
    decreases 8 - bit
  {
    if bit == 8 then 0 else (if Bit(modifiers, bit) then 1 else 0) + 2 * Number(modifiers, bit + 1)
  }

  /** Modifier bits are the binary digits of the modifier byte, the least first. */
  lemma {:induction false} BitsAreDigits(modifiers: byte, bit: nat)
    requires bit < 8
    ensures Number(modifiers, bit) == modifiers / Mask(bit)
    ensures bit == 0 ==> Number(modifiers, bit) == modifiers
    decreases 8 - bit
  {
    if bit < 7 {
      BitsAreDigits(modifiers, bit + 1);
      Halve(modifiers, bit);
    }
  }

  lemma Halve(m: byte, bit: nat)
    requires bit < 7
    ensures m / Mask(bit + 1) == m / Mask(bit) / 2
  {
  }

  /** Each slot of the new state holds the code of its byte of the report, or nothing. */
  lemma SlotsKeepPlaces(p: Processor, bytes: seq<byte>, now: Instant, i: nat)
    requires |p.released| == 256 && |bytes| >= 8 && i < 6
    ensures var slots := Apply(p, Report(bytes, now)).slots;
            |slots| == 6 && (slots[i] != 0 ==> slots[i] == bytes[i + 2])
  {
    hide HidToLinux, Suppressed;
  }

  // ---- Counters over a run ----

  function Reports(ops: seq<Op>): nat {
    if ops == [] then 0 else Reports(ops[..|ops| - 1]) + if ops[|ops| - 1].Report? then 1 else 0
  }

  function ShortReports(ops: seq<Op>): nat {
    if ops == [] then 0
    else
      var op := ops[|ops| - 1];
      ShortReports(ops[..|ops| - 1]) + if op.Report? && |op.bytes| < 8 then 1 else 0
  }

  /** The events of a run that come from its reports. */
  function ReportEvents(p: Processor, ops: seq<Op>): nat
    requires |p.released| == 256
  {
    if ops == [] then 0
    else
      var op := ops[|ops| - 1];
      ReportEvents(p, ops[..|ops| - 1]) + if op.Report? then |Emit(Run(p, ops[..|ops| - 1]), op)| else 0
  }

  /** The counters count reports, reports shorter than 8 bytes, and the events reports caused. */
  lemma {:induction false} CountersCount(debounceMs: nat, ops: seq<Op>)
    ensures var m := Run(New(debounceMs), ops).metrics;
            && m.reportsTotal == Reports(ops) && m.reportsShort == ShortReports(ops)
            && m.actionsEmitted == ReportEvents(New(debounceMs), ops)
  {
    hide Emit, NewSlots, NewReleased;
    if ops != [] {
      CountersCount(debounceMs, ops[..|ops| - 1]);
      ShortEmitsNothing(Run(New(debounceMs), ops[..|ops| - 1]), ops[|ops| - 1]);
    }
  }

  lemma ShortEmitsNothing(p: Processor, op: Op)
    requires |p.released| == 256
    ensures op.Report? && |op.bytes| < 8 ==> Emit(p, op) == []
  {
    hide ModifierEdges, ReleasedCodes, PressedCodes;
  }
}
