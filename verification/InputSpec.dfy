/**
 The keyboard input engine on values: what one report, one release-all, and a whole run of them
 do to the tracked state and which key events they emit.
 */
module InputSpec {
  import opened Bytes
  import opened Keymap

  /** A point of the monotonic clock, in nanoseconds. */
  type Instant = int

  const NANOS_PER_MILLI := 1_000_000
  const SLOTS := 6
  const PRESS := 1
  const RELEASE := 0

  datatype KeyAction = KeyAction(keycode: nat, value: int)

  datatype Metrics = Metrics(
    reportsTotal: nat, reportsShort: nat, actionsEmitted: nat, suppressed: nat,
    duplicatePrev: nat, duplicateCurrent: nat)

  const NO_METRICS := Metrics(0, 0, 0, 0, 0, 0)

  datatype Processor = Processor(
    modifiers: byte, slots: seq<byte>, debounceMs: nat, released: seq<Option<Instant>>, metrics: Metrics)

  /** Six slots without repeated codes, and a release clock for every code. */
  ghost predicate Valid(p: Processor) {
    |p.slots| == SLOTS && |p.released| == 256 && Distinct(p.slots)
  }

  ghost predicate Distinct(slots: seq<byte>) {
    forall i, j :: 0 <= i < j < |slots| && slots[i] == slots[j] ==> slots[i] == 0
  }

  function New(debounceMs: nat): Processor {
    Processor(0, Zeros(SLOTS), debounceMs, seq(256, h => None), NO_METRICS)
  }

  // ---- Modifier bits ----

  function Mask(bit: nat): nat
    requires bit < 8
  {
    match bit
    case 0 => 1 case 1 => 2 case 2 => 4 case 3 => 8
    case 4 => 16 case 5 => 32 case 6 => 64 case _ => 128
  }

  predicate Bit(modifiers: byte, bit: nat)
    requires bit < 8
  {
    modifiers / Mask(bit) % 2 == 1
  }

  /** Events for the first `bits` bits that change to pressed (value 1) or to released (value 0). */
  function ModifierEdges(before: byte, after: byte, value: int, bits: nat): seq<KeyAction>
    requires bits <= 8
  {
    if bits == 0 then []
    else
      var bit := bits - 1;
      ModifierEdges(before, after, value, bit) +
      if Bit(before, bit) != Bit(after, bit) && Bit(after, bit) == (value == PRESS)
      then [KeyAction(ModifierKeycode(bit), value)] else []
  }

  // ---- Keys ----

  /** The nonzero codes of a slot array. */
  function Codes(slots: seq<byte>): set<byte> {
    set h | h in slots && h != 0
  }

  function Elements(codes: seq<byte>): set<byte> {
    set h | h in codes
  }

  function Elapsed(now: Instant, since: Instant): nat {
    if since <= now then now - since else 0
  }

  /** The debounce window of `hid` is still open at `now`. */
  predicate Suppressed(p: Processor, hid: byte, now: Instant)
    requires |p.released| == 256
  {
    p.debounceMs > 0 && p.released[hid].Some? &&
    Elapsed(now, p.released[hid].value) / NANOS_PER_MILLI < p.debounceMs
  }

  /** A code that is not tracked, is mapped and whose window is over: it will be pressed. */
  predicate Fresh(p: Processor, hid: byte, now: Instant)
    requires |p.released| == 256
  {
    hid !in p.slots && HidToLinux(hid) != 0 && !Suppressed(p, hid, now)
  }

  predicate Tracks(p: Processor, hid: byte, now: Instant)
    requires |p.released| == 256
  {
    hid in p.slots || HidToLinux(hid) == 0 || !Suppressed(p, hid, now)
  }

  /** The first occurrences of the nonzero codes of `slots` that satisfy `keep`, in slot order. */
  function Firsts(slots: seq<byte>, keep: byte -> bool): seq<byte> {
    if slots == [] then []
    else
      var init, h := slots[..|slots| - 1], slots[|slots| - 1];
      Firsts(init, keep) + if h != 0 && h !in init && keep(h) then [h] else []
  }

  /** Codes released when `prev` gives way to `keys`. */
  function ReleasedCodes(prev: seq<byte>, keys: seq<byte>): seq<byte> {
    Firsts(prev, (h: byte) => h !in keys && HidToLinux(h) != 0)
  }

  function PressedCodes(p: Processor, keys: seq<byte>, now: Instant): seq<byte>
    requires |p.released| == 256
  {
    Firsts(keys, (h: byte) => Fresh(p, h, now))
  }

  /** Codes held back by the debounce window. */
  function SuppressedCodes(p: Processor, keys: seq<byte>, now: Instant): seq<byte>
    requires |p.released| == 256
  {
    Firsts(keys, (h: byte) => !Tracks(p, h, now))
  }

  function Actions(codes: seq<byte>, value: int): seq<KeyAction> {
    seq(|codes|, i requires 0 <= i < |codes| => KeyAction(HidToLinux(codes[i]), value))
  }

  function NonzeroCount(slots: seq<byte>): nat {
    if slots == [] then 0
    else NonzeroCount(slots[..|slots| - 1]) + if slots[|slots| - 1] != 0 then 1 else 0
  }

  /** Slots whose code already occurred in an earlier slot. */
  function Duplicates(slots: seq<byte>): nat {
    if slots == [] then 0
    else
      var init, h := slots[..|slots| - 1], slots[|slots| - 1];
      Duplicates(init) + if h != 0 && h in init then 1 else 0
  }

  // ---- One operation ----

  datatype Op = Report(bytes: seq<byte>, now: Instant) | ReleaseAll

  /** The key slots of a boot report (HID 1.11, appendix B.1): bytes 2 to 7. */
  function Keys(bytes: seq<byte>): seq<byte>
    requires |bytes| >= 8
  {
    bytes[2..8]
  }

  function NewSlots(p: Processor, keys: seq<byte>, now: Instant): seq<byte>
    requires |p.released| == 256
  {
    seq(|keys|, i requires 0 <= i < |keys| =>
      if keys[i] != 0 && keys[i] !in keys[..i] && Tracks(p, keys[i], now) then keys[i] else 0)
  }

  function NewReleased(p: Processor, keys: seq<byte>, now: Instant): seq<Option<Instant>>
    requires |p.released| == 256
  {
    seq(256, h requires 0 <= h < 256 =>
      if h != 0 && h in p.slots && h !in keys then Some(now) else p.released[h])
  }

  function Emit(p: Processor, op: Op): seq<KeyAction>
    requires |p.released| == 256
  {
    match op
    case ReleaseAll => Actions(ReleasedCodes(p.slots, []), RELEASE) + ModifierEdges(p.modifiers, 0, RELEASE, 8)
    case Report(bytes, now) =>
      if |bytes| < 8 then []
      else
        ModifierEdges(p.modifiers, bytes[0], RELEASE, 8) + ModifierEdges(p.modifiers, bytes[0], PRESS, 8) +
        Actions(ReleasedCodes(p.slots, Keys(bytes)), RELEASE) + Actions(PressedCodes(p, Keys(bytes), now), PRESS)
  }

  function Count(p: Processor, op: Op): Metrics
    requires |p.released| == 256
  {
    match op
    case ReleaseAll => p.metrics
    case Report(bytes, now) =>
      var m := p.metrics;
      if |bytes| < 8 then m.(reportsTotal := m.reportsTotal + 1, reportsShort := m.reportsShort + 1)
      else Metrics(m.reportsTotal + 1, m.reportsShort, m.actionsEmitted + |Emit(p, op)|,
                   m.suppressed + |SuppressedCodes(p, Keys(bytes), now)|,
                   m.duplicatePrev + Duplicates(p.slots), m.duplicateCurrent + Duplicates(Keys(bytes)))
  }

  function Apply(p: Processor, op: Op): (q: Processor)
    requires |p.released| == 256
    ensures |q.released| == 256
  {
    match op
    case ReleaseAll => New(p.debounceMs).(metrics := p.metrics)
    case Report(bytes, now) =>
      if |bytes| < 8 then p.(metrics := Count(p, op))
      else Processor(bytes[0], NewSlots(p, Keys(bytes), now), p.debounceMs,
                     NewReleased(p, Keys(bytes), now), Count(p, op))
  }

  // ---- Runs ----

  function Run(p: Processor, ops: seq<Op>): (q: Processor)
    requires |p.released| == 256
    ensures |q.released| == 256
  {
    if ops == [] then p else Apply(Run(p, ops[..|ops| - 1]), ops[|ops| - 1])
  }

  /** Every event emitted by a run, in order. */
  function Trace(p: Processor, ops: seq<Op>): seq<KeyAction>
    requires |p.released| == 256
  {
    if ops == [] then []
    else Trace(p, ops[..|ops| - 1]) + Emit(Run(p, ops[..|ops| - 1]), ops[|ops| - 1])
  }

  // ---- Counting events ----

  /** Presses minus releases of one keycode. */
  function Balance(actions: seq<KeyAction>, keycode: nat): int {
    if actions == [] then 0
    else
      var last := actions[|actions| - 1];
      Balance(actions[..|actions| - 1], keycode) +
      if last.keycode != keycode then 0 else if last.value == PRESS then 1 else -1
  }

  function ModifiersOn(modifiers: byte, keycode: nat, bits: nat): nat
    requires bits <= 8
  {
    if bits == 0 then 0
    else ModifiersOn(modifiers, keycode, bits - 1) +
         if Bit(modifiers, bits - 1) && ModifierKeycode(bits - 1) == keycode then 1 else 0
  }

  /** The codes of `codes` that translate to `keycode`. */
  function Producing(codes: set<byte>, keycode: nat): set<byte> {
    set h | h in codes && HidToLinux(h) == keycode
  }

  /** Distinct tracked codes plus set modifier bits that translate to `keycode`. */
  function Held(p: Processor, keycode: nat): nat {
    |Producing(Codes(p.slots), keycode)| + ModifiersOn(p.modifiers, keycode, 8)
  }

  /** The largest number of codes that translate to one keycode. */
  function Capacity(keycode: nat): nat {
    if keycode == 43 then 2 else 1
  }
}
