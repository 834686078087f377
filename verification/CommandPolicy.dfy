/** Which outbound commands a device definition allows, and what then travels on the wire. */
module CommandPolicy {
  import opened Bytes
  import opened Checksum

  datatype Family = Ry5088 | YiChip

  /** The command bytes in which the families differ. */
  datatype CommandTable = CommandTable(
    setReset: byte, setProfile: byte, setDebounce: byte, setKeymatrix: byte, setMacro: byte,
    getProfile: byte, getDebounce: byte, getKeymatrix: byte,
    setKeymatrixSimple: Option<byte>, getKeymatrixSimple: Option<byte>,
    setFnSimple: Option<byte>, getFnSimple: Option<byte>,
    setReport: Option<byte>, setKboption: Option<byte>, setSleeptime: Option<byte>,
    getReport: Option<byte>, getKboption: Option<byte>, getSleeptime: Option<byte>)

  const RY5088_COMMANDS := CommandTable(
    0x01, 0x04, 0x06, 0x0A, 0x0B, 0x84, 0x86, 0x8A, None, None, None, None,
    Some(0x03), Some(0x09), Some(0x11), Some(0x83), Some(0x89), Some(0x91))

  const YICHIP_COMMANDS := CommandTable(
    0x02, 0x05, 0x11, 0x09, 0x08, 0x85, 0x91, 0x89, Some(0x13), Some(0x93), Some(0x15), Some(0x95),
    None, None, None, None, Some(0x86), None)

  datatype Overrides = Overrides(
    setReset: Option<byte>, setProfile: Option<byte>, setDebounce: Option<byte>, setKeymatrix: Option<byte>,
    setMacro: Option<byte>, getProfile: Option<byte>, getDebounce: Option<byte>, getKeymatrix: Option<byte>,
    setKeymatrixSimple: Option<byte>, getKeymatrixSimple: Option<byte>,
    setFnSimple: Option<byte>, getFnSimple: Option<byte>,
    setReport: Option<byte>, setKboption: Option<byte>, setSleeptime: Option<byte>,
    getReport: Option<byte>, getKboption: Option<byte>, getSleeptime: Option<byte>)

  const NO_OVERRIDES := Overrides(
    None, None, None, None, None, None, None, None, None, None, None, None, None, None, None, None, None, None)

  datatype FnSysLayer = FnSysLayer(win: byte, mac: byte)

  datatype Definition = Definition(
    id: int, name: string, pid: nat, keyCount: Option<byte>, layer: Option<byte>, fnSysLayer: Option<FnSysLayer>,
    magnetism: Option<bool>, noMagneticSwitch: Option<bool>, overrides: Option<Overrides>)

  const SET_FN: byte := 0x10
  const MAX_MACRO_INDEX := 49
  const MAX_CHUNK_PAGE := 9

  /** SET_MAGNETISM_REPORT, _CAL, SET_KEY_MAGNETISM_MODE, SET_MAGNETISM_MAX_CAL, SET_MULTI_MAGNETISM. */
  const MAGNETIC_WRITES: set<byte> := {0x1B, 0x1C, 0x1D, 0x1E, 0x65}

  /** Write commands shared by both families. */
  const SHARED_WRITES: set<byte> := {
    0x07, 0x08, 0x0C, 0x0D, 0x0E, 0x03, SET_FN, 0x12, 0x17, 0x1B, 0x1C, 0x1D, 0x1E, 0x65, 0xF6, 0xF8, 0x7A, 0xE8}

  // ---- Resolving the command table ----

  function ToLower(c: char): char {
    if 'A' <= c <= 'Z' then c - 'A' + 'a' else c
  }

  predicate StartsWith(name: string, prefix: string) {
    |prefix| <= |name| && forall i :: 0 <= i < |prefix| ==> ToLower(name[i]) == prefix[i]
  }

  function Detect(name: string, pid: nat): Family {
    if StartsWith(name, "ry5088_") || StartsWith(name, "ry1086_") then Ry5088
    else if StartsWith(name, "yc500_") || StartsWith(name, "yc300_") ||
            StartsWith(name, "yc3121_") || StartsWith(name, "yc3123_")
    then YiChip
    else if pid / 0x100 == 0x40 then YiChip
    else Ry5088
  }

  function Or<T>(override: Option<T>, base: T): T {
    if override.Some? then override.value else base
  }

  function OrElse(override: Option<byte>, base: Option<byte>): Option<byte> {
    if override.Some? then override else base
  }

  function Commands(def: Definition): CommandTable {
    var base := if Detect(def.name, def.pid).Ry5088? then RY5088_COMMANDS else YICHIP_COMMANDS;
    match def.overrides
    case None => base
    case Some(o) => CommandTable(
      Or(o.setReset, base.setReset), Or(o.setProfile, base.setProfile), Or(o.setDebounce, base.setDebounce),
      Or(o.setKeymatrix, base.setKeymatrix), Or(o.setMacro, base.setMacro), Or(o.getProfile, base.getProfile),
      Or(o.getDebounce, base.getDebounce), Or(o.getKeymatrix, base.getKeymatrix),
      OrElse(o.setKeymatrixSimple, base.setKeymatrixSimple), OrElse(o.getKeymatrixSimple, base.getKeymatrixSimple),
      OrElse(o.setFnSimple, base.setFnSimple), OrElse(o.getFnSimple, base.getFnSimple),
      OrElse(o.setReport, base.setReport), OrElse(o.setKboption, base.setKboption),
      OrElse(o.setSleeptime, base.setSleeptime), OrElse(o.getReport, base.getReport),
      OrElse(o.getKboption, base.getKboption), OrElse(o.getSleeptime, base.getSleeptime))
  }

  /** Copies the family's table and overwrites, field by field, what the definition overrides. */
  method ResolveCommands(def: Definition) returns (table: CommandTable)
    ensures table == Commands(def)
  {
    hide Detect;
    table := if Detect(def.name, def.pid).Ry5088? then RY5088_COMMANDS else YICHIP_COMMANDS;
    if def.overrides.Some? {
      var o := def.overrides.value;
      table := table.(setReset := Or(o.setReset, table.setReset));
      table := table.(setProfile := Or(o.setProfile, table.setProfile));
      table := table.(setDebounce := Or(o.setDebounce, table.setDebounce));
      table := table.(setKeymatrix := Or(o.setKeymatrix, table.setKeymatrix));
      table := table.(setMacro := Or(o.setMacro, table.setMacro));
      table := table.(getProfile := Or(o.getProfile, table.getProfile));
      table := table.(getDebounce := Or(o.getDebounce, table.getDebounce));
      table := table.(getKeymatrix := Or(o.getKeymatrix, table.getKeymatrix));
      table := table.(setKeymatrixSimple := OrElse(o.setKeymatrixSimple, table.setKeymatrixSimple));
      table := table.(getKeymatrixSimple := OrElse(o.getKeymatrixSimple, table.getKeymatrixSimple));
      table := table.(setFnSimple := OrElse(o.setFnSimple, table.setFnSimple));
      table := table.(getFnSimple := OrElse(o.getFnSimple, table.getFnSimple));
      table := table.(setReport := OrElse(o.setReport, table.setReport));
      table := table.(setKboption := OrElse(o.setKboption, table.setKboption));
      table := table.(setSleeptime := OrElse(o.setSleeptime, table.setSleeptime));
      table := table.(getReport := OrElse(o.getReport, table.getReport));
      table := table.(getKboption := OrElse(o.getKboption, table.getKboption));
      table := table.(getSleeptime := OrElse(o.getSleeptime, table.getSleeptime));
    }
  }

  predicate HasMagnetism(def: Definition) {
    if def.magnetism.Some? then def.magnetism.value
    else def.noMagneticSwitch.Some? && !def.noMagneticSwitch.value
  }

  // ---- The decision ----

  datatype Class = QueryCommand | WriteCommand
  datatype Dispatch = Forward | Skip
  datatype ReadPolicy = DeviceResponse | SyntheticEmptyRead
  datatype ErrorCode = InvalidArgument | FailedPrecondition
  datatype Decision = Decision(class_: Class, dispatch: Dispatch, read: ReadPolicy, error: Option<ErrorCode>)

  function Forwarded(c: Class): Decision {
    Decision(c, Forward, if c.WriteCommand? then SyntheticEmptyRead else DeviceResponse, None)
  }

  function Classify(def: Definition, cmd: byte): Class {
    var t := Commands(def);
    if cmd in {t.setReset, t.setProfile, t.setDebounce, t.setKeymatrix, t.setMacro} ||
       Some(cmd) in {t.setKeymatrixSimple, t.setFnSimple, t.setReport, t.setKboption, t.setSleeptime} ||
       cmd in SHARED_WRITES
    then WriteCommand else QueryCommand
  }

  function SaturatingPred(n: byte): byte {
    if n == 0 then 0 else n - 1
  }

  function MaxFnSys(layer: FnSysLayer): byte {
    SaturatingPred(if layer.win < layer.mac then layer.mac else layer.win)
  }

  function CheckProfile(def: Definition, profile: byte): Option<ErrorCode> {
    if def.layer.None? then Some(FailedPrecondition)
    else if profile > SaturatingPred(def.layer.value) then Some(InvalidArgument) else None
  }

  function CheckKeyAndLayer(def: Definition, key: byte, layer: byte): Option<ErrorCode> {
    if def.keyCount.None? || def.layer.None? then Some(InvalidArgument)
    else if key >= def.keyCount.value || layer >= def.layer.value then Some(InvalidArgument) else None
  }

  function First(a: Option<ErrorCode>, b: Option<ErrorCode>): Option<ErrorCode> {
    if a.Some? then a else b
  }

  function CheckSetProfile(def: Definition, msg: seq<byte>): Option<ErrorCode> {
    if |msg| < 2 then Some(InvalidArgument) else CheckProfile(def, msg[1])
  }

  function CheckSetKeymatrix(def: Definition, msg: seq<byte>): Option<ErrorCode> {
    if |msg| < 7 then Some(InvalidArgument)
    else First(CheckProfile(def, msg[1]), CheckKeyAndLayer(def, msg[2], msg[6]))
  }

  function CheckSimple(def: Definition, msg: seq<byte>): Option<ErrorCode> {
    if |msg| < 3 then Some(InvalidArgument)
    else First(CheckProfile(def, msg[1]), CheckKeyAndLayer(def, msg[2], 0))
  }

  function CheckSetMacro(msg: seq<byte>): Option<ErrorCode> {
    if |msg| < 3 || msg[1] > MAX_MACRO_INDEX || msg[2] > MAX_CHUNK_PAGE then Some(InvalidArgument) else None
  }

  function CheckSetFn(def: Definition, msg: seq<byte>): Option<ErrorCode> {
    if |msg| < 4 then Some(InvalidArgument)
    else if def.fnSysLayer.None? || def.layer.None? then Some(FailedPrecondition)
    else if msg[1] > MaxFnSys(def.fnSysLayer.value) then Some(InvalidArgument)
    else First(CheckProfile(def, msg[2]), CheckKeyAndLayer(def, msg[3], 0))
  }

  /** The first complaint of the guarded roles the command byte plays, in the order they are checked. */
  function Violation(def: Definition, msg: seq<byte>): Option<ErrorCode>
    requires msg != []
  {
    var t, cmd := Commands(def), msg[0];
    First(if cmd == t.setProfile then CheckSetProfile(def, msg) else None,
    First(if cmd == t.setKeymatrix then CheckSetKeymatrix(def, msg) else None,
    First(if t.setKeymatrixSimple == Some(cmd) then CheckSimple(def, msg) else None,
    First(if t.setFnSimple == Some(cmd) then CheckSimple(def, msg) else None,
    First(if cmd == t.setMacro then CheckSetMacro(msg) else None,
          if cmd == SET_FN then CheckSetFn(def, msg) else None)))))
  }

  function Evaluate(def: Definition, msg: seq<byte>): Decision {
    if msg == [] then Forwarded(QueryCommand)
    else
      var c, error := Classify(def, msg[0]), Violation(def, msg);
      if error.Some? then Decision(c, Skip, SyntheticEmptyRead, error)
      else if msg[0] in MAGNETIC_WRITES && !HasMagnetism(def) then Decision(c, Skip, SyntheticEmptyRead, None)
      else Forwarded(c)
  }

  // ---- What resolving the table means ----

  function Given(b: Option<byte>): set<byte> {
    if b.Some? then {b.value} else {}
  }

  /** The bytes that a table makes write commands. */
  function WriteBytes(t: CommandTable): set<byte> {
    {t.setReset, t.setProfile, t.setDebounce, t.setKeymatrix, t.setMacro}
    + Given(t.setKeymatrixSimple) + Given(t.setFnSimple) + Given(t.setReport) + Given(t.setKboption)
    + Given(t.setSleeptime)
    + SHARED_WRITES
  }

  /** The bytes that overrides give to write roles. */
  function Overriding(o: Overrides): set<byte> {
    Given(o.setReset) + Given(o.setProfile) + Given(o.setDebounce) + Given(o.setKeymatrix) + Given(o.setMacro)
    + Given(o.setKeymatrixSimple) + Given(o.setFnSimple) + Given(o.setReport) + Given(o.setKboption)
    + Given(o.setSleeptime)
  }

  function Lost(b: Option<byte>, base: Option<byte>): set<byte> {
    if b.Some? then Given(base) else {}
  }

  /** The family's bytes in the write roles that overrides reassign. */
  function Replaced(base: CommandTable, o: Overrides): set<byte> {
    Lost(o.setReset, Some(base.setReset)) + Lost(o.setProfile, Some(base.setProfile))
    + Lost(o.setDebounce, Some(base.setDebounce)) + Lost(o.setKeymatrix, Some(base.setKeymatrix))
    + Lost(o.setMacro, Some(base.setMacro)) + Lost(o.setKeymatrixSimple, base.setKeymatrixSimple)
    + Lost(o.setFnSimple, base.setFnSimple) + Lost(o.setReport, base.setReport)
    + Lost(o.setKboption, base.setKboption) + Lost(o.setSleeptime, base.setSleeptime)
  }

  predicate AllGiven(o: Overrides) {
    && o.setReset.Some? && o.setProfile.Some? && o.setDebounce.Some? && o.setKeymatrix.Some? && o.setMacro.Some?
    && o.getProfile.Some? && o.getDebounce.Some? && o.getKeymatrix.Some? && o.setKeymatrixSimple.Some?
    && o.getKeymatrixSimple.Some? && o.setFnSimple.Some? && o.getFnSimple.Some? && o.setReport.Some?
    && o.setKboption.Some? && o.setSleeptime.Some? && o.getReport.Some? && o.getKboption.Some? && o.getSleeptime.Some?
  }

  /** Name and product id matter only through the family, and not at all when every field is overridden. */
  lemma FamilyDecides(def: Definition, name: string, pid: nat)
    requires Detect(name, pid) == Detect(def.name, def.pid) || (def.overrides.Some? && AllGiven(def.overrides.value))
    ensures Commands(def.(name := name, pid := pid)) == Commands(def)
    ensures forall msg :: Evaluate(def.(name := name, pid := pid), msg) == Evaluate(def, msg)
  {
    hide Detect, Evaluate;
    var other := def.(name := name, pid := pid);
    assert Commands(other) == Commands(def);
    forall msg ensures Evaluate(other, msg) == Evaluate(def, msg) {
      SameTableSameDecision(def, other, msg);
    }
  }

  lemma SameTableSameDecision(def: Definition, other: Definition, msg: seq<byte>)
    requires Commands(def) == Commands(other) && other == def.(name := other.name, pid := other.pid)
    ensures Evaluate(other, msg) == Evaluate(def, msg)
  {
    hide Commands, Violation;
    if msg != [] {
      SameTableSameViolation(def, other, msg);
      hide Classify;
      assert Classify(other, msg[0]) == Classify(def, msg[0]) by {
        ClassifyIsMembership(def, msg[0]);
        ClassifyIsMembership(other, msg[0]);
      }
    }
  }

  lemma SameTableSameViolation(def: Definition, other: Definition, msg: seq<byte>)
    requires Commands(def) == Commands(other) && other == def.(name := other.name, pid := other.pid) && msg != []
    ensures Violation(other, msg) == Violation(def, msg)
  {
    hide Commands, CheckSetMacro, SaturatingPred, MaxFnSys;
  }

  lemma ClassifyIsMembership(def: Definition, cmd: byte)
    ensures Classify(def, cmd).WriteCommand? <==> cmd in WriteBytes(Commands(def))
  {
    hide Commands;
  }

  lemma ResolvedWrites(def: Definition)
    requires def.overrides.Some?
    ensures var base, o, t := Commands(def.(overrides := None)), def.overrides.value, Commands(def);
            && Overriding(o) <= WriteBytes(t) <= WriteBytes(base) + Overriding(o)
            && WriteBytes(base) <= WriteBytes(t) + Replaced(base, o)
            && Replaced(base, o) <= WriteBytes(base)
  {
    hide Detect;
  }

  /**
   Overrides leave every byte in the class its family puts it in iff they give write roles only bytes
   that are writes anyway, and every byte they take a role from is still a write in another role.
   */
  lemma ClassesKeptIff(def: Definition)
    requires def.overrides.Some?
    ensures var plain := def.(overrides := None);
            (forall cmd: byte :: Classify(def, cmd) == Classify(plain, cmd)) <==>
              && Overriding(def.overrides.value) <= WriteBytes(Commands(plain))
              && Replaced(Commands(plain), def.overrides.value) <= WriteBytes(Commands(def))
  {
    hide Commands, Classify, WriteBytes, Overriding, Replaced;
    var plain := def.(overrides := None);
    ResolvedWrites(def);
    forall cmd: byte
      ensures Classify(def, cmd) == Classify(plain, cmd) <==>
                (cmd in WriteBytes(Commands(def)) <==> cmd in WriteBytes(Commands(plain)))
    {
      ClassifyIsMembership(def, cmd);
      ClassifyIsMembership(plain, cmd);
    }
  }

  /** Moving a role to another byte leaves the family's byte an unguarded query: out-of-range writes to it pass. */
  lemma MovedRoleUnguards(def: Definition, msg: seq<byte>)
    requires Detect(def.name, def.pid).Ry5088? && def.overrides.None?
    requires |msg| >= 7 && msg[0] == 0x0A && def.keyCount.Some? && msg[2] >= def.keyCount.value
    ensures var moved := def.(overrides := Some(NO_OVERRIDES.(setKeymatrix := Some(0x2A))));
            && Evaluate(def, msg).dispatch.Skip? && Evaluate(def, msg).class_.WriteCommand?
            && Evaluate(moved, msg) == Forwarded(QueryCommand)
  {
    hide Detect;
  }

  // ---- Normalisation ----

  predicate IsSimple(def: Definition, cmd: byte) {
    Some(cmd) in {Commands(def).setKeymatrixSimple, Commands(def).setFnSimple}
  }

  /** Simple writes that carry their keycode one byte late get it moved to where the firmware expects it. */
  function Normalized(def: Definition, msg: seq<byte>): (out: seq<byte>)
    ensures |out| == |msg|
  {
    if |msg| >= 12 && IsSimple(def, msg[0]) && msg[8] == 0 && msg[9] == 0 && msg[10] != 0 && msg[11] == 0
    then msg[9 := msg[10]][10 := 0] else msg
  }

  method NormalizeOutboundCommand(def: Definition, msg: seq<byte>) returns (out: seq<byte>)
    ensures out == Normalized(def, msg)
  {
    out := msg;
    if |out| < 12 {
      return;
    }
    if !IsSimple(def, out[0]) {
      return;
    }
    var config := out[8..12];
    if config[0] == 0 && config[1] == 0 && config[2] != 0 && config[3] == 0 {
      out := out[9 := out[10]];
      out := out[10 := 0];
    }
  }

  /** The 64 payload bytes a forwarded message turns into. */
  function WirePayload(def: Definition, msg: seq<byte>, kind: ChecksumType): (out: seq<byte>)
    requires msg != []
    ensures |out| == 64
  {
    var n := Normalized(def, msg);
    Payload(n[0], n[1..], kind)
  }

  // ---- What a safe message looks like ----

  ghost predicate ProfileInRange(def: Definition, profile: byte) {
    def.layer.Some? && (profile < def.layer.value || profile == 0)
  }

  ghost predicate KeyInRange(def: Definition, key: byte, layer: byte) {
    def.keyCount.Some? && def.layer.Some? && key < def.keyCount.value && layer < def.layer.value
  }

  ghost predicate FnSysInRange(def: Definition, fnSys: byte) {
    def.fnSysLayer.Some? && (fnSys == 0 || fnSys < def.fnSysLayer.value.win || fnSys < def.fnSysLayer.value.mac)
  }

  /** The bounds of every guarded role that the first byte of `m` plays for this device. */
  ghost predicate Obeys(def: Definition, m: seq<byte>)
    requires m != []
  {
    var t, cmd := Commands(def), m[0];
    && (cmd == t.setProfile ==> |m| >= 2 && ProfileInRange(def, m[1]))
    && (cmd == t.setKeymatrix ==> |m| >= 7 && ProfileInRange(def, m[1]) && KeyInRange(def, m[2], m[6]))
    && (t.setKeymatrixSimple == Some(cmd) ==> |m| >= 3 && ProfileInRange(def, m[1]) && KeyInRange(def, m[2], 0))
    && (t.setFnSimple == Some(cmd) ==> |m| >= 3 && ProfileInRange(def, m[1]) && KeyInRange(def, m[2], 0))
    && (cmd == t.setMacro ==> |m| >= 3 && m[1] <= 49 && m[2] <= 9)
    && (cmd == 0x10 ==> |m| >= 4 && FnSysInRange(def, m[1]) && ProfileInRange(def, m[2]) && KeyInRange(def, m[3], 0))
    && (cmd in {0x1B, 0x1C, 0x1D, 0x1E, 0x65} ==>
          def.magnetism == Some(true) || (def.magnetism.None? && def.noMagneticSwitch == Some(false)))
  }

  /** A message is forwarded iff it obeys the bounds of every guarded role it plays. */
  lemma ForwardedIffObeys(def: Definition, msg: seq<byte>)
    requires msg != []
    ensures Evaluate(def, msg).dispatch.Forward? <==> Obeys(def, msg)
    ensures Evaluate(def, msg).dispatch.Forward? ==> Evaluate(def, msg).error.None?
  {
  }

  /** Only writes are ever skipped or rejected, and exactly the writes are answered by an empty read. */
  lemma SkippedAreWrites(def: Definition, msg: seq<byte>)
    ensures var d := Evaluate(def, msg);
            && (d.dispatch.Skip? ==> d.class_.WriteCommand?)
            && (d.read.SyntheticEmptyRead? <==> d.class_.WriteCommand?)
  {
  }

  /** A precondition failure always means that the registry entry lacks a field the command needs. */
  lemma PreconditionMeansMissingField(def: Definition, msg: seq<byte>)
    requires Evaluate(def, msg).error == Some(FailedPrecondition)
    ensures def.layer.None? || def.fnSysLayer.None?
  {
  }

  /** Normalising is idempotent, keeps the decision, and moves nothing the checksum covers. */
  lemma NormalizeIsHarmless(def: Definition, msg: seq<byte>, kind: ChecksumType)
    requires msg != []
    ensures Normalized(def, Normalized(def, msg)) == Normalized(def, msg)
    ensures Evaluate(def, Normalized(def, msg)) == Evaluate(def, msg)
    ensures !kind.NoChecksum? ==>
              WirePayload(def, msg, kind)[Covered(kind)] == Payload(msg[0], msg[1..], kind)[Covered(kind)]
  {
    hide Commands, HasMagnetism, Sum;
    var n := Normalized(def, msg);
    assert n[0] == msg[0] && forall i :: 0 <= i < |msg| && i < 8 ==> n[i] == msg[i];
    var a, b := Body(n[0], n[1..]), Body(msg[0], msg[1..]);
    assert a[..Covered(kind)] == b[..Covered(kind)];
  }

  /** The first seven bytes of a message reach the wire as they were checked. */
  lemma CheckedBytesSurvive(def: Definition, msg: seq<byte>, kind: ChecksumType, i: nat)
    requires i < 7 && i < |msg|
    ensures WirePayload(def, msg, kind)[i] == msg[i]
  {
  }

  /** What was checked is what is sent: the payload on the wire obeys every bound its command byte calls for. */
  lemma WireObeys(def: Definition, msg: seq<byte>, kind: ChecksumType)
    requires msg != [] && Evaluate(def, msg).dispatch.Forward?
    ensures Obeys(def, WirePayload(def, msg, kind))
  {
    hide Commands, HasMagnetism, WirePayload, Evaluate, ProfileInRange, KeyInRange, FnSysInRange;
    ForwardedIffObeys(def, msg);
    forall i: nat | i < 7 && i < |msg| ensures WirePayload(def, msg, kind)[i] == msg[i] {
      CheckedBytesSurvive(def, msg, kind, i);
    }
  }
}
