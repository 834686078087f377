/** What the command tables, the checks and the normaliser come to, said without their definitions. */
module PolicyLaws {
  import opened Bytes
  import opened Checksum
  import opened CommandPolicy

  // ---- The family ----

  /** Equal up to the case of ASCII letters; `lower` is in lower case. */
  predicate SameLetter(c: char, lower: char) {
    c == lower || ('a' <= lower <= 'z' && c == lower - 'a' + 'A')
  }

  predicate Begins(name: string, lower: string) {
    |lower| <= |name| && forall i :: 0 <= i < |lower| ==> SameLetter(name[i], lower[i])
  }

  /** A known prefix, in any case, decides the family; a YiChip product id decides it for other names. */
  lemma FamilyByName(name: string, pid: nat)
    ensures Begins(name, "ry5088_") || Begins(name, "ry1086_") ==> Detect(name, pid) == Ry5088
    ensures Begins(name, "yc500_") || Begins(name, "yc300_") || Begins(name, "yc3121_") || Begins(name, "yc3123_") ==>
              Detect(name, pid) == YiChip
    ensures !Begins(name, "ry5088_") && !Begins(name, "ry1086_") && !Begins(name, "yc500_") &&
            !Begins(name, "yc300_") && !Begins(name, "yc3121_") && !Begins(name, "yc3123_") ==>
              (Detect(name, pid) == YiChip <==> 0x4000 <= pid <= 0x40FF)
  {
    BeginsIsStartsWith(name, "ry5088_");
    BeginsIsStartsWith(name, "ry1086_");
    BeginsIsStartsWith(name, "yc500_");
    BeginsIsStartsWith(name, "yc300_");
    BeginsIsStartsWith(name, "yc3121_");
    BeginsIsStartsWith(name, "yc3123_");
    FirstLetter(name, "ry5088_");
    FirstLetter(name, "ry1086_");
    FirstLetter(name, "yc500_");
    FirstLetter(name, "yc300_");
    FirstLetter(name, "yc3121_");
    FirstLetter(name, "yc3123_");
    hide Begins, StartsWith;
  }

  lemma FirstLetter(name: string, lower: string)
    requires lower != ""
    ensures StartsWith(name, lower) ==> name != "" && ToLower(name[0]) == lower[0]
  {
  }

  lemma BeginsIsStartsWith(name: string, lower: string)
    requires forall i :: 0 <= i < |lower| ==> !('A' <= lower[i] <= 'Z')
    ensures Begins(name, lower) <==> StartsWith(name, lower)
  {
  }

  // ---- The table ----

  /** A family reads a value with the byte that writes it, plus 0x80; its writes are these bytes. */
  lemma FamilyBytes(def: Definition)
    requires def.overrides.None?
    ensures var t := Commands(def);
            && t.getProfile == t.setProfile + 0x80 && t.getDebounce == t.setDebounce + 0x80
            && t.getKeymatrix == t.setKeymatrix + 0x80
            && (t.setKeymatrixSimple.Some? ==> t.getKeymatrixSimple == Some(t.setKeymatrixSimple.value + 0x80))
            && (t.setFnSimple.Some? ==> t.getFnSimple == Some(t.setFnSimple.value + 0x80))
            && (t.setReport.Some? ==> t.getReport == Some(t.setReport.value + 0x80))
            && (t.setSleeptime.Some? ==> t.getSleeptime == Some(t.setSleeptime.value + 0x80))
            && (t.setKboption.Some? ==> t.getKboption == Some(t.setKboption.value + 0x80))
            && if Detect(def.name, def.pid).Ry5088?
               then [t.setReset, t.setProfile, t.setDebounce, t.setKeymatrix, t.setMacro] == [1, 4, 6, 0x0A, 0x0B]
                    && t.setKeymatrixSimple == t.setFnSimple == None
                    && [t.setReport, t.setKboption, t.setSleeptime] == [Some(0x03), Some(0x09), Some(0x11)]
               else [t.setReset, t.setProfile, t.setDebounce, t.setKeymatrix, t.setMacro] == [2, 5, 0x11, 9, 8]
                    && t.setKeymatrixSimple == Some(0x13) && t.setFnSimple == Some(0x15)
                    && t.setReport == t.setKboption == t.setSleeptime == None && t.getKboption == Some(0x86)
  {
    hide Detect;
  }

  function Chosen(override: Option<byte>, family: Option<byte>): Option<byte> {
    match override
    case Some(_) => override
    case None => family
  }

  /** A role that is overridden has the override's byte, every other role the family's. */
  lemma RolesResolved(def: Definition, o: Overrides)
    requires def.overrides == Some(o)
    ensures var t, base := Commands(def), Commands(def.(overrides := None));
            && Some(t.setReset) == Chosen(o.setReset, Some(base.setReset))
            && Some(t.setProfile) == Chosen(o.setProfile, Some(base.setProfile))
            && Some(t.setDebounce) == Chosen(o.setDebounce, Some(base.setDebounce))
            && Some(t.setKeymatrix) == Chosen(o.setKeymatrix, Some(base.setKeymatrix))
            && Some(t.setMacro) == Chosen(o.setMacro, Some(base.setMacro))
            && Some(t.getProfile) == Chosen(o.getProfile, Some(base.getProfile))
            && Some(t.getDebounce) == Chosen(o.getDebounce, Some(base.getDebounce))
            && Some(t.getKeymatrix) == Chosen(o.getKeymatrix, Some(base.getKeymatrix))
            && t.setKeymatrixSimple == Chosen(o.setKeymatrixSimple, base.setKeymatrixSimple)
            && t.getKeymatrixSimple == Chosen(o.getKeymatrixSimple, base.getKeymatrixSimple)
            && t.setFnSimple == Chosen(o.setFnSimple, base.setFnSimple)
            && t.getFnSimple == Chosen(o.getFnSimple, base.getFnSimple)
            && t.setReport == Chosen(o.setReport, base.setReport)
            && t.getReport == Chosen(o.getReport, base.getReport)
            && t.setKboption == Chosen(o.setKboption, base.setKboption)
            && t.getKboption == Chosen(o.getKboption, base.getKboption)
            && t.setSleeptime == Chosen(o.setSleeptime, base.setSleeptime)
            && t.getSleeptime == Chosen(o.getSleeptime, base.getSleeptime)
  {
    hide Detect;
  }

  /** The write bytes of both families that no role can move. */
  lemma SharedWritesAlways(def: Definition, cmd: byte)
    requires cmd in {0x03, 0x07, 0x08, 0x0C, 0x0D, 0x0E, 0x10, 0x12, 0x17, 0x1B, 0x1C, 0x1D, 0x1E, 0x65, 0x7A, 0xE8,
                     0xF6, 0xF8}
    ensures Evaluate(def, [cmd]).class_.WriteCommand?
  {
  }

  // ---- The error code ----

  /** The guarded roles in the order of their checks: profile, key matrix, its simple form, simple Fn, macro, Fn. */
  predicate Plays(def: Definition, cmd: byte, role: nat) {
    var t := Commands(def);
    match role
    case 0 => cmd == t.setProfile
    case 1 => cmd == t.setKeymatrix
    case 2 => Some(cmd) == t.setKeymatrixSimple
    case 3 => Some(cmd) == t.setFnSimple
    case 4 => cmd == t.setMacro
    case _ => cmd == 0x10
  }

  /** The shortest message each role accepts. */
  function Needed(role: nat): nat {
    match role
    case 0 => 2
    case 1 => 7
    case 5 => 4
    case _ => 3
  }

  ghost predicate InBounds(def: Definition, m: seq<byte>, role: nat) {
    && |m| >= Needed(role)
    && match role
       case 0 => ProfileInRange(def, m[1])
       case 1 => ProfileInRange(def, m[1]) && KeyInRange(def, m[2], m[6])
       case 4 => m[1] <= 49 && m[2] <= 9
       case 5 => FnSysInRange(def, m[1]) && ProfileInRange(def, m[2]) && KeyInRange(def, m[3], 0)
       case _ => ProfileInRange(def, m[1]) && KeyInRange(def, m[2], 0)
  }

  /** The definition has no profile count, or no Fn layers, where the role needs them. */
  predicate Lacks(def: Definition, role: nat) {
    (role != 4 && def.layer.None?) || (role == 5 && def.fnSysLayer.None?)
  }

  ghost predicate FirstBroken(def: Definition, m: seq<byte>, role: nat)
    requires m != []
  {
    && role <= 5 && Plays(def, m[0], role) && !InBounds(def, m, role)
    && forall r :: 0 <= r < role && Plays(def, m[0], r) ==> InBounds(def, m, r)
  }

  /**
   A message is rejected iff it breaks the bounds of a guarded role it plays. The code is that of the first
   such role: a failed precondition iff the message is long enough and the definition lacks a field.
   */
  lemma RejectedExactly(def: Definition, m: seq<byte>)
    requires m != []
    ensures Evaluate(def, m).error.Some? <==> exists r :: 0 <= r <= 5 && Plays(def, m[0], r) && !InBounds(def, m, r)
    ensures forall r :: FirstBroken(def, m, r) ==>
              var code := if |m| >= Needed(r) && Lacks(def, r) then FailedPrecondition else InvalidArgument;
              Evaluate(def, m).error == Some(code)
  {
    hide Commands, HasMagnetism, Classify;
    RoleVerdicts(def, m);
  }

  /** What the check of each role complains about. */
  lemma RoleVerdicts(def: Definition, m: seq<byte>)
    requires m != []
    ensures CheckSetProfile(def, m) == Verdict(def, m, 0) && CheckSetKeymatrix(def, m) == Verdict(def, m, 1)
    ensures CheckSimple(def, m) == Verdict(def, m, 2) == Verdict(def, m, 3)
    ensures CheckSetMacro(m) == Verdict(def, m, 4) && CheckSetFn(def, m) == Verdict(def, m, 5)
  {
  }

  ghost function Verdict(def: Definition, m: seq<byte>, role: nat): Option<ErrorCode> {
    if InBounds(def, m, role) then None
    else if |m| >= Needed(role) && Lacks(def, role) then Some(FailedPrecondition)
    else Some(InvalidArgument)
  }

  // ---- The normaliser ----

  /** A simple write whose keycode `k` comes one byte late. */
  predicate LateKeycode(def: Definition, msg: seq<byte>, k: byte) {
    && |msg| >= 12 && msg[8..12] == [0, 0, k, 0] && k != 0
    && (Commands(def).setKeymatrixSimple == Some(msg[0]) || Commands(def).setFnSimple == Some(msg[0]))
  }

  /** A late keycode is moved to where the firmware looks for it, and nothing else is touched. */
  lemma KeycodeMoved(def: Definition, msg: seq<byte>, k: byte)
    requires LateKeycode(def, msg, k)
    ensures var out := Normalized(def, msg);
            && |out| == |msg| && out[8..12] == [0, k, 0, 0]
            && forall i :: 0 <= i < |msg| && !(8 <= i < 12) ==> out[i] == msg[i]
  {
    hide Commands;
    assert msg[8..12][0] == msg[8] && msg[8..12][1] == msg[9] && msg[8..12][2] == msg[10] && msg[8..12][3] == msg[11];
  }

  lemma OthersKept(def: Definition, msg: seq<byte>)
    requires forall k: byte :: !LateKeycode(def, msg, k)
    ensures Normalized(def, msg) == msg
  {
    hide Commands;
    if |msg| >= 12 && msg[8] == 0 && msg[9] == 0 && msg[11] == 0 {
      assert msg[8..12] == [0, 0, msg[10], 0];
      assert !LateKeycode(def, msg, msg[10]);
    }
  }

  /** Where the checksum goes on the wire. */
  function Slot(kind: ChecksumType): int {
    match kind
    case Bit7 => 7
    case Bit8 => 8
    case NoChecksum => -1
  }

  /** Apart from the checksum and a moved keycode, the wire carries the message, cut or zero-filled to 64 bytes. */
  lemma WireCarriesMessage(def: Definition, msg: seq<byte>, kind: ChecksumType, i: nat)
    requires msg != [] && i < 64 && i != Slot(kind)
    ensures var out := WirePayload(def, msg, kind)[i];
            && (i >= |msg| ==> out == 0)
            && (i < |msg| && !((i == 9 || i == 10) && exists k: byte :: LateKeycode(def, msg, k)) ==> out == msg[i])
            && (forall k: byte :: LateKeycode(def, msg, k) ==> (i == 9 ==> out == k) && (i == 10 ==> out == 0))
  {
    hide Commands, Sum;
    if k: byte :| LateKeycode(def, msg, k) {
      KeycodeMoved(def, msg, k);
    } else {
      OthersKept(def, msg);
    }
  }
}
