/** Command frames: where the checksum goes and what it covers. */
module Checksum {
  import opened Bytes

  datatype ChecksumType = Bit7 | Bit8 | NoChecksum

  const REPORT_SIZE := 65
  const BLE_REPORT_SIZE := 66
  const BLE_REPORT_ID: byte := 0x06
  const BLE_MARKER: byte := 0x55

  function Min(a: nat, b: nat): nat {
    if a <= b then a else b
  }

  function Sum(data: seq<byte>): nat {
    if data == [] then 0 else Sum(data[..|data| - 1]) + data[|data| - 1]
  }

  /** Number of bytes covered, which is also the index of the checksum byte. */
  function Covered(kind: ChecksumType): nat {
    match kind
    case Bit7 => 7
    case Bit8 => 8
    case NoChecksum => 0
  }

  function CalculateChecksum(data: seq<byte>, kind: ChecksumType): byte {
    if kind.NoChecksum? then 0 else 255 - Sum(data[..Min(Covered(kind), |data|)]) % 256
  }

  function Checksummed(data: seq<byte>, kind: ChecksumType): (out: seq<byte>)
    ensures |out| == |data|
  {
    if kind.NoChecksum? || |data| <= Covered(kind) then data
    else data[Covered(kind) := CalculateChecksum(data, kind)]
  }

  /** Command and data, cut or zero-filled to 64 bytes. */
  function Body(cmd: byte, data: seq<byte>): (out: seq<byte>)
    ensures |out| == 64
  {
    var len := Min(|data|, REPORT_SIZE - 2);
    [cmd] + data[..len] + Zeros(REPORT_SIZE - 2 - len)
  }

  /** The 64 bytes that travel after the report id. */
  function Payload(cmd: byte, data: seq<byte>, kind: ChecksumType): (out: seq<byte>)
    ensures |out| == 64
  {
    Checksummed(Body(cmd, data), kind)
  }

  function UsbFrame(cmd: byte, data: seq<byte>, kind: ChecksumType): seq<byte> {
    [0] + Payload(cmd, data, kind)
  }

  function BleFrame(cmd: byte, data: seq<byte>, kind: ChecksumType): seq<byte> {
    [BLE_REPORT_ID, BLE_MARKER] + Payload(cmd, data, kind)
  }

  // ---- In-place construction ----

  /** Writes the checksum of the slice starting at `from` into the buffer. */
  method ApplyChecksum(buffer: array<byte>, from: nat, kind: ChecksumType)
    requires from <= buffer.Length
    modifies buffer
    ensures buffer[..] == old(buffer[..from]) + Checksummed(old(buffer[from..]), kind)
  {
    match kind {
      case Bit7 =>
        if buffer.Length - from >= 8 {
          buffer[from + 7] := CalculateChecksum(buffer[from..], kind);
        }
      case Bit8 =>
        if buffer.Length - from >= 9 {
          buffer[from + 8] := CalculateChecksum(buffer[from..], kind);
        }
      case NoChecksum =>
    }
  }

  method CopyInto(buffer: array<byte>, at: nat, data: seq<byte>)
    requires at + |data| <= buffer.Length
    modifies buffer
    ensures buffer[..] == old(buffer[..at]) + data + old(buffer[at + |data|..])
  {
    for i := 0 to |data|
      invariant buffer[..] == old(buffer[..at]) + data[..i] + old(buffer[at + i..])
    {
      buffer[at + i] := data[i];
    }
  }

  method BuildCommand(cmd: byte, data: seq<byte>, kind: ChecksumType) returns (buffer: array<byte>)
    ensures fresh(buffer) && buffer[..] == UsbFrame(cmd, data, kind)
  {
    buffer := new byte[REPORT_SIZE](i => 0);
    buffer[1] := cmd;
    assert buffer[..] == [0, cmd] + Zeros(REPORT_SIZE - 2);
    var len := Min(|data|, REPORT_SIZE - 2);
    CopyInto(buffer, 2, data[..len]);
    assert buffer[..] == [0] + Body(cmd, data);
    assert buffer[..1] == [0] && buffer[1..] == Body(cmd, data);
    ApplyChecksum(buffer, 1, kind);
  }

  method BuildBleCommand(cmd: byte, data: seq<byte>, kind: ChecksumType) returns (buffer: array<byte>)
    ensures fresh(buffer) && buffer[..] == BleFrame(cmd, data, kind)
  {
    buffer := new byte[BLE_REPORT_SIZE](i => 0);
    buffer[0] := BLE_REPORT_ID;
    buffer[1] := BLE_MARKER;
    buffer[2] := cmd;
    assert buffer[..] == [BLE_REPORT_ID, BLE_MARKER, cmd] + Zeros(BLE_REPORT_SIZE - 3);
    var len := Min(|data|, BLE_REPORT_SIZE - 3);
    CopyInto(buffer, 3, data[..len]);
    assert buffer[..] == [BLE_REPORT_ID, BLE_MARKER] + Body(cmd, data);
    assert buffer[..2] == [BLE_REPORT_ID, BLE_MARKER] && buffer[2..] == Body(cmd, data);
    ApplyChecksum(buffer, 2, kind);
  }

  // ---- Properties ----

  /** Covered bytes and checksum byte add up to 255 modulo 256, in USB and BLE frames alike. */
  lemma CoveredBytesSumTo255(cmd: byte, data: seq<byte>, kind: ChecksumType)
    requires !kind.NoChecksum?
    ensures var frame, n := UsbFrame(cmd, data, kind), if kind.Bit7? then 7 else 8;
            |frame| == 65 && frame[0] == 0 && (Sum(frame[1..n + 1]) + frame[n + 1]) % 256 == 255
    ensures BleFrame(cmd, data, kind) == [0x06, 0x55] + UsbFrame(cmd, data, kind)[1..]
  {
    assert UsbFrame(cmd, data, kind)[1..][..Covered(kind)] == UsbFrame(cmd, data, kind)[1..Covered(kind) + 1];
  }

  /** Every other payload byte is the command, a data byte, or zero filling; data past byte 63 is cut. */
  lemma OtherBytesCarryTheCommand(cmd: byte, data: seq<byte>, kind: ChecksumType, i: nat)
    requires i < 64 && (kind.Bit7? ==> i != 7) && (kind.Bit8? ==> i != 8)
    ensures UsbFrame(cmd, data, kind)[i + 1] ==
            if i == 0 then cmd else if i - 1 < |data| then data[i - 1] else 0
  {
  }

  /** Applying the checksum twice changes nothing. */
  lemma ChecksumIdempotent(data: seq<byte>, kind: ChecksumType)
    ensures Checksummed(Checksummed(data, kind), kind) == Checksummed(data, kind)
  {
  }

  lemma {:induction false} SumUpdate(data: seq<byte>, i: nat, value: byte)
    requires i < |data|
    ensures Sum(data[i := value]) == Sum(data) - data[i] + value
  {
    var last := |data| - 1;
    if i < last {
      assert data[i := value][..last] == data[..last][i := value];
      SumUpdate(data[..last], i, value);
    } else {
      assert data[i := value][..last] == data[..last];
    }
  }

  /** A change of any single covered byte changes the checksum. */
  lemma ChecksumDetectsOneByte(data: seq<byte>, kind: ChecksumType, i: nat, value: byte)
    requires i < Covered(kind) && i < |data| && value != data[i]
    ensures CalculateChecksum(data[i := value], kind) != CalculateChecksum(data, kind)
  {
    var n := Min(Covered(kind), |data|);
    assert data[i := value][..n] == data[..n][i := value];
    SumUpdate(data[..n], i, value);
  }

  /** Bytes that are not covered never influence the checksum. */
  lemma ChecksumIgnoresUncovered(data: seq<byte>, other: seq<byte>, kind: ChecksumType)
    requires |data| == |other| && data[..Min(Covered(kind), |data|)] == other[..Min(Covered(kind), |data|)]
    ensures CalculateChecksum(data, kind) == CalculateChecksum(other, kind)
  {
  }
}
