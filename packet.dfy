/** UdpPacketData: the telemetry record and its wire image.

    The struct is declared with sequential layout and Pack = 1, so its memory
    image (which Marshal copies byte for byte) is its five fields in declaration
    order with no padding. Byte order is fixed as little-endian. */
module Packet {
  import opened Bytes

  datatype UdpPacketData = UdpPacketData(
    packetId: Int32,
    pump1Value: Bits64,
    pump2Value: Bits64,
    alarmState: Int32,
    input1Value: Bits64)

  /** Widths of the fields in declaration order: int, double, double, int, double. */
  const FieldWidths: seq<nat> := [4, 8, 8, 4, 8]
  const FieldCount: nat := 5

  const PacketIdOffset: nat := 0
  const Pump1ValueOffset: nat := 4
  const Pump2ValueOffset: nat := 12
  const AlarmStateOffset: nat := 20
  const Input1ValueOffset: nat := 24

  /** Marshal.SizeOf<UdpPacketData>(). */
  const PacketSize: nat := 32

  /** With Pack = 1 a field starts where the previous one ends. */
  function Offset(i: nat): nat
    requires i <= FieldCount
  {
    if i == 0 then 0 else Offset(i - 1) + FieldWidths[i - 1]
  }

  lemma PackedLayout()
    ensures Offset(0) == PacketIdOffset
    ensures Offset(1) == Pump1ValueOffset
    ensures Offset(2) == Pump2ValueOffset
    ensures Offset(3) == AlarmStateOffset
    ensures Offset(4) == Input1ValueOffset
    ensures Offset(FieldCount) == 4 + 8 + 8 + 4 + 8 == PacketSize
  {
  }

  /** The bytes StructureToPtr writes for p. */
  function Encode(p: UdpPacketData): (r: seq<Byte>)
    ensures |r| == PacketSize
  {
    EncodeInt32(p.packetId)
      + EncodeBits64(p.pump1Value)
      + EncodeBits64(p.pump2Value)
      + EncodeInt32(p.alarmState)
      + EncodeBits64(p.input1Value)
  }

  /** Each field's bytes sit at its offset. */
  lemma EncodeLayout(p: UdpPacketData)
    ensures var r := Encode(p);
      && r[PacketIdOffset..Pump1ValueOffset] == EncodeInt32(p.packetId)
      && r[Pump1ValueOffset..Pump2ValueOffset] == EncodeBits64(p.pump1Value)
      && r[Pump2ValueOffset..AlarmStateOffset] == EncodeBits64(p.pump2Value)
      && r[AlarmStateOffset..Input1ValueOffset] == EncodeInt32(p.alarmState)
      && r[Input1ValueOffset..PacketSize] == EncodeBits64(p.input1Value)
  {
    SlicesOfConcat(EncodeInt32(p.packetId), EncodeBits64(p.pump1Value), EncodeBits64(p.pump2Value),
                   EncodeInt32(p.alarmState), EncodeBits64(p.input1Value));
  }

  lemma SlicesOfConcat<T>(a: seq<T>, b: seq<T>, c: seq<T>, d: seq<T>, e: seq<T>)
    requires |a| == 4 && |b| == 8 && |c| == 8 && |d| == 4 && |e| == 8
    ensures var r := a + b + c + d + e;
      |r| == 32 && r[0..4] == a && r[4..12] == b && r[12..20] == c && r[20..24] == d && r[24..32] == e
  {
    var r := a + b + c + d + e;
    assert r[0..4] == a;
    assert r[4..12] == b;
    assert r[12..20] == c;
    assert r[20..24] == d;
    assert r[24..32] == e;
  }
}
