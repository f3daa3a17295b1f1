/** Byte layout shared by the generators of both protocols: every operation
    starts from a value-initialised `can_frame`, copies the identifier that
    `init_frame` computes and fills a few data bytes. */
module FrameLayout {
  import opened LibModul
  import opened CppInt

  /** First data byte of a read request. */
  const PREAMBLE: bv8 := 0x12
  /** First data byte of a control (write) frame. */
  const CONTROL_PREFIX: bv8 := 0x10

  /** Second data byte: the command. */
  const TEMP_CMD: bv8 := 0x1E
  const CURRENT_CAP_CMD: bv8 := 0x68
  const FLAGS_CMD: bv8 := 0x08
  const VOLTAGE_CMD: bv8 := 0x62
  const CURRENT_CMD: bv8 := 0x30
  const MODE_SET_CMD: bv8 := 0x5F
  const VOLTAGE_SET_CMD: bv8 := 0x02
  const CURRENT_SET_CMD: bv8 := 0x03
  const POWER_CTRL_CMD: bv8 := 0x04

  /** Argument bytes of the mode and power frames. */
  const LOW_MODE: bv8 := 0x00
  const HIGH_MODE: bv8 := 0x01
  const AUTO_MODE: bv8 := 0x02
  const OFF: bv8 := 0x01
  const ON: bv8 := 0x00

  /** Identifier bits that do not depend on the address: the extended-frame
      flag (bit 31), bit 25 and bit 21. */
  const FIXED_ID_BITS: bv32 := 0x8220_0000
  /** Identifier bits 14 to 20, where the seven-bit module address goes. */
  const ADDRESS_ID_MASK: bv32 := 0x001F_C000

  /** The identifier both `init_frame`s compute for `moduleAddress`. */
  function InitId(moduleAddress: bv8): (id: bv32)
    ensures id & !ADDRESS_ID_MASK == FIXED_ID_BITS
    ensures (id & ADDRESS_ID_MASK) >> 14 == (moduleAddress & 0x7F) as bv32
  {
    var id := (1 as bv32 << 25) | (1 as bv32 << 21) | (((moduleAddress & 0x7F) as bv32) << 14) | (0 as bv32 << 9) | 0;
    id | CAN_INV_EFF_FLAG
  }

  /** Two addresses give the same identifier exactly when their low seven bits agree:
      bit 7 of the address is discarded and nothing else is. */
  lemma InitIdSameIff(a: bv8, b: bv8)
    ensures InitId(a) == InitId(b) <==> a & 0x7F == b & 0x7F
  {
    if InitId(a) == InitId(b) {
      assert (a & 0x7F) as bv32 == (b & 0x7F) as bv32;
    }
  }

  /** The four bytes `static_cast<uint8_t>((m & 0xff000000) >> 24)`, ..., `m & 0xff`. */
  function PackBE(m: bv32): (b: seq<bv8>)
    ensures |b| == 4
  {
    [((m & 0xFF00_0000) >> 24) as bv8, ((m & 0x00FF_0000) >> 16) as bv8,
     ((m & 0x0000_FF00) >> 8) as bv8, (m & 0x0000_00FF) as bv8]
  }

  /** Reassembling the packed bytes gives the word back. */
  lemma WordOfPackBE(m: bv32)
    ensures var b := PackBE(m); Word(b[0], b[1], b[2], b[3]) == m
  {
  }

  /** Packing a reassembled word gives the bytes back. */
  lemma PackBEOfWord(b0: bv8, b1: bv8, b2: bv8, b3: bv8)
    ensures PackBE(Word(b0, b1, b2, b3)) == [b0, b1, b2, b3]
  {
  }

  /** The packed bytes are the big-endian representation of `m`. */
  lemma PackBEValue(m: bv32)
    ensures BigEndian(PackBE(m)) == m as int
  {
    var b := PackBE(m);
    WordOfPackBE(m);
    WordValue(b[0], b[1], b[2], b[3]);
    assert b == [b[0], b[1], b[2], b[3]];
  }

  /** `uint32_t math_value = value * 100;` for a `uint16_t` value. The product is
      computed in `int`, never exceeds 6,553,500 and so fits in 24 bits. */
  function Scale100(value: bv16): (m: bv32)
    ensures m as int == value as int * 100
    ensures m < 0x100_0000
  {
    Scale100Value(value);
    (value as bv32) * 100
  }

  lemma Scale100Value(value: bv16)
    ensures ((value as bv32) * 100) as int == value as int * 100
    ensures (value as bv32) * 100 < 0x100_0000
  {
    assert (value as bv32) * 100 < 0x100_0000;
  }

  /** A read request: preamble, command byte, the rest zero. */
  function Request(canId: bv32, cmd: bv8): Frame
  {
    Frame(canId, 0, [PREAMBLE, cmd, 0, 0, 0, 0, 0, 0])
  }

  /** A control frame with a one-byte argument in the last data byte. */
  function Control(canId: bv32, cmd: bv8, last: bv8): Frame
  {
    Frame(canId, 0, [CONTROL_PREFIX, cmd, 0, 0, 0, 0, 0, last])
  }

  /** A set-value frame: `value * 100` big-endian in data bytes 4 to 7. */
  function ValueSet(canId: bv32, cmd: bv8, value: bv16): Frame
  {
    Frame(canId, 0, [CONTROL_PREFIX, cmd, 0, 0] + PackBE(Scale100(value)))
  }

  /** A read request as the generators build it: the identifier `init_frame`
      computes, the length left at zero, the preamble, the command and six zero bytes. */
  predicate IsRequest(f: Frame, moduleAddress: bv8, cmd: bv8)
  {
    && f.canId == InitId(moduleAddress)
    && f.canDlc == 0
    && f.data[0] == PREAMBLE
    && f.data[1] == cmd
    && forall i | 2 <= i < 8 :: f.data[i] == 0
  }

  /** A control frame: control prefix, command, zero bytes 2 to 6, argument byte last. */
  predicate IsControl(f: Frame, moduleAddress: bv8, cmd: bv8, last: bv8)
  {
    && f.canId == InitId(moduleAddress)
    && f.canDlc == 0
    && f.data[0] == CONTROL_PREFIX
    && f.data[1] == cmd
    && (forall i | 2 <= i < 7 :: f.data[i] == 0)
    && f.data[7] == last
  }

  /** A set-value frame: control prefix, command, zero bytes 2 and 3, and data
      bytes 4 to 7 whose big-endian value is `value * 100`. */
  predicate IsValueSet(f: Frame, moduleAddress: bv8, cmd: bv8, value: bv16)
  {
    && f.canId == InitId(moduleAddress)
    && f.canDlc == 0
    && f.data[0] == CONTROL_PREFIX
    && f.data[1] == cmd
    && f.data[2] == 0 && f.data[3] == 0
    && BigEndian(f.data[4..8]) == value as int * 100
  }

  lemma ValueSetIsValueSet(moduleAddress: bv8, cmd: bv8, value: bv16)
    ensures IsValueSet(ValueSet(InitId(moduleAddress), cmd, value), moduleAddress, cmd, value)
    ensures ValueSet(InitId(moduleAddress), cmd, value).data[4] == 0
  {
    var f := ValueSet(InitId(moduleAddress), cmd, value);
    assert f.data[4..8] == PackBE(Scale100(value));
    PackBEValue(Scale100(value));
  }
}
