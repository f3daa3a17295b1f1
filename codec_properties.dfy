/** Properties that relate the generators, the parser and the result types:
    address and payload round trips, what the in-place zeroing does not change,
    the integer-exact decoding, and the frames the parser tests build. */
module CodecProperties {
  import opened LibModul
  import opened CppInt
  import opened FrameLayout
  import opened CanParser
  import UUgreenFrameGenerator
  import MMeetFrameGenerator

  // ------------------------------------------------ frames built by the tests

  /** `createUUgreenFrame(id, cmd, data)` of the parser tests: the address
      shifted to bit 14 with bit 25 set, length 8, preamble 0xAA, the command
      byte, two zero bytes and the 32-bit value split high byte first. */
  function UUgreenTestFrame(id: bv32, cmd: bv8, value: bv32): Frame
  {
    Frame((id << 14) | UUGREEN_MASK, CAN_INV_DLC,
      [0xAA, cmd, 0, 0,
       ((value >> 24) & 0xFF) as bv8, ((value >> 16) & 0xFF) as bv8,
       ((value >> 8) & 0xFF) as bv8, (value & 0xFF) as bv8])
  }

  /** `createMMeetFrame(id, cmd, data)`: the address shifted to bit 3 under
      `MMEET_ID`, length 8, preamble 0x55 0xAA, the 16-bit command high byte
      first and the 32-bit value split high byte first. */
  function MMeetTestFrame(id: bv32, cmd: bv16, value: bv32): Frame
  {
    Frame((id << 3) | MMEET_ID, CAN_INV_DLC,
      [0x55, 0xAA, ((cmd >> 8) & 0xFF) as bv8, (cmd & 0xFF) as bv8,
       ((value >> 24) & 0xFF) as bv8, ((value >> 16) & 0xFF) as bv8,
       ((value >> 8) & 0xFF) as bv8, (value & 0xFF) as bv8])
  }

  // ---------------------------------------------------- address round trips

  /** An identifier built as `(a << 14) | UUGREEN_MASK` is accepted and the
      address slice gives back the low seven bits of `a`: every `a < 128` exactly. */
  lemma UUgreenAddressRoundTrip(a: bv32, cmd: bv8, value: bv32)
    ensures IsUUgreenFrame(UUgreenTestFrame(a, cmd, value))
    ensures UUgreenAddress(UUgreenTestFrame(a, cmd, value).canId) as bv32 == a & 0x7F
    ensures a < 0x80 ==> UUgreenAddress(UUgreenTestFrame(a, cmd, value).canId) as bv32 == a
  {
  }

  /** An identifier built as `(a << 3) | MMEET_ID` keeps the MMeet pattern in its
      upper half as long as the shifted address stays below bit 16, and the
      address slice gives back the low eight bits of `a`: every `a < 256` exactly. */
  lemma MMeetAddressRoundTrip(a: bv32, cmd: bv16, value: bv32)
    ensures a < 0x2000 ==> IsMMeetFrame(MMeetTestFrame(a, cmd, value))
    ensures MMeetAddress(MMeetTestFrame(a, cmd, value).canId) as bv32 == a & 0xFF
    ensures a < 0x100 ==> MMeetAddress(MMeetTestFrame(a, cmd, value).canId) as bv32 == a
  {
  }

  /** Every identifier a generator produces passes the UUgreen identifier test,
      and the parser's address slice returns the seven address bits it was given:
      the fixed bits 21, 25 and 31 lie outside the address field. */
  lemma GeneratedIdRoundTrip(moduleAddress: bv8)
    ensures InitId(moduleAddress) & UUGREEN_MASK == UUGREEN_MASK
    ensures UUgreenAddress(InitId(moduleAddress)) == moduleAddress & 0x7F
  {
    var id := InitId(moduleAddress);
    assert id & UUGREEN_MASK == (id & !ADDRESS_ID_MASK) & UUGREEN_MASK;
    assert (id & 0x1F_C000) >> 14 == (moduleAddress & 0x7F) as bv32;
  }

  /** `init_frame` itself (length 8) is accepted by the UUgreen parser and
      decodes to an empty record for the seven-bit address. */
  lemma InitFrameDecodes(moduleAddress: bv8)
    ensures DecodeUUgreen(UUgreenFrameGenerator.InitFrame(moduleAddress)) == Some(Fresh(moduleAddress & 0x7F))
  {
    GeneratedIdRoundTrip(moduleAddress);
    var f := UUgreenFrameGenerator.InitFrame(moduleAddress);
    assert ZeroReserved(f).data == ZERO_PAYLOAD;
    assert UUgreenReading(0, 0) == Some(VoltageReading(0.0));
  }

  // -------------------------------------------------- payload round trips

  /** `get_dataUUgreen` and `get_dataMMeet` undo the test helpers' byte split. */
  lemma GetDataRoundTrip(id: bv32, cmd: bv8, code: bv16, value: bv32)
    ensures GetDataUUgreen(UUgreenTestFrame(id, cmd, value)) == value
    ensures GetDataMMeet(MMeetTestFrame(id, code, value)) == value
  {
    var u := UUgreenTestFrame(id, cmd, value);
    var m := MMeetTestFrame(id, code, value);
    assert Word(u.data[4], u.data[5], u.data[6], u.data[7]) == value;
    assert Word(m.data[4], m.data[5], m.data[6], m.data[7]) == value;
  }

  /** The payload read looks at data bytes 4 to 7 and at no other part of the frame. */
  lemma GetDataReadsOnlyPayload(f: Frame, g: Frame)
    requires f.data[4..8] == g.data[4..8]
    ensures GetDataUUgreen(f) == GetDataUUgreen(g)
    ensures GetDataMMeet(f) == GetDataMMeet(g)
  {
    assert f.data[4] == g.data[4] && f.data[5] == g.data[5];
    assert f.data[6] == g.data[6] && f.data[7] == g.data[7];
  }

  /** Generator packing and parser unpacking: the payload of a set frame of
      either generator reads back as `value * 100`. */
  lemma SetValueRoundTrip(moduleAddress: bv8, value: bv16)
    ensures GetDataUUgreen(UUgreenFrameGenerator.GenerateVoltageSet(moduleAddress, value)) as int == value as int * 100
    ensures GetDataUUgreen(UUgreenFrameGenerator.GenerateCurrentSet(moduleAddress, value)) as int == value as int * 100
    ensures GetDataMMeet(MMeetFrameGenerator.GenerateVoltageSet(moduleAddress, value)) as int == value as int * 100
    ensures GetDataMMeet(MMeetFrameGenerator.GenerateCurrentSet(moduleAddress, value)) as int == value as int * 100
  {
  }

  // ------------------------------------------------------ in-place zeroing

  /** Clearing the reserved bytes twice is clearing them once. */
  lemma ZeroReservedIdempotent(f: Frame)
    ensures ZeroReserved(ZeroReserved(f)) == ZeroReserved(f)
  {
    assert ZeroReserved(ZeroReserved(f)).data == ZeroReserved(f).data;
  }

  /** Decoding ignores data bytes 2 and 3: the frame `parseUUgreen` leaves
      behind decodes exactly as the frame it was given, so parsing it again
      gives the same result. */
  lemma DecodeIgnoresReserved(f: Frame)
    ensures UUgreenReading(f.data[1], GetDataUUgreen(ZeroReserved(f))) == UUgreenReading(f.data[1], GetDataUUgreen(f))
    ensures DecodeUUgreen(ZeroReserved(f)) == DecodeUUgreen(f)
  {
    assert ZeroReserved(f).data[4..8] == f.data[4..8];
    GetDataReadsOnlyPayload(ZeroReserved(f), f);
    ZeroReservedIdempotent(f);
  }

  // --------------------------------------------------------- command tables

  /** The UUgreen command table: the value of each command byte it recognises
      and the field that command fills. */
  const UUGREEN_COMMANDS: map<int, Field> :=
    map[0x00 := Voltage, 0x62 := Voltage, 0x01 := Current, 0x30 := Current,
        0x08 := Status, 0x1E := Temp, 0x68 := Capability]

  /** The MMeet command table: the value of each 16-bit code it recognises and
      the field that code fills. */
  const MMEET_COMMANDS: map<int, Field> :=
    map[0x0231 := Voltage, 0x0232 := Current, 0x0218 := Status, 0x020B := Temp, 0x0235 := Capability]

  /** The UUgreen switch recognises exactly the commands of the table and fills
      the field the table names; status is the raw value unchanged. */
  lemma UUgreenDispatchMatchesTable(cmd: bv8, raw: bv32)
    ensures UUgreenReading(cmd, raw).Some? <==> cmd as int in UUGREEN_COMMANDS
    ensures cmd as int in UUGREEN_COMMANDS ==> FieldOf(UUgreenReading(cmd, raw).value) == UUGREEN_COMMANDS[cmd as int]
    ensures cmd == 0x08 ==> UUgreenReading(cmd, raw) == Some(StatusReading(raw))
  {
  }

  /** The MMeet switch recognises exactly the codes of the table and fills the
      field the table names; status is the raw value unchanged. */
  lemma MMeetDispatchMatchesTable(code: bv16, raw: bv32)
    ensures MMeetReading(code, raw).Some? <==> code as int in MMEET_COMMANDS
    ensures code as int in MMEET_COMMANDS ==> FieldOf(MMeetReading(code, raw).value) == MMEET_COMMANDS[code as int]
    ensures code == 0x0218 ==> MMeetReading(code, raw) == Some(StatusReading(raw))
  {
  }

  /** Each command byte a read request carries is one the UUgreen parser maps
      to the quantity the request asks for. */
  lemma RequestCommandsSelectTheirField()
    ensures UUGREEN_COMMANDS[TEMP_CMD as int] == Temp
    ensures UUGREEN_COMMANDS[CURRENT_CAP_CMD as int] == Capability
    ensures UUGREEN_COMMANDS[FLAGS_CMD as int] == Status
    ensures UUGREEN_COMMANDS[VOLTAGE_CMD as int] == Voltage
    ensures UUGREEN_COMMANDS[CURRENT_CMD as int] == Current
  {
  }

  // ------------------------------------------------- integer-exact decoding

  /** When the signed payload divided by `divisor` fits in 16 bits, the
      temperature is that quotient truncated toward zero: its magnitude is the
      largest multiple of `divisor` not above the payload's magnitude, and it
      has the payload's sign. */
  lemma DegreesTruncates(raw: bv32, divisor: nat)
    requires divisor > 0
    requires -0x8000 * divisor < Int32Of(raw) < 0x8000 * divisor
    ensures var x, t := Int32Of(raw), Degrees(raw, divisor);
      && (x >= 0 ==> 0 <= t * divisor <= x < t * divisor + divisor)
      && (x < 0 ==> t * divisor - divisor < x <= t * divisor <= 0)
  {
    TruncDivInRange(Int32Of(raw), divisor);
  }

  /** The decoded temperatures the parser tests expect, and the truncation
      toward zero on a negative payload: -999 thousandths is 0 degrees
      (a floor division would give -1) and -1100 thousandths is -1. */
  lemma TemperatureExamples()
    ensures Degrees(25000, 1000) == 25
    ensures Degrees(423, 10) == 42
    ensures Degrees(0xFFFF_FC19, 1000) == 0
    ensures Degrees(0xFFFF_FBB4, 1000) == -1
  {
    assert Int32Of(0xFFFF_FC19) == -999;
    assert Int32Of(0xFFFF_FBB4) == -1100;
  }

  /** The MMeet capability is the payload modulo 2^16: the value of data
      bytes 6 and 7 alone; bytes 4 and 5 are dropped by the `uint16_t` cast. */
  lemma MMeetCapabilityIsLow16(f: Frame)
    requires IsMMeetFrame(f) && MMeetCommand(f) == 0x0235
    ensures ParseMMeet(f) == Some(Fresh(MMeetAddress(f.canId)).(currentCapability := (f.data[6] as int * 0x100 + f.data[7] as int) as real))
  {
    var raw := GetDataMMeet(f);
    BigEndianOfFour(f.data[4..8]);
    LowSixteen(raw as int, f.data[4] as int * 0x100 + f.data[5] as int, f.data[6] as int * 0x100 + f.data[7] as int);
  }

  /** `hi * 2^16 + lo` reduced modulo 2^16 is `lo`. */
  lemma LowSixteen(x: int, hi: int, lo: int)
    requires x == hi * 0x1_0000 + lo && 0 <= lo < 0x1_0000
    ensures x % 0x1_0000 == lo
  {
  }

  // ---------------------------------------------------- generated frames

  /** Both parsers require length 8: `parse` classifies a frame of any other
      length as INVALID_FRAME, whatever its identifier, data and protocol. */
  lemma LengthRejected(f: Frame, protocol: ProtocolType)
    requires f.canDlc != CAN_INV_DLC
    ensures !Accepts(protocol, f)
    ensures Parse(f, protocol) == (None, InvalidFrame)
  {
  }

  /** Every frame a generator produces (each generator operation ensures one of
      the three layouts, and each layout has length 0) is classified as
      INVALID_FRAME by `parse` under either protocol. */
  lemma GeneratedFramesRejected(f: Frame, protocol: ProtocolType, moduleAddress: bv8, cmd: bv8, last: bv8, value: bv16)
    requires IsRequest(f, moduleAddress, cmd) || IsControl(f, moduleAddress, cmd, last) || IsValueSet(f, moduleAddress, cmd, value)
    ensures f.canDlc == 0
    ensures Parse(f, protocol) == (None, InvalidFrame)
  {
    LengthRejected(f, protocol);
  }

  /** No frame that carries a generated identifier matches the MMeet parser's
      identifier pattern, whatever its length and data: the generated
      identifier has bit 31 set, while the pattern requires 0x060F in the upper half. */
  lemma MMeetGeneratedNeverParsed(f: Frame, moduleAddress: bv8)
    requires f.canId == InitId(moduleAddress)
    ensures !IsMMeetFrame(f)
    ensures Parse(f, MMeet) == (None, InvalidFrame)
  {
    assert f.canId & CAN_INV_EFF_FLAG == (f.canId & !ADDRESS_ID_MASK) & CAN_INV_EFF_FLAG;
  }

  /** The two generators produce the same frame for every operation both
      offer; switching the manager's protocol therefore changes only whether
      an auto-mode frame is produced. */
  lemma GeneratorsAgree(moduleAddress: bv8, value: bv16)
    ensures UUgreenFrameGenerator.GenerateTempRequest(moduleAddress) == MMeetFrameGenerator.GenerateTempRequest(moduleAddress)
    ensures UUgreenFrameGenerator.GenerateCurrentCapabilityRequest(moduleAddress) == MMeetFrameGenerator.GenerateCurrentCapabilityRequest(moduleAddress)
    ensures UUgreenFrameGenerator.GenerateFlagsRequest(moduleAddress) == MMeetFrameGenerator.GenerateFlagsRequest(moduleAddress)
    ensures UUgreenFrameGenerator.GenerateVoltageRequest(moduleAddress) == MMeetFrameGenerator.GenerateVoltageRequest(moduleAddress)
    ensures UUgreenFrameGenerator.GenerateCurrentRequest(moduleAddress) == MMeetFrameGenerator.GenerateCurrentRequest(moduleAddress)
    ensures UUgreenFrameGenerator.GenerateLowModeSet(moduleAddress) == MMeetFrameGenerator.GenerateLowModeSet(moduleAddress)
    ensures UUgreenFrameGenerator.GenerateHighModeSet(moduleAddress) == MMeetFrameGenerator.GenerateHighModeSet(moduleAddress)
    ensures UUgreenFrameGenerator.GenerateVoltageSet(moduleAddress, value) == MMeetFrameGenerator.GenerateVoltageSet(moduleAddress, value)
    ensures UUgreenFrameGenerator.GenerateCurrentSet(moduleAddress, value) == MMeetFrameGenerator.GenerateCurrentSet(moduleAddress, value)
    ensures UUgreenFrameGenerator.GenerateEnable(moduleAddress) == MMeetFrameGenerator.GenerateEnable(moduleAddress)
    ensures UUgreenFrameGenerator.GenerateDisable(moduleAddress) == MMeetFrameGenerator.GenerateDisable(moduleAddress)
  {
  }

  // ------------------------------------------------ the parser tests' frames

  /** The frame with identifier 0x123 and length 5 is rejected by both
      parsers and by `parse`, whatever its data bytes. */
  lemma ForeignFrameRejected(data: Payload, protocol: ProtocolType)
    ensures DecodeUUgreen(Frame(0x123, 5, data)) == None
    ensures ParseMMeet(Frame(0x123, 5, data)) == None
    ensures Parse(Frame(0x123, 5, data), protocol) == (None, InvalidFrame)
  {
  }

  /** A protocol tag outside the enumeration gives INVALID_FRAME and no data. */
  lemma UnknownProtocolRejected(f: Frame)
    ensures ParseCode(f, 99) == (None, InvalidFrame)
  {
  }

  /** A frame built like the UUgreen test frames, for an address below 128 and
      a recognised command, parses as OK: the address it was built with, the
      measurement the command selects computed from the value it was built
      with, and ADDR plus that measurement's bit. */
  lemma UUgreenTestFrameParses(id: bv32, cmd: bv8, value: bv32)
    requires id < 0x80 && UUgreenReading(cmd, value).Some?
    ensures var x := UUgreenReading(cmd, value).value;
      Parse(UUgreenTestFrame(id, cmd, value), UUgreen)
        == (Some(Record(Fresh(id as bv8), x).(fields := FieldBit(Addr) | FieldBit(FieldOf(x)))), Ok)
  {
    UUgreenAddressRoundTrip(id, cmd, value);
    GetDataRoundTrip(id, cmd, 0, value);
  }

  /** The same for the MMeet test frames, for an address below 256. */
  lemma MMeetTestFrameParses(id: bv32, code: bv16, value: bv32)
    requires id < 0x100 && MMeetReading(code, value).Some?
    ensures var x := MMeetReading(code, value).value;
      Parse(MMeetTestFrame(id, code, value), MMeet)
        == (Some(Record(Fresh(id as bv8), x).(fields := FieldBit(Addr) | FieldBit(FieldOf(x)))), Ok)
  {
    MMeetAddressRoundTrip(id, code, value);
    GetDataRoundTrip(id, 0, code, value);
    assert MMeetCommand(MMeetTestFrame(id, code, value)) == code;
  }

  /** The UUgreen parser tests for the voltage, current and capability
      commands: address, presence set and the payload scaled by 1/1000. */
  lemma UUgreenParseScaledExamples()
    ensures Parse(UUgreenTestFrame(0x12, 0x00, 123456), UUgreen)
         == (Some(ParsedData(0x12, 123.456, 0.0, 0, 0, 0.0, 0x03)), Ok)
    ensures Parse(UUgreenTestFrame(0x34, 0x01, 45678), UUgreen)
         == (Some(ParsedData(0x34, 0.0, 45.678, 0, 0, 0.0, 0x05)), Ok)
    ensures Parse(UUgreenTestFrame(126, 0x68, 100000), UUgreen)
         == (Some(ParsedData(126, 0.0, 0.0, 0, 0, 100.0, 0x21)), Ok)
  {
    UUgreenTestFrameParses(0x12, 0x00, 123456);
    UUgreenTestFrameParses(0x34, 0x01, 45678);
    UUgreenTestFrameParses(126, 0x68, 100000);
  }

  /** The UUgreen parser tests for the temperature and status commands. */
  lemma UUgreenParseIntegerExamples()
    ensures Parse(UUgreenTestFrame(0x56, 0x1E, 25000), UUgreen)
         == (Some(ParsedData(0x56, 0.0, 0.0, 25, 0, 0.0, 0x09)), Ok)
    ensures Parse(UUgreenTestFrame(0x78, 0x08, 0xABCD_1234), UUgreen)
         == (Some(ParsedData(0x78, 0.0, 0.0, 0, 0xABCD_1234, 0.0, 0x11)), Ok)
  {
    UUgreenTestFrameParses(0x56, 0x1E, 25000);
    UUgreenTestFrameParses(0x78, 0x08, 0xABCD_1234);
    TemperatureExamples();
  }

  /** The MMeet parser tests for the voltage and current codes (payload scaled
      by 1/1000) and the capability code (payload taken whole). */
  lemma MMeetParseScaledExamples()
    ensures Parse(MMeetTestFrame(0x12, 0x0231, 54321), MMeet)
         == (Some(ParsedData(0x12, 54.321, 0.0, 0, 0, 0.0, 0x03)), Ok)
    ensures Parse(MMeetTestFrame(0x34, 0x0232, 12345), MMeet)
         == (Some(ParsedData(0x34, 0.0, 12.345, 0, 0, 0.0, 0x05)), Ok)
    ensures Parse(MMeetTestFrame(0x9A, 0x0235, 150), MMeet)
         == (Some(ParsedData(0x9A, 0.0, 0.0, 0, 0, 150.0, 0x21)), Ok)
  {
    MMeetTestFrameParses(0x12, 0x0231, 54321);
    MMeetTestFrameParses(0x34, 0x0232, 12345);
    MMeetTestFrameParses(0x9A, 0x0235, 150);
  }

  /** The MMeet parser tests for the temperature and status codes. */
  lemma MMeetParseIntegerExamples()
    ensures Parse(MMeetTestFrame(0x56, 0x020B, 423), MMeet)
         == (Some(ParsedData(0x56, 0.0, 0.0, 42, 0, 0.0, 0x09)), Ok)
    ensures Parse(MMeetTestFrame(0x78, 0x0218, 0xDEAD_BEEF), MMeet)
         == (Some(ParsedData(0x78, 0.0, 0.0, 0, 0xDEAD_BEEF, 0.0, 0x11)), Ok)
  {
    MMeetTestFrameParses(0x56, 0x020B, 423);
    MMeetTestFrameParses(0x78, 0x0218, 0xDEAD_BEEF);
    TemperatureExamples();
  }

  /** The unknown-command tests. As written, both parsers return data for an
      accepted frame with an unrecognised command (with no presence bit set),
      where the tests expect UNKNOWN_CMD and no data; `Parse` gives the latter. */
  lemma UnknownCommandAsWritten()
    ensures DecodeUUgreen(UUgreenTestFrame(0xBC, 0x99, 0x1234_5678)) == Some(Fresh(0x3C))
    ensures ParseMMeet(MMeetTestFrame(0xBC, 0x9999, 0x1234_5678)) == Some(Fresh(0xBC))
    ensures Parse(UUgreenTestFrame(0xBC, 0x99, 0x1234_5678), UUgreen) == (None, UnknownCmd)
    ensures Parse(MMeetTestFrame(0xBC, 0x9999, 0x1234_5678), MMeet) == (None, UnknownCmd)
  {
  }
}
