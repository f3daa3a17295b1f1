/** `CanParser` (src/CanParser.cpp): validates an inbound frame against one
    protocol, takes the module address from the identifier, dispatches on the
    command and stores the scaled 32-bit payload in one measurement field.

    As written, the two protocol parsers return an `optional<ParsedData>`:
    empty for a rejected frame, and otherwise a `ParsedData` whose presence
    set is empty, even when the command is not recognised. `Parse` models the
    `parse` contract the header declares (a result kind paired with the data). */
module CanParser {
  import opened LibModul
  import opened CppInt

  /** The single measurement one case of a command switch assigns. */
  datatype Reading =
    | VoltageReading(volts: real)
    | CurrentReading(amps: real)
    | TempReading(degrees: Int16)
    | StatusReading(flags: bv32)
    | CapabilityReading(capability: real)

  /** The presence bit that belongs to a reading. */
  function FieldOf(x: Reading): Field
  {
    match x
    case VoltageReading(_) => Voltage
    case CurrentReading(_) => Current
    case TempReading(_) => Temp
    case StatusReading(_) => Status
    case CapabilityReading(_) => Capability
  }

  /** The assignment `result.<member> = <value>;` of one switch case. */
  function Record(d: ParsedData, x: Reading): ParsedData
  {
    match x
    case VoltageReading(v) => d.(voltage := v)
    case CurrentReading(c) => d.(current := c)
    case TempReading(t) => d.(temperature := t)
    case StatusReading(s) => d.(status := s)
    case CapabilityReading(c) => d.(currentCapability := c)
  }

  /** The numeric value `d` holds for field `f`, as a real number. */
  function ValueOf(d: ParsedData, f: Field): real
  {
    match f
    case Addr => d.address as int as real
    case Voltage => d.voltage
    case Current => d.current
    case Temp => d.temperature as real
    case Status => d.status as int as real
    case Capability => d.currentCapability
  }

  function ReadingValue(x: Reading): real
  {
    match x
    case VoltageReading(v) => v
    case CurrentReading(c) => c
    case TempReading(t) => t as real
    case StatusReading(s) => s as int as real
    case CapabilityReading(c) => c
  }

  /** A switch case writes its own field and leaves the address, the presence
      set and every other measurement as they were. */
  lemma RecordWritesOneField(d: ParsedData, x: Reading)
    ensures ValueOf(Record(d, x), FieldOf(x)) == ReadingValue(x)
    ensures forall f :: f != FieldOf(x) ==> ValueOf(Record(d, x), f) == ValueOf(d, f)
    ensures Record(d, x).fields == d.fields
  {
  }

  /** `raw / 1000.0f` computed exactly: the payload in thousandths of a unit
      (the source divides by a `float` constant). */
  function Scaled(raw: bv32): (r: real)
    ensures r * 1000.0 == raw as int as real
    ensures r >= 0.0
  {
    raw as int as real / 1000.0
  }

  /** `(int16_t)(((int32_t)raw) / divisor)`: the raw word read as a signed
      32-bit number, divided with truncation toward zero, then narrowed to 16 bits. */
  function Degrees(raw: bv32, divisor: nat): (t: Int16)
    requires divisor > 0
    ensures -0x8000 * divisor < Int32Of(raw) < 0x8000 * divisor ==> t == TruncDiv(Int32Of(raw), divisor)
    ensures -(divisor as int) < Int32Of(raw) < divisor ==> t == 0
    ensures (t - TruncDiv(Int32Of(raw), divisor)) % 0x1_0000 == 0
  {
    var x := Int32Of(raw);
    if -0x8000 * divisor < x < 0x8000 * divisor then
      TruncDivInRange(x, divisor);
      Int16Of(TruncDiv(x, divisor))
    else
      Int16Of(TruncDiv(x, divisor))
  }

  // ---------------------------------------------------------------- UUgreen

  /** The acceptance test of `parseUUgreen`: bit 25 of the identifier set and length 8. */
  predicate IsUUgreenFrame(f: Frame)
  {
    f.canId & UUGREEN_MASK == UUGREEN_MASK && f.canDlc == CAN_INV_DLC
  }

  /** `(can_id & 0x1FC000) >> 14`: identifier bits 14 to 20. The value always
      fits the `uint8_t` address (it is below 128). */
  function UUgreenAddress(canId: bv32): (a: bv8)
    ensures a < 0x80
    ensures a as bv32 == (canId >> 14) & 0x7F
  {
    ((canId & 0x1F_C000) >> 14) as bv8
  }

  /** `get_dataUUgreen`: the unsigned big-endian value of data bytes 4 to 7. */
  function GetDataUUgreen(f: Frame): (r: bv32)
    ensures r as int == BigEndian(f.data[4..8])
  {
    WordValue(f.data[4], f.data[5], f.data[6], f.data[7]);
    assert f.data[4..8] == [f.data[4], f.data[5], f.data[6], f.data[7]];
    Word(f.data[4], f.data[5], f.data[6], f.data[7])
  }

  /** The `switch (frame.data[1])` of `parseUUgreen`: the measurement each
      command byte selects and its scaling; `None` for the `default:` case. */
  function UUgreenReading(cmd: bv8, raw: bv32): (r: Option<Reading>)
    ensures r.Some? && FieldOf(r.value) in {Voltage, Current, Capability} ==> ReadingValue(r.value) * 1000.0 == raw as int as real
    ensures r.Some? && FieldOf(r.value) == Status ==> r.value == StatusReading(raw)
    ensures r.Some? && FieldOf(r.value) == Temp ==> r.value == TempReading(Degrees(raw, 1000))
  {
    if cmd == 0x00 || cmd == 0x62 then Some(VoltageReading(Scaled(raw)))
    else if cmd == 0x01 || cmd == 0x30 then Some(CurrentReading(Scaled(raw)))
    else if cmd == 0x08 then Some(StatusReading(raw))
    else if cmd == 0x1E then Some(TempReading(Degrees(raw, 1000)))
    else if cmd == 0x68 then Some(CapabilityReading(Scaled(raw)))
    else None
  }

  /** The two reserved bytes `parseUUgreen` clears before reading the payload. */
  function ZeroReserved(f: Frame): (g: Frame)
    ensures g.canId == f.canId && g.canDlc == f.canDlc
    ensures g.data[2] == 0 && g.data[3] == 0
    ensures forall i | 0 <= i < 8 && i != 2 && i != 3 :: g.data[i] == f.data[i]
  {
    f.(data := f.data[2 := 0][3 := 0])
  }

  /** What `parseUUgreen` returns for a frame with the given contents. */
  function DecodeUUgreen(f: Frame): (r: Option<ParsedData>)
    ensures r.Some? <==> IsUUgreenFrame(f)
    ensures r.Some? ==> r.value.address == UUgreenAddress(f.canId) && !AsBool(r.value)
    ensures r.Some? && ReadingOf(UUgreen, f).Some? ==>
      ValueOf(r.value, FieldOf(ReadingOf(UUgreen, f).value)) == ReadingValue(ReadingOf(UUgreen, f).value)
    ensures r.Some? ==> forall g :: g != Addr && (ReadingOf(UUgreen, f).None? || g != FieldOf(ReadingOf(UUgreen, f).value)) ==> ValueOf(r.value, g) == 0.0
  {
    if IsUUgreenFrame(f) then
      var g := ZeroReserved(f);
      assert g.data[4..8] == f.data[4..8];
      var d := Fresh(UUgreenAddress(g.canId));
      match UUgreenReading(g.data[1], GetDataUUgreen(g))
      case None => Some(d)
      case Some(x) => RecordWritesOneField(d, x); Some(Record(d, x))
    else
      None
  }

  /** `parseUUgreen` on a frame passed by reference. An accepted frame has its
      data bytes 2 and 3 cleared in place and nothing else changed; a rejected
      frame is left as it was. */
  method ParseUUgreen(frame: CanFrame) returns (r: Option<ParsedData>)
    requires frame.Valid()
    modifies frame.data
    ensures frame.Valid()
    ensures r == DecodeUUgreen(old(frame.Value()))
    ensures frame.Value() == if r.Some? then ZeroReserved(old(frame.Value())) else old(frame.Value())
  {
    ghost var before := frame.Value();
    if frame.canId & UUGREEN_MASK == UUGREEN_MASK && frame.canDlc == CAN_INV_DLC {
      frame.data[2] := 0;
      frame.data[3] := 0;
      assert frame.Value() == ZeroReserved(before) by {
        assert frame.data[..] == ZeroReserved(before).data;
      }
      var result := Fresh(((frame.canId & 0x1F_C000) >> 14) as bv8);
      var raw := GetDataUUgreen(frame.Value());
      match UUgreenReading(frame.data[1], raw) {
        case Some(x) => result := Record(result, x);
        case None =>
      }
      r := Some(result);
    } else {
      r := None;
    }
  }

  // ------------------------------------------------------------------ MMeet

  /** The acceptance test of `parseMMeet`: upper identifier half 0x060F and length 8. */
  predicate IsMMeetFrame(f: Frame)
  {
    f.canId & MMEET_MASK == MMEET_ID && f.canDlc == CAN_INV_DLC
  }

  /** `(can_id & 0x7F8) >> 3`: identifier bits 3 to 10, which fit the `uint8_t` address. */
  function MMeetAddress(canId: bv32): (a: bv8)
    ensures a as bv32 == (canId >> 3) & 0xFF
  {
    ((canId & 0x7F8) >> 3) as bv8
  }

  /** `get_dataMMeet`: the same big-endian read of data bytes 4 to 7. */
  function GetDataMMeet(f: Frame): (r: bv32)
    ensures r as int == BigEndian(f.data[4..8])
    ensures r == GetDataUUgreen(f)
  {
    WordValue(f.data[4], f.data[5], f.data[6], f.data[7]);
    assert f.data[4..8] == [f.data[4], f.data[5], f.data[6], f.data[7]];
    Word(f.data[4], f.data[5], f.data[6], f.data[7])
  }

  /** `(uint16_t)((data[2] << 8) | data[3])`: the 16-bit command code. */
  function MMeetCommand(f: Frame): (code: bv16)
    ensures (code >> 8) as bv8 == f.data[2] && (code & 0xFF) as bv8 == f.data[3]
  {
    (f.data[2] as bv16 << 8) | f.data[3] as bv16
  }

  /** The `switch` of `parseMMeet` on the command code. */
  function MMeetReading(code: bv16, raw: bv32): (r: Option<Reading>)
    ensures r.Some? && FieldOf(r.value) in {Voltage, Current} ==> ReadingValue(r.value) * 1000.0 == raw as int as real
    ensures r.Some? && FieldOf(r.value) == Capability ==>
      0.0 <= ReadingValue(r.value) < 65536.0 && ReadingValue(r.value) == UInt16Of(raw) as real
    ensures r.Some? && FieldOf(r.value) == Status ==> r.value == StatusReading(raw)
    ensures r.Some? && FieldOf(r.value) == Temp ==> r.value == TempReading(Degrees(raw, 10))
  {
    if code == 0x0231 then Some(VoltageReading(Scaled(raw)))
    else if code == 0x0232 then Some(CurrentReading(Scaled(raw)))
    else if code == 0x0218 then Some(StatusReading(raw))
    else if code == 0x020B then Some(TempReading(Degrees(raw, 10)))
    else if code == 0x0235 then Some(CapabilityReading(UInt16Of(raw) as real))
    else None
  }

  /** `parseMMeet` (the frame is passed by `const` reference and not changed). */
  function ParseMMeet(f: Frame): (r: Option<ParsedData>)
    ensures r.Some? <==> IsMMeetFrame(f)
    ensures r.Some? ==> r.value.address == MMeetAddress(f.canId) && !AsBool(r.value)
    ensures r.Some? && ReadingOf(MMeet, f).Some? ==>
      ValueOf(r.value, FieldOf(ReadingOf(MMeet, f).value)) == ReadingValue(ReadingOf(MMeet, f).value)
    ensures r.Some? ==> forall g :: g != Addr && (ReadingOf(MMeet, f).None? || g != FieldOf(ReadingOf(MMeet, f).value)) ==> ValueOf(r.value, g) == 0.0
  {
    if IsMMeetFrame(f) then
      var d := Fresh(MMeetAddress(f.canId));
      match MMeetReading(MMeetCommand(f), GetDataMMeet(f))
      case None => Some(d)
      case Some(x) => RecordWritesOneField(d, x); Some(Record(d, x))
    else
      None
  }

  // ---------------------------------------------- the declared parse contract

  predicate Accepts(protocol: ProtocolType, f: Frame)
  {
    match protocol
    case UUgreen => IsUUgreenFrame(f)
    case MMeet => IsMMeetFrame(f)
  }

  function AddressOf(protocol: ProtocolType, f: Frame): bv8
  {
    match protocol
    case UUgreen => UUgreenAddress(f.canId)
    case MMeet => MMeetAddress(f.canId)
  }

  /** The measurement an accepted frame carries, or `None` for an unknown command. */
  function ReadingOf(protocol: ProtocolType, f: Frame): Option<Reading>
  {
    match protocol
    case UUgreen => UUgreenReading(f.data[1], GetDataUUgreen(f))
    case MMeet => MMeetReading(MMeetCommand(f), GetDataMMeet(f))
  }

  /** The protocol's parser as written. */
  function ParseAsWritten(protocol: ProtocolType, f: Frame): Option<ParsedData>
  {
    match protocol
    case UUgreen => DecodeUUgreen(f)
    case MMeet => ParseMMeet(f)
  }

  /** `CanParser::parse(frame, protocol)`: INVALID_FRAME with no data for a
      frame of another protocol or of the wrong length, UNKNOWN_CMD with no data
      for an accepted frame with an unrecognised command, and otherwise OK with
      the decoded data, whose presence set holds ADDR and the one field assigned. */
  function Parse(f: Frame, protocol: ProtocolType): (r: (Option<ParsedData>, ParseResult))
    ensures r.0.Some? <==> r.1 == Ok
    ensures r.1 == InvalidFrame <==> !Accepts(protocol, f)
    ensures r.1 == UnknownCmd <==> Accepts(protocol, f) && ReadingOf(protocol, f).None?
    ensures r.1 == Ok ==> ReadingOf(protocol, f).Some?
    ensures r.1 == Ok ==> Present(r.0.value) == {Addr, FieldOf(ReadingOf(protocol, f).value)}
    ensures r.1 == Ok ==> ValueOf(r.0.value, FieldOf(ReadingOf(protocol, f).value)) == ReadingValue(ReadingOf(protocol, f).value)
    ensures r.1 == Ok ==> r.0.value.(fields := 0) == ParseAsWritten(protocol, f).value
  {
    if !Accepts(protocol, f) then
      (None, InvalidFrame)
    else
      match ReadingOf(protocol, f)
      case None => (None, UnknownCmd)
      case Some(x) =>
        var d := Record(Fresh(AddressOf(protocol, f)), x);
        PresentOfAddrAnd(d, FieldOf(x));
        RecordWritesOneField(Fresh(AddressOf(protocol, f)), x);
        (Some(d.(fields := FieldBit(Addr) | FieldBit(FieldOf(x)))), Ok)
  }

  /** Setting the ADDR bit and one measurement bit makes exactly those two present. */
  lemma PresentOfAddrAnd(d: ParsedData, g: Field)
    requires g != Addr
    ensures Present(d.(fields := FieldBit(Addr) | FieldBit(g))) == {Addr, g}
  {
    var e := d.(fields := FieldBit(Addr) | FieldBit(g));
    forall f | f in ALL_FIELDS
      ensures Has(e, f) <==> f == Addr || f == g
    {
    }
  }

  /** `parse` with a protocol tag given by its underlying value: a value that
      names no `ProtocolType` enumerator is rejected as INVALID_FRAME. */
  function ParseCode(f: Frame, code: int): (r: (Option<ParsedData>, ParseResult))
    ensures ProtocolFromCode(code).None? ==> r == (None, InvalidFrame)
    ensures ProtocolFromCode(code).Some? ==> r == Parse(f, ProtocolFromCode(code).value)
  {
    match ProtocolFromCode(code)
    case None => (None, InvalidFrame)
    case Some(p) => Parse(f, p)
  }
}
