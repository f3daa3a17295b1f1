/** Types and constants shared by the frame generators, the parser and the
    protocol manager (libmodul.h and include/libmodul.h). */
module LibModul {

  datatype Option<+T> = None | Some(value: T)

  /** Frame length every accepted frame must carry (`CAN_INV_DLC`). */
  const CAN_INV_DLC: bv8 := 8
  /** Extended-frame flag OR-ed into every generated identifier. */
  const CAN_INV_EFF_FLAG: bv32 := 0x8000_0000
  /** A UUgreen identifier has this bit (bit 25) set. */
  const UUGREEN_MASK: bv32 := 0x0200_0000
  /** An MMeet identifier has `MMEET_ID` in its upper sixteen bits. */
  const MMEET_MASK: bv32 := 0xFFFF_0000
  const MMEET_ID: bv32 := 0x060F_0000

  /** The eight data bytes of a frame. */
  type Payload = s: seq<bv8> | |s| == 8 witness [0, 0, 0, 0, 0, 0, 0, 0]

  const ZERO_PAYLOAD: Payload := [0, 0, 0, 0, 0, 0, 0, 0]

  /** `int16_t`: the type of the parsed temperature. */
  type Int16 = x: int | -0x8000 <= x < 0x8000

  /** `struct can_frame` as a value: identifier, length byte and data bytes. */
  datatype Frame = Frame(canId: bv32, canDlc: bv8, data: Payload)

  /** `enum class ProtocolType`: closed, with exactly two protocols. */
  datatype ProtocolType = UUgreen | MMeet

  /** The enumerator whose underlying value is `code` (UUgreen is 0, MMeet is 1);
      any other value, such as the result of `static_cast<ProtocolType>(99)`,
      names no protocol. */
  function ProtocolFromCode(code: int): (p: Option<ProtocolType>)
    ensures p.Some? <==> 0 <= code < 2
    ensures p.Some? ==> ProtocolCode(p.value) == code
  {
    if code == 0 then Some(UUgreen) else if code == 1 then Some(MMeet) else None
  }

  function ProtocolCode(p: ProtocolType): int
  {
    match p
    case UUgreen => 0
    case MMeet => 1
  }

  /** `ParsedData::Field`, in declaration order: ADDR, VOLTAGE, CURRENT, TEMP, STATUS, CAPABILITY. */
  datatype Field = Addr | Voltage | Current | Temp | Status | Capability

  const ALL_FIELDS: set<Field> := {Addr, Voltage, Current, Temp, Status, Capability}

  /** The bit of `ParsedData::fields` (a `std::bitset<COUNT>`) that records `f`. */
  function FieldBit(f: Field): bv6
  {
    match f
    case Addr => 0x01
    case Voltage => 0x02
    case Current => 0x04
    case Temp => 0x08
    case Status => 0x10
    case Capability => 0x20
  }

  /** `ParsedData`. The float fields hold the exact quotient the parser
      computes in single precision; the rounding to `float` is not modelled. */
  datatype ParsedData = ParsedData(
    address: bv8,
    voltage: real,
    current: real,
    temperature: Int16,
    status: bv32,
    currentCapability: real,
    fields: bv6)

  /** `ParsedData result;` once the parser has assigned the address: every
      measurement keeps its default member initialiser and no presence bit is set. */
  function Fresh(address: bv8): ParsedData
  {
    ParsedData(address, 0.0, 0.0, 0, 0, 0.0, 0)
  }

  /** `fields.test(f)`. */
  predicate Has(d: ParsedData, f: Field)
  {
    d.fields & FieldBit(f) != 0
  }

  /** The presence set as a set of field names. */
  function Present(d: ParsedData): set<Field>
  {
    set f | f in ALL_FIELDS && Has(d, f)
  }

  /** `explicit operator bool`: `fields.any()`. */
  predicate AsBool(d: ParsedData): (b: bool)
    ensures b <==> exists f :: Has(d, f)
  {
    if d.fields == 0 then
      assert forall f :: !Has(d, f);
      false
    else
      var f := if Has(d, Addr) then Addr else if Has(d, Voltage) then Voltage
        else if Has(d, Current) then Current else if Has(d, Temp) then Temp
        else if Has(d, Status) then Status else Capability;
      assert Has(d, f);
      true
  }

  /** `ParsedData` converts to true exactly when its set of present fields is non-empty. */
  lemma AsBoolIffSomeField(d: ParsedData)
    ensures AsBool(d) <==> Present(d) != {}
  {
    if AsBool(d) {
      var f :| Has(d, f);
      assert f in Present(d);
    } else {
      assert Present(d) == {};
    }
  }

  /** `enum class ParseResult`. */
  datatype ParseResult = Ok | UnknownCmd | InvalidFrame

  /** A `can_frame` passed by reference: the parser may overwrite its data bytes in place. */
  class CanFrame {
    var canId: bv32
    var canDlc: bv8
    const data: array<bv8>

    ghost predicate Valid()
      reads this
    {
      data.Length == 8
    }

    /** The frame's current contents as a value. */
    function Value(): Frame
      reads this, data
      requires Valid()
    {
      Frame(canId, canDlc, data[..])
    }

    constructor (f: Frame)
      ensures Valid() && fresh(data)
      ensures Value() == f
    {
      canId := f.canId;
      canDlc := f.canDlc;
      data := new bv8[8](i requires 0 <= i < 8 => f.data[i]);
    }
  }
}
