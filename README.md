# libpowermodul CAN codec in Dafny

libpowermodul talks to UUgreen and MMeet power modules over CAN. A frame is
a 32-bit identifier, a length byte and eight data bytes. This project models
the library's codec:

- **Frame generators** (`UUgreenFrameGenerator`, `MMeetFrameGenerator`).
  - `init_frame` packs a module address into the identifier: fixed bits 31, 25 and 21, and the low seven address bits at bits 14 to 20.
  - Read requests put the preamble 0x12 and a command byte in the first two data bytes.
  - Mode and power frames put the prefix 0x10, a command byte and an argument in the last data byte.
  - Set frames put `value * 100` big-endian in data bytes 4 to 7.
- **Frame parser** (`CanParser`).
  - It checks the identifier against a per-protocol pattern and requires length 8.
  - It takes the address from a per-protocol bit slice.
  - It dispatches on a command byte (UUgreen) or a 16-bit code (MMeet) and stores the scaled big-endian payload in one measurement field.
  - The UUgreen parser also clears data bytes 2 and 3 of the caller's frame in place.
- **Protocol manager** (`CanProtocolManager`). It holds the generator of the selected protocol, which the constructor and `setProtocol` replace, and forwards every operation to it.
- **Result types.** `ParsedData` has a six-bit presence set and converts to true when any bit is set. `ParseResult` is the result kind of the declared `parse` entry point.

## How the model is organised

One module per source file:

- `LibModul` holds the types and constants of the two headers, and `CanFrame`, a class whose data bytes are an array, for the frame `parseUUgreen` changes in place.
- `CppInt` holds the C++ integer conversions the parser relies on:
  - `(int32_t)` as two's complement;
  - signed `/` truncating toward zero;
  - `(int16_t)` and `(uint16_t)` wrapping modulo 2^16.
- `FrameLayout` holds the byte layout the two generators share.
- `UUgreenFrameGenerator` and `MMeetFrameGenerator` hold the generators.
- `CanParser` holds the parser.
- `ProtocolManager` holds the manager class.
- `CodecProperties` holds the properties that connect the generators, the parser and the frames the parser tests build.

The generators and the parser, apart from `parseUUgreen`, are pure functions on a `Frame` value. `parseUUgreen` is a method on a `CanFrame` whose `modifies` clause is the data array. Its contract ties the result to the function `DecodeUUgreen` and the new frame contents to `ZeroReserved`.

Three divergences from the intended behaviour are worth knowing about. The first two are modelled as written and each is shown by a lemma; the third is modelled by the value the code evidently means to return:

- **Generated frames have length 0.** Every generator operation copies only the identifier from `init_frame`, so the returned frame keeps the value-initialised length 0 (src/MMeetFrameGenerator.cpp:23-24). The generator tests expect 8 (tests/BaseTest.cpp:24). `CodecProperties.GeneratedFramesRejected` shows that `parse` rejects every such frame under either protocol.
- **The MMeet generator emits the UUgreen layout.** It sets identifier bit 31, so no frame it produces matches the MMeet parser's identifier pattern (`CodecProperties.MMeetGeneratedNeverParsed`). The MMeet generator tests expect a different layout: prefix 0x01 0xF0 and 16-bit codes.
- **UUgreen `init_frame` has no `return` statement** (src/UUgreenFrameGenerator.cpp:3-9). The model gives it the value the function computes and evidently means to return, which is the MMeet `init_frame`. The file includes only include/libmodul.h, which defines neither `CAN_INV_DLC` nor `CAN_INV_EFF_FLAG`; `CAN_INV_EFF_FLAG` is defined only in src/MMeetFrameGenerator.cpp:4, and `CAN_INV_DLC` there and in the root libmodul.h:9. The model borrows these values. No lemma shows the missing `return`, since a C++ function that falls off its end has no value to model.

The UUgreen source stops after `generateVoltageSet`. The UUgreen mode, current-set and power operations copy the MMeet source's construction, length 0 included. The data bytes of the mode and power frames are the ones the UUgreen expectations in tests/BaseTest.cpp:62-78 and 115-131 check. Those tests also expect length 8, which the model does not give (see "Left out"). The current-set frame's payload differs from its test as well (see the `GenerateCurrentSet` line under "Left out"). UUgreen has no auto mode: the manager returns no frame for it, as the root header's `optional` result allows.

## Model

| member | source | states |
|---|---|---|
| LibModul.ProtocolFromCode | libmodul.h:30-34 | the enumeration is closed: exactly the codes 0 and 1 name a protocol, and each names the protocol whose code it is |
| LibModul.AsBool | libmodul.h:502 | `ParsedData` converts to true iff some field's presence bit is set |
| LibModul.AsBoolIffSomeField | libmodul.h:499-502 | `ParsedData` converts to true iff its set of present fields is non-empty |
| LibModul.CanFrame.constructor | libmodul.h:20-24 | a frame object holds exactly the identifier, length and eight data bytes it is built from, in a fresh array |
| CppInt.Int32Of | src/CanParser.cpp:27 | `(int32_t)` gives the unique value in the signed 32-bit range congruent to the word modulo 2^32, negative iff bit 31 is set |
| CppInt.TruncDiv | src/CanParser.cpp:27 | signed `/` truncates toward zero: for a non-negative dividend the quotient times the divisor is the largest multiple not above it, for a negative one the smallest not below it |
| CppInt.Int16Of | src/CanParser.cpp:27 | `(int16_t)` gives a 16-bit value congruent to its argument modulo 2^16 and leaves values already in range unchanged |
| CppInt.UInt16Of | src/CanParser.cpp:65 | `(uint16_t)` gives the value below 2^16 congruent to the word modulo 2^16 |
| CppInt.Word | src/CanParser.cpp:3-5 | the four bytes sit side by side in the word, most significant first: shifting and masking gives each one back |
| CppInt.WordValue | src/CanParser.cpp:3-5 | OR-ing four bytes shifted by 24, 16, 8 and 0 gives the unsigned big-endian value of the four bytes |
| FrameLayout.InitId | src/MMeetFrameGenerator.cpp:12-19 | the identifier has exactly bits 31, 25 and 21 set outside the address field, and bits 14 to 20 hold the low seven bits of the address |
| FrameLayout.InitIdSameIff | src/UUgreenFrameGenerator.cpp:7 | two addresses give the same identifier iff their low seven bits agree: bit 7 of the address is discarded |
| FrameLayout.WordOfPackBE | src/MMeetFrameGenerator.cpp:104-107 | reassembling the four packed bytes gives the value back |
| FrameLayout.PackBEOfWord | src/MMeetFrameGenerator.cpp:104-107 | packing a reassembled word gives the four bytes back |
| FrameLayout.PackBEValue | src/MMeetFrameGenerator.cpp:104-107 | the packed bytes are the big-endian representation of the value |
| FrameLayout.Scale100 | src/MMeetFrameGenerator.cpp:98 | `value * 100` for a `uint16_t` value is exact in 32 bits and stays below 2^24 |
| FrameLayout.ValueSetIsValueSet | src/MMeetFrameGenerator.cpp:96-109 | a set frame has the prefix, the command, zero bytes 2 and 3, payload bytes whose big-endian value is `value * 100`, and data byte 4 equal to 0 |
| MMeetFrameGenerator.InitFrame | src/MMeetFrameGenerator.cpp:12-19 | `init_frame` has length 8, zero data and the identifier described at `InitId` |
| MMeetFrameGenerator.GenerateTempRequest | src/MMeetFrameGenerator.cpp:21-28 | the `init_frame` identifier, length 0, preamble 0x12, command 0x1E, bytes 2 to 7 zero |
| MMeetFrameGenerator.GenerateCurrentCapabilityRequest | src/MMeetFrameGenerator.cpp:30-37 | the same request layout with command 0x68 |
| MMeetFrameGenerator.GenerateFlagsRequest | src/MMeetFrameGenerator.cpp:39-46 | the same request layout with command 0x08 |
| MMeetFrameGenerator.GenerateVoltageRequest | src/MMeetFrameGenerator.cpp:48-55 | the same request layout with command 0x62 |
| MMeetFrameGenerator.GenerateCurrentRequest | src/MMeetFrameGenerator.cpp:57-64 | the same request layout with command 0x30 |
| MMeetFrameGenerator.GenerateLowModeSet | src/MMeetFrameGenerator.cpp:66-74 | the `init_frame` identifier, length 0, prefix 0x10, command 0x5F, bytes 2 to 6 zero, last byte LOW_MODE 0x00 |
| MMeetFrameGenerator.GenerateHighModeSet | src/MMeetFrameGenerator.cpp:76-84 | the same control layout with last byte HIGH_MODE 0x01 |
| MMeetFrameGenerator.GenerateAutoModeSet | src/MMeetFrameGenerator.cpp:86-94 | a frame is always produced: the same control layout with last byte AUTO_MODE 0x02 |
| MMeetFrameGenerator.GenerateVoltageSet | src/MMeetFrameGenerator.cpp:96-109 | the set layout with command 0x02: big-endian `voltage * 100` in bytes 4 to 7, with byte 4 zero |
| MMeetFrameGenerator.GenerateCurrentSet | src/MMeetFrameGenerator.cpp:111-124 | the set layout with command 0x03 and big-endian `current * 100` |
| MMeetFrameGenerator.GenerateEnable | src/MMeetFrameGenerator.cpp:126-134 | the control layout with command 0x04 and last byte ON 0x00 |
| MMeetFrameGenerator.GenerateDisable | src/MMeetFrameGenerator.cpp:136-144 | the control layout with command 0x04 and last byte OFF 0x01 |
| MMeetFrameGenerator.ModeFramesDistinct | src/MMeetFrameGenerator.cpp:66-94 | the low, high and auto mode frames are pairwise distinct and agree on the identifier and the first seven data bytes |
| MMeetFrameGenerator.EnableDisableDifferOnlyInLastByte | src/MMeetFrameGenerator.cpp:126-144 | enable and disable agree on identifier, length and the first seven bytes and differ in the ON/OFF byte |
| UUgreenFrameGenerator.InitFrame | src/UUgreenFrameGenerator.cpp:3-9 | the frame `init_frame` computes: length 8, zero data and the identifier described at `InitId` |
| UUgreenFrameGenerator.GenerateTempRequest | src/UUgreenFrameGenerator.cpp:11-18 | the `init_frame` identifier, length 0, preamble 0x12, command 0x1E, bytes 2 to 7 zero |
| UUgreenFrameGenerator.GenerateCurrentCapabilityRequest | src/UUgreenFrameGenerator.cpp:20-27 | the same request layout with command 0x68 |
| UUgreenFrameGenerator.GenerateFlagsRequest | src/UUgreenFrameGenerator.cpp:29-36 | the same request layout with command 0x08 |
| UUgreenFrameGenerator.GenerateVoltageRequest | src/UUgreenFrameGenerator.cpp:38-45 | the same request layout with command 0x62 |
| UUgreenFrameGenerator.GenerateCurrentRequest | src/UUgreenFrameGenerator.cpp:47-54 | the same request layout with command 0x30 |
| UUgreenFrameGenerator.GenerateVoltageSet | src/UUgreenFrameGenerator.cpp:56-69 | the set layout with command 0x02: big-endian `voltage * 100` in bytes 4 to 7, with byte 4 zero |
| UUgreenFrameGenerator.GenerateLowModeSet | tests/BaseTest.cpp:62-69 | the MMeet source's control frame, length 0 included: the `init_frame` identifier, command 0x5F and last byte 0x00, the data bytes these tests check |
| UUgreenFrameGenerator.GenerateHighModeSet | tests/BaseTest.cpp:71-78 | the MMeet source's control frame, length 0 included: the `init_frame` identifier, command 0x5F and last byte 0x01, the data bytes these tests check |
| UUgreenFrameGenerator.GenerateCurrentSet | tests/BaseTest.cpp:100-113 | the set layout with command 0x03 and big-endian `current * 100` |
| UUgreenFrameGenerator.GenerateEnable | tests/BaseTest.cpp:115-122 | the MMeet source's control frame, length 0 included: the `init_frame` identifier, command 0x04 and last byte 0x00, the data bytes these tests check |
| UUgreenFrameGenerator.GenerateDisable | tests/BaseTest.cpp:124-131 | the MMeet source's control frame, length 0 included: the `init_frame` identifier, command 0x04 and last byte 0x01, the data bytes these tests check |
| CanParser.RecordWritesOneField | src/CanParser.cpp:15-34 | a switch case writes its own measurement and leaves the address, the presence set and every other measurement unchanged |
| CanParser.UUgreenAddress | src/CanParser.cpp:13 | the UUgreen address is identifier bits 14 to 20 and is below 128 |
| CanParser.GetDataUUgreen | src/CanParser.cpp:3-5 | the payload is the unsigned big-endian value of data bytes 4 to 7 |
| CanParser.ZeroReserved | src/CanParser.cpp:10-11 | clearing the reserved bytes sets data bytes 2 and 3 to 0 and keeps the identifier, the length and the other six bytes |
| CanParser.DecodeUUgreen | src/CanParser.cpp:6-38 | data is returned iff bit 25 of the identifier is set and the length is 8; the data carries the address slice and no presence bit; the field the command selects holds its decoded reading, and every other measurement field is 0 |
| CanParser.Scaled | src/CanParser.cpp:18-30 | the scaled value is the payload in thousandths: it times 1000 is the unsigned payload, and it is never negative |
| CanParser.Degrees | src/CanParser.cpp:26-27 | the temperature is the signed payload divided with truncation toward zero whenever that fits 16 bits; a payload less than one divisor away from zero, on either side, gives 0 |
| CanParser.UUgreenReading | src/CanParser.cpp:15-34 | voltage, current and capability are the payload in thousandths, status is the raw payload, temperature is the truncated signed quotient by 1000 |
| CanParser.ParseUUgreen | src/CanParser.cpp:6-38 | the result is the decoding of the frame as passed; an accepted frame has bytes 2 and 3 cleared in place and nothing else changed, a rejected frame is left as it was |
| CanParser.MMeetAddress | src/CanParser.cpp:48 | the MMeet address is identifier bits 3 to 10 |
| CanParser.GetDataMMeet | src/CanParser.cpp:40-42 | the payload is the big-endian value of data bytes 4 to 7, the same value the UUgreen reader gives |
| CanParser.MMeetReading | src/CanParser.cpp:50-69 | voltage and current are the payload in thousandths, capability is the payload's low 16 bits (below 65536), status is the raw payload, temperature is the truncated signed quotient by 10 |
| CanParser.MMeetCommand | src/CanParser.cpp:50 | the command code has data byte 2 as its high byte and data byte 3 as its low byte |
| CanParser.ParseMMeet | src/CanParser.cpp:44-73 | data is returned iff the identifier's upper half is 0x060F and the length is 8; the data carries the address slice and no presence bit; the field the command selects holds its decoded reading, and every other measurement field is 0 |
| CanParser.Parse | libmodul.h:506-516 | INVALID_FRAME iff the protocol's parser rejects the frame; UNKNOWN_CMD iff it accepts it with an unrecognised command; data comes exactly with OK, its presence set is exactly ADDR and the field the command fills, that field holds the decoded measurement, and apart from the presence set the data equals what the protocol's parser returns |
| CanParser.PresentOfAddrAnd | libmodul.h:499-500 | setting the ADDR bit and one measurement bit makes exactly those two fields present |
| CanParser.ParseCode | libmodul.h:516 | a protocol tag that names no enumerator gives INVALID_FRAME and no data; a valid tag gives `parse` for that protocol |
| ProtocolManager.CanProtocolManager.constructor | libmodul.h:348-358 | the manager starts with the generator of the protocol it is given |
| ProtocolManager.CanProtocolManager.SetProtocol | include/libmodul.h:355-365 | after the call the manager holds the generator of the new protocol |
| ProtocolManager.CanProtocolManager.GenerateTempRequest | include/libmodul.h:372-374 | the selected generator's temperature request, unchanged: a request for the given address with command 0x1E |
| ProtocolManager.CanProtocolManager.GenerateCurrentCapabilityRequest | include/libmodul.h:381-383 | the selected generator's capability request: command 0x68 |
| ProtocolManager.CanProtocolManager.GenerateFlagsRequest | include/libmodul.h:390-392 | the selected generator's flags request: command 0x08 |
| ProtocolManager.CanProtocolManager.GenerateVoltageRequest | include/libmodul.h:399-401 | the selected generator's voltage request: command 0x62 |
| ProtocolManager.CanProtocolManager.GenerateCurrentRequest | include/libmodul.h:408-410 | the selected generator's current request: command 0x30 |
| ProtocolManager.CanProtocolManager.GenerateLowModeSet | include/libmodul.h:417-419 | the selected generator's low mode frame |
| ProtocolManager.CanProtocolManager.GenerateHighModeSet | include/libmodul.h:426-428 | the selected generator's high mode frame |
| ProtocolManager.CanProtocolManager.GenerateAutoModeSet | libmodul.h:444-446 | a frame is produced iff MMeet is selected, and it is the MMeet auto mode frame |
| ProtocolManager.CanProtocolManager.GenerateVoltageSet | include/libmodul.h:445-447 | the selected generator's voltage set frame for the same value: big-endian `voltage * 100` |
| ProtocolManager.CanProtocolManager.GenerateCurrentSet | include/libmodul.h:455-457 | the selected generator's current set frame for the same value |
| ProtocolManager.CanProtocolManager.GenerateEnable | include/libmodul.h:464-466 | the selected generator's enable frame |
| ProtocolManager.CanProtocolManager.GenerateDisable | include/libmodul.h:473-475 | the selected generator's disable frame |
| CodecProperties.UUgreenAddressRoundTrip | src/CanParser.cpp:8-13 | the identifier `a << 14` with `UUGREEN_MASK` OR-ed in passes the identifier test and its address slice is `a & 0x7F`, hence `a` for every `a < 128` |
| CodecProperties.MMeetAddressRoundTrip | src/CanParser.cpp:46-48 | the identifier `a << 3` with `MMEET_ID` OR-ed in passes the identifier test for `a < 0x2000` and its address slice is `a & 0xFF`, hence `a` for every `a < 256` |
| CodecProperties.GeneratedIdRoundTrip | src/UUgreenFrameGenerator.cpp:7-8 | a generated identifier has bit 25 set, and the parser's address slice returns the seven address bits it was built from |
| CodecProperties.InitFrameDecodes | src/UUgreenFrameGenerator.cpp:3-9 | `init_frame` itself is accepted by the UUgreen parser and decodes to an empty record for the seven-bit address |
| CodecProperties.GetDataRoundTrip | src/CanParser.cpp:40-42 | both payload readers undo the byte split of the parser tests' frame builders |
| CodecProperties.GetDataReadsOnlyPayload | src/CanParser.cpp:3-5 | the payload readers depend on data bytes 4 to 7 only |
| CodecProperties.SetValueRoundTrip | src/UUgreenFrameGenerator.cpp:56-69 | the payload of every set frame of either generator reads back as `value * 100` |
| CodecProperties.ZeroReservedIdempotent | src/CanParser.cpp:10-11 | clearing the reserved bytes twice is the same as clearing them once |
| CodecProperties.DecodeIgnoresReserved | src/CanParser.cpp:8-34 | clearing data bytes 2 and 3 leaves the command's reading unchanged, because the payload is read from bytes 4 to 7 only; hence decoding the frame `parseUUgreen` leaves behind gives the same result as decoding the original |
| CodecProperties.UUgreenDispatchMatchesTable | src/CanParser.cpp:15-34 | the switch recognises exactly the seven command bytes of the table and fills the field the table names; status is the raw payload |
| CodecProperties.MMeetDispatchMatchesTable | src/CanParser.cpp:50-69 | the switch recognises exactly the five codes of the table and fills the field the table names; status is the raw payload |
| CodecProperties.RequestCommandsSelectTheirField | src/MMeetFrameGenerator.cpp:21-64 | each read request's command byte is one the UUgreen parser maps to the quantity requested |
| CodecProperties.DegreesTruncates | src/CanParser.cpp:27 | when the quotient fits in 16 bits, the temperature is the signed payload divided by the divisor, truncated toward zero |
| CppInt.TruncDivInRange | src/CanParser.cpp:62 | a dividend below `0x8000 * divisor` in magnitude has a truncated quotient in the 16-bit signed range |
| CodecProperties.TemperatureExamples | src/CanParser.cpp:27 | 25000 thousandths is 25, 423 tenths is 42, -999 thousandths is 0 and -1100 thousandths is -1 |
| CodecProperties.MMeetCapabilityIsLow16 | src/CanParser.cpp:64-65 | the MMeet capability is the value of data bytes 6 and 7 alone: the payload modulo 2^16 |
| CodecProperties.LengthRejected | src/CanParser.cpp:8 | any frame whose length is not 8 is rejected by both parsers, and `parse` classifies it as INVALID_FRAME under either protocol |
| CodecProperties.GeneratedFramesRejected | src/UUgreenFrameGenerator.cpp:13-14 | every frame with a request, control or set layout (the layouts every generator operation ensures) has length 0, so `parse` classifies it as INVALID_FRAME under either protocol |
| CodecProperties.MMeetGeneratedNeverParsed | src/MMeetFrameGenerator.cpp:16-17 | no frame carrying a generated identifier matches the MMeet parser's identifier pattern, whatever its length and data |
| CodecProperties.GeneratorsAgree | src/MMeetFrameGenerator.cpp:21-144 | for every operation both generators offer, they produce the same frame, so switching protocol changes only whether an auto mode frame exists; for the five UUgreen operations that have no UUgreen source this holds by construction, since both generators use the same layout builders |
| CodecProperties.ForeignFrameRejected | tests/CanParserTest.cpp:126-135 | identifier 0x123 with length 5 is rejected by both parsers and by `parse`, whatever the data |
| CodecProperties.UnknownProtocolRejected | tests/CanParserTest.cpp:235-244 | the tag 99 gives INVALID_FRAME and no data |
| CodecProperties.UUgreenTestFrameParses | tests/CanParserTest.cpp:9-22 | a test-built UUgreen frame with an address below 128 and a recognised command parses as OK with that address, the selected measurement and the presence bits ADDR and that field |
| CodecProperties.MMeetTestFrameParses | tests/CanParserTest.cpp:24-38 | the same for test-built MMeet frames with an address below 256 |
| CodecProperties.UUgreenParseScaledExamples | tests/CanParserTest.cpp:41-114 | the voltage 123.456, current 45.678 and capability 100.0 frames of the UUgreen tests parse to exactly the expected records |
| CodecProperties.UUgreenParseIntegerExamples | tests/CanParserTest.cpp:71-99 | the temperature 25 and status 0xABCD1234 frames of the UUgreen tests parse to exactly the expected records |
| CodecProperties.MMeetParseScaledExamples | tests/CanParserTest.cpp:138-211 | the voltage 54.321, current 12.345 and capability 150 frames of the MMeet tests parse to exactly the expected records |
| CodecProperties.MMeetParseIntegerExamples | tests/CanParserTest.cpp:168-196 | the temperature 42 and status 0xDEADBEEF frames of the MMeet tests parse to exactly the expected records |
| CodecProperties.UnknownCommandAsWritten | src/CanParser.cpp:31-35 | both parsers as written return an empty record for the unknown-command test frames, while `parse` gives UNKNOWN_CMD and no data |

## Left out

- Floating point: the parser divides by `1000.0f`, and the model stores the exact quotient as a real number. Rounding to single precision is not modelled.
- The root header's `float` setters (libmodul.h:105,113): the model takes the `uint16_t` setters of include/libmodul.h:102,110, which the sources implement.
- UUgreenFrameGenerator.GenerateCurrentSet: it scales by 100 like the UUgreen voltage set in the source. The generator tests instead expect a float scaled by 1000, which the integer interface cannot express.
- The UUgreen voltage-set test also expects a float scaled by 1000 (tests/BaseTest.cpp:85-98). The source scales a `uint16_t` by 100, and the model follows the source.
- The MMeet layout the generator tests expect (prefix 0x01 0xF0, 16-bit codes, tests/BaseTest.cpp:134-271) is not modelled, because no source implements it.
- `std::unique_ptr` and virtual dispatch: the manager's generator is represented by its protocol tag.
- The missing `default:` in the manager's two `switch` statements would leave the generator null for an out-of-range tag. This cannot arise with the closed `ProtocolType` datatype.
- `#pragma pack` layout and the transport's reading of the extended-frame flag: these are representation details outside the codec.
- CAN transport I/O and the example programs (SocketCAN, CANalyst-II, timeouts, console output) are not part of this model.
- UUgreenFrameGenerator.GenerateLowModeSet, UUgreenFrameGenerator.GenerateHighModeSet, UUgreenFrameGenerator.GenerateEnable and UUgreenFrameGenerator.GenerateDisable: they give length 0 as the MMeet source does, not the length 8 that tests/BaseTest.cpp:64,73,117,126 expect, because no UUgreen source implements them.
- CppInt.Word: in the source, `data[4] << 24` is computed on a promoted signed `int` and does not fit in `int` for a byte of 0x80 or more. Since C++14 the result is the `unsigned int` value converted to `int`, which is implementation-defined (it was undefined in C++11). The model takes the 32-bit pattern the cast to `uint32_t` evidently intends.
- `CanParser::parse` has no implementation in the sources. `CanParser.Parse` models the contract its declaration and the parser tests describe.

## Findings

| source | as written | input that shows it | evidently intended | confidence | as-written member | corrected member |
|---|---|---|---|---|---|---|
| src/CanParser.cpp:31-35 | an accepted frame with an unrecognised command still returns a `ParsedData`; no presence bit is ever set | UUgreen frame with identifier `0xBC << 14` plus bit 25, length 8, command byte 0x99 (MMeet: code 0x9999) | UNKNOWN_CMD with no data; OK data carries ADDR and the measurement's bit (libmodul.h:506,516) | high, not executed | CodecProperties.UnknownCommandAsWritten | CanParser.Parse |
