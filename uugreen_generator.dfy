/** `UUgreenFrameGenerator`. Its `init_frame` computes the frame but has no
    `return` statement; the model gives it the value it evidently intends, the
    same frame as the MMeet generator's `init_frame`. The source stops after
    `generateVoltageSet`; the mode, current-set and power operations below are
    taken from the UUgreen expectations of the generator tests, which use the
    same bytes as the MMeet generator. Auto mode is not supported by this
    protocol; see `CanProtocolManager.GenerateAutoModeSet`. */
module UUgreenFrameGenerator {
  import opened LibModul
  import opened FrameLayout

  /** `init_frame`: length 8, zero data, the fixed identifier bits and the
      seven-bit address in bits 14 to 20; every other identifier bit is zero. */
  function InitFrame(moduleAddress: bv8): (f: Frame)
    ensures f.canDlc == CAN_INV_DLC && f.data == ZERO_PAYLOAD
    ensures f.canId & !ADDRESS_ID_MASK == FIXED_ID_BITS
    ensures (f.canId & ADDRESS_ID_MASK) >> 14 == (moduleAddress & 0x7F) as bv32
  {
    Frame(InitId(moduleAddress), CAN_INV_DLC, ZERO_PAYLOAD)
  }

  function GenerateTempRequest(moduleAddress: bv8): (f: Frame)
    ensures IsRequest(f, moduleAddress, TEMP_CMD)
  {
    Request(InitFrame(moduleAddress).canId, TEMP_CMD)
  }

  function GenerateCurrentCapabilityRequest(moduleAddress: bv8): (f: Frame)
    ensures IsRequest(f, moduleAddress, CURRENT_CAP_CMD)
  {
    Request(InitFrame(moduleAddress).canId, CURRENT_CAP_CMD)
  }

  function GenerateFlagsRequest(moduleAddress: bv8): (f: Frame)
    ensures IsRequest(f, moduleAddress, FLAGS_CMD)
  {
    Request(InitFrame(moduleAddress).canId, FLAGS_CMD)
  }

  function GenerateVoltageRequest(moduleAddress: bv8): (f: Frame)
    ensures IsRequest(f, moduleAddress, VOLTAGE_CMD)
  {
    Request(InitFrame(moduleAddress).canId, VOLTAGE_CMD)
  }

  function GenerateCurrentRequest(moduleAddress: bv8): (f: Frame)
    ensures IsRequest(f, moduleAddress, CURRENT_CMD)
  {
    Request(InitFrame(moduleAddress).canId, CURRENT_CMD)
  }

  function GenerateVoltageSet(moduleAddress: bv8, voltage: bv16): (f: Frame)
    ensures IsValueSet(f, moduleAddress, VOLTAGE_SET_CMD, voltage)
    ensures f.data[4] == 0
  {
    ValueSetIsValueSet(moduleAddress, VOLTAGE_SET_CMD, voltage);
    ValueSet(InitFrame(moduleAddress).canId, VOLTAGE_SET_CMD, voltage)
  }

  // The operations below are not in the UUgreen source file; their bytes
  // follow the generator tests and the MMeet generator.

  function GenerateLowModeSet(moduleAddress: bv8): (f: Frame)
    ensures IsControl(f, moduleAddress, MODE_SET_CMD, LOW_MODE)
  {
    Control(InitFrame(moduleAddress).canId, MODE_SET_CMD, LOW_MODE)
  }

  function GenerateHighModeSet(moduleAddress: bv8): (f: Frame)
    ensures IsControl(f, moduleAddress, MODE_SET_CMD, HIGH_MODE)
  {
    Control(InitFrame(moduleAddress).canId, MODE_SET_CMD, HIGH_MODE)
  }

  function GenerateCurrentSet(moduleAddress: bv8, current: bv16): (f: Frame)
    ensures IsValueSet(f, moduleAddress, CURRENT_SET_CMD, current)
    ensures f.data[4] == 0
  {
    ValueSetIsValueSet(moduleAddress, CURRENT_SET_CMD, current);
    ValueSet(InitFrame(moduleAddress).canId, CURRENT_SET_CMD, current)
  }

  function GenerateEnable(moduleAddress: bv8): (f: Frame)
    ensures IsControl(f, moduleAddress, POWER_CTRL_CMD, ON)
  {
    Control(InitFrame(moduleAddress).canId, POWER_CTRL_CMD, ON)
  }

  function GenerateDisable(moduleAddress: bv8): (f: Frame)
    ensures IsControl(f, moduleAddress, POWER_CTRL_CMD, OFF)
  {
    Control(InitFrame(moduleAddress).canId, POWER_CTRL_CMD, OFF)
  }
}
