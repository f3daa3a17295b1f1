/** `MMeetFrameGenerator`: one frame per operation. As written, it emits the
    same layout as the UUgreen generator (preamble 0x12, one command byte, an
    identifier with bit 25 set), and each frame copies only the identifier of
    `init_frame`, so its length byte stays 0. */
module MMeetFrameGenerator {
  import opened LibModul
  import opened FrameLayout

  /** `init_frame`: length 8, zero data, the fixed identifier bits and the
      seven-bit address in bits 14 to 20; every other identifier bit is zero. */
  function InitFrame(moduleAddress: bv8): (f: Frame)
    ensures f.canDlc == CAN_INV_DLC && f.data == ZERO_PAYLOAD
    ensures f.canId & !ADDRESS_ID_MASK == FIXED_ID_BITS
    ensures (f.canId & ADDRESS_ID_MASK) >> 14 == (moduleAddress & 0x7F) as bv32
  {
    Frame(InitId(moduleAddress), CAN_INV_DLC, ZERO_PAYLOAD)
  }

  function GenerateTempRequest(moduleAddress: bv8): (f: Frame)
    ensures IsRequest(f, moduleAddress, TEMP_CMD)
  {
    Request(InitFrame(moduleAddress).canId, TEMP_CMD)
  }

  function GenerateCurrentCapabilityRequest(moduleAddress: bv8): (f: Frame)
    ensures IsRequest(f, moduleAddress, CURRENT_CAP_CMD)
  {
    Request(InitFrame(moduleAddress).canId, CURRENT_CAP_CMD)
  }

  function GenerateFlagsRequest(moduleAddress: bv8): (f: Frame)
    ensures IsRequest(f, moduleAddress, FLAGS_CMD)
  {
    Request(InitFrame(moduleAddress).canId, FLAGS_CMD)
  }

  function GenerateVoltageRequest(moduleAddress: bv8): (f: Frame)
    ensures IsRequest(f, moduleAddress, VOLTAGE_CMD)
  {
    Request(InitFrame(moduleAddress).canId, VOLTAGE_CMD)
  }

  function GenerateCurrentRequest(moduleAddress: bv8): (f: Frame)
    ensures IsRequest(f, moduleAddress, CURRENT_CMD)
  {
    Request(InitFrame(moduleAddress).canId, CURRENT_CMD)
  }

  function GenerateLowModeSet(moduleAddress: bv8): (f: Frame)
    ensures IsControl(f, moduleAddress, MODE_SET_CMD, LOW_MODE)
  {
    Control(InitFrame(moduleAddress).canId, MODE_SET_CMD, LOW_MODE)
  }

  function GenerateHighModeSet(moduleAddress: bv8): (f: Frame)
    ensures IsControl(f, moduleAddress, MODE_SET_CMD, HIGH_MODE)
  {
    Control(InitFrame(moduleAddress).canId, MODE_SET_CMD, HIGH_MODE)
  }

  /** Auto mode is supported: a frame is always produced. */
  function GenerateAutoModeSet(moduleAddress: bv8): (f: Frame)
    ensures IsControl(f, moduleAddress, MODE_SET_CMD, AUTO_MODE)
  {
    Control(InitFrame(moduleAddress).canId, MODE_SET_CMD, AUTO_MODE)
  }

  function GenerateVoltageSet(moduleAddress: bv8, voltage: bv16): (f: Frame)
    ensures IsValueSet(f, moduleAddress, VOLTAGE_SET_CMD, voltage)
    ensures f.data[4] == 0
  {
    ValueSetIsValueSet(moduleAddress, VOLTAGE_SET_CMD, voltage);
    ValueSet(InitFrame(moduleAddress).canId, VOLTAGE_SET_CMD, voltage)
  }

  function GenerateCurrentSet(moduleAddress: bv8, current: bv16): (f: Frame)
    ensures IsValueSet(f, moduleAddress, CURRENT_SET_CMD, current)
    ensures f.data[4] == 0
  {
    ValueSetIsValueSet(moduleAddress, CURRENT_SET_CMD, current);
    ValueSet(InitFrame(moduleAddress).canId, CURRENT_SET_CMD, current)
  }

  function GenerateEnable(moduleAddress: bv8): (f: Frame)
    ensures IsControl(f, moduleAddress, POWER_CTRL_CMD, ON)
  {
    Control(InitFrame(moduleAddress).canId, POWER_CTRL_CMD, ON)
  }

  function GenerateDisable(moduleAddress: bv8): (f: Frame)
    ensures IsControl(f, moduleAddress, POWER_CTRL_CMD, OFF)
  {
    Control(InitFrame(moduleAddress).canId, POWER_CTRL_CMD, OFF)
  }

  /** The low, high and auto mode frames for one module are pairwise distinct
      and differ only in their last data byte. */
  lemma ModeFramesDistinct(moduleAddress: bv8)
    ensures var low, high, auto := GenerateLowModeSet(moduleAddress),
                GenerateHighModeSet(moduleAddress), GenerateAutoModeSet(moduleAddress);
      && low != high && high != auto && low != auto
      && low.canId == high.canId == auto.canId
      && low.data[..7] == high.data[..7] == auto.data[..7]
  {
  }

  /** Enable and disable frames differ only in the ON/OFF byte. */
  lemma EnableDisableDifferOnlyInLastByte(moduleAddress: bv8)
    ensures var on, off := GenerateEnable(moduleAddress), GenerateDisable(moduleAddress);
      && on.canId == off.canId && on.canDlc == off.canDlc
      && on.data[..7] == off.data[..7]
      && on.data[7] == ON && off.data[7] == OFF && on != off
  {
  }
}
