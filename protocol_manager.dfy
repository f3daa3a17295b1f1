/** `CanProtocolManager`: holds the frame generator of the selected protocol
    and forwards every request to it. The owned generator object is
    represented by the protocol it was created for; `setProtocol` replaces it. */
module ProtocolManager {
  import opened LibModul
  import opened FrameLayout
  import UUgreenFrameGenerator
  import MMeetFrameGenerator

  class CanProtocolManager {
    /** The protocol whose generator `_generator` currently points to. */
    var generator: ProtocolType

    /** Creates the generator for `protocol`. */
    constructor (protocol: ProtocolType)
      ensures generator == protocol
    {
      generator := protocol;
    }

    /** Replaces the generator by one for `protocol`; later frames follow it. */
    method SetProtocol(protocol: ProtocolType)
      modifies this
      ensures generator == protocol
    {
      generator := protocol;
    }

    method GenerateTempRequest(moduleAddress: bv8) returns (f: Frame)
      ensures IsRequest(f, moduleAddress, TEMP_CMD)
      ensures generator == UUgreen ==> f == UUgreenFrameGenerator.GenerateTempRequest(moduleAddress)
      ensures generator == MMeet ==> f == MMeetFrameGenerator.GenerateTempRequest(moduleAddress)
    {
      match generator
      case UUgreen => f := UUgreenFrameGenerator.GenerateTempRequest(moduleAddress);
      case MMeet => f := MMeetFrameGenerator.GenerateTempRequest(moduleAddress);
    }

    method GenerateCurrentCapabilityRequest(moduleAddress: bv8) returns (f: Frame)
      ensures IsRequest(f, moduleAddress, CURRENT_CAP_CMD)
      ensures generator == UUgreen ==> f == UUgreenFrameGenerator.GenerateCurrentCapabilityRequest(moduleAddress)
      ensures generator == MMeet ==> f == MMeetFrameGenerator.GenerateCurrentCapabilityRequest(moduleAddress)
    {
      match generator
      case UUgreen => f := UUgreenFrameGenerator.GenerateCurrentCapabilityRequest(moduleAddress);
      case MMeet => f := MMeetFrameGenerator.GenerateCurrentCapabilityRequest(moduleAddress);
    }

    method GenerateFlagsRequest(moduleAddress: bv8) returns (f: Frame)
      ensures IsRequest(f, moduleAddress, FLAGS_CMD)
      ensures generator == UUgreen ==> f == UUgreenFrameGenerator.GenerateFlagsRequest(moduleAddress)
      ensures generator == MMeet ==> f == MMeetFrameGenerator.GenerateFlagsRequest(moduleAddress)
    {
      match generator
      case UUgreen => f := UUgreenFrameGenerator.GenerateFlagsRequest(moduleAddress);
      case MMeet => f := MMeetFrameGenerator.GenerateFlagsRequest(moduleAddress);
    }

    method GenerateVoltageRequest(moduleAddress: bv8) returns (f: Frame)
      ensures IsRequest(f, moduleAddress, VOLTAGE_CMD)
      ensures generator == UUgreen ==> f == UUgreenFrameGenerator.GenerateVoltageRequest(moduleAddress)
      ensures generator == MMeet ==> f == MMeetFrameGenerator.GenerateVoltageRequest(moduleAddress)
    {
      match generator
      case UUgreen => f := UUgreenFrameGenerator.GenerateVoltageRequest(moduleAddress);
      case MMeet => f := MMeetFrameGenerator.GenerateVoltageRequest(moduleAddress);
    }

    method GenerateCurrentRequest(moduleAddress: bv8) returns (f: Frame)
      ensures IsRequest(f, moduleAddress, CURRENT_CMD)
      ensures generator == UUgreen ==> f == UUgreenFrameGenerator.GenerateCurrentRequest(moduleAddress)
      ensures generator == MMeet ==> f == MMeetFrameGenerator.GenerateCurrentRequest(moduleAddress)
    {
      match generator
      case UUgreen => f := UUgreenFrameGenerator.GenerateCurrentRequest(moduleAddress);
      case MMeet => f := MMeetFrameGenerator.GenerateCurrentRequest(moduleAddress);
    }

    method GenerateLowModeSet(moduleAddress: bv8) returns (f: Frame)
      ensures IsControl(f, moduleAddress, MODE_SET_CMD, LOW_MODE)
      ensures generator == UUgreen ==> f == UUgreenFrameGenerator.GenerateLowModeSet(moduleAddress)
      ensures generator == MMeet ==> f == MMeetFrameGenerator.GenerateLowModeSet(moduleAddress)
    {
      match generator
      case UUgreen => f := UUgreenFrameGenerator.GenerateLowModeSet(moduleAddress);
      case MMeet => f := MMeetFrameGenerator.GenerateLowModeSet(moduleAddress);
    }

    method GenerateHighModeSet(moduleAddress: bv8) returns (f: Frame)
      ensures IsControl(f, moduleAddress, MODE_SET_CMD, HIGH_MODE)
      ensures generator == UUgreen ==> f == UUgreenFrameGenerator.GenerateHighModeSet(moduleAddress)
      ensures generator == MMeet ==> f == MMeetFrameGenerator.GenerateHighModeSet(moduleAddress)
    {
      match generator
      case UUgreen => f := UUgreenFrameGenerator.GenerateHighModeSet(moduleAddress);
      case MMeet => f := MMeetFrameGenerator.GenerateHighModeSet(moduleAddress);
    }

    /** Auto mode exists only for MMeet; for UUgreen no frame is produced. */
    method GenerateAutoModeSet(moduleAddress: bv8) returns (f: Option<Frame>)
      ensures f.Some? <==> generator == MMeet
      ensures f.Some? ==> IsControl(f.value, moduleAddress, MODE_SET_CMD, AUTO_MODE)
      ensures f.Some? ==> f.value == MMeetFrameGenerator.GenerateAutoModeSet(moduleAddress)
    {
      match generator
      case UUgreen => f := None;
      case MMeet => f := Some(MMeetFrameGenerator.GenerateAutoModeSet(moduleAddress));
    }

    method GenerateVoltageSet(moduleAddress: bv8, voltage: bv16) returns (f: Frame)
      ensures IsValueSet(f, moduleAddress, VOLTAGE_SET_CMD, voltage)
      ensures generator == UUgreen ==> f == UUgreenFrameGenerator.GenerateVoltageSet(moduleAddress, voltage)
      ensures generator == MMeet ==> f == MMeetFrameGenerator.GenerateVoltageSet(moduleAddress, voltage)
    {
      match generator
      case UUgreen => f := UUgreenFrameGenerator.GenerateVoltageSet(moduleAddress, voltage);
      case MMeet => f := MMeetFrameGenerator.GenerateVoltageSet(moduleAddress, voltage);
    }

    method GenerateCurrentSet(moduleAddress: bv8, current: bv16) returns (f: Frame)
      ensures IsValueSet(f, moduleAddress, CURRENT_SET_CMD, current)
      ensures generator == UUgreen ==> f == UUgreenFrameGenerator.GenerateCurrentSet(moduleAddress, current)
      ensures generator == MMeet ==> f == MMeetFrameGenerator.GenerateCurrentSet(moduleAddress, current)
    {
      match generator
      case UUgreen => f := UUgreenFrameGenerator.GenerateCurrentSet(moduleAddress, current);
      case MMeet => f := MMeetFrameGenerator.GenerateCurrentSet(moduleAddress, current);
    }

    method GenerateEnable(moduleAddress: bv8) returns (f: Frame)
      ensures IsControl(f, moduleAddress, POWER_CTRL_CMD, ON)
      ensures generator == UUgreen ==> f == UUgreenFrameGenerator.GenerateEnable(moduleAddress)
      ensures generator == MMeet ==> f == MMeetFrameGenerator.GenerateEnable(moduleAddress)
    {
      match generator
      case UUgreen => f := UUgreenFrameGenerator.GenerateEnable(moduleAddress);
      case MMeet => f := MMeetFrameGenerator.GenerateEnable(moduleAddress);
    }

    method GenerateDisable(moduleAddress: bv8) returns (f: Frame)
      ensures IsControl(f, moduleAddress, POWER_CTRL_CMD, OFF)
      ensures generator == UUgreen ==> f == UUgreenFrameGenerator.GenerateDisable(moduleAddress)
      ensures generator == MMeet ==> f == MMeetFrameGenerator.GenerateDisable(moduleAddress)
    {
      match generator
      case UUgreen => f := UUgreenFrameGenerator.GenerateDisable(moduleAddress);
      case MMeet => f := MMeetFrameGenerator.GenerateDisable(moduleAddress);
    }
  }
}
