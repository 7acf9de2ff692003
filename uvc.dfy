/**
 * Constants of the USB Video Class 1.5 specification used by the camera-terminal controls:
 * request codes (Appendix A.8), camera-terminal control selectors (Appendix A.9.4),
 * the video interface class and subclass (Appendix A.1, A.2) and the class-specific
 * VideoControl descriptor types (Appendix A.4, A.5).
 */
module Uvc {
  import opened Bytes

  /** Class-specific request codes. */
  datatype Request = SetCur | GetCur | GetMin | GetMax | GetRes | GetLen | GetInfo | GetDef

  /** bRequest of a request; bit 7 is set exactly for the requests that read from the device. */
  function RequestCode(r: Request): (code: u8)
    ensures code >= 0x80 <==> r != SetCur
  {
    match r
    case SetCur => 0x01
    case GetCur => 0x81
    case GetMin => 0x82
    case GetMax => 0x83
    case GetRes => 0x84
    case GetLen => 0x85
    case GetInfo => 0x86
    case GetDef => 0x87
  }

  /** Camera-terminal control selectors. */
  datatype Control = ZoomAbs | ZoomRel | PanTiltAbs | PanTiltRel

  function ControlCode(c: Control): u8
  {
    match c
    case ZoomAbs => 0x0b
    case ZoomRel => 0x0c
    case PanTiltAbs => 0x0d
    case PanTiltRel => 0x0e
  }

  /**
   * Number of parameter bytes of a control (wLength): wObjectiveFocalLength (section 4.2.2.1.11),
   * bZoom/bDigitalZoom/bSpeed (4.2.2.1.12), dwPanAbsolute/dwTiltAbsolute (4.2.2.1.13),
   * bPanRelative/bPanSpeed/bTiltRelative/bTiltSpeed (4.2.2.1.14).
   */
  function Width(c: Control): nat
  {
    match c
    case ZoomAbs => 2
    case ZoomRel => 3
    case PanTiltAbs => 8
    case PanTiltRel => 4
  }

  lemma RequestCodeInjective(a: Request, b: Request)
    ensures RequestCode(a) == RequestCode(b) ==> a == b
  {
  }

  lemma ControlCodeInjective(a: Control, b: Control)
    ensures ControlCode(a) == ControlCode(b) ==> a == b
  {
  }

  /** The two class codes the source's `UsbClass` enumeration names. */
  datatype UsbClass = Video | VideoControl

  function UsbClassCode(c: UsbClass): u8
  {
    match c
    case Video => 0x0e
    case VideoControl => 0x01
  }

  /** The descriptor type and subtypes the source's `DescriptorType` enumeration names. */
  datatype DescriptorType = CSInterface | VCInputTerminal | VCProcessingUnit

  function DescriptorTypeCode(t: DescriptorType): u8
  {
    match t
    case CSInterface => 0x24
    case VCInputTerminal => 0x02
    case VCProcessingUnit => 0x05
  }
}
