/** The crate's error type, with the variants of both platforms. */
module Errors {

  /** The ways one USB control transfer can fail. */
  datatype TransferError = Timeout | Stall | Disconnected | Fault | Unknown

  datatype Error =
    | Usb                              // the USB device could not be opened
    | InterfaceNotFound                // no VideoControl interface
    | UsbTransfer(cause: TransferError) // a control transfer failed
    | Win(code: int)                   // a Windows API call failed, with its HRESULT
}
