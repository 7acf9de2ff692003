# uvc camera controls — a Dafny model

This crate drives the camera-terminal controls of a USB Video Class (UVC) webcam: absolute and
relative zoom, and absolute and relative pan/tilt. It reads their capabilities (minimum, maximum,
resolution, default), reads their current values and sets them.

On Linux and macOS (`src/unix.rs`) it speaks UVC directly over USB:
- `DeviceInfo::open` finds the VideoControl interface. It scans that interface's class-specific
  descriptors for the input terminal id and the processing unit id.
- `get` and `set` issue one class request each: GET_xxx IN into a zero-filled fixed-size buffer,
  or SET_CUR OUT.
- Every capability query is GET_MIN, GET_MAX, GET_RES, GET_DEF in that order, and each uses `?`.
- The setters of the shared pan/tilt controls first read what the other half of the control
  currently holds. A read that fails ends the setter before anything is written.

On Windows (`src/windows.rs`) the model covers three pieces:
- the device list of `enumerate`, which skips every source whose symbolic link cannot be read;
- the vendor and product ids parsed from that link;
- `set_auto_focus`, which tries one kernel-streaming property on each topology node in turn
  until one accepts it.

The model has two layers:
- A pure layer (`Controls`, the functions of `Descriptors`, `HardwareIds`, and the
  `Probe`/`Kept` functions of `WindowsDevice`) says what each operation sends and returns, as a
  function of the device. The lemmas state the properties.
- An imperative layer mirrors the source's objects and loops: `Usb.Transport`, a mock USB
  device whose transfers are logged and whose SET_CUR is stored; `UnixDevice.Device` and
  `UnixDevice.Open`; the descriptor loop `Descriptors.ScanUnits`; `WindowsDevice.Device` and its
  `KsControl`; and the list loop `WindowsDevice.Enumerate`. Each method is proved equal to its
  pure counterpart on the state before the call.

The mock device fails the transfer at a given position in the order of transfers, with a given
transfer error. Otherwise it answers an IN request from its registers, or stalls when it has no
register for that request. An accepted SET_CUR becomes the answer to the GET_CUR of the same
wValue and wIndex.

Files:
- `wrappers.dfy`: `Option` and `Result`.
- `errors.dfy`: the crate's `Error`.
- `bytes.dfy`: the integer widths and casts, and little-endian encodings.
- `uvc.dfy`: the request, control, class and descriptor codes.
- `descriptors.dfy`: the interface pick and the descriptor scan.
- `usb.dfy`: the transport.
- `controls.dfy`: the wire behaviour of every control.
- `device.dfy`: the Unix `Device` and `open`.
- `hardware_ids.dfy`: the vid/pid extraction.
- `windows.dfy`: `enumerate` and `set_auto_focus`.

## Model

| member | source | states |
|---|---|---|
| Bytes.AsU8 | src/unix.rs:158 | `value as u8` keeps the value modulo 256, and any value already in 0..256 unchanged |
| Bytes.AsU16 | src/unix.rs:134 | `value as u16` keeps the value modulo 65536, and any value already in 0..65536 unchanged |
| Bytes.U16ToLe | src/unix.rs:134-135 | the two bytes of a u16, low byte first, weigh back to the value |
| Bytes.U16FromLe | src/unix.rs:121-124 | `u16::from_ne_bytes` on a little-endian host: byte 0 plus 256 times byte 1 |
| Bytes.U16RoundTrip | src/unix.rs:121-135 | decoding the bytes of an encoded u16 gives the value back |
| Bytes.U16BytesRoundTrip | src/unix.rs:121-124 | re-encoding a decoded 2-byte buffer gives the same bytes |
| Bytes.I32Bits | src/unix.rs:182-183 | the 32-bit pattern of an i32 is the value modulo 2^32 |
| Bytes.I32ToLe | src/unix.rs:182-183 | an i32 is laid out as 4 bytes, least significant first, that weigh back to its 32-bit two's-complement pattern |
| Bytes.I32FromLe | src/unix.rs:168-171 | the i32 read from 4 bytes is negative exactly when the top bit of the last byte is set |
| Bytes.I32RoundTrip | src/unix.rs:168-185 | reading back the 4 bytes written for an i32 gives the same i32 |
| Bytes.I32BytesRoundTrip | src/unix.rs:168-171 | re-encoding the i32 read from 4 bytes gives the same bytes |
| Uvc.RequestCode | src/unix.rs:275-285 | bit 7 of bRequest is set exactly for the GET requests, not for SET_CUR |
| Uvc.ControlCode | src/unix.rs:287-293 | the selectors 0x0b, 0x0c, 0x0d, 0x0e of zoom absolute, zoom relative, pan/tilt absolute and pan/tilt relative |
| Uvc.Width | src/unix.rs:116-257 | the buffer size `C` each control is read with: 2, 3, 8 and 4 bytes |
| Uvc.UsbClassCode | src/unix.rs:295-299 | the interface class Video is 0x0e and the subclass VideoControl 0x01 |
| Uvc.DescriptorTypeCode | src/unix.rs:301-306 | CS_INTERFACE is 0x24, the VC_INPUT_TERMINAL subtype 0x02 and VC_PROCESSING_UNIT 0x05 |
| Uvc.RequestCodeInjective | src/unix.rs:275-285 | distinct requests have distinct codes |
| Uvc.ControlCodeInjective | src/unix.rs:287-293 | distinct controls have distinct selectors |
| Descriptors.FindVideoControl | src/unix.rs:39-47 | the chosen alternate setting is the first whose class is Video and whose subclass is VideoControl; none is chosen exactly when no setting is such |
| Descriptors.IsVideoControl | src/unix.rs:42-44 | the `find` test: class Video and subclass VideoControl |
| Descriptors.FirstUnitAt | src/unix.rs:52-60 | the index of the first descriptor that declares a unit of the subtype with a nonzero id; none exactly when none does |
| Descriptors.FirstUnit | src/unix.rs:49-60 | the id the loop settles on: byte 3 of the first descriptor declaring the subtype with a nonzero id, or 0 |
| Descriptors.FirstUnitSnoc | src/unix.rs:54-58 | one more descriptor changes the recorded id only while it is still 0, and then to that descriptor's byte 3 when it declares the subtype and has one |
| Descriptors.ScanUnits | src/unix.rs:49-60 | on every descriptor list the loop indexes without a panic (byte 3 is needed only of a unit met while its id is still 0), its input-terminal and processing-unit ids are the first nonzero id declared for each, or 0 |
| Descriptors.FirstMatchExample | src/unix.rs:54-58 | a second input terminal does not replace the first one's id |
| Descriptors.ShortLaterTerminal | src/unix.rs:53-58 | a short input terminal after the first one is scanned without a panic and leaves the ids at 5 and 0; a short input terminal seen first is not scannable |
| Usb.Transport.ControlIn | src/unix.rs:86-96 | an IN transfer logs itself and puts as many reply bytes as fit at the start of the buffer, leaving the rest; on a failure the buffer is untouched |
| Usb.Transport.ControlOut | src/unix.rs:101-111 | an OUT transfer logs itself and its outcome and new device state are those of the device model |
| Controls.Addressing | src/unix.rs:90-92 | wValue carries the selector in its high byte and 0 in its low byte; wIndex carries the unit id in its high byte and the interface number in its low byte |
| Controls.RequestSetup | src/unix.rs:88-107 | a class request to the interface: bRequest its code, wValue the selector shifted left 8, wIndex the unit shifted left 8 or'd with the interface number |
| Controls.ZeroFilled | src/unix.rs:85 | the buffer has exactly the control's width |
| Controls.ZeroFilledContents | src/unix.rs:85-97 | the returned buffer holds the device's bytes where it sent them and zeros after: short replies are padded, long ones cut |
| Controls.Fetch | src/unix.rs:79-98 | a GET yields exactly the control's width in bytes, and fails exactly when the transfer fails |
| Controls.Decode | src/unix.rs:121-258 | the value of an axis in a buffer: the absolute zoom zero-extends to 0..65536 and the relative axes to 0..256; the body defines absolute pan and tilt as the signed words at bytes 0..4 and 4..8 |
| Controls.FetchCaps | src/unix.rs:115-126 | a capability query issues between 1 and 4 transfers, all reads, and all 4 when it succeeds; its min, max, res and def are then the decoded replies to GET_MIN, GET_MAX, GET_RES and GET_DEF at the next four positions |
| Controls.CapsQueryOrder | src/unix.rs:115-126 | the query issues a prefix of GET_MIN, GET_MAX, GET_RES, GET_DEF at consecutive positions, every one but the last answered; it succeeds exactly when all four are answered, and otherwise fails with the last one's error |
| Controls.CapsAnswered | src/unix.rs:115-254 | a capability query succeeds exactly when its four GETs do |
| Controls.FetchCur | src/unix.rs:128-131 | a getter issues exactly one read |
| Controls.CurAnswered | src/unix.rs:128-259 | a getter succeeds exactly when its GET_CUR does |
| Controls.Write | src/unix.rs:100-113 | `set`: one SET_CUR OUT of the data; Ok when the transfer succeeds, the transfer error otherwise, and the device after it |
| Controls.ZoomAbsSetSpec | src/unix.rs:133-136 | `zoom_abs_set` is one SET_CUR to the zoom whose 2-byte payload decodes back to the value truncated to 16 bits |
| Controls.ZoomRelSetSpec | src/unix.rs:156-160 | when the capability query succeeds, `zoom_rel_set` issues its four reads and then one SET_CUR of [direction, 1, resolution read] |
| Controls.PanAbsSetSpec | src/unix.rs:180-185 | when the tilt read succeeds, `pan_abs_set` issues one SET_CUR whose 8 bytes decode as the new pan and the tilt just read |
| Controls.TiltAbsSetSpec | src/unix.rs:236-241 | when the pan read succeeds, `tilt_abs_set` issues one SET_CUR whose 8 bytes decode as the pan just read and the new tilt |
| Controls.PanRelSetSpec | src/unix.rs:205-216 | `pan_rel_set` reads pan caps, tilt caps and the current tilt, each right after the previous one; when all three are answered it has issued nine reads and then one SET_CUR of [v, pan res, tilt cur, tilt res] |
| Controls.PanRelSetWith | src/unix.rs:205-216 | the first failed query ends `pan_rel_set` with its error; otherwise one SET_CUR of [direction, pan resolution, tilt direction, tilt resolution], each the low byte |
| Controls.TiltRelSetSpec | src/unix.rs:261-272 | `tilt_rel_set` reads pan caps, the current pan and tilt caps, each right after the previous one; when all three are answered it has issued nine reads and then one SET_CUR of [pan cur, pan res, v, tilt res] |
| Controls.TiltRelSetWith | src/unix.rs:261-272 | the first failed query ends `tilt_rel_set` with its error; otherwise one SET_CUR of [pan direction, pan resolution, direction, tilt resolution], each the low byte |
| Controls.AbortEnds | src/unix.rs:206-208 | a setter stopped by a failed read has issued only reads, fails, and leaves the registers as they were |
| Controls.WriteEnds | src/unix.rs:209-215 | a setter that writes after its reads ends with one SET_CUR to its control, which changes no register but that control's |
| Controls.PanRelWithEnds | src/unix.rs:205-216 | `pan_rel_set` writes exactly when all three of its queries succeed |
| Controls.TiltRelWithEnds | src/unix.rs:261-272 | `tilt_rel_set` writes exactly when all three of its queries succeed |
| Controls.ZoomRelWritesIffAnswered | src/unix.rs:156-160 | `zoom_rel_set` writes exactly when its capability query succeeds |
| Controls.PanAbsWritesIffAnswered | src/unix.rs:180-185 | `pan_abs_set` writes exactly when its tilt read succeeds |
| Controls.TiltAbsWritesIffAnswered | src/unix.rs:236-241 | `tilt_abs_set` writes exactly when its pan read succeeds |
| Controls.PanRelWritesIffAnswered | src/unix.rs:205-216 | `pan_rel_set` writes exactly when its pan caps, tilt caps and tilt read, at their positions, succeed |
| Controls.TiltRelWritesIffAnswered | src/unix.rs:261-272 | `tilt_rel_set` writes exactly when its pan caps, pan read and tilt caps, at their positions, succeed |
| Controls.NoWriteAfterFailedRead | src/unix.rs:133-272 | for every setter there is no SET_CUR after a failed read: it ends with one SET_CUR to its control exactly when all its queries succeed, and otherwise fails having issued only reads, with the registers unchanged |
| Controls.CurReadsBackWrite | src/unix.rs:100-113 | after an accepted SET_CUR, the next GET_CUR of the same control, unless it fails itself, returns the data written |
| Controls.ZoomAbsReadsBack | src/unix.rs:128-136 | after `zoom_abs_set(v)` succeeds, `zoom_abs` reads `v` truncated to 16 bits, which is `v` itself when it is in 0..65536 |
| Controls.ZoomRelReadsBack | src/unix.rs:156-160 | after `zoom_rel_set(v)` succeeds, the control reads back [v modulo 256, 1, the resolution read], and `zoom_rel` reads v modulo 256 |
| Controls.PanAbsKeepsTilt | src/unix.rs:180-185 | after `pan_abs_set(v)` succeeds, pan reads `v` and tilt reads what it read before |
| Controls.TiltAbsKeepsPan | src/unix.rs:236-241 | after `tilt_abs_set(v)` succeeds, tilt reads `v` and pan reads what it read before |
| Controls.PanRelWithReadsBack | src/unix.rs:209-215 | after `pan_rel_set` succeeds, the control reads back as the four bytes it wrote |
| Controls.PanRelKeepsTilt | src/unix.rs:205-216 | after `pan_rel_set(v)` succeeds, the pan direction reads `v` modulo 256, the tilt direction reads what the setter read, and the speed bytes are the resolutions it read |
| Controls.TiltRelWithReadsBack | src/unix.rs:265-271 | after `tilt_rel_set` succeeds, the control reads back as the four bytes it wrote |
| Controls.TiltRelKeepsPan | src/unix.rs:261-272 | after `tilt_rel_set(v)` succeeds, the tilt direction reads `v` modulo 256, the pan direction reads what the setter read, and the speed bytes are the resolutions it read |
| Controls.ZoomRelExamples | src/unix.rs:156-160 | with resolution 3, directions +1, 0 and -1 write [1,1,3], [0,1,3] and [0xff,1,3]; -1 reads back as 255 |
| Controls.ZoomAbsDecodeExample | src/unix.rs:128-131 | the bytes [0x10, 0x00] decode as zoom 16 |
| UnixDevice.Device.constructor | src/unix.rs:62-67 | the device keeps the interface number, the unit ids and the USB handle it is built from |
| UnixDevice.Device.Get | src/unix.rs:79-98 | `get` logs one IN transfer of the control's width, advances the device by one transfer and returns `Fetch` on the state before |
| UnixDevice.Device.Set | src/unix.rs:100-113 | `set` logs one SET_CUR OUT transfer; its result and the new device state are those of `Write` |
| UnixDevice.Device.QueryCaps | src/unix.rs:115-126 | the shared caps body returns and logs exactly what `FetchCaps` says |
| UnixDevice.Device.QueryCur | src/unix.rs:128-131 | the shared getter body returns and logs exactly what `FetchCur` says |
| UnixDevice.Device.ZoomAbsCaps | src/unix.rs:115-126 | `zoom_abs_caps` is `FetchCaps` of the absolute zoom |
| UnixDevice.Device.ZoomAbs | src/unix.rs:128-131 | `zoom_abs` is `FetchCur` of the absolute zoom |
| UnixDevice.Device.ZoomRelCaps | src/unix.rs:138-149 | `zoom_rel_caps` is `FetchCaps` of the relative zoom (byte 0) |
| UnixDevice.Device.ZoomRel | src/unix.rs:151-154 | `zoom_rel` is `FetchCur` of the relative zoom |
| UnixDevice.Device.PanAbsCaps | src/unix.rs:162-173 | `pan_abs_caps` is `FetchCaps` of the absolute pan (bytes 0..4) |
| UnixDevice.Device.PanAbs | src/unix.rs:175-178 | `pan_abs` is `FetchCur` of the absolute pan |
| UnixDevice.Device.PanRelCaps | src/unix.rs:187-198 | `pan_rel_caps` is `FetchCaps` of the relative pan (byte 0) |
| UnixDevice.Device.PanRel | src/unix.rs:200-203 | `pan_rel` is `FetchCur` of the relative pan |
| UnixDevice.Device.TiltAbsCaps | src/unix.rs:218-229 | `tilt_abs_caps` is `FetchCaps` of the absolute tilt (bytes 4..8) |
| UnixDevice.Device.TiltAbs | src/unix.rs:231-234 | `tilt_abs` is `FetchCur` of the absolute tilt |
| UnixDevice.Device.TiltRelCaps | src/unix.rs:243-254 | `tilt_rel_caps` is `FetchCaps` of the relative tilt (byte 2) |
| UnixDevice.Device.TiltRel | src/unix.rs:256-259 | `tilt_rel` is `FetchCur` of the relative tilt |
| UnixDevice.Device.ZoomAbsSet | src/unix.rs:133-136 | `zoom_abs_set` returns, logs and leaves the device as its setter specification says |
| UnixDevice.Device.ZoomRelSet | src/unix.rs:156-160 | `zoom_rel_set` returns, logs and leaves the device as its setter specification says |
| UnixDevice.Device.PanAbsSet | src/unix.rs:180-185 | `pan_abs_set` returns, logs and leaves the device as its setter specification says |
| UnixDevice.Device.TiltAbsSet | src/unix.rs:236-241 | `tilt_abs_set` returns, logs and leaves the device as its setter specification says |
| UnixDevice.Device.PanRelSet | src/unix.rs:205-216 | `pan_rel_set` returns, logs and leaves the device as its setter specification says |
| UnixDevice.Device.TiltRelSet | src/unix.rs:261-272 | `tilt_rel_set` returns, logs and leaves the device as its setter specification says |
| UnixDevice.Open | src/unix.rs:37-68 | `open` propagates the USB open error; it fails with InterfaceNotFound exactly when no alternate setting is VideoControl; otherwise it returns a new device on that handle with the first VideoControl setting's interface number and the scanned unit ids |
| HardwareIds.HexDigit | src/windows.rs:70 | a hex digit is worth less than 16 |
| HardwareIds.HexValue | src/windows.rs:70 | `from_str_radix(.., 16)`: the number the digits write, most significant first |
| HardwareIds.HexValueBound | src/windows.rs:70 | n hex digits write a number below 16^n |
| HardwareIds.HexValueLeadingZero | src/windows.rs:70 | leading zeros do not change the parsed number |
| HardwareIds.FindMatch | src/windows.rs:67-68 | a reported match lies wholly inside the link with room for a character after the tag; that the character is a hex digit and the match the leftmost is `FindMatchIsLeftmost` |
| HardwareIds.FindMatchIsLeftmost | src/windows.rs:37-38 | the search finds a match exactly when there is one, and then the leftmost |
| HardwareIds.HexRun | src/windows.rs:37-38 | the captured run stays inside the link |
| HardwareIds.HexRunIsMaximal | src/windows.rs:37-38 | the greedy group takes exactly n digits iff those are hex and the next character is absent or not hex |
| HardwareIds.Captured | src/windows.rs:68-69 | group 1 of the first match: the run of hex digits right after the tag, or none without a match |
| HardwareIds.ExtractId | src/windows.rs:67-76 | the value of the first capture if it fits in a u16, 0 when there is no match or it does not fit |
| HardwareIds.ProductId | src/windows.rs:67-71 | the id after the first `pid_` in either case |
| HardwareIds.VendorId | src/windows.rs:72-76 | the id after the first `vid_` in either case |
| HardwareIds.ExtractIdAt | src/windows.rs:67-76 | at the leftmost tag followed by n hex digits, the id is their value when it fits in 16 bits and 0 otherwise |
| HardwareIds.NoMatchIsZero | src/windows.rs:67-71 | without any match the id defaults to 0 |
| HardwareIds.ShortCaptureFits | src/windows.rs:70 | up to four captured digits always fit, so the id is their value |
| HardwareIds.TypicalVendor | src/windows.rs:72-76 | `VID_046D&PID_0825` has vendor id 0x046D |
| HardwareIds.TypicalProduct | src/windows.rs:67-71 | `VID_046D&PID_0825` has product id 0x0825 |
| HardwareIds.SkipsTagWithoutDigits | src/windows.rs:38 | a tag without a digit after it is passed over: `vid_&vid_1F` has vendor id 0x1F |
| HardwareIds.Overflow | src/windows.rs:70-71 | `pid_10000` overflows u16, so the product id is 0 |
| HardwareIds.LeadingZeros | src/windows.rs:70 | `pid_0FFFF` has product id 0xFFFF |
| WindowsDevice.Kept | src/windows.rs:42-84 | the list of entries for the sources in order, an entry for each source whose link was read |
| WindowsDevice.Enumerate | src/windows.rs:16-89 | a failed listing is propagated; otherwise the list holds one entry per source, in order, skipping the ones whose link cannot be fetched or decoded |
| WindowsDevice.KeptAppend | src/windows.rs:42-84 | filtering a concatenation is concatenating the filtered parts |
| WindowsDevice.KeptAround | src/windows.rs:42-84 | a source's entry comes after those of every earlier source and before those of every later one |
| WindowsDevice.KeptMembers | src/windows.rs:47-83 | an entry is in the list exactly when some source with a readable link yields it |
| WindowsDevice.KeptAllReadable | src/windows.rs:78-83 | when every link is readable, the i-th entry belongs to the i-th source |
| WindowsDevice.KeptNoneReadable | src/windows.rs:56-64 | when no link is readable, the filtered list is empty (that `Enumerate` then returns it is `Enumerate`'s own contract) |
| WindowsDevice.KsControl.KsProperty | src/windows.rs:199-208 | a property call is logged, and it succeeds exactly when the driver accepts the request |
| WindowsDevice.Device.constructor | src/windows.rs:103-117 | the device keeps its node count and property interface |
| WindowsDevice.NodeRequest | src/windows.rs:190-196 | the `KSP_NODE` of one pass: the parsed set, the id, flags SET or'd with TOPOLOGY, and the node id, sent with `data` |
| WindowsDevice.Probe | src/windows.rs:189-211 | the property requests of the loop from a node on, up to and including the first the driver accepts |
| WindowsDevice.AutoFocusSpec | src/windows.rs:188-215 | the result and the requests of `set_auto_focus` for a node count, a GUID parse outcome and a driver |
| WindowsDevice.Device.SetAutoFocus | src/windows.rs:188-215 | `set_auto_focus` returns and sends exactly what the probe specification gives for the node count, the GUID parse outcome and the driver |
| WindowsDevice.ProbeShape | src/windows.rs:189-211 | the probe sends to nodes from, from+1, ... each with the SET and TOPOLOGY flags and the same set, id and data; no request but the last is accepted, and if a node is left then the last one was accepted |
| WindowsDevice.ProbeFirstAccepting | src/windows.rs:208-210 | when node k is the first to accept, k - from + 1 requests are sent (which nodes they address is `ProbeShape`) |
| WindowsDevice.ProbeNoneAccepting | src/windows.rs:189-211 | when no node accepts, every node is tried |
| WindowsDevice.AutoFocusOutcome | src/windows.rs:188-215 | it fails exactly when there is a node and the GUID does not parse, and then sends nothing; otherwise it is Ok, even when no node accepted |
| WindowsDevice.OnlyNodeTwoAccepts | src/windows.rs:189-211 | with four nodes of which only node 2 accepts, nodes 0, 1 and 2 are tried in that order |

## Left out

- Byte order: `from_ne_bytes`, `to_ne_bytes` and `transmute` use the host's order. The model describes a little-endian host, where that order is UVC's wire order. On a big-endian host the source would read and write the multi-byte values byte-swapped, which the model does not capture.
- The one-second transfer timeout is not modelled. A timeout is one of the transfer errors the mock device can return at any position.
- Opening the USB device (`nusb`'s `open`) is an input to `UnixDevice.Open`: either an error or a transport.
- UnixDevice.Open: requires `ScanSafe` of the chosen descriptors, that is, every byte the loop indexes is present (two bytes of each descriptor; three of a class-specific interface descriptor; four of an input terminal or processing unit met while that id is still 0). On a list that fails it the source panics on an index out of bounds, which the model does not represent; every list the source scans without a panic is accepted.
- `pu_unit` is scanned and stored but no control uses it. `unix::DeviceInfo::enumerate`, `product_string`, `product_id` and `vendor_id` are thin wrappers around the USB stack and are not modelled.
- The relative setters' queries are evaluated at the positions the setter issues them: the second query starts right after the first one's four transfers. `PanRelSetSpec` and `TiltRelSetSpec` therefore read the device at fixed offsets, as the methods do.
- Controls.NoWriteAfterFailedRead: states the outcome per query (a capability query or a current-value read). The GET-level statement is the pair `CapsAnswered`/`CurAnswered`.
- The Windows controls of `zoom_*`, `pan_*` and `tilt_*` go through WinRT `MediaDeviceControl` with `f64` values, and `windows::DeviceInfo::open` goes through COM and Media Foundation. These are foreign calls with nothing to model beyond forwarding.
- The accessors `id`, `product_id` and `vendor_id` only return stored fields.
- COM apartment initialisation, `MFCreateAttributes` and `MFEnumDeviceSources` are not modelled. Their combined outcome is the `listing` input of `WindowsDevice.Enumerate`. Reading and decoding a symbolic link is the `LinkFetch` of each source. A null entry in the list makes the source panic at `unwrap` (src/windows.rs:43); every `Source` of the model is non-null. Freeing the strings is not modelled.
- The `regex` engine is not modelled. The two patterns are modelled by `FindMatch` (leftmost match) and `HexRun` (greedy group).
- `CLSIDFromString` is an input to `WindowsDevice.Device.SetAutoFocus`, given as its parse outcome. The source calls it inside the loop, once per node. It is deterministic, so the model parses once. It is not called at all when there are no nodes, which the model keeps.
- The size arguments of `KsProperty` and the `Reserved` field of `KSP_NODE` are not modelled. The driver's response is the `accepts` function of `KsControl`.
- `src/ffi.rs` and the C header are not part of this model. Neither is the display of errors in `src/lib.rs`.
- Concurrency and thread-safety are not modelled.
