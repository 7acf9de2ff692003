/**
 * What the camera-terminal controls of `src/unix.rs` do on the wire, as functions of the
 * device: how a request is addressed, what one GET returns, the capability and current-value
 * queries, and the setters with their preliminary reads. The methods of `UnixDevice.Device`
 * are proved equal to these functions; the lemmas here state what they promise.
 */
module Controls {
  import opened Bytes
  import opened Wrappers
  import opened Uvc
  import opened Errors
  import opened Usb

  /** Where a request goes: the terminal or unit id, and the VideoControl interface number. */
  datatype Address = Address(unit: u8, infNo: u8)

  /** `x << 8` on a u16. */
  function Shl8(x: u16): u16
  {
    (x * 0x100) % 0x1_0000
  }

  /** wValue of a control request: `selector << 8`. */
  function WValue(selector: u8): u16
  {
    Shl8(selector)
  }

  /**
   * wIndex of a control request: `unit << 8 | infNo`. The bits of the two do not overlap, so
   * the OR is a sum.
   */
  function WIndex(unit: u8, infNo: u8): u16
  {
    Shl8(unit) + infNo
  }

  /**
   * How a request is addressed: wValue holds the control selector in its high byte and zero
   * in its low byte; wIndex holds the entity id in its high byte and the interface number in
   * its low byte.
   */
  lemma Addressing(selector: u8, unit: u8, infNo: u8)
    ensures WValue(selector) / 0x100 == selector && WValue(selector) % 0x100 == 0
    ensures WIndex(unit, infNo) / 0x100 == unit && WIndex(unit, infNo) % 0x100 == infNo
  {
  }

  function RequestSetup(req: Request, c: Control, a: Address): Setup
  {
    Setup(RequestCode(req), WValue(ControlCode(c)), WIndex(a.unit, a.infNo))
  }

  /** The IN transfer of a GET: wLength is the fixed width of the control. */
  function FetchTransfer(req: Request, c: Control, a: Address): Transfer
  {
    In(RequestSetup(req, c, a), Width(c))
  }

  /** A buffer of `width` bytes that starts as zeros, with the device's bytes written at its start. */
  function ZeroFilled(bytes: seq<u8>, width: nat): (b: seq<u8>)
    ensures |b| == width
  {
    if |bytes| >= width then bytes[..width] else bytes + seq(width - |bytes|, _ => 0)
  }

  /**
   * The buffer a GET returns holds the device's bytes, as many as fit, and zeros after them:
   * a short reply is padded, a long one cut to the width.
   */
  lemma ZeroFilledContents(bytes: seq<u8>, width: nat)
    ensures forall i :: 0 <= i < width ==> ZeroFilled(bytes, width)[i] == if i < |bytes| then bytes[i] else 0
  {
  }

  /** The result of one GET: exactly `Width(c)` bytes, whatever number of bytes the device sent. */
  function Fetch(dev: DeviceState, req: Request, c: Control, a: Address): (r: Result<seq<u8>, Error>)
    ensures r.Success? ==> |r.value| == Width(c)
    ensures r.Failure? <==> ReplyIn(dev, RequestSetup(req, c, a)).Failure?
  {
    match ReplyIn(dev, RequestSetup(req, c, a))
    case Failure(e) => Failure(UsbTransfer(e))
    case Success(bytes) => Success(ZeroFilled(bytes, Width(c)))
  }

  /** A result together with the transfers issued to get it. */
  datatype Outcome<T> = Outcome(result: Result<T, Error>, issued: seq<Transfer>)

  /** The logical values the source reads and writes: one per axis and mode. */
  datatype Axis = ZoomAbsolute | ZoomRelative | PanAbsolute | TiltAbsolute | PanRelative | TiltRelative

  function ControlOf(x: Axis): Control
  {
    match x
    case ZoomAbsolute => ZoomAbs
    case ZoomRelative => ZoomRel
    case PanAbsolute => PanTiltAbs
    case TiltAbsolute => PanTiltAbs
    case PanRelative => PanTiltRel
    case TiltRelative => PanTiltRel
  }

  /**
   * The value of an axis in a buffer of its control: the zero-extended 16-bit objective focal
   * length, the signed 32-bit pan (bytes 0..4) or tilt (bytes 4..8), or, for the relative
   * controls, the zero-extended byte 0 (zoom, pan) or byte 2 (tilt).
   */
  function Decode(x: Axis, b: seq<u8>): (r: i32)
    requires |b| == Width(ControlOf(x))
    ensures x == ZoomAbsolute ==> 0 <= r < 0x1_0000
    ensures x in {ZoomRelative, PanRelative, TiltRelative} ==> 0 <= r < 0x100
  {
    match x
    case ZoomAbsolute => U16FromLe(b)
    case ZoomRelative => b[0]
    case PanAbsolute => I32FromLe(b[..4])
    case TiltAbsolute => I32FromLe(b[4..])
    case PanRelative => b[0]
    case TiltRelative => b[2]
  }

  /** The capability record of the crate's public interface. */
  datatype Caps = Caps(min: i32, max: i32, res: i32, def: i32)

  /** The IN transfers of a sequence of GETs, in order. */
  function Transfers(a: Address, queries: seq<(Request, Control)>): (ts: seq<Transfer>)
    ensures |ts| == |queries|
    ensures forall i :: 0 <= i < |queries| ==> ts[i] == FetchTransfer(queries[i].0, queries[i].1, a)
  {
    seq(|queries|, i requires 0 <= i < |queries| => FetchTransfer(queries[i].0, queries[i].1, a))
  }

  lemma TransfersPrefix(a: Address, q: seq<(Request, Control)>, k: nat)
    requires k <= |q|
    ensures Transfers(a, q[..k]) == Transfers(a, q)[..k]
  {
  }

  /**
   * Every GET of `queries`, issued one after the other from the device's next position, is
   * answered: the `j`-th, at position `j`, succeeds.
   */
  ghost predicate Answered(dev: DeviceState, a: Address, queries: seq<(Request, Control)>)
  {
    forall j :: 0 <= j < |queries| ==> Fetch(Advance(dev, j), queries[j].0, queries[j].1, a).Success?
  }

  /** The four reads of a capability query of a control. */
  function CapsReads(c: Control): seq<(Request, Control)>
  {
    [(GetMin, c), (GetMax, c), (GetRes, c), (GetDef, c)]
  }

  /**
   * The capability query of an axis: GET_MIN, GET_MAX, GET_RES, GET_DEF as four consecutive
   * transfers, each with `?`, then each reply decoded.
   */
  function FetchCaps(dev: DeviceState, a: Address, x: Axis): (o: Outcome<Caps>)
    ensures 1 <= |o.issued| <= 4 && (o.result.Success? ==> |o.issued| == 4)
    ensures Reads(o.issued)
    ensures o.result.Success? ==>
      var c := ControlOf(x);
      var min, max := Fetch(dev, GetMin, c, a), Fetch(Advance(dev, 1), GetMax, c, a);
      var res, def := Fetch(Advance(dev, 2), GetRes, c, a), Fetch(Advance(dev, 3), GetDef, c, a);
      && min.Success? && max.Success? && res.Success? && def.Success?
      && o.result.value == Caps(Decode(x, min.value), Decode(x, max.value), Decode(x, res.value), Decode(x, def.value))
  {
    var c := ControlOf(x);
    var t0, t1, t2, t3 := FetchTransfer(GetMin, c, a), FetchTransfer(GetMax, c, a), FetchTransfer(GetRes, c, a), FetchTransfer(GetDef, c, a);
    var min := Fetch(dev, GetMin, c, a);
    if min.Failure? then Outcome(Failure(min.error), [t0]) else
    var max := Fetch(Advance(dev, 1), GetMax, c, a);
    if max.Failure? then Outcome(Failure(max.error), [t0, t1]) else
    var res := Fetch(Advance(dev, 2), GetRes, c, a);
    if res.Failure? then Outcome(Failure(res.error), [t0, t1, t2]) else
    var def := Fetch(Advance(dev, 3), GetDef, c, a);
    if def.Failure? then Outcome(Failure(def.error), [t0, t1, t2, t3]) else
    Outcome(Success(Caps(Decode(x, min.value), Decode(x, max.value), Decode(x, res.value), Decode(x, def.value))), [t0, t1, t2, t3])
  }

  /**
   * A capability query issues a non-empty prefix of GET_MIN, GET_MAX, GET_RES, GET_DEF at
   * consecutive positions, every one but the last answered; it yields Caps exactly when all
   * four are answered, and otherwise fails with the error of the last one issued.
   */
  lemma CapsQueryOrder(dev: DeviceState, a: Address, x: Axis)
    ensures var o := FetchCaps(dev, a, x);
      var n := |o.issued|;
      var q := CapsReads(ControlOf(x));
      && o.issued == Transfers(a, q[..n])
      && Answered(dev, a, q[..n - 1])
      && (o.result.Success? <==> Answered(dev, a, q))
      && (o.result.Failure? ==>
            && Fetch(Advance(dev, n - 1), q[n - 1].0, q[n - 1].1, a).Failure?
            && o.result.error == Fetch(Advance(dev, n - 1), q[n - 1].0, q[n - 1].1, a).error)
  {
    var q := CapsReads(ControlOf(x));
    var n := |FetchCaps(dev, a, x).issued|;
    TransfersPrefix(a, q, n);
    assert q[..4] == q;
    assert Advance(dev, 0) == dev;
  }

  /** The current value of an axis: one GET_CUR, decoded. */
  function FetchCur(dev: DeviceState, a: Address, x: Axis): (o: Outcome<i32>)
    ensures |o.issued| == 1 && Reads(o.issued)
  {
    var f := Fetch(dev, GetCur, ControlOf(x), a);
    Outcome(if f.Failure? then Failure(f.error) else Success(Decode(x, f.value)),
            [FetchTransfer(GetCur, ControlOf(x), a)])
  }

  /** The setters of the source, with the value the caller passes. */
  datatype Command =
    | SetZoomAbs(v: i32) | SetZoomRel(v: i32)
    | SetPanAbs(v: i32) | SetTiltAbs(v: i32)
    | SetPanRel(v: i32) | SetTiltRel(v: i32)

  /** What a setter did: its result, the transfers it issued, and the device afterwards. */
  datatype Effect = Effect(result: Result<(), Error>, issued: seq<Transfer>, after: DeviceState)

  /** One SET_CUR of `data` to control `c`. */
  function Write(dev: DeviceState, a: Address, c: Control, data: seq<u8>): Effect
  {
    var s := RequestSetup(SetCur, c, a);
    var (r, dev') := ReplyOut(dev, s, data);
    Effect(if r.Failure? then Failure(UsbTransfer(r.error)) else Success(()), [Out(s, data)], dev')
  }

  /** `e`, preceded by the transfers `prior`. */
  function After(prior: seq<Transfer>, e: Effect): Effect
  {
    e.(issued := prior + e.issued)
  }

  /**
   * A setter, started on `dev`, that stops at a failed read `o` after the reads `prior`: the
   * error of that read, and nothing written.
   */
  function Abort<T>(dev: DeviceState, prior: seq<Transfer>, o: Outcome<T>): Effect
    requires o.result.Failure?
  {
    Effect(Failure(o.result.error), prior + o.issued, Advance(dev, |prior + o.issued|))
  }

  /** `zoom_abs_set`: the value truncated to 16 bits, written as it is. */
  function ZoomAbsSetSpec(dev: DeviceState, a: Address, v: i32): (e: Effect)
    ensures |e.issued| == 1 && e.issued[0].Out? && e.issued[0].setup == RequestSetup(SetCur, ZoomAbs, a)
    ensures |e.issued[0].data| == 2 && U16FromLe(e.issued[0].data) == AsU16(v)
  {
    U16RoundTrip(AsU16(v));
    Write(dev, a, ZoomAbs, U16ToLe(AsU16(v)))
  }

  /** `zoom_rel_set`: read the capabilities, then write [direction, 1, resolution]. */
  function ZoomRelSetSpec(dev: DeviceState, a: Address, v: i32): (e: Effect)
    ensures var caps := FetchCaps(dev, a, ZoomRelative).result;
      caps.Success? ==>
        && |e.issued| == 5 && Reads(e.issued[..4])
        && e.issued[4] == Out(RequestSetup(SetCur, ZoomRel, a), [AsU8(v), 1, AsU8(caps.value.res)])
  {
    var caps := FetchCaps(dev, a, ZoomRelative);
    if caps.result.Failure? then Abort(dev, [], caps) else
    After(caps.issued, Write(Advance(dev, 4), a, ZoomRel, [AsU8(v), 1, AsU8(caps.result.value.res)]))
  }

  /** `pan_abs_set`: read the current tilt, then write pan and tilt together. */
  function PanAbsSetSpec(dev: DeviceState, a: Address, v: i32): (e: Effect)
    ensures var tilt := FetchCur(dev, a, TiltAbsolute).result;
      tilt.Success? ==>
        && |e.issued| == 2 && e.issued[1].Out? && e.issued[1].setup == RequestSetup(SetCur, PanTiltAbs, a)
        && |e.issued[1].data| == 8
        && I32FromLe(e.issued[1].data[..4]) == v && I32FromLe(e.issued[1].data[4..]) == tilt.value
  {
    var tilt := FetchCur(dev, a, TiltAbsolute);
    if tilt.result.Failure? then Abort(dev, [], tilt) else
    var data := I32ToLe(v) + I32ToLe(tilt.result.value);
    assert data[..4] == I32ToLe(v) && data[4..] == I32ToLe(tilt.result.value);
    I32RoundTrip(v);
    I32RoundTrip(tilt.result.value);
    After(tilt.issued, Write(Advance(dev, 1), a, PanTiltAbs, data))
  }

  /** `tilt_abs_set`: read the current pan, then write pan and tilt together. */
  function TiltAbsSetSpec(dev: DeviceState, a: Address, v: i32): (e: Effect)
    ensures var pan := FetchCur(dev, a, PanAbsolute).result;
      pan.Success? ==>
        && |e.issued| == 2 && e.issued[1].Out? && e.issued[1].setup == RequestSetup(SetCur, PanTiltAbs, a)
        && |e.issued[1].data| == 8
        && I32FromLe(e.issued[1].data[..4]) == pan.value && I32FromLe(e.issued[1].data[4..]) == v
  {
    var pan := FetchCur(dev, a, PanAbsolute);
    if pan.result.Failure? then Abort(dev, [], pan) else
    var data := I32ToLe(pan.result.value) + I32ToLe(v);
    assert data[..4] == I32ToLe(pan.result.value) && data[4..] == I32ToLe(v);
    I32RoundTrip(v);
    I32RoundTrip(pan.result.value);
    After(pan.issued, Write(Advance(dev, 1), a, PanTiltAbs, data))
  }

  /** `pan_rel_set`: pan capabilities, tilt capabilities, current tilt, then one write. */
  function PanRelSetSpec(dev: DeviceState, a: Address, v: i32): (e: Effect)
    ensures var panCaps := FetchCaps(dev, a, PanRelative).result;
      var tiltCaps := FetchCaps(Advance(dev, 4), a, TiltRelative).result;
      var tiltCur := FetchCur(Advance(dev, 8), a, TiltRelative).result;
      panCaps.Success? && tiltCaps.Success? && tiltCur.Success? ==>
        && |e.issued| == 10 && Reads(e.issued[..9])
        && e.issued[9] == Out(RequestSetup(SetCur, PanTiltRel, a),
             [AsU8(v), AsU8(panCaps.value.res), AsU8(tiltCur.value), AsU8(tiltCaps.value.res)])
  {
    var panCaps, tiltCaps := FetchCaps(dev, a, PanRelative), FetchCaps(Advance(dev, 4), a, TiltRelative);
    var tiltCur := FetchCur(Advance(dev, 8), a, TiltRelative);
    var e := PanRelSetWith(dev, a, v, panCaps, tiltCaps, tiltCur);
    PanRelSetCases(dev, a, v, panCaps, tiltCaps, tiltCur);
    assert panCaps.result.Success? && tiltCaps.result.Success? && tiltCur.result.Success? ==>
      e.issued[..9] == panCaps.issued + tiltCaps.issued + tiltCur.issued;
    e
  }

  /**
   * `pan_rel_set` given the outcomes of its three queries, each issued right after the one
   * before it: the first that fails ends the setter; otherwise one write of [direction, pan
   * speed, tilt direction, tilt speed], the speeds being the resolutions read.
   */
  function PanRelSetWith(dev: DeviceState, a: Address, v: i32, panCaps: Outcome<Caps>, tiltCaps: Outcome<Caps>, tiltCur: Outcome<i32>): Effect
  {
    if panCaps.result.Failure? then Abort(dev, [], panCaps) else
    if tiltCaps.result.Failure? then Abort(dev, panCaps.issued, tiltCaps) else
    var prior := panCaps.issued + tiltCaps.issued;
    if tiltCur.result.Failure? then Abort(dev, prior, tiltCur) else
    After(prior + tiltCur.issued,
          Write(Advance(dev, |prior + tiltCur.issued|), a, PanTiltRel,
                [AsU8(v), AsU8(panCaps.result.value.res), AsU8(tiltCur.result.value), AsU8(tiltCaps.result.value.res)]))
  }

  /** `PanRelSetWith` case by case, for a caller that follows the same steps. */
  lemma PanRelSetCases(dev: DeviceState, a: Address, v: i32, panCaps: Outcome<Caps>, tiltCaps: Outcome<Caps>, tiltCur: Outcome<i32>)
    ensures var e := PanRelSetWith(dev, a, v, panCaps, tiltCaps, tiltCur);
      && (panCaps.result.Failure? ==> e == Abort(dev, [], panCaps))
      && (panCaps.result.Success? && tiltCaps.result.Failure? ==> e == Abort(dev, panCaps.issued, tiltCaps))
      && (panCaps.result.Success? && tiltCaps.result.Success? && tiltCur.result.Failure? ==>
            e == Abort(dev, panCaps.issued + tiltCaps.issued, tiltCur))
      && (panCaps.result.Success? && tiltCaps.result.Success? && tiltCur.result.Success? ==>
            var prior := panCaps.issued + tiltCaps.issued + tiltCur.issued;
            e == After(prior, Write(Advance(dev, |prior|), a, PanTiltRel,
                   [AsU8(v), AsU8(panCaps.result.value.res), AsU8(tiltCur.result.value), AsU8(tiltCaps.result.value.res)])))
  {
  }

  /** `tilt_rel_set`: pan capabilities, current pan, tilt capabilities, then one write. */
  function TiltRelSetSpec(dev: DeviceState, a: Address, v: i32): (e: Effect)
    ensures var panCaps := FetchCaps(dev, a, PanRelative).result;
      var panCur := FetchCur(Advance(dev, 4), a, PanRelative).result;
      var tiltCaps := FetchCaps(Advance(dev, 5), a, TiltRelative).result;
      panCaps.Success? && panCur.Success? && tiltCaps.Success? ==>
        && |e.issued| == 10 && Reads(e.issued[..9])
        && e.issued[9] == Out(RequestSetup(SetCur, PanTiltRel, a),
             [AsU8(panCur.value), AsU8(panCaps.value.res), AsU8(v), AsU8(tiltCaps.value.res)])
  {
    var panCaps, panCur := FetchCaps(dev, a, PanRelative), FetchCur(Advance(dev, 4), a, PanRelative);
    var tiltCaps := FetchCaps(Advance(dev, 5), a, TiltRelative);
    var e := TiltRelSetWith(dev, a, v, panCaps, panCur, tiltCaps);
    TiltRelSetCases(dev, a, v, panCaps, panCur, tiltCaps);
    assert panCaps.result.Success? && panCur.result.Success? && tiltCaps.result.Success? ==>
      e.issued[..9] == panCaps.issued + panCur.issued + tiltCaps.issued;
    e
  }

  /**
   * `tilt_rel_set` given the outcomes of its three queries, each issued right after the one
   * before it: the first that fails ends the setter; otherwise one write of [pan direction,
   * pan speed, direction, tilt speed], the speeds being the resolutions read.
   */
  function TiltRelSetWith(dev: DeviceState, a: Address, v: i32, panCaps: Outcome<Caps>, panCur: Outcome<i32>, tiltCaps: Outcome<Caps>): Effect
  {
    if panCaps.result.Failure? then Abort(dev, [], panCaps) else
    if panCur.result.Failure? then Abort(dev, panCaps.issued, panCur) else
    var prior := panCaps.issued + panCur.issued;
    if tiltCaps.result.Failure? then Abort(dev, prior, tiltCaps) else
    After(prior + tiltCaps.issued,
          Write(Advance(dev, |prior + tiltCaps.issued|), a, PanTiltRel,
                [AsU8(panCur.result.value), AsU8(panCaps.result.value.res), AsU8(v), AsU8(tiltCaps.result.value.res)]))
  }

  /** `TiltRelSetWith` case by case, for a caller that follows the same steps. */
  lemma TiltRelSetCases(dev: DeviceState, a: Address, v: i32, panCaps: Outcome<Caps>, panCur: Outcome<i32>, tiltCaps: Outcome<Caps>)
    ensures var e := TiltRelSetWith(dev, a, v, panCaps, panCur, tiltCaps);
      && (panCaps.result.Failure? ==> e == Abort(dev, [], panCaps))
      && (panCaps.result.Success? && panCur.result.Failure? ==> e == Abort(dev, panCaps.issued, panCur))
      && (panCaps.result.Success? && panCur.result.Success? && tiltCaps.result.Failure? ==>
            e == Abort(dev, panCaps.issued + panCur.issued, tiltCaps))
      && (panCaps.result.Success? && panCur.result.Success? && tiltCaps.result.Success? ==>
            var prior := panCaps.issued + panCur.issued + tiltCaps.issued;
            e == After(prior, Write(Advance(dev, |prior|), a, PanTiltRel,
                   [AsU8(panCur.result.value), AsU8(panCaps.result.value.res), AsU8(v), AsU8(tiltCaps.result.value.res)])))
  {
  }

  function SetSpec(dev: DeviceState, a: Address, cmd: Command): Effect
  {
    match cmd
    case SetZoomAbs(v) => ZoomAbsSetSpec(dev, a, v)
    case SetZoomRel(v) => ZoomRelSetSpec(dev, a, v)
    case SetPanAbs(v) => PanAbsSetSpec(dev, a, v)
    case SetTiltAbs(v) => TiltAbsSetSpec(dev, a, v)
    case SetPanRel(v) => PanRelSetSpec(dev, a, v)
    case SetTiltRel(v) => TiltRelSetSpec(dev, a, v)
  }

  /** The control a setter writes. */
  function Target(cmd: Command): Control
  {
    match cmd
    case SetZoomAbs(_) => ZoomAbs
    case SetZoomRel(_) => ZoomRel
    case SetPanAbs(_) => PanTiltAbs
    case SetTiltAbs(_) => PanTiltAbs
    case SetPanRel(_) => PanTiltRel
    case SetTiltRel(_) => PanTiltRel
  }

  /**
   * Every preliminary query of a setter succeeds: its capability queries and current-value
   * reads, at the positions where the setter issues them (`CapsAnswered` and `CurAnswered`
   * say what that means for each GET).
   */
  predicate ReadsAnswered(dev: DeviceState, a: Address, cmd: Command)
  {
    match cmd
    case SetZoomAbs(_) => true
    case SetZoomRel(_) => FetchCaps(dev, a, ZoomRelative).result.Success?
    case SetPanAbs(_) => FetchCur(dev, a, TiltAbsolute).result.Success?
    case SetTiltAbs(_) => FetchCur(dev, a, PanAbsolute).result.Success?
    case SetPanRel(_) =>
      && FetchCaps(dev, a, PanRelative).result.Success?
      && FetchCaps(Advance(dev, 4), a, TiltRelative).result.Success?
      && FetchCur(Advance(dev, 8), a, TiltRelative).result.Success?
    case SetTiltRel(_) =>
      && FetchCaps(dev, a, PanRelative).result.Success?
      && FetchCur(Advance(dev, 4), a, PanRelative).result.Success?
      && FetchCaps(Advance(dev, 5), a, TiltRelative).result.Success?
  }

  /**
   * How a setter ends, given whether all its reads are answered: only IN transfers until
   * its last one; a SET_CUR to its control as that last transfer exactly when every read is
   * answered; otherwise a failure with nothing written. The write changes no register but
   * the one its control reads from.
   */
  ghost predicate WritesIffAnswered(dev: DeviceState, a: Address, c: Control, answered: bool, e: Effect)
  {
    var n := |e.issued|;
    && n >= 1
    && (forall i :: 0 <= i < n - 1 ==> e.issued[i].In?)
    && (e.issued[n - 1].Out? <==> answered)
    && (!answered ==> e.result.Failure? && e.after == Advance(dev, n))
    && (answered ==>
          && e.issued[n - 1].setup == RequestSetup(SetCur, c, a)
          && e.after == Advance(dev, n).(regs := e.after.regs)
          && e.after.regs - {RequestSetup(GetCur, c, a)} == dev.regs - {RequestSetup(GetCur, c, a)})
  }

  /** Transfers that are all reads. */
  predicate Reads(ts: seq<Transfer>)
  {
    forall i :: 0 <= i < |ts| ==> ts[i].In?
  }

  /** A setter stopped by the failed read `o` after the reads `prior` ends as `WritesIffAnswered` says. */
  lemma AbortEnds<T>(dev: DeviceState, a: Address, c: Control, prior: seq<Transfer>, o: Outcome<T>)
    requires o.result.Failure? && |o.issued| >= 1
    requires Reads(prior) && Reads(o.issued)
    ensures WritesIffAnswered(dev, a, c, false, Abort(dev, prior, o))
  {
  }

  /** A setter that writes after the reads `prior` ends as `WritesIffAnswered` says. */
  lemma WriteEnds(dev: DeviceState, a: Address, c: Control, prior: seq<Transfer>, data: seq<u8>)
    requires Reads(prior)
    ensures WritesIffAnswered(dev, a, c, true, After(prior, Write(Advance(dev, |prior|), a, c, data)))
  {
    var e := After(prior, Write(Advance(dev, |prior|), a, c, data));
    assert e.issued[..|prior|] == prior;
    assert CurOf(RequestSetup(SetCur, c, a)) == RequestSetup(GetCur, c, a);
  }

  /** The capability query of an axis is answered exactly when its four reads are. */
  lemma CapsAnswered(dev: DeviceState, a: Address, x: Axis)
    ensures FetchCaps(dev, a, x).result.Success? <==> Answered(dev, a, CapsReads(ControlOf(x)))
  {
    CapsQueryOrder(dev, a, x);
  }

  /** The current-value read of an axis is answered exactly when its GET_CUR is. */
  lemma CurAnswered(dev: DeviceState, a: Address, x: Axis)
    ensures FetchCur(dev, a, x).result.Success? <==> Answered(dev, a, [(GetCur, ControlOf(x))])
  {
    assert Advance(dev, 0) == dev;
  }

  lemma PanRelWithEnds(dev: DeviceState, a: Address, v: i32, panCaps: Outcome<Caps>, tiltCaps: Outcome<Caps>, tiltCur: Outcome<i32>)
    requires |panCaps.issued| >= 1 && |tiltCaps.issued| >= 1 && |tiltCur.issued| >= 1
    requires Reads(panCaps.issued) && Reads(tiltCaps.issued) && Reads(tiltCur.issued)
    ensures WritesIffAnswered(dev, a, PanTiltRel,
      panCaps.result.Success? && tiltCaps.result.Success? && tiltCur.result.Success?,
      PanRelSetWith(dev, a, v, panCaps, tiltCaps, tiltCur))
  {
    if panCaps.result.Failure? {
      AbortEnds(dev, a, PanTiltRel, [], panCaps);
    } else if tiltCaps.result.Failure? {
      AbortEnds(dev, a, PanTiltRel, panCaps.issued, tiltCaps);
    } else if tiltCur.result.Failure? {
      AbortEnds(dev, a, PanTiltRel, panCaps.issued + tiltCaps.issued, tiltCur);
    } else {
      WriteEnds(dev, a, PanTiltRel, panCaps.issued + tiltCaps.issued + tiltCur.issued,
        [AsU8(v), AsU8(panCaps.result.value.res), AsU8(tiltCur.result.value), AsU8(tiltCaps.result.value.res)]);
    }
  }

  lemma TiltRelWithEnds(dev: DeviceState, a: Address, v: i32, panCaps: Outcome<Caps>, panCur: Outcome<i32>, tiltCaps: Outcome<Caps>)
    requires |panCaps.issued| >= 1 && |panCur.issued| >= 1 && |tiltCaps.issued| >= 1
    requires Reads(panCaps.issued) && Reads(panCur.issued) && Reads(tiltCaps.issued)
    ensures WritesIffAnswered(dev, a, PanTiltRel,
      panCaps.result.Success? && panCur.result.Success? && tiltCaps.result.Success?,
      TiltRelSetWith(dev, a, v, panCaps, panCur, tiltCaps))
  {
    if panCaps.result.Failure? {
      AbortEnds(dev, a, PanTiltRel, [], panCaps);
    } else if panCur.result.Failure? {
      AbortEnds(dev, a, PanTiltRel, panCaps.issued, panCur);
    } else if tiltCaps.result.Failure? {
      AbortEnds(dev, a, PanTiltRel, panCaps.issued + panCur.issued, tiltCaps);
    } else {
      WriteEnds(dev, a, PanTiltRel, panCaps.issued + panCur.issued + tiltCaps.issued,
        [AsU8(panCur.result.value), AsU8(panCaps.result.value.res), AsU8(v), AsU8(tiltCaps.result.value.res)]);
    }
  }

  lemma ZoomRelWritesIffAnswered(dev: DeviceState, a: Address, v: i32)
    ensures WritesIffAnswered(dev, a, ZoomRel, ReadsAnswered(dev, a, SetZoomRel(v)), SetSpec(dev, a, SetZoomRel(v)))
  {
  }

  lemma PanAbsWritesIffAnswered(dev: DeviceState, a: Address, v: i32)
    ensures WritesIffAnswered(dev, a, PanTiltAbs, ReadsAnswered(dev, a, SetPanAbs(v)), SetSpec(dev, a, SetPanAbs(v)))
  {
  }

  lemma TiltAbsWritesIffAnswered(dev: DeviceState, a: Address, v: i32)
    ensures WritesIffAnswered(dev, a, PanTiltAbs, ReadsAnswered(dev, a, SetTiltAbs(v)), SetSpec(dev, a, SetTiltAbs(v)))
  {
  }

  lemma PanRelWritesIffAnswered(dev: DeviceState, a: Address, v: i32)
    ensures WritesIffAnswered(dev, a, PanTiltRel, ReadsAnswered(dev, a, SetPanRel(v)), SetSpec(dev, a, SetPanRel(v)))
  {
    PanRelWithEnds(dev, a, v, FetchCaps(dev, a, PanRelative), FetchCaps(Advance(dev, 4), a, TiltRelative),
                   FetchCur(Advance(dev, 8), a, TiltRelative));
  }

  lemma TiltRelWritesIffAnswered(dev: DeviceState, a: Address, v: i32)
    ensures WritesIffAnswered(dev, a, PanTiltRel, ReadsAnswered(dev, a, SetTiltRel(v)), SetSpec(dev, a, SetTiltRel(v)))
  {
    TiltRelWithEnds(dev, a, v, FetchCaps(dev, a, PanRelative), FetchCur(Advance(dev, 4), a, PanRelative),
                    FetchCaps(Advance(dev, 5), a, TiltRelative));
  }

  /**
   * No SET_CUR after a failed read: a setter ends with one SET_CUR to its control exactly
   * when every one of its queries succeeds; if one does not, it fails having issued only
   * reads, and the device's registers are as they were.
   */
  lemma NoWriteAfterFailedRead(dev: DeviceState, a: Address, cmd: Command)
    ensures WritesIffAnswered(dev, a, Target(cmd), ReadsAnswered(dev, a, cmd), SetSpec(dev, a, cmd))
  {
    match cmd
    case SetZoomAbs(v) =>
    case SetZoomRel(v) => ZoomRelWritesIffAnswered(dev, a, v);
    case SetPanAbs(v) => PanAbsWritesIffAnswered(dev, a, v);
    case SetTiltAbs(v) => TiltAbsWritesIffAnswered(dev, a, v);
    case SetPanRel(v) => PanRelWritesIffAnswered(dev, a, v);
    case SetTiltRel(v) => TiltRelWritesIffAnswered(dev, a, v);
  }

  /**
   * An accepted SET_CUR stores its data as the reply to the GET_CUR of the same control, and
   * the next GET_CUR, unless it fails itself, reads that data back.
   */
  lemma CurReadsBackWrite(dev: DeviceState, a: Address, c: Control, data: seq<u8>)
    requires Write(dev, a, c, data).result.Success?
    ensures var after := Write(dev, a, c, data).after;
      && after == Advance(dev, 1).(regs := dev.regs[RequestSetup(GetCur, c, a) := data])
      && (after.sent !in after.faults ==> Fetch(after, GetCur, c, a) == Success(ZeroFilled(data, Width(c))))
      && (after.sent !in after.faults && |data| == Width(c) ==> Fetch(after, GetCur, c, a) == Success(data))
  {
    assert CurOf(RequestSetup(SetCur, c, a)) == RequestSetup(GetCur, c, a);
    assert data[..|data|] == data;
  }

  /** After `zoom_abs_set(v)` succeeds, the zoom reads back as `v` truncated to 16 bits. */
  lemma ZoomAbsReadsBack(dev: DeviceState, a: Address, v: i32)
    requires ZoomAbsSetSpec(dev, a, v).result.Success?
    ensures var after := ZoomAbsSetSpec(dev, a, v).after;
      after.sent !in after.faults ==>
        && FetchCur(after, a, ZoomAbsolute).result == Success(AsU16(v))
        && (0 <= v < 0x1_0000 ==> FetchCur(after, a, ZoomAbsolute).result == Success(v))
  {
    CurReadsBackWrite(dev, a, ZoomAbs, U16ToLe(AsU16(v)));
  }

  /**
   * After `zoom_rel_set(v)` succeeds, the control reads back as [direction, 1, speed]: the
   * direction `v` modulo 256, and the resolution the setter read as the speed.
   */
  lemma ZoomRelReadsBack(dev: DeviceState, a: Address, v: i32)
    requires ZoomRelSetSpec(dev, a, v).result.Success?
    ensures var after := ZoomRelSetSpec(dev, a, v).after;
      var res := FetchCaps(dev, a, ZoomRelative).result.value.res;
      after.sent !in after.faults ==>
        && Fetch(after, GetCur, ZoomRel, a) == Success([AsU8(v), 1, AsU8(res)])
        && FetchCur(after, a, ZoomRelative).result == Success(AsU8(v))
  {
    var res := FetchCaps(dev, a, ZoomRelative).result.value.res;
    CurReadsBackWrite(Advance(dev, 4), a, ZoomRel, [AsU8(v), 1, AsU8(res)]);
  }

  /** After `pan_abs_set(v)` succeeds, pan reads back as `v` and tilt reads what it read before. */
  lemma PanAbsKeepsTilt(dev: DeviceState, a: Address, v: i32)
    requires PanAbsSetSpec(dev, a, v).result.Success?
    ensures var after := PanAbsSetSpec(dev, a, v).after;
      after.sent !in after.faults ==>
        && FetchCur(after, a, PanAbsolute).result == Success(v)
        && FetchCur(after, a, TiltAbsolute).result == FetchCur(dev, a, TiltAbsolute).result
  {
    var tilt := FetchCur(dev, a, TiltAbsolute).result.value;
    var data := I32ToLe(v) + I32ToLe(tilt);
    CurReadsBackWrite(Advance(dev, 1), a, PanTiltAbs, data);
    assert data[..4] == I32ToLe(v) && data[4..] == I32ToLe(tilt);
    I32RoundTrip(v);
    I32RoundTrip(tilt);
  }

  /** After `tilt_abs_set(v)` succeeds, tilt reads back as `v` and pan reads what it read before. */
  lemma TiltAbsKeepsPan(dev: DeviceState, a: Address, v: i32)
    requires TiltAbsSetSpec(dev, a, v).result.Success?
    ensures var after := TiltAbsSetSpec(dev, a, v).after;
      after.sent !in after.faults ==>
        && FetchCur(after, a, TiltAbsolute).result == Success(v)
        && FetchCur(after, a, PanAbsolute).result == FetchCur(dev, a, PanAbsolute).result
  {
    var pan := FetchCur(dev, a, PanAbsolute).result.value;
    var data := I32ToLe(pan) + I32ToLe(v);
    CurReadsBackWrite(Advance(dev, 1), a, PanTiltAbs, data);
    assert data[..4] == I32ToLe(pan) && data[4..] == I32ToLe(v);
    I32RoundTrip(v);
    I32RoundTrip(pan);
  }

  /**
   * After `pan_rel_set` succeeds with the given query outcomes, the control reads back as
   * [direction, pan speed, tilt direction, tilt speed], each byte being the low eight bits of
   * the value given or read.
   */
  lemma PanRelWithReadsBack(dev: DeviceState, a: Address, v: i32, panCaps: Outcome<Caps>, tiltCaps: Outcome<Caps>, tiltCur: Outcome<i32>)
    requires PanRelSetWith(dev, a, v, panCaps, tiltCaps, tiltCur).result.Success?
    ensures var after := PanRelSetWith(dev, a, v, panCaps, tiltCaps, tiltCur).after;
      after.sent !in after.faults ==>
        Fetch(after, GetCur, PanTiltRel, a) ==
          Success([AsU8(v), AsU8(panCaps.result.value.res), AsU8(tiltCur.result.value), AsU8(tiltCaps.result.value.res)])
  {
    var prior := panCaps.issued + tiltCaps.issued + tiltCur.issued;
    CurReadsBackWrite(Advance(dev, |prior|), a, PanTiltRel,
      [AsU8(v), AsU8(panCaps.result.value.res), AsU8(tiltCur.result.value), AsU8(tiltCaps.result.value.res)]);
  }

  /**
   * After `pan_rel_set(v)` succeeds, the pan direction reads back as `v` modulo 256, the tilt
   * direction reads what the set read, and the speed bytes are the resolutions it read.
   */
  lemma PanRelKeepsTilt(dev: DeviceState, a: Address, v: i32)
    requires PanRelSetSpec(dev, a, v).result.Success?
    ensures var after := PanRelSetSpec(dev, a, v).after;
      after.sent !in after.faults ==>
        && FetchCur(after, a, PanRelative).result == Success(AsU8(v))
        && FetchCur(after, a, TiltRelative).result == FetchCur(Advance(dev, 8), a, TiltRelative).result
        && Fetch(after, GetCur, PanTiltRel, a).value[1] == FetchCaps(dev, a, PanRelative).result.value.res
        && Fetch(after, GetCur, PanTiltRel, a).value[3] == FetchCaps(Advance(dev, 4), a, TiltRelative).result.value.res
  {
    PanRelWithReadsBack(dev, a, v, FetchCaps(dev, a, PanRelative), FetchCaps(Advance(dev, 4), a, TiltRelative),
                        FetchCur(Advance(dev, 8), a, TiltRelative));
  }

  /**
   * After `tilt_rel_set` succeeds with the given query outcomes, the control reads back as
   * [pan direction, pan speed, direction, tilt speed], each byte being the low eight bits of
   * the value given or read.
   */
  lemma TiltRelWithReadsBack(dev: DeviceState, a: Address, v: i32, panCaps: Outcome<Caps>, panCur: Outcome<i32>, tiltCaps: Outcome<Caps>)
    requires TiltRelSetWith(dev, a, v, panCaps, panCur, tiltCaps).result.Success?
    ensures var after := TiltRelSetWith(dev, a, v, panCaps, panCur, tiltCaps).after;
      after.sent !in after.faults ==>
        Fetch(after, GetCur, PanTiltRel, a) ==
          Success([AsU8(panCur.result.value), AsU8(panCaps.result.value.res), AsU8(v), AsU8(tiltCaps.result.value.res)])
  {
    var prior := panCaps.issued + panCur.issued + tiltCaps.issued;
    CurReadsBackWrite(Advance(dev, |prior|), a, PanTiltRel,
      [AsU8(panCur.result.value), AsU8(panCaps.result.value.res), AsU8(v), AsU8(tiltCaps.result.value.res)]);
  }

  /**
   * After `tilt_rel_set(v)` succeeds, the tilt direction reads back as `v` modulo 256, the pan
   * direction reads what the set read, and the speed bytes are the resolutions it read.
   */
  lemma TiltRelKeepsPan(dev: DeviceState, a: Address, v: i32)
    requires TiltRelSetSpec(dev, a, v).result.Success?
    ensures var after := TiltRelSetSpec(dev, a, v).after;
      after.sent !in after.faults ==>
        && FetchCur(after, a, TiltRelative).result == Success(AsU8(v))
        && FetchCur(after, a, PanRelative).result == FetchCur(Advance(dev, 4), a, PanRelative).result
        && Fetch(after, GetCur, PanTiltRel, a).value[1] == FetchCaps(dev, a, PanRelative).result.value.res
        && Fetch(after, GetCur, PanTiltRel, a).value[3] == FetchCaps(Advance(dev, 5), a, TiltRelative).result.value.res
  {
    TiltRelWithReadsBack(dev, a, v, FetchCaps(dev, a, PanRelative), FetchCur(Advance(dev, 4), a, PanRelative),
                         FetchCaps(Advance(dev, 5), a, TiltRelative));
  }

  /**
   * With a resolution of 3, `zoom_rel_set` writes [1, 1, 3] for +1 (tele), [0, 1, 3] for 0
   * (stop) and [0xff, 1, 3] for -1 (wide); a -1 direction reads back as 255.
   */
  lemma ZoomRelExamples(dev: DeviceState, a: Address)
    requires FetchCaps(dev, a, ZoomRelative).result.Success?
    requires FetchCaps(dev, a, ZoomRelative).result.value.res == 3
    ensures ZoomRelSetSpec(dev, a, 1).issued[4] == Out(RequestSetup(SetCur, ZoomRel, a), [1, 1, 3])
    ensures ZoomRelSetSpec(dev, a, 0).issued[4] == Out(RequestSetup(SetCur, ZoomRel, a), [0, 1, 3])
    ensures ZoomRelSetSpec(dev, a, -1).issued[4] == Out(RequestSetup(SetCur, ZoomRel, a), [0xff, 1, 3])
    ensures Decode(ZoomRelative, [AsU8(-1), 1, 3]) == 255
  {
  }

  /** The capability and current-value reads of zoom decode [0x10, 0x00] as 16. */
  lemma ZoomAbsDecodeExample()
    ensures Decode(ZoomAbsolute, [0x10, 0x00]) == 16
  {
  }
}
