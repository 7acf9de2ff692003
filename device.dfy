/**
 * The Linux/macOS device of `src/unix.rs`: opening a camera (interface pick and descriptor
 * scan), the two transfer primitives `get` and `set`, and the capability queries, getters
 * and setters of the four camera-terminal controls. Every method is proved to do exactly
 * what the matching function of `Controls` says, on the device state before the call.
 */
module UnixDevice {
  import opened Bytes
  import opened Wrappers
  import opened Uvc
  import opened Errors
  import opened Usb
  import opened Descriptors
  import opened Controls

  class Device {
    /** bInterfaceNumber of the VideoControl interface. */
    const infNo: u8
    /** Id of the camera's input terminal, 0 if none was found. */
    const itUnit: u8
    /** Id of the processing unit, 0 if none was found; no control here uses it. */
    const puUnit: u8
    const inner: Transport

    constructor (infNo: u8, itUnit: u8, puUnit: u8, inner: Transport)
      ensures this.infNo == infNo && this.itUnit == itUnit && this.puUnit == puUnit && this.inner == inner
    {
      this.infNo := infNo;
      this.itUnit := itUnit;
      this.puUnit := puUnit;
      this.inner := inner;
    }

    /** Every control of the source is addressed to the input terminal. */
    function Addr(): Address
    {
      Address(itUnit, infNo)
    }

    /**
     * `get::<C>`: a C-byte buffer of zeros, one class IN request into it, and the whole
     * buffer back; the number of bytes transferred is dropped.
     */
    method Get(req: Request, c: Control, unit: u8) returns (r: Result<seq<u8>, Error>)
      modifies inner`log
      ensures inner.log == old(inner.log) + [FetchTransfer(req, c, Address(unit, infNo))]
      ensures inner.State() == Advance(old(inner.State()), 1)
      ensures r == Fetch(old(inner.State()), req, c, Address(unit, infNo))
    {
      ghost var dev := inner.State();
      var s := RequestSetup(req, c, Address(unit, infNo));
      var data := new u8[Width(c)](_ => 0);
      var n := inner.ControlIn(s, data);
      if n.Failure? {
        return Failure(UsbTransfer(n.error));
      }
      ghost var bytes := ReplyIn(dev, s).value;
      ZeroFilledContents(bytes, Width(c));
      assert data[..] == ZeroFilled(bytes, Width(c));
      return Success(data[..]);
    }

    /** `set`: one class OUT request with SET_CUR and `data`. */
    method Set(c: Control, unit: u8, data: seq<u8>) returns (r: Result<(), Error>)
      modifies inner`log, inner`regs
      ensures var e := Write(old(inner.State()), Address(unit, infNo), c, data);
        r == e.result && inner.log == old(inner.log) + e.issued && inner.State() == e.after
    {
      var n := inner.ControlOut(RequestSetup(SetCur, c, Address(unit, infNo)), data);
      if n.Failure? {
        return Failure(UsbTransfer(n.error));
      }
      return Success(());
    }

    /** The body shared by the six `*_caps` methods: MIN, MAX, RES, DEF, each with `?`. */
    method QueryCaps(x: Axis) returns (r: Result<Caps, Error>)
      modifies inner`log
      ensures var o := FetchCaps(old(inner.State()), Addr(), x);
        r == o.result && inner.log == old(inner.log) + o.issued && inner.State() == Advance(old(inner.State()), |o.issued|)
    {
      ghost var dev := inner.State();
      var c := ControlOf(x);
      assert Advance(dev, 0) == dev;
      var min :- Get(GetMin, c, itUnit);
      var max :- Get(GetMax, c, itUnit);
      var res :- Get(GetRes, c, itUnit);
      var def :- Get(GetDef, c, itUnit);
      return Success(Caps(Decode(x, min), Decode(x, max), Decode(x, res), Decode(x, def)));
    }

    /** The body shared by the six getters: one GET_CUR, decoded. */
    method QueryCur(x: Axis) returns (r: Result<i32, Error>)
      modifies inner`log
      ensures var o := FetchCur(old(inner.State()), Addr(), x);
        r == o.result && inner.log == old(inner.log) + o.issued && inner.State() == Advance(old(inner.State()), |o.issued|)
    {
      var cur :- Get(GetCur, ControlOf(x), itUnit);
      return Success(Decode(x, cur));
    }

    method ZoomAbsCaps() returns (r: Result<Caps, Error>)
      modifies inner`log
      ensures var o := FetchCaps(old(inner.State()), Addr(), ZoomAbsolute);
        r == o.result && inner.log == old(inner.log) + o.issued && inner.State() == Advance(old(inner.State()), |o.issued|)
    {
      r := QueryCaps(ZoomAbsolute);
    }

    method ZoomAbs() returns (r: Result<i32, Error>)
      modifies inner`log
      ensures var o := FetchCur(old(inner.State()), Addr(), ZoomAbsolute);
        r == o.result && inner.log == old(inner.log) + o.issued && inner.State() == Advance(old(inner.State()), |o.issued|)
    {
      r := QueryCur(ZoomAbsolute);
    }

    method ZoomRelCaps() returns (r: Result<Caps, Error>)
      modifies inner`log
      ensures var o := FetchCaps(old(inner.State()), Addr(), ZoomRelative);
        r == o.result && inner.log == old(inner.log) + o.issued && inner.State() == Advance(old(inner.State()), |o.issued|)
    {
      r := QueryCaps(ZoomRelative);
    }

    method ZoomRel() returns (r: Result<i32, Error>)
      modifies inner`log
      ensures var o := FetchCur(old(inner.State()), Addr(), ZoomRelative);
        r == o.result && inner.log == old(inner.log) + o.issued && inner.State() == Advance(old(inner.State()), |o.issued|)
    {
      r := QueryCur(ZoomRelative);
    }

    method PanAbsCaps() returns (r: Result<Caps, Error>)
      modifies inner`log
      ensures var o := FetchCaps(old(inner.State()), Addr(), PanAbsolute);
        r == o.result && inner.log == old(inner.log) + o.issued && inner.State() == Advance(old(inner.State()), |o.issued|)
    {
      r := QueryCaps(PanAbsolute);
    }

    method PanAbs() returns (r: Result<i32, Error>)
      modifies inner`log
      ensures var o := FetchCur(old(inner.State()), Addr(), PanAbsolute);
        r == o.result && inner.log == old(inner.log) + o.issued && inner.State() == Advance(old(inner.State()), |o.issued|)
    {
      r := QueryCur(PanAbsolute);
    }

    method PanRelCaps() returns (r: Result<Caps, Error>)
      modifies inner`log
      ensures var o := FetchCaps(old(inner.State()), Addr(), PanRelative);
        r == o.result && inner.log == old(inner.log) + o.issued && inner.State() == Advance(old(inner.State()), |o.issued|)
    {
      r := QueryCaps(PanRelative);
    }

    method PanRel() returns (r: Result<i32, Error>)
      modifies inner`log
      ensures var o := FetchCur(old(inner.State()), Addr(), PanRelative);
        r == o.result && inner.log == old(inner.log) + o.issued && inner.State() == Advance(old(inner.State()), |o.issued|)
    {
      r := QueryCur(PanRelative);
    }

    method TiltAbsCaps() returns (r: Result<Caps, Error>)
      modifies inner`log
      ensures var o := FetchCaps(old(inner.State()), Addr(), TiltAbsolute);
        r == o.result && inner.log == old(inner.log) + o.issued && inner.State() == Advance(old(inner.State()), |o.issued|)
    {
      r := QueryCaps(TiltAbsolute);
    }

    method TiltAbs() returns (r: Result<i32, Error>)
      modifies inner`log
      ensures var o := FetchCur(old(inner.State()), Addr(), TiltAbsolute);
        r == o.result && inner.log == old(inner.log) + o.issued && inner.State() == Advance(old(inner.State()), |o.issued|)
    {
      r := QueryCur(TiltAbsolute);
    }

    method TiltRelCaps() returns (r: Result<Caps, Error>)
      modifies inner`log
      ensures var o := FetchCaps(old(inner.State()), Addr(), TiltRelative);
        r == o.result && inner.log == old(inner.log) + o.issued && inner.State() == Advance(old(inner.State()), |o.issued|)
    {
      r := QueryCaps(TiltRelative);
    }

    method TiltRel() returns (r: Result<i32, Error>)
      modifies inner`log
      ensures var o := FetchCur(old(inner.State()), Addr(), TiltRelative);
        r == o.result && inner.log == old(inner.log) + o.issued && inner.State() == Advance(old(inner.State()), |o.issued|)
    {
      r := QueryCur(TiltRelative);
    }

    method ZoomAbsSet(v: i32) returns (r: Result<(), Error>)
      modifies inner`log, inner`regs
      ensures var e := SetSpec(old(inner.State()), Addr(), SetZoomAbs(v));
        r == e.result && inner.log == old(inner.log) + e.issued && inner.State() == e.after
    {
      r := Set(Control.ZoomAbs, itUnit, U16ToLe(AsU16(v)));
    }

    method ZoomRelSet(v: i32) returns (r: Result<(), Error>)
      modifies inner`log, inner`regs
      ensures var e := SetSpec(old(inner.State()), Addr(), SetZoomRel(v));
        r == e.result && inner.log == old(inner.log) + e.issued && inner.State() == e.after
    {
      var caps :- ZoomRelCaps();
      r := Set(Control.ZoomRel, itUnit, [AsU8(v), 1, AsU8(caps.res)]);
    }

    method PanAbsSet(v: i32) returns (r: Result<(), Error>)
      modifies inner`log, inner`regs
      ensures var e := SetSpec(old(inner.State()), Addr(), SetPanAbs(v));
        r == e.result && inner.log == old(inner.log) + e.issued && inner.State() == e.after
    {
      var tiltCur :- TiltAbs();
      r := Set(PanTiltAbs, itUnit, I32ToLe(v) + I32ToLe(tiltCur));
    }

    method TiltAbsSet(v: i32) returns (r: Result<(), Error>)
      modifies inner`log, inner`regs
      ensures var e := SetSpec(old(inner.State()), Addr(), SetTiltAbs(v));
        r == e.result && inner.log == old(inner.log) + e.issued && inner.State() == e.after
    {
      var panCur :- PanAbs();
      r := Set(PanTiltAbs, itUnit, I32ToLe(panCur) + I32ToLe(v));
    }

    method PanRelSet(v: i32) returns (r: Result<(), Error>)
      modifies inner`log, inner`regs
      ensures var e := SetSpec(old(inner.State()), Addr(), SetPanRel(v));
        r == e.result && inner.log == old(inner.log) + e.issued && inner.State() == e.after
    {
      ghost var dev, log0 := inner.State(), inner.log;
      ghost var o1, o2, o3 := FetchCaps(dev, Addr(), PanRelative), FetchCaps(Advance(dev, 4), Addr(), TiltRelative), FetchCur(Advance(dev, 8), Addr(), TiltRelative);
      ghost var e := PanRelSetWith(dev, Addr(), v, o1, o2, o3);
      PanRelSetCases(dev, Addr(), v, o1, o2, o3);
      var panCaps := PanRelCaps();
      if panCaps.Failure? {
        return Failure(panCaps.error);
      }
      assert inner.State() == Advance(dev, 4);
      var tiltCaps := TiltRelCaps();
      LogAppended(log0, o1.issued, o2.issued, o3.issued);
      if tiltCaps.Failure? {
        return Failure(tiltCaps.error);
      }
      assert inner.State() == Advance(dev, 8);
      var tiltCur := TiltRel();
      if tiltCur.Failure? {
        return Failure(tiltCur.error);
      }
      r := Set(PanTiltRel, itUnit, [AsU8(v), AsU8(panCaps.value.res), AsU8(tiltCur.value), AsU8(tiltCaps.value.res)]);
    }

    method TiltRelSet(v: i32) returns (r: Result<(), Error>)
      modifies inner`log, inner`regs
      ensures var e := SetSpec(old(inner.State()), Addr(), SetTiltRel(v));
        r == e.result && inner.log == old(inner.log) + e.issued && inner.State() == e.after
    {
      ghost var dev, log0 := inner.State(), inner.log;
      ghost var o1, o2, o3 := FetchCaps(dev, Addr(), PanRelative), FetchCur(Advance(dev, 4), Addr(), PanRelative), FetchCaps(Advance(dev, 5), Addr(), TiltRelative);
      ghost var e := TiltRelSetWith(dev, Addr(), v, o1, o2, o3);
      TiltRelSetCases(dev, Addr(), v, o1, o2, o3);
      var panCaps := PanRelCaps();
      if panCaps.Failure? {
        return Failure(panCaps.error);
      }
      assert inner.State() == Advance(dev, 4);
      var panCur := PanRel();
      LogAppended(log0, o1.issued, o2.issued, o3.issued);
      if panCur.Failure? {
        return Failure(panCur.error);
      }
      assert inner.State() == Advance(dev, 5);
      var tiltCaps := TiltRelCaps();
      if tiltCaps.Failure? {
        return Failure(tiltCaps.error);
      }
      r := Set(PanTiltRel, itUnit, [AsU8(panCur.value), AsU8(panCaps.value.res), AsU8(v), AsU8(tiltCaps.value.res)]);
    }
  }

  /** Regrouping a log that grew by three steps. */
  lemma LogAppended<T>(log: seq<T>, a: seq<T>, b: seq<T>, c: seq<T>)
    ensures log + a + b == log + (a + b)
    ensures log + a + b + c == log + (a + b + c)
  {
  }

  /**
   * Every byte the scan indexes is present; on a list that lacks one the source panics on an
   * index out of bounds, which this model does not reach.
   */
  predicate OpenReady(t: Transport)
  {
    var k := FindVideoControl(t.altSettings);
    k.Some? ==> ScanSafe(t.altSettings[k.value].descriptors)
  }

  /**
   * `DeviceInfo::open`, given the outcome of opening the USB device: the first VideoControl
   * alternate setting gives the interface number, and the scan of its descriptors the unit ids.
   */
  method Open(handle: Result<Transport, Error>) returns (r: Result<Device, Error>)
    requires handle.Success? ==> OpenReady(handle.value)
    ensures handle.Failure? ==> r == Failure(handle.error)
    ensures handle.Success? ==>
      (r.Failure? <==> FindVideoControl(handle.value.altSettings).None?)
    ensures handle.Success? && r.Failure? ==> r.error == InterfaceNotFound
    ensures r.Success? ==>
      var alts := handle.value.altSettings;
      var inf := alts[FindVideoControl(alts).value];
      && fresh(r.value)
      && r.value.inner == handle.value
      && r.value.infNo == inf.interfaceNumber
      && r.value.itUnit == FirstUnit(inf.descriptors, DescriptorTypeCode(VCInputTerminal))
      && r.value.puUnit == FirstUnit(inf.descriptors, DescriptorTypeCode(VCProcessingUnit))
  {
    var inner :- handle;
    var k := FindVideoControl(inner.altSettings);
    if k.None? {
      return Failure(InterfaceNotFound);
    }
    var inf := inner.altSettings[k.value];
    var itUnit, puUnit := ScanUnits(inf.descriptors);
    var d := new Device(inf.interfaceNumber, itUnit, puUnit, inner);
    return Success(d);
  }
}
