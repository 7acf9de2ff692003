/**
 * What `DeviceInfo::open` reads from the configuration descriptors: the first VideoControl
 * interface, and in its class-specific descriptors the first Input Terminal and the first
 * Processing Unit (UVC 1.5 section 3.7.2).
 */
module Descriptors {
  import opened Bytes
  import opened Wrappers
  import opened Uvc

  /**
   * One interface alternate setting as the USB stack reports it: class and subclass codes,
   * bInterfaceNumber, and the raw descriptors that follow the interface descriptor.
   */
  datatype AltSetting = AltSetting(interfaceClass: u8, interfaceSubclass: u8, interfaceNumber: u8, descriptors: seq<seq<u8>>)

  predicate IsVideoControl(a: AltSetting)
  {
    a.interfaceClass == UsbClassCode(Video) && a.interfaceSubclass == UsbClassCode(VideoControl)
  }

  /** Index of the first VideoControl alternate setting, if there is one. */
  function FindVideoControl(alts: seq<AltSetting>): (r: Option<nat>)
    ensures r.None? <==> forall i :: 0 <= i < |alts| ==> !IsVideoControl(alts[i])
    ensures r.Some? ==> r.value < |alts| && IsVideoControl(alts[r.value])
    ensures r.Some? ==> forall i :: 0 <= i < r.value ==> !IsVideoControl(alts[i])
  {
    if alts == [] then None
    else if IsVideoControl(alts[0]) then Some(0)
    else match FindVideoControl(alts[1..])
      case None => None
      case Some(k) => Some(k + 1)
  }

  /** The two descriptor subtypes whose id the scan records. */
  predicate IsUnitSubtype(subtype: u8)
  {
    subtype == DescriptorTypeCode(VCInputTerminal) || subtype == DescriptorTypeCode(VCProcessingUnit)
  }

  /**
   * The header bytes the scan reads of every descriptor are present: bLength and
   * bDescriptorType, and for a class-specific interface descriptor also bDescriptorSubtype.
   */
  predicate Scannable(d: seq<u8>)
  {
    |d| >= 2 && (d[1] == DescriptorTypeCode(CSInterface) ==> |d| >= 3)
  }

  predicate AllScannable(ds: seq<seq<u8>>)
  {
    forall i :: 0 <= i < |ds| ==> Scannable(ds[i])
  }

  /** `d` is a class-specific interface descriptor of the given subtype. */
  predicate Declares(d: seq<u8>, subtype: u8)
    requires Scannable(d)
  {
    d[1] == DescriptorTypeCode(CSInterface) && d[2] == subtype
  }

  /** `d` declares a unit of the subtype and carries a nonzero id in byte 3. */
  predicate HasUnit(d: seq<u8>, subtype: u8)
    requires Scannable(d) && IsUnitSubtype(subtype)
  {
    Declares(d, subtype) && |d| >= 4 && d[3] != 0
  }

  /** Index of the first descriptor that declares a unit of the subtype with a nonzero id. */
  function FirstUnitAt(ds: seq<seq<u8>>, subtype: u8): (r: Option<nat>)
    requires AllScannable(ds) && IsUnitSubtype(subtype)
    ensures r.None? <==> forall i :: 0 <= i < |ds| ==> !HasUnit(ds[i], subtype)
    ensures r.Some? ==> r.value < |ds| && HasUnit(ds[r.value], subtype)
    ensures r.Some? ==> forall i :: 0 <= i < r.value ==> !HasUnit(ds[i], subtype)
  {
    if ds == [] then None
    else if HasUnit(ds[0], subtype) then Some(0)
    else match FirstUnitAt(ds[1..], subtype)
      case None => None
      case Some(k) => Some(k + 1)
  }

  /** The unit id the scan settles on: that first nonzero id, or 0 when there is none. */
  function FirstUnit(ds: seq<seq<u8>>, subtype: u8): u8
    requires AllScannable(ds) && IsUnitSubtype(subtype)
  {
    match FirstUnitAt(ds, subtype)
    case None => 0
    case Some(k) => ds[k][3]
  }

  /**
   * The scan reads byte 3 of descriptor `i`: it declares an input terminal while the
   * recorded input-terminal id is still 0, or a processing unit while that id is still 0.
   */
  predicate ReadsId(ds: seq<seq<u8>>, i: nat)
    requires AllScannable(ds) && i < |ds|
  {
    var it := DescriptorTypeCode(VCInputTerminal);
    var pu := DescriptorTypeCode(VCProcessingUnit);
    (Declares(ds[i], it) && FirstUnit(ds[..i], it) == 0)
    || (Declares(ds[i], pu) && FirstUnit(ds[..i], pu) == 0)
  }

  /** Every byte the scan indexes is present, so the loop of `open` does not panic. */
  predicate ScanSafe(ds: seq<seq<u8>>)
  {
    AllScannable(ds) && forall i :: 0 <= i < |ds| && ReadsId(ds, i) ==> |ds[i]| >= 4
  }

  /** One more descriptor changes the id only while it is still 0. */
  lemma {:induction false} FirstUnitSnoc(ds: seq<seq<u8>>, d: seq<u8>, subtype: u8)
    requires AllScannable(ds) && Scannable(d) && IsUnitSubtype(subtype)
    ensures AllScannable(ds + [d])
    ensures FirstUnit(ds + [d], subtype) ==
      if FirstUnit(ds, subtype) != 0 then FirstUnit(ds, subtype)
      else if Declares(d, subtype) && |d| >= 4 then d[3]
      else 0
  {
    var e := ds + [d];
    assert AllScannable(e) by {
      forall i | 0 <= i < |e| ensures Scannable(e[i]) {
        if i < |ds| { assert e[i] == ds[i]; }
      }
    }
    var r := FirstUnitAt(e, subtype);
    match FirstUnitAt(ds, subtype)
    case None =>
      if HasUnit(d, subtype) {
        assert e[|ds|] == d;
        assert r == Some(|ds|);
      } else {
        forall i | 0 <= i < |e| ensures !HasUnit(e[i], subtype) {
          if i < |ds| { assert e[i] == ds[i]; }
        }
      }
    case Some(k) =>
      assert e[k] == ds[k];
      assert r == Some(k);
  }

  /**
   * The loop of `open` over the descriptors: record the id of an input terminal (processing unit)
   * while the recorded id is still 0.
   */
  method ScanUnits(ds: seq<seq<u8>>) returns (itUnit: u8, puUnit: u8)
    requires ScanSafe(ds)
    ensures itUnit == FirstUnit(ds, DescriptorTypeCode(VCInputTerminal))
    ensures puUnit == FirstUnit(ds, DescriptorTypeCode(VCProcessingUnit))
  {
    var it := DescriptorTypeCode(VCInputTerminal);
    var pu := DescriptorTypeCode(VCProcessingUnit);
    itUnit, puUnit := 0, 0;
    for i := 0 to |ds|
      invariant AllScannable(ds[..i])
      invariant itUnit == FirstUnit(ds[..i], it)
      invariant puUnit == FirstUnit(ds[..i], pu)
    {
      var d := ds[i];
      assert ds[..i] + [d] == ds[..i + 1];
      if d[1] == DescriptorTypeCode(CSInterface) {
        if d[2] == it && itUnit == 0 {
          assert ReadsId(ds, i);
          itUnit := d[3];
        } else if d[2] == pu && puUnit == 0 {
          assert ReadsId(ds, i);
          puUnit := d[3];
        }
      }
      FirstUnitSnoc(ds[..i], d, it);
      FirstUnitSnoc(ds[..i], d, pu);
    }
    assert ds[..|ds|] == ds;
  }

  /** Input terminal 5, then input terminal 9, then processing unit 7: the scan keeps 5 and 7. */
  lemma FirstMatchExample()
    ensures var ds := [[8, 0x24, 0x02, 5], [8, 0x24, 0x02, 9], [11, 0x24, 0x05, 7]];
      ScanSafe(ds) && FirstUnit(ds, 0x02) == 5 && FirstUnit(ds, 0x05) == 7
  {
    var ds: seq<seq<u8>> := [[8, 0x24, 0x02, 5], [8, 0x24, 0x02, 9], [11, 0x24, 0x05, 7]];
    assert HasUnit(ds[0], 0x02);
    assert FirstUnitAt(ds, 0x02) == Some(0);
    assert !HasUnit(ds[0], 0x05) && !HasUnit(ds[1], 0x05) && HasUnit(ds[2], 0x05);
    assert FirstUnitAt(ds, 0x05) == Some(2);
  }

  /**
   * A short input terminal after the first one is not indexed: the scan keeps 5 and finds no
   * processing unit. A short input terminal seen first is indexed, which is a panic.
   */
  lemma ShortLaterTerminal()
    ensures var ds := [[8, 0x24, 0x02, 5], [3, 0x24, 0x02]];
      ScanSafe(ds) && FirstUnit(ds, 0x02) == 5 && FirstUnit(ds, 0x05) == 0
    ensures !ScanSafe([[3, 0x24, 0x02]])
  {
    var ds: seq<seq<u8>> := [[8, 0x24, 0x02, 5], [3, 0x24, 0x02]];
    assert ds[..1] == [ds[0]];
    assert FirstUnitAt(ds[..1], 0x02) == Some(0);
    assert !ReadsId(ds, 1);
    assert !HasUnit(ds[0], 0x05) && !HasUnit(ds[1], 0x05);
    assert FirstUnitAt(ds, 0x05) == None;
    var short: seq<seq<u8>> := [[3, 0x24, 0x02]];
    assert short[..0] == [];
    assert ReadsId(short, 0);
  }
}
