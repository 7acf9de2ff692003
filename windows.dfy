/**
 * The modelled parts of `src/windows.rs`: the device list of `DeviceInfo::enumerate`, which
 * skips every source whose symbolic link cannot be read, and `Device::set_auto_focus`, which
 * sends one kernel-streaming property to the topology nodes in turn until one accepts it.
 * The Media Foundation and COM calls are inputs: the outcome of the device-source listing,
 * the symbolic link of each source, the outcome of `CLSIDFromString`, and whether the driver
 * accepts each property request.
 */
module WindowsDevice {
  import opened Wrappers
  import opened Bytes
  import opened Errors
  import opened HardwareIds

  // ---------------------------------------------------------------------------------------
  // DeviceInfo::enumerate

  /** What reading a source's symbolic link gives: no string, a string that is not valid UTF-16, or the link. */
  datatype LinkFetch = FetchFailed | NotUnicode | Link(id: string)

  /** One entry of the Media Foundation device-source list: an activation object and its link. */
  datatype Source = Source(activate: nat, link: LinkFetch)

  datatype DeviceInfo = DeviceInfo(activate: nat, id: string, productId: u16, vendorId: u16)

  /** The entry kept for a source whose link was read. */
  function InfoOf(activate: nat, id: string): (d: DeviceInfo)
    ensures d.activate == activate && d.id == id
    ensures d.productId == ProductId(id) && d.vendorId == VendorId(id)
  {
    DeviceInfo(activate, id, ProductId(id), VendorId(id))
  }

  /** What one source contributes to the list: its entry, or nothing when its link could not be read. */
  function Entry(src: Source): seq<DeviceInfo>
  {
    if src.link.Link? then [InfoOf(src.activate, src.link.id)] else []
  }

  /** The list `enumerate` builds from the sources, in their order. */
  function Kept(sources: seq<Source>): seq<DeviceInfo>
  {
    if sources == [] then [] else Kept(sources[..|sources| - 1]) + Entry(sources[|sources| - 1])
  }

  /**
   * `DeviceInfo::enumerate` after the device sources have been listed: for each source, in
   * order, skip it when its link cannot be fetched or decoded, otherwise push its entry.
   */
  method Enumerate(listing: Result<seq<Source>, Error>) returns (r: Result<seq<DeviceInfo>, Error>)
    ensures listing.Failure? ==> r == Failure(listing.error)
    ensures listing.Success? ==> r == Success(Kept(listing.value))
  {
    var sources :- listing;
    var infos: seq<DeviceInfo> := [];
    for i := 0 to |sources|
      invariant infos == Kept(sources[..i])
    {
      assert sources[..i + 1][..i] == sources[..i];
      var link := sources[i].link;
      if link.FetchFailed? {
        continue;
      }
      if link.NotUnicode? {
        continue;
      }
      infos := infos + [InfoOf(sources[i].activate, link.id)];
    }
    assert sources[..|sources|] == sources;
    return Success(infos);
  }

  /** Filtering commutes with concatenation, so the kept entries stay in the sources' order. */
  lemma {:induction false} KeptAppend(a: seq<Source>, b: seq<Source>)
    decreases |b|
    ensures Kept(a + b) == Kept(a) + Kept(b)
  {
    if b == [] {
      assert a + b == a;
    } else {
      var b' := b[..|b| - 1];
      assert (a + b)[..|a + b| - 1] == a + b';
      assert (a + b)[|a + b| - 1] == b[|b| - 1];
      KeptAppend(a, b');
      calc {
        Kept(a + b);
        Kept(a + b') + Entry(b[|b| - 1]);
        Kept(a) + Kept(b') + Entry(b[|b| - 1]);
        Kept(a) + (Kept(b') + Entry(b[|b| - 1]));
      }
    }
  }

  /** The entry of source `i` sits, in the list, after those of every earlier source and before those of every later one. */
  lemma KeptAround(sources: seq<Source>, i: nat)
    requires i < |sources|
    ensures Kept(sources) == Kept(sources[..i]) + Entry(sources[i]) + Kept(sources[i + 1..])
  {
    var pre := sources[..i + 1];
    assert sources == pre + sources[i + 1..];
    KeptAppend(pre, sources[i + 1..]);
    assert pre[..i] == sources[..i];
  }

  /** An entry is in the list exactly when some source with a readable link yields it. */
  lemma {:induction false} KeptMembers(sources: seq<Source>, d: DeviceInfo)
    decreases |sources|
    ensures d in Kept(sources) <==>
      exists i :: 0 <= i < |sources| && sources[i].link.Link? && d == InfoOf(sources[i].activate, sources[i].link.id)
  {
    if sources != [] {
      var init := sources[..|sources| - 1];
      var last := sources[|sources| - 1];
      KeptMembers(init, d);
      if d in Kept(sources) {
        if d !in Kept(init) {
          assert d in Entry(last);
          assert sources[|sources| - 1].link.Link? && d == InfoOf(last.activate, last.link.id);
        } else {
          var i :| 0 <= i < |init| && init[i].link.Link? && d == InfoOf(init[i].activate, init[i].link.id);
          assert sources[i] == init[i];
        }
      } else {
        forall i | 0 <= i < |sources| && sources[i].link.Link?
          ensures d != InfoOf(sources[i].activate, sources[i].link.id)
        {
          if i < |init| {
            assert init[i] == sources[i];
          } else {
            assert InfoOf(last.activate, last.link.id) in Entry(last);
          }
        }
      }
    }
  }

  /** When every link is read, nothing is dropped and nothing reordered. */
  lemma {:induction false} KeptAllReadable(sources: seq<Source>)
    requires forall i :: 0 <= i < |sources| ==> sources[i].link.Link?
    decreases |sources|
    ensures |Kept(sources)| == |sources|
    ensures forall i :: 0 <= i < |sources| ==> Kept(sources)[i] == InfoOf(sources[i].activate, sources[i].link.id)
  {
    if sources != [] {
      var init := sources[..|sources| - 1];
      KeptAllReadable(init);
    }
  }

  /** When no link can be read, the list is empty (and `enumerate` still succeeds). */
  lemma {:induction false} KeptNoneReadable(sources: seq<Source>)
    requires forall i :: 0 <= i < |sources| ==> !sources[i].link.Link?
    decreases |sources|
    ensures Kept(sources) == []
  {
    if sources != [] {
      KeptNoneReadable(sources[..|sources| - 1]);
    }
  }

  // ---------------------------------------------------------------------------------------
  // Device::set_auto_focus

  /** A GUID as `CLSIDFromString` returns it. */
  datatype Guid = Guid(data1: u32, data2: u16, data3: u16, data4: seq<u8>)

  /** KSPROPERTY_TYPE_SET and KSPROPERTY_TYPE_TOPOLOGY of `ks.h`. */
  const KSPROPERTY_TYPE_SET: u32 := 0x0000_0002
  const KSPROPERTY_TYPE_TOPOLOGY: u32 := 0x1000_0000
  /** Their bitwise or; the two bits are disjoint. */
  const SetTopology: u32 := KSPROPERTY_TYPE_SET + KSPROPERTY_TYPE_TOPOLOGY

  /** The fields of `KSP_NODE` the probe sets: property set, id and flags, and the node. */
  datatype KsNodeProperty = KsNodeProperty(propSet: Guid, id: u32, flags: u32, nodeId: u32)

  /** One `KsProperty` call: the property and the data buffer passed with it. */
  datatype KsRequest = KsRequest(property: KsNodeProperty, data: seq<u8>)

  /** The `IKsControl` of the device source: which requests the driver accepts, and every request sent. */
  class KsControl {
    const accepts: KsRequest -> bool
    var log: seq<KsRequest>

    constructor (accepts: KsRequest -> bool)
      ensures this.accepts == accepts && log == []
    {
      this.accepts := accepts;
      log := [];
    }

    /** `IKsControl::KsProperty`; true when the call returns success. */
    method KsProperty(property: KsNodeProperty, data: seq<u8>) returns (ok: bool)
      modifies this`log
      ensures log == old(log) + [KsRequest(property, data)]
      ensures ok == accepts(KsRequest(property, data))
    {
      log := log + [KsRequest(property, data)];
      ok := accepts(KsRequest(property, data));
    }
  }

  /** The request the probe sends to node `node`. */
  function NodeRequest(propSet: Guid, id: u32, data: seq<u8>, node: u32): KsRequest
  {
    KsRequest(KsNodeProperty(propSet, id, SetTopology, node), data)
  }

  /** The requests of the probe from node `from` on: one per node, up to the first accepted. */
  function Probe(accepts: KsRequest -> bool, propSet: Guid, id: u32, data: seq<u8>, from: nat, numNodes: u32): seq<KsRequest>
    decreases numNodes - from
  {
    if from >= numNodes then []
    else
      var q := NodeRequest(propSet, id, data, from);
      if accepts(q) then [q] else [q] + Probe(accepts, propSet, id, data, from + 1, numNodes)
  }

  /**
   * What `set_auto_focus` returns and sends: nothing and Ok on a device without nodes (the
   * GUID is not even parsed); the parse error and nothing when the GUID does not parse;
   * otherwise the probe, and Ok whether or not a node accepted.
   */
  function AutoFocusSpec(accepts: KsRequest -> bool, numNodes: u32, clsid: Result<Guid, Error>, id: u32, data: seq<u8>)
    : (Result<(), Error>, seq<KsRequest>)
  {
    if numNodes == 0 then (Success(()), [])
    else if clsid.Failure? then (Failure(clsid.error), [])
    else (Success(()), Probe(accepts, clsid.value, id, data, 0, numNodes))
  }

  class Device {
    const numNodes: u32
    const ks: KsControl

    constructor (numNodes: u32, ks: KsControl)
      ensures this.numNodes == numNodes && this.ks == ks
    {
      this.numNodes := numNodes;
      this.ks := ks;
    }

    /**
     * `Device::set_auto_focus`, given the outcome of parsing the property-set string: for
     * each node in turn, build the node property and send it with `data`, and stop at the
     * first call that succeeds.
     */
    method SetAutoFocus(clsid: Result<Guid, Error>, id: u32, data: seq<u8>) returns (r: Result<(), Error>)
      modifies ks`log
      ensures var spec := AutoFocusSpec(ks.accepts, numNodes, clsid, id, data);
        r == spec.0 && ks.log == old(ks.log) + spec.1
    {
      for nodeId := 0 to numNodes
        invariant nodeId > 0 ==> clsid.Success?
        invariant nodeId == 0 ==> ks.log == old(ks.log)
        invariant nodeId > 0 ==>
          old(ks.log) + Probe(ks.accepts, clsid.value, id, data, 0, numNodes)
            == ks.log + Probe(ks.accepts, clsid.value, id, data, nodeId, numNodes)
      {
        var propSet :- clsid;
        var property := KsNodeProperty(propSet, id, SetTopology, nodeId);
        ghost var before := ks.log;
        var ok := ks.KsProperty(property, data);
        ghost var rest := Probe(ks.accepts, propSet, id, data, nodeId + 1, numNodes);
        assert before + ([NodeRequest(propSet, id, data, nodeId)] + rest) == ks.log + rest;
        if ok {
          break;
        }
      }
      return Success(());
    }
  }

  /**
   * The probe sends to nodes `from`, `from + 1`, ... in order, each request the same but for
   * its node id; it stops after the first accepted request, and otherwise runs to the last
   * node.
   */
  lemma {:induction false} ProbeShape(accepts: KsRequest -> bool, propSet: Guid, id: u32, data: seq<u8>, from: nat, numNodes: u32)
    decreases numNodes - from
    ensures var p := Probe(accepts, propSet, id, data, from, numNodes);
      && (from < numNodes ==> 1 <= |p| <= numNodes - from)
      && (from >= numNodes ==> p == [])
      && (forall k :: 0 <= k < |p| ==> from + k < numNodes && p[k] == NodeRequest(propSet, id, data, from + k))
      && (forall k :: 0 <= k < |p| - 1 ==> !accepts(p[k]))
      && (from + |p| < numNodes ==> accepts(p[|p| - 1]))
  {
    if from < numNodes {
      var q := NodeRequest(propSet, id, data, from);
      if !accepts(q) {
        ProbeShape(accepts, propSet, id, data, from + 1, numNodes);
        var rest := Probe(accepts, propSet, id, data, from + 1, numNodes);
        var p := Probe(accepts, propSet, id, data, from, numNodes);
        assert p == [q] + rest;
        forall k | 0 <= k < |p|
          ensures from + k < numNodes && p[k] == NodeRequest(propSet, id, data, from + k)
        {
          if k > 0 {
            assert p[k] == rest[k - 1];
          }
        }
        forall k | 0 <= k < |p| - 1
          ensures !accepts(p[k])
        {
          if k > 0 {
            assert p[k] == rest[k - 1];
          }
        }
        if from + |p| < numNodes {
          assert p[|p| - 1] == rest[|rest| - 1];
        }
      }
    }
  }

  /** When node `k` is the first to accept, the probe makes exactly the attempts for nodes `from` to `k`. */
  lemma {:induction false} ProbeFirstAccepting(accepts: KsRequest -> bool, propSet: Guid, id: u32, data: seq<u8>, from: nat, numNodes: u32, k: u32)
    requires from <= k < numNodes
    requires accepts(NodeRequest(propSet, id, data, k))
    requires forall j: u32 :: from <= j < k ==> !accepts(NodeRequest(propSet, id, data, j))
    decreases k - from
    ensures |Probe(accepts, propSet, id, data, from, numNodes)| == k - from + 1
  {
    if from < k {
      assert !accepts(NodeRequest(propSet, id, data, from as u32));
      ProbeFirstAccepting(accepts, propSet, id, data, from + 1, numNodes, k);
    }
  }

  /** When no node accepts, the probe tries every node. */
  lemma {:induction false} ProbeNoneAccepting(accepts: KsRequest -> bool, propSet: Guid, id: u32, data: seq<u8>, from: nat, numNodes: u32)
    requires forall j: u32 :: from <= j < numNodes ==> !accepts(NodeRequest(propSet, id, data, j))
    decreases numNodes - from
    ensures from <= numNodes ==> |Probe(accepts, propSet, id, data, from, numNodes)| == numNodes - from
  {
    if from < numNodes {
      assert !accepts(NodeRequest(propSet, id, data, from as u32));
      ProbeNoneAccepting(accepts, propSet, id, data, from + 1, numNodes);
    }
  }

  /**
   * `set_auto_focus` fails exactly when there is a node and the GUID does not parse, and
   * then it sends nothing; in every other case it returns Ok, also when no node accepted.
   */
  lemma AutoFocusOutcome(accepts: KsRequest -> bool, numNodes: u32, clsid: Result<Guid, Error>, id: u32, data: seq<u8>)
    ensures var (r, sent) := AutoFocusSpec(accepts, numNodes, clsid, id, data);
      && (r.Failure? <==> numNodes > 0 && clsid.Failure?)
      && (r.Failure? ==> r.error == clsid.error && sent == [])
      && (numNodes == 0 ==> sent == [])
      && (numNodes > 0 && clsid.Success? ==> 1 <= |sent| <= numNodes)
  {
    if numNodes > 0 && clsid.Success? {
      ProbeShape(accepts, clsid.value, id, data, 0, numNodes);
    }
  }

  /** Four nodes, and only node 2 accepts: nodes 0, 1 and 2 are tried, in that order. */
  lemma OnlyNodeTwoAccepts(propSet: Guid, id: u32, data: seq<u8>)
    ensures var sent := AutoFocusSpec((q: KsRequest) => q.property.nodeId == 2, 4, Success(propSet), id, data).1;
      && |sent| == 3
      && forall k :: 0 <= k < 3 ==> sent[k] == NodeRequest(propSet, id, data, k)
  {
    var accepts := (q: KsRequest) => q.property.nodeId == 2;
    ProbeFirstAccepting(accepts, propSet, id, data, 0, 4, 2);
    ProbeShape(accepts, propSet, id, data, 0, 4);
  }
}
