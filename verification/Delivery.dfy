/** Where the carriers that senders write take a packet. */
module Delivery {
  import opened Wrappers
  import opened Fabric
  import opened Forwarding
  import opened Topo

  /** Leaf of the sender, chosen spine, leaf of the receiver; and the receiver
      itself for yellow, which decapsulates on the host. `nic` is where the
      packet entered the first leaf. */
  function Path(tenant: Tenant, plane: nat, spine: nat, src: nat, dst: nat, nic: nat): seq<Packet> {
    var c := Carrier(tenant, plane, spine, dst);
    var fabric := [
      Packet(Leaf(plane, src), nic, c),
      Packet(Spine(plane, spine), src + 1, Shift(c)),
      Packet(Leaf(plane, dst), spine + 1, Shift(Shift(c)))];
    if tenant.Green? then fabric
    else fabric + [Packet(Host(Yellow, dst), plane + 1, Shift(Shift(Shift(c))))]
  }

  lemma UplinkSidIsUnique(t: Topology, n: Node, sid: Sid, a: Addr, spine: nat)
    requires n.Leaf? && HasSid(t, n, sid) && Matches(sid.prefix, a) && a.g2 == 0xf000 + spine && n.index < 0x100
    ensures sid == LeafUplinkSid(t, n.plane, n.index, spine)
  {
  }

  lemma UplinkOnly(t: Topology, k: Packet, k': Packet, spine: nat)
    requires WithinLimits(t) && IsNode(t, k.at) && k.at.Leaf? && spine < t.spines
    requires InBlock(k.da, k.at.plane) && k.da.g2 == 0xf000 + spine && Step(t, k, k')
    ensures k' == Packet(Spine(k.at.plane, spine), k.at.index + 1, Shift(k.da))
  {
    var n := k.at;
    var sid := LeafUplinkSid(t, n.plane, n.index, spine);
    assert HasSid(t, n, sid);
    var used :| StepUA(t, k, k', used);
    UplinkSidIsUnique(t, n, used, k.da, spine);
    TransmitsInPlane(t, n, UplinkPort(spine), sid.behavior.nexthop, Endpoint(k'.at, k'.nic));
  }

  lemma UplinkStep(t: Topology, k: Packet, k': Packet, spine: nat)
    requires WithinLimits(t) && IsNode(t, k.at) && k.at.Leaf? && spine < t.spines
    requires InBlock(k.da, k.at.plane) && k.da.g2 == 0xf000 + spine && !ArgumentIsZero(k.da)
    ensures Step(t, k, k') <==> k' == Packet(Spine(k.at.plane, spine), k.at.index + 1, Shift(k.da))
  {
    var n := k.at;
    var sid := LeafUplinkSid(t, n.plane, n.index, spine);
    assert HasSid(t, n, sid);
    if Step(t, k, k') { UplinkOnly(t, k, k', spine); }
    if k' == Packet(Spine(n.plane, spine), n.index + 1, Shift(k.da)) {
      assert HasLink(t, FabricLink(n.plane, spine, n.index));
      assert HasInterface(t, k'.at, SpineDownlink(t, spine, n.index));
      assert StepUA(t, k, k', sid);
    }
  }

  lemma DownlinkStep(t: Topology, k: Packet, k': Packet, leaf: nat)
    requires WithinLimits(t) && IsNode(t, k.at) && k.at.Spine? && leaf < t.leaves
    requires InBlock(k.da, k.at.plane) && k.da.g2 == 0xe000 + leaf && !ArgumentIsZero(k.da)
    ensures Step(t, k, k') <==> k' == Packet(Leaf(k.at.plane, leaf), k.at.index + 1, Shift(k.da))
  {
    var n := k.at;
    var sid := SpineDownlinkSid(t, n.plane, n.index, leaf);
    assert HasSid(t, n, sid);
    if Step(t, k, k') {
      var used :| StepUA(t, k, k', used);
      assert used == sid;
      TransmitsInPlane(t, n, DownlinkPort(leaf), sid.behavior.nexthop, Endpoint(k'.at, k'.nic));
    }
    if k' == Packet(Leaf(n.plane, leaf), n.index + 1, Shift(k.da)) {
      assert HasLink(t, FabricLink(n.plane, n.index, leaf));
      assert HasInterface(t, k'.at, LeafUplink(t, leaf, n.index));
      assert StepUA(t, k, k', sid);
    }
  }

  lemma YellowHostStep(t: Topology, k: Packet, k': Packet)
    requires WithinLimits(t) && IsNode(t, k.at) && k.at.Leaf?
    requires InBlock(k.da, k.at.plane) && k.da.g2 == 0xe009 && !ArgumentIsZero(k.da)
    ensures Step(t, k, k') <==> k' == Packet(Host(Yellow, k.at.index), k.at.plane + 1, Shift(k.da))
  {
    var n := k.at;
    var sid := YellowHostSid(n.plane, n.index);
    assert HasSid(t, n, sid);
    if Step(t, k, k') {
      var used :| StepUA(t, k, k', used);
      assert used == sid;
      TransmitsInPlane(t, n, 36, sid.behavior.nexthop, Endpoint(k'.at, k'.nic));
    }
    if k' == Packet(Host(Yellow, n.index), n.plane + 1, Shift(k.da)) {
      assert HasLink(t, HostLink(Yellow, n.plane, n.index));
      assert StepUA(t, k, k', sid);
    }
  }

  /** An active uDT6 SID stops the packet at a leaf. */
  lemma UdtStops(t: Topology, k: Packet)
    requires IsNode(t, k.at) && k.at.Leaf? && WithinLimits(t) && InBlock(k.da, k.at.plane) && k.da.g2 == 0xd000
    ensures !exists k' :: Step(t, k, k')
  {
    assert HasSid(t, k.at, Sid(GreenUdtSid(k.at.plane), UDT6(VrfGreen)));
  }

  /** The decapsulated packet of a green flow leaves on the one Vrf-green port. */
  lemma GreenDecap(t: Topology, k: Packet, inner: Addr, to: Endpoint)
    requires WithinLimits(t) && IsNode(t, k.at) && k.at.Leaf? && InBlock(k.da, k.at.plane) && k.da.g2 == 0xd000
    ensures Delivers(t, k, inner, to) <==>
              inner == InnerAddr(Green, k.at.index) && to == Endpoint(Host(Green, k.at.index), k.at.plane + 1)
  {
    var n := k.at;
    var sid := Sid(GreenUdtSid(n.plane), UDT6(VrfGreen));
    assert HasSid(t, n, sid);
    var i := HostFacing(Green, n.index);
    assert HasInterface(t, n, i);
    if Delivers(t, k, inner, to) {
      assert Transmits(t, n, 32, inner, to);
      TransmitsInPlane(t, n, 32, inner, to);
    }
    if inner == InnerAddr(Green, n.index) && to == Endpoint(Host(Green, n.index), n.plane + 1) {
      assert HasLink(t, HostLink(Green, n.plane, n.index));
      assert Transmits(t, n, i.port, inner, to);
    }
  }

  lemma YellowDecap(t: Topology, k: Packet, inner: Addr, to: Endpoint)
    requires k.at.Host? && k.at.tenant.Yellow? && k.da.g0 == 0xfc00 && k.da.g1 < t.planes && k.da.g2 == 0xd001
    ensures Delivers(t, k, inner, to) <==> inner == InnerAddr(Yellow, k.at.index) && to == Endpoint(k.at, k.nic)
  {
    assert HasSid(t, k.at, HostUdtSid(k.da.g1));
  }

  /** No decapsulation where a uA is active. */
  lemma UaDoesNotDeliver(t: Topology, k: Packet, inner: Addr, to: Endpoint)
    requires IsNode(t, k.at) && !k.at.Host? && k.da.g2 >= 0xe000
    ensures !Delivers(t, k, inner, to)
  {
  }

  lemma PathStep(t: Topology, tenant: Tenant, plane: nat, spine: nat, src: nat, dst: nat, nic: nat, i: nat, k': Packet)
    requires WithinLimits(t) && plane < t.planes && spine < t.spines && src < t.leaves && dst < t.leaves
    requires i < |Path(tenant, plane, spine, src, dst, nic)|
    ensures var path := Path(tenant, plane, spine, src, dst, nic);
            Step(t, path[i], k') <==> i + 1 < |path| && k' == path[i + 1]
  {
    var path := Path(tenant, plane, spine, src, dst, nic);
    if i == 0 {
      UplinkStep(t, path[0], k', spine);
    } else if i == 1 {
      DownlinkStep(t, path[1], k', dst);
    } else if tenant.Green? {
      UdtStops(t, path[2]);
    } else if i == 2 {
      YellowHostStep(t, path[2], k');
    }
  }

  /** Every run of a carrier is a prefix of its path. */
  lemma {:induction false} OnlyPath(t: Topology, tenant: Tenant, plane: nat, spine: nat, src: nat, dst: nat, nic: nat,
                                    run: seq<Packet>, i: nat)
    requires WithinLimits(t) && plane < t.planes && spine < t.spines && src < t.leaves && dst < t.leaves
    requires IsRun(t, run) && run[0] == Path(tenant, plane, spine, src, dst, nic)[0] && i < |run|
    ensures var path := Path(tenant, plane, spine, src, dst, nic); i < |path| && run[i] == path[i]
  {
    if i > 0 {
      OnlyPath(t, tenant, plane, spine, src, dst, nic, run, i - 1);
      assert Step(t, run[i - 1], run[i]);
      PathStep(t, tenant, plane, spine, src, dst, nic, i - 1, run[i]);
    }
  }

  lemma PathIsRun(t: Topology, tenant: Tenant, plane: nat, spine: nat, src: nat, dst: nat, nic: nat)
    requires WithinLimits(t) && plane < t.planes && spine < t.spines && src < t.leaves && dst < t.leaves
    ensures IsRun(t, Path(tenant, plane, spine, src, dst, nic))
  {
    var path := Path(tenant, plane, spine, src, dst, nic);
    forall i | 0 <= i < |path| - 1 ensures Step(t, path[i], path[i + 1]) {
      PathStep(t, tenant, plane, spine, src, dst, nic, i, path[i + 1]);
    }
  }

  /** The packet is decapsulated at the end of the path and nowhere else, and
      only an inner packet for host dst gets out: on its NIC in the carrier's plane. */
  lemma DeliveredOnceAtEnd(t: Topology, tenant: Tenant, plane: nat, spine: nat, src: nat, dst: nat, nic: nat,
                           i: nat, inner: Addr, to: Endpoint)
    requires WithinLimits(t) && plane < t.planes && spine < t.spines && src < t.leaves && dst < t.leaves
    requires i < |Path(tenant, plane, spine, src, dst, nic)|
    ensures var path := Path(tenant, plane, spine, src, dst, nic);
            Delivers(t, path[i], inner, to) <==>
              i == |path| - 1 && inner == InnerAddr(tenant, dst) && to == Endpoint(Host(tenant, dst), plane + 1)
  {
    var path := Path(tenant, plane, spine, src, dst, nic);
    if i == |path| - 1 {
      if tenant.Green? { GreenDecap(t, path[i], inner, to); } else { YellowDecap(t, path[i], inner, to); }
    } else {
      UaDoesNotDeliver(t, path[i], inner, to);
    }
  }

  /** A packet leaving a host on eth(plane+1) enters its own leaf of that plane. */
  ghost predicate SentBy(t: Topology, host: Node, plane: nat, k: Packet) {
    HasLink(t, Link(Endpoint(k.at, k.nic), Endpoint(host, plane + 1)))
  }

  /** End to end: the carrier that topo.py writes brings a packet from host src,
      sent on its plane NIC, over leaf(src), the spine and leaf(dst) in that
      plane, to host dst on its NIC in that plane, with one decapsulation. */
  lemma CarrierDelivers(t: Topology, tenant: Tenant, plane: nat, spine: nat, src: nat, dst: nat, k: Packet,
          run: seq<Packet>)
    requires WithinLimits(t) && plane < t.planes && spine < t.spines && src < t.leaves && dst < t.leaves
    requires SentBy(t, Host(tenant, src), plane, k) && UsidOuterDst(t, tenant, plane, spine, dst) == Ok(k.da)
    requires IsRun(t, run) && run[0] == k
    ensures var path := Path(tenant, plane, spine, src, dst, k.nic);
            && IsRun(t, path) && path[0] == k && |run| <= |path| && run == path[..|run|]
            && forall i, inner, to :: 0 <= i < |run| ==>
                 (Delivers(t, run[i], inner, to) <==>
                    i == |path| - 1 && inner == InnerAddr(tenant, dst) && to == Endpoint(Host(tenant, dst), plane + 1))
  {
    var path := Path(tenant, plane, spine, src, dst, k.nic);
    assert k.at == Leaf(plane, src);
    PathIsRun(t, tenant, plane, spine, src, dst, k.nic);
    forall i | 0 <= i < |run| ensures i < |path| && run[i] == path[i] {
      OnlyPath(t, tenant, plane, spine, src, dst, k.nic, run, i);
    }
    OnlyPath(t, tenant, plane, spine, src, dst, k.nic, run, |run| - 1);
    forall i, inner, to | 0 <= i < |run|
      ensures Delivers(t, run[i], inner, to) <==>
                i == |path| - 1 && inner == InnerAddr(tenant, dst) && to == Endpoint(Host(tenant, dst), plane + 1)
    {
      DeliveredOnceAtEnd(t, tenant, plane, spine, src, dst, k.nic, i, inner, to);
      assert run[i] == path[i];
    }
  }

  // ---------------------------------------------------------------------
  // Static locator routes
  // ---------------------------------------------------------------------

  /** Towards another leaf's locator a leaf offers exactly its spines, all of them. */
  lemma LeafLocatorFromLeaf(t: Topology, k: Packet, k': Packet, leaf: nat)
    requires WithinLimits(t) && IsNode(t, k.at) && k.at.Leaf? && leaf < t.leaves && leaf != k.at.index
    requires InBlock(k.da, k.at.plane) && k.da.g2 == 0x20 + leaf
    ensures Step(t, k, k') <==>
              k'.at.Spine? && k'.at.plane == k.at.plane && k'.at.index < t.spines && k'.nic == k.at.index + 1
                      && k'.da == k.da
  {
    var n := k.at;
    if Step(t, k, k') {
      var r, i :| StepRoute(t, k, k', r, i);
      LeafRouteNextHop(t, n, r, i, Endpoint(k'.at, k'.nic));
      TransmitsInPlane(t, n, i.port, r.nexthop, Endpoint(k'.at, k'.nic));
    }
    if k'.at.Spine? && k'.at.plane == n.plane && k'.at.index < t.spines && k'.nic == n.index + 1 && k'.da == k.da {
      var s := k'.at.index;
      assert HasRoute(t, n, LeafRouteVia(t, n.plane, n.index, leaf, s));
      assert HasInterface(t, n, LeafUplink(t, n.index, s));
      assert HasLink(t, FabricLink(n.plane, s, n.index));
      assert HasInterface(t, k'.at, SpineDownlink(t, s, n.index));
      assert StepRoute(t, k, k', LeafRouteVia(t, n.plane, n.index, leaf, s), LeafUplink(t, n.index, s));
    }
  }

  lemma SpineRouteIsUnique(t: Topology, n: Node, r: StaticRoute, a: Addr, spine: nat)
    requires WithinLimits(t) && n.Leaf? && HasRoute(t, n, r) && Matches(r.prefix, a) && a.g2 == 0x10 + spine
    requires spine < t.spines
    ensures r == SpineRoute(t, n.plane, n.index, spine)
  {
  }

  /** Towards a spine's locator a leaf offers that spine alone. */
  lemma SpineLocatorFromLeaf(t: Topology, k: Packet, k': Packet, spine: nat)
    requires WithinLimits(t) && IsNode(t, k.at) && k.at.Leaf? && spine < t.spines
    requires InBlock(k.da, k.at.plane) && k.da.g2 == 0x10 + spine
    ensures Step(t, k, k') <==> k' == Packet(Spine(k.at.plane, spine), k.at.index + 1, k.da)
  {
    var n := k.at;
    var r, i := SpineRoute(t, n.plane, n.index, spine), LeafUplink(t, n.index, spine);
    if Step(t, k, k') {
      var used, on :| StepRoute(t, k, k', used, on);
      SpineRouteIsUnique(t, n, used, k.da, spine);
      UplinkTowards(t, n, on, spine);
      TransmitsInPlane(t, n, on.port, used.nexthop, Endpoint(k'.at, k'.nic));
    }
    if k' == Packet(Spine(n.plane, spine), n.index + 1, k.da) {
      assert HasRoute(t, n, r) && HasInterface(t, n, i);
      assert HasLink(t, FabricLink(n.plane, spine, n.index));
      assert HasInterface(t, k'.at, SpineDownlink(t, spine, n.index));
      assert StepRoute(t, k, k', r, i);
    }
  }

  /** A spine sends a leaf's locator straight down, and drops another spine's:
      it has no route to any spine. */
  lemma LocatorsFromSpine(t: Topology, k: Packet, k': Packet)
    requires WithinLimits(t) && IsNode(t, k.at) && k.at.Spine? && InBlock(k.da, k.at.plane)
    ensures 0x20 <= k.da.g2 < 0x20 + t.leaves ==>
              (Step(t, k, k') <==> k' == Packet(Leaf(k.at.plane, k.da.g2 - 0x20), k.at.index + 1, k.da))
    ensures 0x10 <= k.da.g2 < 0x20 && k.da.g2 != 0x10 + k.at.index ==> !Step(t, k, k')
  {
    var n := k.at;
    if 0x20 <= k.da.g2 < 0x20 + t.leaves {
      var l: nat := k.da.g2 - 0x20;
      if Step(t, k, k') {
        var r, i :| StepRoute(t, k, k', r, i);
        SpineRouteNextHop(t, n, r, i, Endpoint(k'.at, k'.nic));
        TransmitsInPlane(t, n, i.port, r.nexthop, Endpoint(k'.at, k'.nic));
      }
      if k' == Packet(Leaf(n.plane, l), n.index + 1, k.da) {
        assert HasRoute(t, n, LeafRoute(t, n.plane, n.index, l));
        assert HasInterface(t, n, SpineDownlink(t, n.index, l));
        assert HasLink(t, FabricLink(n.plane, n.index, l));
        assert HasInterface(t, k'.at, LeafUplink(t, l, n.index));
        assert StepRoute(t, k, k', LeafRoute(t, n.plane, n.index, l), SpineDownlink(t, n.index, l));
      }
    }
  }

  /** A carrier naming a spine that does not exist is dropped by the sender's leaf. */
  lemma MissingSpineIsDropped(t: Topology, k: Packet)
    requires WithinLimits(t) && IsNode(t, k.at) && k.at.Leaf? && k.da.g2 >= 0xf000 + t.spines
    ensures forall k' :: !Step(t, k, k')
    ensures forall inner, to :: !Delivers(t, k, inner, to)
  {
    assert !HasLocalSid(t, k.at, k.da);
  }
}
