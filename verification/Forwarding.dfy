/** uSID forwarding over the generated tables: shift-and-forward as in sections
    4.1.1 and 4.1.2 of RFC 9800, decapsulation as in section 4.6 of RFC 8986.
    A carrier is an outer destination address: a two-group plane block and six
    uSIDs, of which the first is active. */
module Forwarding {
  import opened Fabric

  /** A packet that has just arrived at `at` on NIC eth<nic>. */
  datatype Packet = Packet(at: Node, nic: nat, da: Addr)

  function Shift(a: Addr): Addr { Addr(a.g0, a.g1, a.g3, a.g4, a.g5, a.g6, a.g7, 0) }

  predicate ArgumentIsZero(a: Addr) { a.g3 == 0 && a.g4 == 0 && a.g5 == 0 && a.g6 == 0 && a.g7 == 0 }

  predicate InBlock(a: Addr, plane: nat) { a.g0 == 0xfc00 && a.g1 == plane }

  /** The plane a packet is in; a host is in the plane of the NIC it received on. */
  function PlaneOf(k: Packet): int {
    match k.at
    case Spine(p, _) => p
    case Leaf(p, _) => p
    case Host(_, _) => k.nic - 1
  }

  predicate OnLink(i: Interface, a: Addr) {
    && i.address.g0 == a.g0 && i.address.g1 == a.g1 && i.address.g2 == a.g2 && i.address.g3 == a.g3
    && (i.length == 127 ==>
          i.address.g4 == a.g4 && i.address.g5 == a.g5 && i.address.g6 == a.g6 && i.address.g7 / 2 == a.g7 / 2)
  }

  ghost predicate OwnsAddress(t: Topology, e: Endpoint, a: Addr) {
    match e.node
    case Host(tenant, h) => a == InnerAddr(tenant, h)
    case _ => exists i :: HasInterface(t, e.node, i) && NicOf(i.port) == e.nic && i.address == a
  }

  /** Sent out of a switch port towards a next hop: it reaches the other end of
      the link, provided that end answers for the next hop. */
  ghost predicate Transmits(t: Topology, from: Node, port: nat, nexthop: Addr, to: Endpoint) {
    && (HasLink(t, Link(Endpoint(from, NicOf(port)), to)) || HasLink(t, Link(to, Endpoint(from, NicOf(port)))))
    && OwnsAddress(t, to, nexthop)
  }

  ghost predicate StepUN(t: Topology, k: Packet, k': Packet, sid: Sid) {
    && HasSid(t, k.at, sid) && Matches(sid.prefix, k.da) && sid.behavior.UN?
    && !ArgumentIsZero(k.da) && k' == k.(da := Shift(k.da))
  }

  ghost predicate StepUA(t: Topology, k: Packet, k': Packet, sid: Sid) {
    && HasSid(t, k.at, sid) && Matches(sid.prefix, k.da) && sid.behavior.UA?
    && !ArgumentIsZero(k.da) && k'.da == Shift(k.da)
    && Transmits(t, k.at, sid.behavior.port, sid.behavior.nexthop, Endpoint(k'.at, k'.nic))
  }

  ghost predicate StepRoute(t: Topology, k: Packet, k': Packet, r: StaticRoute, i: Interface) {
    && HasRoute(t, k.at, r) && Matches(r.prefix, k.da) && HasInterface(t, k.at, i) && OnLink(i, r.nexthop)
    && k'.da == k.da
    && Transmits(t, k.at, i.port, r.nexthop, Endpoint(k'.at, k'.nic))
  }

  ghost predicate HasLocalSid(t: Topology, n: Node, a: Addr) {
    exists sid :: HasSid(t, n, sid) && Matches(sid.prefix, a)
  }

  /** One lookup and its effect. A uN resubmits the shifted carrier at the same
      node; a uA or a static route moves it to a neighbor, any of them under ECMP.
      A uN or uA with an all-zero argument is terminal and a host never forwards. */
  ghost predicate Step(t: Topology, k: Packet, k': Packet) {
    && !k.at.Host? && !IsLoopback(k.at, k.da)
    && ((exists sid :: StepUN(t, k, k', sid))
        || (exists sid :: StepUA(t, k, k', sid))
        || (!HasLocalSid(t, k.at, k.da) && exists r, i :: StepRoute(t, k, k', r, i)))
  }

  /** uDT6 here: the inner packet is looked up in the SID's VRF and lands on `to`. */
  ghost predicate Delivers(t: Topology, k: Packet, inner: Addr, to: Endpoint) {
    && !IsLoopback(k.at, k.da)
    && exists sid :: HasSid(t, k.at, sid) && Matches(sid.prefix, k.da) && sid.behavior.UDT6?
         && if k.at.Host?
            then to == Endpoint(k.at, k.nic) && OwnsAddress(t, to, inner)
            else exists i :: HasInterface(t, k.at, i) && i.vrf == sid.behavior.vrf && OnLink(i, inner)
                   && Transmits(t, k.at, i.port, inner, to)
  }

  ghost predicate IsRun(t: Topology, run: seq<Packet>) {
    |run| >= 1 && forall i :: 0 <= i < |run| - 1 ==> Step(t, run[i], run[i + 1])
  }

  // ---------------------------------------------------------------------
  // Every carrier: isolation and termination
  // ---------------------------------------------------------------------

  function NonZero(g: nat): nat { if g == 0 then 0 else 1 }

  function UsidsLeft(a: Addr): nat {
    NonZero(a.g2) + NonZero(a.g3) + NonZero(a.g4) + NonZero(a.g5) + NonZero(a.g6) + NonZero(a.g7)
  }

  /** Hops from a node to the switch whose locator is the active uSID. */
  function HopsToOwner(t: Topology, n: Node, a: Addr): nat {
    if 0x20 <= a.g2 < 0x20 + t.leaves then
      (match n case Leaf(_, l) => (if a.g2 == 0x20 + l then 0 else 2) case Spine(_, _) => 1 case Host(_, _) => 0)
    else if 0x10 <= a.g2 < 0x10 + t.spines && n.Leaf? then 1
    else 0
  }

  function Rank(t: Topology, k: Packet): (r: nat)
    ensures r <= 20
  {
    3 * UsidsLeft(k.da) + HopsToOwner(t, k.at, k.da)
  }

  /** A switch transmits only to a node of its own plane: the other end of the
      one link on that port. */
  lemma TransmitsInPlane(t: Topology, from: Node, port: nat, nexthop: Addr, to: Endpoint)
    requires !from.Host? && Transmits(t, from, port, nexthop, to)
    ensures PlaneOf(Packet(to.node, to.nic, nexthop)) == from.plane
    ensures from.Spine? ==> to.node.Leaf? && NicOf(port) == to.node.index + 1
    ensures from.Leaf? && to.node.Spine? ==> NicOf(port) == to.node.index + 1
    ensures from.Leaf? && to.node.Host? ==>
              NicOf(port) == NicOf(HostPort(to.node.tenant)) && to.node.index == from.index
    ensures !to.node.Host? ==> IsNode(t, to.node)
    ensures from.Leaf? ==> !to.node.Leaf?
  {
  }

  lemma LeafRouteNextHop(t: Topology, n: Node, r: StaticRoute, i: Interface, to: Endpoint)
    requires n.Leaf? && n.index < t.leaves
    requires HasRoute(t, n, r) && HasInterface(t, n, i) && OnLink(i, r.nexthop)
    requires Transmits(t, n, i.port, r.nexthop, to)
    ensures to.node.Spine? && r.nexthop == P2p(t, to.node.index, n.index, 0)
  {
    var s: nat :| r.nexthop == P2p(t, s, n.index, 0);
    UplinkTowards(t, n, i, s);
    TransmitsInPlane(t, n, i.port, r.nexthop, to);
  }

  lemma UplinkTowards(t: Topology, n: Node, i: Interface, s: nat)
    requires n.Leaf? && n.index < t.leaves && HasInterface(t, n, i) && OnLink(i, P2p(t, s, n.index, 0))
    ensures i == LeafUplink(t, n.index, s) && s < t.spines
  {
    var s': nat :| s' < t.spines && i == LeafUplink(t, n.index, s');
    LinkIndexSplits(t, s, n.index, s', n.index);
  }

  lemma SpineRouteNextHop(t: Topology, n: Node, r: StaticRoute, i: Interface, to: Endpoint)
    requires n.Spine?
    requires HasRoute(t, n, r) && HasInterface(t, n, i) && OnLink(i, r.nexthop)
    requires Transmits(t, n, i.port, r.nexthop, to)
    ensures to.node.Leaf? && r == LeafRoute(t, n.plane, n.index, to.node.index)
  {
    TransmitsInPlane(t, n, i.port, r.nexthop, to);
  }

  /** What every step does: it stays in the plane and block and comes down the rank. */
  ghost predicate InPlaneAndDown(t: Topology, k: Packet, k': Packet)
    requires !k.at.Host?
  {
    && InBlock(k.da, k.at.plane) && InBlock(k'.da, k.at.plane)
    && PlaneOf(k') == PlaneOf(k) && (IsNode(t, k'.at) || k'.at.Host?)
    && Rank(t, k') < Rank(t, k)
  }

  lemma UNIsolatesAndProgresses(t: Topology, k: Packet, k': Packet, sid: Sid)
    requires WithinLimits(t) && IsNode(t, k.at) && !k.at.Host? && StepUN(t, k, k', sid)
    ensures InPlaneAndDown(t, k, k')
  {
  }

  lemma UAIsolatesAndProgresses(t: Topology, k: Packet, k': Packet, sid: Sid)
    requires WithinLimits(t) && IsNode(t, k.at) && !k.at.Host? && StepUA(t, k, k', sid)
    ensures InPlaneAndDown(t, k, k')
  {
    TransmitsInPlane(t, k.at, sid.behavior.port, sid.behavior.nexthop, Endpoint(k'.at, k'.nic));
  }

  lemma RouteIsolatesAndProgresses(t: Topology, k: Packet, k': Packet, r: StaticRoute, i: Interface)
    requires WithinLimits(t) && IsNode(t, k.at) && !k.at.Host? && StepRoute(t, k, k', r, i)
    ensures InPlaneAndDown(t, k, k')
  {
    TransmitsInPlane(t, k.at, i.port, r.nexthop, Endpoint(k'.at, k'.nic));
    if k.at.Leaf? {
      LeafRouteNextHop(t, k.at, r, i, Endpoint(k'.at, k'.nic));
    } else {
      SpineRouteNextHop(t, k.at, r, i, Endpoint(k'.at, k'.nic));
    }
  }

  /** Every step stays in the plane and block and brings the packet down the rank. */
  lemma StepIsolatesAndProgresses(t: Topology, k: Packet, k': Packet)
    requires WithinLimits(t) && IsNode(t, k.at) && Step(t, k, k')
    ensures InBlock(k.da, k.at.plane) && InBlock(k'.da, k.at.plane)
    ensures PlaneOf(k') == PlaneOf(k) && (IsNode(t, k'.at) || k'.at.Host?)
    ensures Rank(t, k') < Rank(t, k)
  {
    if sid :| StepUN(t, k, k', sid) {
      UNIsolatesAndProgresses(t, k, k', sid);
    } else if sid :| StepUA(t, k, k', sid) {
      UAIsolatesAndProgresses(t, k, k', sid);
    } else {
      var r, i :| StepRoute(t, k, k', r, i);
      RouteIsolatesAndProgresses(t, k, k', r, i);
    }
  }

  /** Whatever its uSIDs and whatever ECMP choices are made, a carrier injected
      at a switch visits only that switch's plane and moves at most 20 times. */
  lemma {:induction false} RunsStayInPlaneAndStop(t: Topology, run: seq<Packet>)
    requires WithinLimits(t) && IsRun(t, run) && IsNode(t, run[0].at) && !run[0].at.Host?
    ensures forall i :: 0 <= i < |run| ==> PlaneOf(run[i]) == run[0].at.plane
    ensures |run| <= 21
  {
    RunRank(t, run, |run| - 1);
    forall i | 0 <= i < |run| ensures PlaneOf(run[i]) == run[0].at.plane { RunRank(t, run, i); }
  }

  lemma {:induction false} RunRank(t: Topology, run: seq<Packet>, n: nat)
    requires WithinLimits(t) && IsRun(t, run) && n < |run| && IsNode(t, run[0].at) && !run[0].at.Host?
    ensures PlaneOf(run[n]) == run[0].at.plane && (IsNode(t, run[n].at) || run[n].at.Host?)
    ensures Rank(t, run[n]) + n <= Rank(t, run[0])
  {
    if n > 0 {
      RunRank(t, run, n - 1);
      assert Step(t, run[n - 1], run[n]);
      StepIsolatesAndProgresses(t, run[n - 1], run[n]);
    }
  }

  /** A carrier ends at a uN or uA behind which it carries nothing, and at a switch's own
      loopback: it goes no further and delivers nothing. */
  lemma SpentCarrierStops(t: Topology, k: Packet, sid: Sid)
    requires WithinLimits(t) && IsNode(t, k.at)
    requires !k.at.Host? && (IsLoopback(k.at, k.da)
              || (HasSid(t, k.at, sid) && Matches(sid.prefix, k.da) && !sid.behavior.UDT6?
                  && k.da.g3 == 0 && k.da.g4 == 0 && k.da.g5 == 0 && k.da.g6 == 0 && k.da.g7 == 0))
    ensures forall k' :: !Step(t, k, k')
    ensures forall inner, to :: !Delivers(t, k, inner, to)
  {
  }

  /** A carrier of any other block is dropped by the first switch it meets. */
  lemma ForeignCarrierIsDropped(t: Topology, k: Packet)
    requires IsNode(t, k.at) && !k.at.Host? && !InBlock(k.da, k.at.plane)
    ensures !exists k' :: Step(t, k, k')
    ensures !exists inner, to :: Delivers(t, k, inner, to)
  {
  }
}
