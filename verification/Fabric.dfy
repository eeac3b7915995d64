/** The tables that generators/fabric.py writes for every node of the fabric,
    as data: local SIDs, static locator routes, interface addresses and links.

    An IPv6 address is its eight 16-bit groups. Every generated SID and locator
    is a /48, so it is the first three groups of an address. */
module Fabric {
  import opened Arith

  datatype Topology = Topology(planes: nat, spines: nat, leaves: nat)

  /** One hex digit encodes a plane or a leaf. Leaf ports Ethernet0..Ethernet28
      are uplinks and Ethernet32 and Ethernet36 are host ports, so there is room
      for eight spines (see LinksUsePortsOnce). */
  predicate WithinLimits(t: Topology) {
    1 <= t.planes <= 16 && 1 <= t.spines <= 8 && 1 <= t.leaves <= 16
  }

  datatype Tenant = Green | Yellow

  datatype Node =
    | Spine(plane: nat, index: nat)
    | Leaf(plane: nat, index: nat)
    | Host(tenant: Tenant, index: nat)

  predicate IsNode(t: Topology, n: Node) {
    match n
    case Spine(p, s) => p < t.planes && s < t.spines
    case Leaf(p, l) => p < t.planes && l < t.leaves
    case Host(_, h) => h < t.leaves
  }

  datatype Addr = Addr(g0: nat, g1: nat, g2: nat, g3: nat, g4: nat, g5: nat, g6: nat, g7: nat)

  datatype Prefix48 = Prefix48(p0: nat, p1: nat, p2: nat)

  predicate Matches(p: Prefix48, a: Addr) {
    a.g0 == p.p0 && a.g1 == p.p1 && a.g2 == p.p2
  }

  datatype Vrf = DefaultVrf | VrfGreen

  /** uN, uA and uDT6: End, End.X and End.DT6 with the NEXT-CSID flavor. */
  datatype Behavior =
    | UN
    | UA(port: nat, nexthop: Addr)
    | UDT6(vrf: Vrf)

  datatype Sid = Sid(prefix: Prefix48, behavior: Behavior)

  datatype StaticRoute = StaticRoute(prefix: Prefix48, nexthop: Addr)

  /** `port` is the number N of EthernetN; `length` is 127 on a fabric link and 64 on a host link. */
  datatype Interface = Interface(port: nat, vrf: Vrf, address: Addr, length: nat)

  /** A containerlab endpoint: data NIC eth<nic> of a node. */
  datatype Endpoint = Endpoint(node: Node, nic: nat)

  datatype Link = Link(a: Endpoint, b: Endpoint)

  // ---------------------------------------------------------------------
  // SID, locator and address helpers
  // ---------------------------------------------------------------------

  function SpineLocator(plane: nat, spine: nat): Prefix48 { Prefix48(0xfc00, plane, 0x10 + spine) }

  function LeafLocator(plane: nat, leaf: nat): Prefix48 { Prefix48(0xfc00, plane, 0x20 + leaf) }

  /** The locator's node address `::1`, a /128 on Loopback0. */
  function Loopback(loc: Prefix48): Addr { Addr(loc.p0, loc.p1, loc.p2, 0, 0, 0, 0, 1) }

  function LeafUaSid(plane: nat, spine: nat): Prefix48 { Prefix48(0xfc00, plane, 0xf000 + spine) }

  function SpineUaSid(plane: nat, leaf: nat): Prefix48 { Prefix48(0xfc00, plane, 0xe000 + leaf) }

  function LeafHostUaSid(plane: nat, port: nat): Prefix48 { Prefix48(0xfc00, plane, 0xe000 + port / 4) }

  function GreenUdtSid(plane: nat): Prefix48 { Prefix48(0xfc00, plane, 0xd000) }

  function YellowUdtSid(plane: nat): Prefix48 { Prefix48(0xfc00, plane, 0xd001) }

  function LinkIndex(t: Topology, spine: nat, leaf: nat): nat { spine * t.leaves + leaf }

  /** End 0 of a fabric link is its spine, end 1 its leaf. Planes reuse the same addresses. */
  function P2p(t: Topology, spine: nat, leaf: nat, end: nat): Addr {
    Addr(0x2001, 0xdb8, 0xfab, LinkIndex(t, spine, leaf), 0, 0, 0, end)
  }

  /** Address `::2` is the host's own, the same on all its NICs; `::1` is its gateway. */
  function TenantAddr(tenant: Tenant, host: nat, end: nat): Addr {
    Addr(0x2001, 0xdb8, if tenant.Green? then 0xbbbb else 0xcccc, host, 0, 0, 0, end)
  }

  function InnerAddr(tenant: Tenant, host: nat): Addr { TenantAddr(tenant, host, 2) }

  function HostPort(tenant: Tenant): nat { if tenant.Green? then 32 else 36 }

  function UplinkPort(spine: nat): nat { spine * 4 }

  function DownlinkPort(leaf: nat): nat { leaf * 4 }

  /** EthernetN of a switch is NIC eth(N/4 + 1) of its container. */
  function NicOf(port: nat): nat { port / 4 + 1 }

  // ---------------------------------------------------------------------
  // What each node's tables hold
  // ---------------------------------------------------------------------

  function LeafUplinkSid(t: Topology, plane: nat, leaf: nat, spine: nat): Sid {
    Sid(LeafUaSid(plane, spine), UA(UplinkPort(spine), P2p(t, spine, leaf, 0)))
  }

  function SpineDownlinkSid(t: Topology, plane: nat, spine: nat, leaf: nat): Sid {
    Sid(SpineUaSid(plane, leaf), UA(DownlinkPort(leaf), P2p(t, spine, leaf, 1)))
  }

  function YellowHostSid(plane: nat, leaf: nat): Sid {
    Sid(LeafHostUaSid(plane, 36), UA(36, InnerAddr(Yellow, leaf)))
  }

  function HostUdtSid(plane: nat): Sid { Sid(YellowUdtSid(plane), UDT6(DefaultVrf)) }

  predicate HasSid(t: Topology, n: Node, sid: Sid) {
    match n
    case Leaf(p, l) =>
      || sid == Sid(LeafLocator(p, l), UN)
      || (exists s: nat | s < t.spines :: sid == LeafUplinkSid(t, p, l, s))
      || sid == Sid(GreenUdtSid(p), UDT6(VrfGreen))
      || sid == YellowHostSid(p, l)
    case Spine(p, s) =>
      || sid == Sid(SpineLocator(p, s), UN)
      || (exists l: nat | l < t.leaves :: sid == SpineDownlinkSid(t, p, s, l))
    case Host(tenant, _) =>
      tenant.Yellow? && exists p: nat | p < t.planes :: sid == HostUdtSid(p)
  }

  function SpineRoute(t: Topology, plane: nat, leaf: nat, spine: nat): StaticRoute {
    StaticRoute(SpineLocator(plane, spine), P2p(t, spine, leaf, 0))
  }

  function LeafRouteVia(t: Topology, plane: nat, leaf: nat, other: nat, spine: nat): StaticRoute {
    StaticRoute(LeafLocator(plane, other), P2p(t, spine, leaf, 0))
  }

  function LeafRoute(t: Topology, plane: nat, spine: nat, leaf: nat): StaticRoute {
    StaticRoute(LeafLocator(plane, leaf), P2p(t, spine, leaf, 1))
  }

  /** A leaf reaches every other leaf through every spine (ECMP). */
  predicate HasRoute(t: Topology, n: Node, r: StaticRoute) {
    match n
    case Leaf(p, l) =>
      || (exists s: nat | s < t.spines :: r == SpineRoute(t, p, l, s))
      || (exists o: nat, s: nat | o < t.leaves && o != l && s < t.spines :: r == LeafRouteVia(t, p, l, o, s))
    case Spine(p, s) => exists l: nat | l < t.leaves :: r == LeafRoute(t, p, s, l)
    case Host(_, _) => false
  }

  function LeafUplink(t: Topology, leaf: nat, spine: nat): Interface {
    Interface(UplinkPort(spine), DefaultVrf, P2p(t, spine, leaf, 1), 127)
  }

  function SpineDownlink(t: Topology, spine: nat, leaf: nat): Interface {
    Interface(DownlinkPort(leaf), DefaultVrf, P2p(t, spine, leaf, 0), 127)
  }

  function HostFacing(tenant: Tenant, leaf: nat): Interface {
    Interface(HostPort(tenant), if tenant.Green? then VrfGreen else DefaultVrf, TenantAddr(tenant, leaf, 1), 64)
  }

  /** The node's own loopback /128 is a longer match than any SID or route. */
  predicate IsLoopback(n: Node, a: Addr) {
    match n
    case Leaf(p, l) => a == Loopback(LeafLocator(p, l))
    case Spine(p, s) => a == Loopback(SpineLocator(p, s))
    case Host(_, _) => false
  }

  predicate HasInterface(t: Topology, n: Node, i: Interface) {
    match n
    case Leaf(_, l) =>
      || (exists s: nat | s < t.spines :: i == LeafUplink(t, l, s))
      || i == HostFacing(Green, l)
      || i == HostFacing(Yellow, l)
    case Spine(_, s) => exists l: nat | l < t.leaves :: i == SpineDownlink(t, s, l)
    case Host(_, _) => false
  }

  function FabricLink(p: nat, s: nat, l: nat): Link {
    Link(Endpoint(Leaf(p, l), s + 1), Endpoint(Spine(p, s), l + 1))
  }

  function HostLink(tenant: Tenant, p: nat, h: nat): Link {
    Link(Endpoint(Leaf(p, h), NicOf(HostPort(tenant))), Endpoint(Host(tenant, h), p + 1))
  }

  predicate HasLink(t: Topology, k: Link) {
    || (exists p: nat, s: nat, l: nat | p < t.planes && s < t.spines && l < t.leaves :: k == FabricLink(p, s, l))
    || (exists tenant: Tenant, p: nat, h: nat | p < t.planes && h < t.leaves :: k == HostLink(tenant, p, h))
  }

  // ---------------------------------------------------------------------
  // The address plan
  // ---------------------------------------------------------------------

  /** A fabric link is a /127 of its own within the plane, the spine at 0 and the leaf at 1. */
  lemma LinkAddresses(t: Topology, s: nat, l: nat, s': nat, l': nat)
    requires l < t.leaves && l' < t.leaves
    ensures var up, down := LeafUplink(t, l, s), SpineDownlink(t, s, l);
            && up.length == down.length == 127 && up.address.g7 == 1 && down.address.g7 == 0
            && up.address == down.address.(g7 := 1)
    ensures (s, l) != (s', l') ==> LeafUplink(t, l, s).address != LeafUplink(t, l', s').address
  {
    if LinkIndex(t, s, l) == LinkIndex(t, s', l') { LinkIndexSplits(t, s, l, s', l'); }
  }

  lemma LinkIndexSplits(t: Topology, s: nat, l: nat, s': nat, l': nat)
    requires l < t.leaves && l' < t.leaves && LinkIndex(t, s, l) == LinkIndex(t, s', l')
    ensures s == s' && l == l'
  {
    assert (s - s') * t.leaves == l' - l;
    SmallMultiple(s - s', t.leaves, l' - l);
  }

  /** A host port is the gateway ::1 of its host's /64, in which the host is ::2; the two
      tenants' and all hosts' prefixes differ; and a switch's loopback is ::1 of its locator. */
  lemma HostAddresses(tenant: Tenant, h: nat, tenant': Tenant, h': nat, plane: nat)
    ensures var gateway, host := HostFacing(tenant, h), InnerAddr(tenant, h);
            && gateway.length == 64 && gateway.address.g7 == 1 && host.g7 == 2 && gateway.address == host.(g7 := 1)
            && (gateway.vrf.VrfGreen? <==> tenant.Green?)
    ensures (tenant, h) != (tenant', h') ==> InnerAddr(tenant, h) != InnerAddr(tenant', h')
    ensures forall a :: IsLoopback(Leaf(plane, h), a) <==> a == Addr(0xfc00, plane, 0x20 + h, 0, 0, 0, 0, 1)
    ensures forall a :: IsLoopback(Spine(plane, h), a) <==> a == Addr(0xfc00, plane, 0x10 + h, 0, 0, 0, 0, 1)
  {
  }

  // ---------------------------------------------------------------------
  // The loops that write them
  // ---------------------------------------------------------------------

  method WriteLeafFrr(t: Topology, plane: nat, leaf: nat) returns (sids: seq<Sid>, routes: seq<StaticRoute>)
    requires plane < t.planes && leaf < t.leaves
    ensures forall x :: x in sids <==> HasSid(t, Leaf(plane, leaf), x)
    ensures forall r :: r in routes <==> HasRoute(t, Leaf(plane, leaf), r)
    ensures |sids| == t.spines + 3 && |routes| == t.spines * t.leaves
  {
    sids := LeafSids(t, plane, leaf);
    routes := LeafRoutes(t, plane, leaf);
  }

  method LeafSids(t: Topology, plane: nat, leaf: nat) returns (sids: seq<Sid>)
    requires plane < t.planes && leaf < t.leaves
    ensures forall x :: x in sids <==> HasSid(t, Leaf(plane, leaf), x)
    ensures |sids| == t.spines + 3
  {
    sids := [Sid(LeafLocator(plane, leaf), UN)];
    for s := 0 to t.spines
      invariant |sids| == s + 1
      invariant forall x :: x in sids <==>
        x == Sid(LeafLocator(plane, leaf), UN) || exists k: nat | k < s :: x == LeafUplinkSid(t, plane, leaf, k)
    {
      sids := sids + [LeafUplinkSid(t, plane, leaf, s)];
    }
    sids := sids + [Sid(GreenUdtSid(plane), UDT6(VrfGreen))];
    sids := sids + [YellowHostSid(plane, leaf)];
  }

  method LeafRoutes(t: Topology, plane: nat, leaf: nat) returns (routes: seq<StaticRoute>)
    requires plane < t.planes && leaf < t.leaves
    ensures forall r :: r in routes <==> HasRoute(t, Leaf(plane, leaf), r)
    ensures |routes| == t.spines * t.leaves
  {
    routes := [];
    for s := 0 to t.spines
      invariant |routes| == s
      invariant forall r :: r in routes <==> exists k: nat | k < s :: r == SpineRoute(t, plane, leaf, k)
    {
      routes := routes + [SpineRoute(t, plane, leaf, s)];
    }
    ghost var blocks := 1;
    for other := 0 to t.leaves
      invariant blocks == 1 + other - (if leaf < other then 1 else 0) && |routes| == t.spines * blocks
      invariant forall r :: r in routes <==>
        || (exists k: nat | k < t.spines :: r == SpineRoute(t, plane, leaf, k))
        || (exists o: nat, k: nat | o < other && o != leaf && k < t.spines :: r == LeafRouteVia(t, plane, leaf, o, k))
    {
      if other == leaf {
        continue;
      }
      ghost var before := |routes|;
      for s := 0 to t.spines
        invariant |routes| == before + s
        invariant forall r :: r in routes <==>
          || (exists k: nat | k < t.spines :: r == SpineRoute(t, plane, leaf, k))
          || (exists o: nat, k: nat | o < other && o != leaf && k < t.spines :: r == LeafRouteVia(t, plane, leaf, o, k))
          || (exists k: nat | k < s :: r == LeafRouteVia(t, plane, leaf, other, k))
      {
        routes := routes + [LeafRouteVia(t, plane, leaf, other, s)];
      }
      OneMoreBlock(t.spines, blocks);
      blocks := blocks + 1;
    }
  }

  lemma OneMoreBlock(size: nat, blocks: nat)
    ensures size * (blocks + 1) == size * blocks + size
  {
  }

  method WriteSpineFrr(t: Topology, plane: nat, spine: nat) returns (sids: seq<Sid>, routes: seq<StaticRoute>)
    requires plane < t.planes && spine < t.spines
    ensures forall x :: x in sids <==> HasSid(t, Spine(plane, spine), x)
    ensures forall r :: r in routes <==> HasRoute(t, Spine(plane, spine), r)
    ensures |sids| == t.leaves + 1 && |routes| == t.leaves
  {
    sids := [Sid(SpineLocator(plane, spine), UN)];
    for l := 0 to t.leaves
      invariant |sids| == l + 1
      invariant forall x :: x in sids <==>
        x == Sid(SpineLocator(plane, spine), UN) || exists k: nat | k < l :: x == SpineDownlinkSid(t, plane, spine, k)
    {
      sids := sids + [SpineDownlinkSid(t, plane, spine, l)];
    }
    routes := [];
    for l := 0 to t.leaves
      invariant |routes| == l
      invariant forall r :: r in routes <==> exists k: nat | k < l :: r == LeafRoute(t, plane, spine, k)
    {
      routes := routes + [LeafRoute(t, plane, spine, l)];
    }
  }

  method WriteLeafInterfaces(t: Topology, plane: nat, leaf: nat) returns (loopback: Addr, table: seq<Interface>)
    requires plane < t.planes && leaf < t.leaves
    ensures IsLoopback(Leaf(plane, leaf), loopback)
    ensures forall i :: i in table <==> HasInterface(t, Leaf(plane, leaf), i)
    ensures |table| == t.spines + 2
  {
    loopback := Loopback(LeafLocator(plane, leaf));
    table := [];
    for s := 0 to t.spines
      invariant |table| == s
      invariant forall i :: i in table <==> exists k: nat | k < s :: i == LeafUplink(t, leaf, k)
    {
      table := table + [LeafUplink(t, leaf, s)];
    }
    table := table + [HostFacing(Green, leaf), HostFacing(Yellow, leaf)];
  }

  method WriteSpineInterfaces(t: Topology, plane: nat, spine: nat) returns (loopback: Addr, table: seq<Interface>)
    requires plane < t.planes && spine < t.spines
    ensures IsLoopback(Spine(plane, spine), loopback)
    ensures forall i :: i in table <==> HasInterface(t, Spine(plane, spine), i)
    ensures |table| == t.leaves
  {
    loopback := Loopback(SpineLocator(plane, spine));
    table := [];
    for l := 0 to t.leaves
      invariant |table| == l
      invariant forall i :: i in table <==> exists k: nat | k < l :: i == SpineDownlink(t, spine, k)
    {
      table := table + [SpineDownlink(t, spine, l)];
    }
  }

  method WriteLinks(t: Topology) returns (links: seq<Link>)
    ensures forall k :: k in links <==> HasLink(t, k)
    ensures |links| == t.planes * (t.spines * t.leaves) + t.planes * (2 * t.leaves)
  {
    links := [];
    for p := 0 to t.planes
      invariant |links| == p * (t.spines * t.leaves)
      invariant forall k :: k in links <==> InFabricPlanes(t, p, k)
    {
      for s := 0 to t.spines
        invariant |links| == p * (t.spines * t.leaves) + s * t.leaves
        invariant forall k :: k in links <==> InFabricPlanes(t, p, k) || InFabricSpines(t, p, s, k)
      {
        for l := 0 to t.leaves
          invariant |links| == p * (t.spines * t.leaves) + s * t.leaves + l
          invariant forall k :: k in links <==>
            || InFabricPlanes(t, p, k) || InFabricSpines(t, p, s, k)
            || exists l': nat | l' < l :: k == FabricLink(p, s, l')
        {
          links := links + [FabricLink(p, s, l)];
        }
      }
    }
    ghost var fabric := |links|;
    for p := 0 to t.planes
      invariant |links| == fabric + p * (2 * t.leaves)
      invariant forall k :: k in links <==> InFabricPlanes(t, t.planes, k) || InHostPlanes(t, p, k)
    {
      for h := 0 to t.leaves
        invariant |links| == fabric + p * (2 * t.leaves) + 2 * h
        invariant forall k :: k in links <==>
          || InFabricPlanes(t, t.planes, k) || InHostPlanes(t, p, k)
          || exists tenant: Tenant, h': nat | h' < h :: k == HostLink(tenant, p, h')
      {
        links := links + [HostLink(Green, p, h)];
        links := links + [HostLink(Yellow, p, h)];
      }
    }
  }

  ghost predicate InFabricPlanes(t: Topology, planes: nat, k: Link) {
    exists p: nat, s: nat, l: nat | p < planes && s < t.spines && l < t.leaves :: k == FabricLink(p, s, l)
  }

  ghost predicate InFabricSpines(t: Topology, p: nat, spines: nat, k: Link) {
    exists s: nat, l: nat | s < spines && l < t.leaves :: k == FabricLink(p, s, l)
  }

  ghost predicate InHostPlanes(t: Topology, planes: nat, k: Link) {
    exists tenant: Tenant, p: nat, h: nat | p < planes && h < t.leaves :: k == HostLink(tenant, p, h)
  }

  // ---------------------------------------------------------------------
  // The limit on spines is exactly the wiring's
  // ---------------------------------------------------------------------

  ghost predicate Uses(k: Link, e: Endpoint) { k.a == e || k.b == e }

  ghost predicate PortsUsedOnce(t: Topology) {
    forall k, k', e :: HasLink(t, k) && HasLink(t, k') && Uses(k, e) && Uses(k', e) ==> k == k'
  }

  /** No NIC is wired twice iff there are at most eight spines. */
  lemma LinksUsePortsOnce(t: Topology)
    requires 1 <= t.planes && 1 <= t.leaves
    ensures PortsUsedOnce(t) <==> t.spines <= 8
  {
    if t.spines > 8 {
      assert HasLink(t, FabricLink(0, 8, 0)) && HasLink(t, HostLink(Green, 0, 0));
      assert Uses(FabricLink(0, 8, 0), Endpoint(Leaf(0, 0), 9)) && Uses(HostLink(Green, 0, 0), Endpoint(Leaf(0, 0), 9));
    }
  }
}
