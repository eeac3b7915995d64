/** Route sets: from a spec to kernel routes, and applying and deleting them
    (srv6_fabric/cli/routes.py). */
module Routes {
  import opened Wrappers
  import opened Fabric
  import opened Forwarding
  import opened Topo
  import opened Delivery

  datatype SpineSpec = Auto | Fixed(spine: int)

  datatype PairSpec = PairSpec(tenant: string, src: int, dst: int, spine: SpineSpec, planes: Option<seq<int>>)

  datatype MeshSpec = MeshSpec(tenant: string, srcs: seq<int>, dsts: seq<int>, spine: SpineSpec,
          planes: Option<seq<int>>)

  /** Validated: no spine given means `auto`. */
  datatype Choice = Choice(spine: Option<nat>, planes: seq<nat>)

  datatype Raw = Raw(tenant: Tenant, src: nat, dst: nat, choice: Choice)

  datatype PairKey = PairKey(tenant: Tenant, a: nat, b: nat)

  datatype Pair = Pair(key: PairKey, spine: nat, planes: seq<nat>)

  datatype Route = Route(host: Node, dst: Addr, segs: Addr, dev: nat, metric: nat)

  datatype RouteKey = RouteKey(host: Node, dst: Addr, dev: nat, metric: nat)

  function KeyOf(r: Route): RouteKey { RouteKey(r.host, r.dst, r.dev, r.metric) }

  // ---------------------------------------------------------------------
  // Validation
  // ---------------------------------------------------------------------

  function ValidTenant(v: string): Result<Tenant> {
    if v == "green" then Ok(Green) else if v == "yellow" then Ok(Yellow) else Err(UnknownTenant)
  }

  predicate ValidSpine(t: Topology, v: SpineSpec) { v.Auto? || 0 <= v.spine < t.spines }

  predicate ValidPlanes(t: Topology, v: Option<seq<int>>) {
    v.Some? ==> forall i :: 0 <= i < |v.value| ==> 0 <= v.value[i] < t.planes
  }

  predicate ValidHosts(t: Topology, v: seq<int>) { forall i :: 0 <= i < |v| ==> 0 <= v[i] < t.leaves }

  function ChoiceOf(t: Topology, spine: SpineSpec, planes: Option<seq<int>>): Choice {
    Choice(if spine.Fixed? && spine.spine >= 0 then Some(spine.spine) else None, SortedPlanes(t, planes))
  }

  /** The planes below n that a list names, in order and once each. */
  function PlanesBelow(v: seq<int>, n: nat): seq<nat> {
    if n == 0 then [] else PlanesBelow(v, n - 1) + (if n - 1 in v then [n - 1] else [])
  }

  function AllPlanes(n: nat): (s: seq<int>)
    ensures forall p: nat :: p in s <==> p < n
  {
    if n == 0 then [] else AllPlanes(n - 1) + [n - 1]
  }

  function SortedPlanes(t: Topology, v: Option<seq<int>>): seq<nat> {
    PlanesBelow(if v.Some? then v.value else AllPlanes(t.planes), t.planes)
  }

  ghost predicate IncreasingBelow(planes: seq<nat>, n: nat) {
    && (forall i :: 0 <= i < |planes| ==> planes[i] < n)
    && (forall i, j :: 0 <= i < j < |planes| ==> planes[i] < planes[j])
  }

  /** Validated planes are sorted without repetition, and are the planes given, or all. */
  lemma {:induction false} PlanesSorted(v: seq<int>, n: nat)
    ensures IncreasingBelow(PlanesBelow(v, n), n)
    ensures forall p: nat :: p in PlanesBelow(v, n) <==> p < n && p in v
  {
    if n > 0 {
      PlanesSorted(v, n - 1);
    }
  }

  /** The first check that fails decides the error. */
  function CheckPair(t: Topology, p: PairSpec): Result<Tenant> {
    match ValidTenant(p.tenant)
    case Err(e) => Err(e)
    case Ok(tenant) =>
      if !(0 <= p.src < t.leaves && 0 <= p.dst < t.leaves) then Err(HostOutOfRange)
      else if !ValidSpine(t, p.spine) then Err(SpineOutOfRange)
      else if !ValidPlanes(t, p.planes) then Err(PlaneOutOfRange)
      else Ok(tenant)
  }

  function CheckMesh(t: Topology, m: MeshSpec): Result<Tenant> {
    match ValidTenant(m.tenant)
    case Err(e) => Err(e)
    case Ok(tenant) =>
      if !ValidHosts(t, m.srcs) || !ValidHosts(t, m.dsts) then Err(HostOutOfRange)
      else if !ValidSpine(t, m.spine) then Err(SpineOutOfRange)
      else if !ValidPlanes(t, m.planes) then Err(PlaneOutOfRange)
      else Ok(tenant)
  }

  // ---------------------------------------------------------------------
  // Raw pairs
  // ---------------------------------------------------------------------

  /** A pair of a host with itself is dropped. */
  function OnePair(tenant: Tenant, src: nat, dst: nat, choice: Choice): seq<Raw> {
    if src == dst then [] else [Raw(tenant, src, dst, choice)]
  }

  function FromPairs(t: Topology, pairs: seq<PairSpec>): Result<seq<Raw>> {
    if pairs == [] then Ok([]) else
    var p := pairs[|pairs| - 1];
    match FromPairs(t, pairs[..|pairs| - 1])
    case Err(e) => Err(e)
    case Ok(raws) =>
      match CheckPair(t, p)
      case Err(e) => Err(e)
      case Ok(tenant) => Ok(raws + OnePair(tenant, p.src, p.dst, ChoiceOf(t, p.spine, p.planes)))
  }

  function RowOf(tenant: Tenant, src: nat, dsts: seq<nat>, choice: Choice): seq<Raw> {
    if dsts == [] then [] else RowOf(tenant, src, dsts[..|dsts| - 1], choice) + OnePair(tenant, src,
            dsts[|dsts| - 1], choice)
  }

  function ProductOf(tenant: Tenant, srcs: seq<nat>, dsts: seq<nat>, choice: Choice): seq<Raw> {
    if srcs == [] then [] else ProductOf(tenant, srcs[..|srcs| - 1], dsts, choice) + RowOf(tenant,
            srcs[|srcs| - 1], dsts, choice)
  }

  function FromMeshes(t: Topology, meshes: seq<MeshSpec>): Result<seq<Raw>> {
    if meshes == [] then Ok([]) else
    var m := meshes[|meshes| - 1];
    match FromMeshes(t, meshes[..|meshes| - 1])
    case Err(e) => Err(e)
    case Ok(raws) =>
      match CheckMesh(t, m)
      case Err(e) => Err(e)
      case Ok(tenant) => Ok(raws + ProductOf(tenant, m.srcs, m.dsts, ChoiceOf(t, m.spine, m.planes)))
  }

  ghost predicate RawOk(t: Topology, r: Raw) {
    && r.src < t.leaves && r.dst < t.leaves && r.src != r.dst
    && (r.choice.spine.Some? ==> r.choice.spine.value < t.spines) && IncreasingBelow(r.choice.planes, t.planes)
  }

  /** A mesh is the cartesian product without the diagonal. */
  lemma {:induction false} RowIs(tenant: Tenant, src: nat, dsts: seq<nat>, choice: Choice)
    ensures forall r :: r in RowOf(tenant, src, dsts, choice) <==>
              r.tenant == tenant && r.src == src && r.dst in dsts && r.dst != src && r.choice == choice
  {
    if dsts != [] {
      RowIs(tenant, src, dsts[..|dsts| - 1], choice);
      assert dsts == dsts[..|dsts| - 1] + [dsts[|dsts| - 1]];
    }
  }

  lemma {:induction false} ProductIs(tenant: Tenant, srcs: seq<nat>, dsts: seq<nat>, choice: Choice)
    ensures forall r :: r in ProductOf(tenant, srcs, dsts, choice) <==>
              r.tenant == tenant && r.src in srcs && r.dst in dsts && r.src != r.dst && r.choice == choice
  {
    if srcs != [] {
      ProductIs(tenant, srcs[..|srcs| - 1], dsts, choice);
      RowIs(tenant, srcs[|srcs| - 1], dsts, choice);
      assert srcs == srcs[..|srcs| - 1] + [srcs[|srcs| - 1]];
    }
  }

  lemma SortedPlanesIncrease(t: Topology, v: Option<seq<int>>)
    ensures IncreasingBelow(SortedPlanes(t, v), t.planes)
  {
    PlanesSorted(if v.Some? then v.value else AllPlanes(t.planes), t.planes);
  }

  lemma {:induction false} RawsOk(t: Topology, pairs: seq<PairSpec>, meshes: seq<MeshSpec>)
    ensures FromPairs(t, pairs).Ok? ==> forall r :: r in FromPairs(t, pairs).value ==> RawOk(t, r)
    ensures FromMeshes(t, meshes).Ok? ==> forall r :: r in FromMeshes(t, meshes).value ==> RawOk(t, r)
    decreases |pairs| + |meshes|
  {
    if pairs != [] {
      RawsOk(t, pairs[..|pairs| - 1], []);
      SortedPlanesIncrease(t, pairs[|pairs| - 1].planes);
    }
    if meshes != [] {
      RawsOk(t, [], meshes[..|meshes| - 1]);
      var m := meshes[|meshes| - 1];
      SortedPlanesIncrease(t, m.planes);
      if CheckMesh(t, m).Ok? {
        ProductIs(CheckMesh(t, m).value, m.srcs, m.dsts, ChoiceOf(t, m.spine, m.planes));
      }
    }
  }

  // ---------------------------------------------------------------------
  // Canonical pairs: the last entry for a pair wins
  // ---------------------------------------------------------------------

  function Canon(r: Raw): PairKey {
    if r.src < r.dst then PairKey(r.tenant, r.src, r.dst) else PairKey(r.tenant, r.dst, r.src)
  }

  function Canonical(raws: seq<Raw>): map<PairKey, Choice> {
    if raws == [] then map[] else Canonical(raws[..|raws| - 1])[Canon(raws[|raws| - 1]) := raws[|raws| - 1].choice]
  }

  ghost predicate LastFor(raws: seq<Raw>, i: nat, key: PairKey)
    requires i < |raws|
  {
    Canon(raws[i]) == key && forall j :: i < j < |raws| ==> Canon(raws[j]) != key
  }

  lemma {:induction false} LastWins(raws: seq<Raw>, key: PairKey)
    ensures key in Canonical(raws) <==> exists i :: 0 <= i < |raws| && Canon(raws[i]) == key
    ensures key in Canonical(raws) ==>
              exists i :: 0 <= i < |raws| && LastFor(raws, i, key) && Canonical(raws)[key] == raws[i].choice
  {
    if raws != [] {
      var init, n := raws[..|raws| - 1], |raws| - 1;
      LastWins(init, key);
      if Canon(raws[n]) == key {
        assert LastFor(raws, n, key);
      } else if key in Canonical(init) {
        var i :| 0 <= i < |init| && LastFor(init, i, key) && Canonical(init)[key] == init[i].choice;
        assert LastFor(raws, i, key);
      } else if exists i :: 0 <= i < |raws| && Canon(raws[i]) == key {
        var i :| 0 <= i < |raws| && Canon(raws[i]) == key;
        assert Canon(init[i]) == key;
      }
    }
  }

  predicate Less(x: PairKey, y: PairKey) {
    || (x.tenant.Green? && y.tenant.Yellow?)
    || (x.tenant == y.tenant && (x.a < y.a || (x.a == y.a && x.b < y.b)))
  }

  function Chosen(t: Topology, key: PairKey, choice: Choice): Pair
    requires t.spines > 0
  {
    Pair(key, if choice.spine.None? then SpineFor(t, key.a, key.b) else choice.spine.value, choice.planes)
  }

  ghost predicate Sorted(keys: seq<PairKey>) {
    forall i, j :: 0 <= i < j < |keys| ==> Less(keys[i], keys[j])
  }

  function Insert(keys: seq<PairKey>, k: PairKey): seq<PairKey> {
    if keys == [] then [k] else if Less(k, keys[0]) then [k] + keys else [keys[0]] + Insert(keys[1..], k)
  }

  lemma {:induction false} InsertKeepsSorted(keys: seq<PairKey>, k: PairKey)
    requires Sorted(keys) && k !in keys
    ensures Sorted(Insert(keys, k)) && forall x :: x in Insert(keys, k) <==> x == k || x in keys
  {
    if keys != [] {
      assert keys == [keys[0]] + keys[1..];
      if Less(k, keys[0]) {
        assert forall i :: 0 < i < |keys| ==> Less(keys[0], keys[i]);
      } else {
        InsertKeepsSorted(keys[1..], k);
        assert forall i :: 0 <= i < |keys| - 1 ==> Less(keys[0], keys[1..][i]);
        assert forall x :: x in Insert(keys[1..], k) ==> Less(keys[0], x);
      }
    }
  }

  /** Sorting a dictionary's keys. */
  method SortKeys(keys: set<PairKey>) returns (sorted: seq<PairKey>)
    ensures Sorted(sorted) && forall k :: k in sorted <==> k in keys
  {
    sorted := [];
    var rest := keys;
    while rest != {}
      invariant rest <= keys && Sorted(sorted) && forall k :: k in sorted <==> k in keys && k !in rest
      decreases |rest|
    {
      var k :| k in rest;
      InsertKeepsSorted(sorted, k);
      sorted := Insert(sorted, k);
      rest := rest - {k};
    }
  }

  function KeysOf(pairs: seq<Pair>): (keys: seq<PairKey>)
    ensures |keys| == |pairs| && forall i :: 0 <= i < |pairs| ==> keys[i] == pairs[i].key
  {
    seq(|pairs|, i requires 0 <= i < |pairs| => pairs[i].key)
  }

  function RawsOf(t: Topology, pairs: seq<PairSpec>, meshes: seq<MeshSpec>): Result<seq<Raw>> {
    match FromPairs(t, pairs)
    case Err(e) => Err(e)
    case Ok(explicit) =>
      match FromMeshes(t, meshes)
      case Err(e) => Err(e)
      case Ok(crossed) => if explicit + crossed == [] then Err(NoPairs) else Ok(explicit + crossed)
  }

  lemma RawsOfOk(t: Topology, pairs: seq<PairSpec>, meshes: seq<MeshSpec>)
    ensures RawsOf(t, pairs, meshes).Ok? ==> forall r :: r in RawsOf(t, pairs, meshes).value ==> RawOk(t, r)
  {
    RawsOk(t, pairs, meshes);
  }

  /** The pair is made from the last raw entry for its key. */
  ghost predicate IsLatest(t: Topology, raws: seq<Raw>, p: Pair)
    requires t.spines > 0
  {
    exists j :: 0 <= j < |raws| && LastFor(raws, j, p.key) && p == Chosen(t, p.key, raws[j].choice)
  }

  lemma LatestPair(t: Topology, raws: seq<Raw>, key: PairKey)
    requires t.spines > 0 && key in Canonical(raws)
    ensures IsLatest(t, raws, Chosen(t, key, Canonical(raws)[key]))
  {
    LastWins(raws, key);
  }

  /** What a spec expands to: one pair per (tenant, a < b) named, in order, with the
      last spine and planes given for it. */
  ghost predicate Expands(t: Topology, raws: seq<Raw>, pairs: seq<Pair>)
    requires t.spines > 0 && forall r :: r in raws ==> RawOk(t, r)
  {
    && Sorted(KeysOf(pairs))
    && (forall r :: r in raws ==> exists i :: 0 <= i < |pairs| && pairs[i].key == Canon(r))
    && (forall i :: 0 <= i < |pairs| ==> IsLatest(t, raws, pairs[i]))
  }

  method CollectPairs(t: Topology, specs: seq<PairSpec>) returns (r: Result<seq<Raw>>)
    ensures r == FromPairs(t, specs)
  {
    var raws: seq<Raw> := [];
    for i := 0 to |specs|
      invariant FromPairs(t, specs[..i]) == Ok(raws)
    {
      var p := specs[i];
      assert specs[..i + 1][..i] == specs[..i];
      var tenant := CheckPair(t, p);
      if tenant.Err? {
        PairErrorLasts(t, specs, i + 1);
        return Err(tenant.error);
      }
      if p.src == p.dst {
        assert raws + [] == raws;
        continue;
      }
      raws := raws + [Raw(tenant.value, p.src, p.dst, ChoiceOf(t, p.spine, p.planes))];
    }
    assert specs[..|specs|] == specs;
    return Ok(raws);
  }

  lemma {:induction false} PairErrorLasts(t: Topology, specs: seq<PairSpec>, i: nat)
    requires i <= |specs| && FromPairs(t, specs[..i]).Err?
    ensures FromPairs(t, specs) == FromPairs(t, specs[..i])
  {
    if i < |specs| {
      assert specs[..|specs| - 1][..i] == specs[..i];
      PairErrorLasts(t, specs[..|specs| - 1], i);
    } else {
      assert specs[..i] == specs;
    }
  }

  /** The inner loop: one source with every other destination. */
  method CrossRow(tenant: Tenant, src: nat, dsts: seq<nat>, choice: Choice) returns (row: seq<Raw>)
    ensures row == RowOf(tenant, src, dsts, choice)
  {
    row := [];
    for j := 0 to |dsts|
      invariant row == RowOf(tenant, src, dsts[..j], choice)
    {
      assert dsts[..j + 1][..j] == dsts[..j];
      if src == dsts[j] { continue; }
      row := row + [Raw(tenant, src, dsts[j], choice)];
    }
    assert dsts[..|dsts|] == dsts;
  }

  method CrossProduct(tenant: Tenant, srcs: seq<nat>, dsts: seq<nat>, choice: Choice) returns (raws: seq<Raw>)
    ensures raws == ProductOf(tenant, srcs, dsts, choice)
  {
    raws := [];
    for i := 0 to |srcs|
      invariant raws == ProductOf(tenant, srcs[..i], dsts, choice)
    {
      var row := CrossRow(tenant, srcs[i], dsts, choice);
      raws := raws + row;
      assert srcs[..i + 1][..i] == srcs[..i];
    }
    assert srcs[..|srcs|] == srcs;
  }

  method CollectMeshes(t: Topology, specs: seq<MeshSpec>) returns (r: Result<seq<Raw>>)
    ensures r == FromMeshes(t, specs)
  {
    var raws: seq<Raw> := [];
    for i := 0 to |specs|
      invariant FromMeshes(t, specs[..i]) == Ok(raws)
    {
      var m := specs[i];
      assert specs[..i + 1][..i] == specs[..i];
      var tenant := CheckMesh(t, m);
      if tenant.Err? {
        MeshErrorLasts(t, specs, i + 1);
        return Err(tenant.error);
      }
      var product := CrossProduct(tenant.value, m.srcs, m.dsts, ChoiceOf(t, m.spine, m.planes));
      raws := raws + product;
    }
    assert specs[..|specs|] == specs;
    return Ok(raws);
  }

  lemma {:induction false} MeshErrorLasts(t: Topology, specs: seq<MeshSpec>, i: nat)
    requires i <= |specs| && FromMeshes(t, specs[..i]).Err?
    ensures FromMeshes(t, specs) == FromMeshes(t, specs[..i])
  {
    if i < |specs| {
      assert specs[..|specs| - 1][..i] == specs[..i];
      MeshErrorLasts(t, specs[..|specs| - 1], i);
    } else {
      assert specs[..i] == specs;
    }
  }

  method Canonicalize(raws: seq<Raw>) returns (canonical: map<PairKey, Choice>)
    ensures canonical == Canonical(raws)
  {
    canonical := map[];
    for i := 0 to |raws|
      invariant canonical == Canonical(raws[..i])
    {
      assert raws[..i + 1][..i] == raws[..i];
      var r := raws[i];
      var a, b := if r.src < r.dst then r.src else r.dst, if r.src < r.dst then r.dst else r.src;
      canonical := canonical[PairKey(r.tenant, a, b) := r.choice];
    }
    assert raws[..|raws|] == raws;
  }

  method ExpandSpec(t: Topology, pairSpecs: seq<PairSpec>, meshSpecs: seq<MeshSpec>) returns (r: Result<seq<Pair>>)
    requires t.spines > 0
    ensures RawsOf(t, pairSpecs, meshSpecs).Err? ==> r == Err(RawsOf(t, pairSpecs, meshSpecs).error)
    ensures RawsOf(t, pairSpecs, meshSpecs).Ok? ==>
              && r.Ok? && (forall x :: x in RawsOf(t, pairSpecs, meshSpecs).value ==> RawOk(t, x))
              && Expands(t, RawsOf(t, pairSpecs, meshSpecs).value, r.value)
  {
    var explicit := CollectPairs(t, pairSpecs);
    if explicit.Err? { return Err(explicit.error); }
    var crossed := CollectMeshes(t, meshSpecs);
    if crossed.Err? { return Err(crossed.error); }
    var raws := explicit.value + crossed.value;
    if raws == [] { return Err(NoPairs); }
    RawsOfOk(t, pairSpecs, meshSpecs);
    var canonical := Canonicalize(raws);
    var pairs := ChoosePairs(t, raws, canonical);
    return Ok(pairs);
  }

  method ChoosePairs(t: Topology, ghost raws: seq<Raw>, canonical: map<PairKey, Choice>) returns (pairs: seq<Pair>)
    requires t.spines > 0 && canonical == Canonical(raws) && forall r :: r in raws ==> RawOk(t, r)
    ensures Expands(t, raws, pairs)
  {
    var keys := SortKeys(canonical.Keys);
    pairs := [];
    for i := 0 to |keys|
      invariant |pairs| == i && forall x :: 0 <= x < i ==> pairs[x].key == keys[x]
      invariant forall x :: 0 <= x < i ==> IsLatest(t, raws, pairs[x])
    {
      var key := keys[i];
      LatestPair(t, raws, key);
      var choice := canonical[key];
      var spine := if choice.spine.None? then SpineFor(t, key.a, key.b) else choice.spine.value;
      pairs := pairs + [Pair(key, spine, choice.planes)];
    }
    assert KeysOf(pairs) == keys;
    forall r | r in raws ensures exists i :: 0 <= i < |pairs| && pairs[i].key == Canon(r) {
      LastWins(raws, Canon(r));
      assert Canon(r) in keys;
    }
  }

  // ---------------------------------------------------------------------
  // Routes
  // ---------------------------------------------------------------------

  function RouteOf(tenant: Tenant, spine: nat, src: nat, dst: nat, plane: nat): Route {
    Route(Host(tenant, src), InnerAddr(tenant, dst), Carrier(tenant, plane, spine, dst), plane + 1, 100 + plane)
  }

  function Direction(p: Pair, src: nat, dst: nat): (routes: seq<Route>)
    ensures |routes| == |p.planes|
  {
    seq(|p.planes|, i requires 0 <= i < |p.planes| => RouteOf(p.key.tenant, p.spine, src, dst, p.planes[i]))
  }

  function PairRoutes(p: Pair): seq<Route> { Direction(p, p.key.a, p.key.b) + Direction(p, p.key.b, p.key.a) }

  function AllRoutes(pairs: seq<Pair>): seq<Route> {
    if pairs == [] then [] else AllRoutes(pairs[..|pairs| - 1]) + PairRoutes(pairs[|pairs| - 1])
  }

  method Emit(p: Pair) returns (out: seq<Route>)
    ensures out == PairRoutes(p)
  {
    out := [];
    var ends := [(p.key.a, p.key.b), (p.key.b, p.key.a)];
    for d := 0 to 2
      invariant out == (if d == 0 then [] else if d == 1 then Direction(p, p.key.a, p.key.b) else PairRoutes(p))
    {
      var (src, dst) := ends[d];
      ghost var before := out;
      for i := 0 to |p.planes|
        invariant out == before + Direction(p, src, dst)[..i]
      {
        out := out + [RouteOf(p.key.tenant, p.spine, src, dst, p.planes[i])];
      }
      assert Direction(p, src, dst)[..|p.planes|] == Direction(p, src, dst);
    }
  }

  /** The route of one direction of a pair on one plane, written out. */
  ghost predicate IsRouteOn(p: Pair, src: nat, dst: nat, plane: nat, r: Route) {
    && r.host == Host(p.key.tenant, src) && r.dev == plane + 1 && r.metric == 100 + plane
    && r.dst == Addr(0x2001, 0xdb8, if p.key.tenant.Green? then 0xbbbb else 0xcccc, dst, 0, 0, 0, 2)
    && r.segs == if p.key.tenant.Green? then Addr(0xfc00, plane, 0xf000 + p.spine, 0xe000 + dst, 0xd000, 0, 0, 0)
                 else Addr(0xfc00, plane, 0xf000 + p.spine, 0xe000 + dst, 0xe009, 0xd001, 0, 0)
  }

  lemma DirectionIs(p: Pair, src: nat, dst: nat, r: Route)
    ensures r in Direction(p, src, dst) <==> exists plane :: plane in p.planes && IsRouteOn(p, src, dst, plane, r)
  {
    if plane :| plane in p.planes && IsRouteOn(p, src, dst, plane, r) {
      var i :| 0 <= i < |p.planes| && p.planes[i] == plane;
      assert Direction(p, src, dst)[i] == r;
    }
    if r in Direction(p, src, dst) {
      var i :| 0 <= i < |p.planes| && Direction(p, src, dst)[i] == r;
      assert p.planes[i] in p.planes && IsRouteOn(p, src, dst, p.planes[i], r);
    }
  }

  ghost predicate IsRouteOf(p: Pair, r: Route) {
    exists plane :: plane in p.planes
      && (IsRouteOn(p, p.key.a, p.key.b, plane, r) || IsRouteOn(p, p.key.b, p.key.a, plane, r))
  }

  lemma PairRoutesAre(p: Pair, r: Route)
    ensures r in PairRoutes(p) <==> IsRouteOf(p, r)
  {
    DirectionIs(p, p.key.a, p.key.b, r);
    DirectionIs(p, p.key.b, p.key.a, r);
  }

  ghost predicate IsRouteOfAny(pairs: seq<Pair>, r: Route) { exists p :: p in pairs && IsRouteOf(p, r) }

  /** The routes of a spec are those of its pairs, there and back, on every plane: all of
      them and no others, and as many as that makes. */
  lemma {:induction false} AllRoutesAre(pairs: seq<Pair>, r: Route)
    ensures r in AllRoutes(pairs) <==> IsRouteOfAny(pairs, r)
    ensures |AllRoutes(pairs)| == 2 * PlanesOf(pairs)
  {
    if pairs != [] {
      var init, last := pairs[..|pairs| - 1], pairs[|pairs| - 1];
      AllRoutesAre(init, r);
      PairRoutesAre(last, r);
      OneMorePair(init, last, r);
      assert pairs == init + [last];
    }
  }

  lemma OneMorePair(init: seq<Pair>, last: Pair, r: Route)
    ensures IsRouteOfAny(init + [last], r) <==> IsRouteOfAny(init, r) || IsRouteOf(last, r)
  {
    if p :| p in init && IsRouteOf(p, r) { assert p in init + [last]; }
    assert last in init + [last];
  }

  function PlanesOf(pairs: seq<Pair>): nat {
    if pairs == [] then 0 else PlanesOf(pairs[..|pairs| - 1]) + |pairs[|pairs| - 1].planes|
  }

  // ---------------------------------------------------------------------
  // What one entry of a spec comes to
  // ---------------------------------------------------------------------

  /** What the checks of an entry find wrong with it, if anything: tenant, hosts, spine and
      planes, in this order. */
  function WrongWith(t: Topology, tenant: string, hosts: seq<int>, spine: SpineSpec, planes: Option<seq<int>>)
    : Option<Error>
  {
    if tenant != "green" && tenant != "yellow" then Some(UnknownTenant)
    else if exists h :: h in hosts && (h < 0 || h >= t.leaves) then Some(HostOutOfRange)
    else if spine.Fixed? && (spine.spine < 0 || spine.spine >= t.spines) then Some(SpineOutOfRange)
    else if planes.Some? && exists p :: p in planes.value && (p < 0 || p >= t.planes) then Some(PlaneOutOfRange)
    else None
  }

  function PairWrong(t: Topology, p: PairSpec): Option<Error> {
    WrongWith(t, p.tenant, [p.src, p.dst], p.spine, p.planes)
  }

  function MeshWrong(t: Topology, m: MeshSpec): Option<Error> {
    WrongWith(t, m.tenant, m.srcs + m.dsts, m.spine, m.planes)
  }

  lemma CheckPairFinds(t: Topology, p: PairSpec)
    ensures match PairWrong(t, p)
            case Some(e) => CheckPair(t, p) == Err(e)
            case None => CheckPair(t, p) == Ok(if p.tenant == "green" then Green else Yellow)
  {
    if p.planes.Some? { assert forall i :: 0 <= i < |p.planes.value| ==> p.planes.value[i] in p.planes.value; }
    assert p.src in [p.src, p.dst] && p.dst in [p.src, p.dst];
  }

  lemma CheckMeshFinds(t: Topology, m: MeshSpec)
    ensures match MeshWrong(t, m)
            case Some(e) => CheckMesh(t, m) == Err(e)
            case None => CheckMesh(t, m) == Ok(if m.tenant == "green" then Green else Yellow)
  {
    if m.planes.Some? { assert forall i :: 0 <= i < |m.planes.value| ==> m.planes.value[i] in m.planes.value; }
    assert forall i :: 0 <= i < |m.srcs| ==> m.srcs[i] in m.srcs + m.dsts;
    assert forall i :: 0 <= i < |m.dsts| ==> m.dsts[i] in m.srcs + m.dsts;
  }

  /** The entries are refused for what is wrong with the first wrong one, and otherwise taken. */
  lemma {:induction false} FirstWrongPair(t: Topology, specs: seq<PairSpec>, i: nat)
    requires i <= |specs| && forall j :: 0 <= j < i ==> PairWrong(t, specs[j]).None?
    ensures if i == |specs| then FromPairs(t, specs).Ok?
            else PairWrong(t, specs[i]).Some? ==> FromPairs(t, specs) == Err(PairWrong(t, specs[i]).value)
  {
    if specs != [] {
      var n := |specs| - 1;
      CheckPairFinds(t, specs[n]);
      FirstWrongPair(t, specs[..n], if i > n then n else i);
    }
  }

  lemma {:induction false} FirstWrongMesh(t: Topology, specs: seq<MeshSpec>, i: nat)
    requires i <= |specs| && forall j :: 0 <= j < i ==> MeshWrong(t, specs[j]).None?
    ensures if i == |specs| then FromMeshes(t, specs).Ok?
            else MeshWrong(t, specs[i]).Some? ==> FromMeshes(t, specs) == Err(MeshWrong(t, specs[i]).value)
  {
    if specs != [] {
      var n := |specs| - 1;
      CheckMeshFinds(t, specs[n]);
      FirstWrongMesh(t, specs[..n], if i > n then n else i);
    }
  }

  /** Pairs come out green before yellow, and within a tenant by the lower and then the
      higher host. */
  lemma ExpandedInOrder(t: Topology, raws: seq<Raw>, pairs: seq<Pair>, i: nat, j: nat)
    requires t.spines > 0 && (forall r :: r in raws ==> RawOk(t, r)) && Expands(t, raws, pairs) && i < j < |pairs|
    ensures pairs[j].key.tenant.Green? ==> pairs[i].key.tenant.Green?
    ensures pairs[i].key.tenant == pairs[j].key.tenant ==>
              pairs[i].key.a <= pairs[j].key.a && (pairs[i].key.a == pairs[j].key.a ==> pairs[i].key.b < pairs[j].key.b)
  {
    assert Less(KeysOf(pairs)[i], KeysOf(pairs)[j]);
  }

  predicate NamesPair(p: PairSpec, tenant: Tenant, a: nat, b: nat) {
    && p.tenant == (if tenant.Green? then "green" else "yellow")
    && ((p.src == a && p.dst == b) || (p.src == b && p.dst == a))
  }

  /** The pair that an entry asks for: its spine, or the automatic one, and its planes, or all. */
  ghost predicate AsksFor(t: Topology, p: PairSpec, pair: Pair)
    requires t.spines > 0
  {
    && NamesPair(p, pair.key.tenant, pair.key.a, pair.key.b) && pair.key.a < pair.key.b
    && pair.spine == (if p.spine.Fixed? then p.spine.spine else SpineFor(t, pair.key.a, pair.key.b))
    && forall plane: nat :: plane in pair.planes <==> plane < t.planes && (p.planes.None? || plane in p.planes.value)
  }

  /** Entry i gives raw pair k, and the raw pairs after that are of later entries. */
  ghost predicate StandsAt(t: Topology, specs: seq<PairSpec>, i: nat, raws: seq<Raw>, k: nat) {
    && i < |specs| && k < |raws| && IsRawOf(t, specs[i], raws[k])
    && forall l :: k < l < |raws| ==> FromLater(t, specs, i, raws[l])
  }

  ghost predicate FromLater(t: Topology, specs: seq<PairSpec>, i: nat, r: Raw) {
    exists j :: i < j < |specs| && IsRawOf(t, specs[j], r)
  }

  lemma OneEntryMore(t: Topology, init: seq<PairSpec>, p: PairSpec, i: nat, before: seq<Raw>, more: seq<Raw>, k: nat)
    requires StandsAt(t, init, i, before, k)
    requires |more| <= 1 && forall l :: 0 <= l < |more| ==> IsRawOf(t, p, more[l])
    ensures StandsAt(t, init + [p], i, before + more, k)
  {
    var specs, raws := init + [p], before + more;
    forall l | k < l < |raws| ensures FromLater(t, specs, i, raws[l]) {
      if l < |before| {
        assert FromLater(t, init, i, before[l]);
        var j :| i < j < |init| && IsRawOf(t, init[j], before[l]);
        assert specs[j] == init[j];
      } else {
        assert raws[l] == more[l - |before|] && specs[|init|] == p;
      }
    }
  }

  lemma {:induction false} EntryIsRaw(t: Topology, specs: seq<PairSpec>, i: nat) returns (k: nat)
    requires i < |specs| && FromPairs(t, specs).Ok? && specs[i].src != specs[i].dst
    ensures StandsAt(t, specs, i, FromPairs(t, specs).value, k)
  {
    var n := |specs| - 1;
    var before, p := FromPairs(t, specs[..n]).value, specs[n];
    var more := OnePair(CheckPair(t, p).value, p.src, p.dst, ChoiceOf(t, p.spine, p.planes));
    assert FromPairs(t, specs).value == before + more && specs == specs[..n] + [p];
    if i == n {
      k := |before|;
    } else {
      k := EntryIsRaw(t, specs[..n], i);
      OneEntryMore(t, specs[..n], p, i, before, more, k);
    }
  }

  ghost predicate IsRawOf(t: Topology, p: PairSpec, r: Raw) {
    && CheckPair(t, p) == Ok(r.tenant) && r.src == p.src && r.dst == p.dst && r.choice == ChoiceOf(t, p.spine, p.planes)
  }

  ghost predicate MeshNames(m: MeshSpec, tenant: string, src: int, dst: int) {
    m.tenant == tenant && exists a, b :: a in m.srcs && b in m.dsts && {a, b} == {src, dst}
  }

  lemma {:induction false} MeshRawIsNamed(t: Topology, meshes: seq<MeshSpec>, r: Raw) returns (j: nat)
    requires FromMeshes(t, meshes).Ok? && r in FromMeshes(t, meshes).value
    ensures j < |meshes| && CheckMesh(t, meshes[j]) == Ok(r.tenant)
    ensures r.src in meshes[j].srcs && r.dst in meshes[j].dsts
  {
    var n := |meshes| - 1;
    var before, m := FromMeshes(t, meshes[..n]).value, meshes[n];
    if r in before {
      j := MeshRawIsNamed(t, meshes[..n], r);
    } else {
      j := n;
      ProductIs(CheckMesh(t, m).value, m.srcs, m.dsts, ChoiceOf(t, m.spine, m.planes));
    }
  }

  lemma OtherThanMesh(t: Topology, meshes: seq<MeshSpec>, p: PairSpec, r: Raw, s: Raw)
    requires FromMeshes(t, meshes).Ok? && s in FromMeshes(t, meshes).value && IsRawOf(t, p, r)
    requires forall m :: m in meshes ==> !MeshNames(m, p.tenant, p.src, p.dst)
    ensures Canon(s) != Canon(r)
  {
    var j := MeshRawIsNamed(t, meshes, s);
    assert meshes[j] in meshes;
    assert Canon(s) == Canon(r) ==> {s.src, s.dst} == {p.src, p.dst};
  }

  /** The last entry that names a pair, in either order, decides its spine and planes, if no
      mesh names it: those come after all pairs. */
  lemma LastEntryDecides(t: Topology, specs: seq<PairSpec>, meshes: seq<MeshSpec>, raws: seq<Raw>,
                         pairs: seq<Pair>, i: nat)
    requires t.spines > 0 && i < |specs| && specs[i].src != specs[i].dst
    requires RawsOf(t, specs, meshes) == Ok(raws) && (forall r :: r in raws ==> RawOk(t, r)) && Expands(t, raws, pairs)
    requires NamedLast(specs, meshes, i)
    ensures exists x :: 0 <= x < |pairs| && AsksFor(t, specs[i], pairs[x])
  {
    var explicit, crossed := FromPairs(t, specs).value, FromMeshes(t, meshes).value;
    var k := EntryIsRaw(t, specs, i);
    assert raws == explicit + crossed && raws[k] == explicit[k];
    NoneAfter(t, specs, meshes, i, explicit, k);
    var x := LatestIs(t, raws, pairs, k);
    ChoiceAsksFor(t, specs[i], raws[k]);
    assert AsksFor(t, specs[i], pairs[x]);
  }

  ghost predicate NamedLast(specs: seq<PairSpec>, meshes: seq<MeshSpec>, i: nat)
    requires i < |specs|
  {
    && (forall j :: i < j < |specs| ==>
          specs[j].tenant != specs[i].tenant || {specs[j].src, specs[j].dst} != {specs[i].src, specs[i].dst})
    && forall m :: m in meshes ==> !MeshNames(m, specs[i].tenant, specs[i].src, specs[i].dst)
  }

  lemma NoneAfter(t: Topology, specs: seq<PairSpec>, meshes: seq<MeshSpec>, i: nat, explicit: seq<Raw>, k: nat)
    requires FromMeshes(t, meshes).Ok? && StandsAt(t, specs, i, explicit, k) && NamedLast(specs, meshes, i)
    ensures var raws := explicit + FromMeshes(t, meshes).value;
            forall l :: k < l < |raws| ==> Canon(raws[l]) != Canon(raws[k])
  {
    var crossed := FromMeshes(t, meshes).value;
    var raws := explicit + crossed;
    forall l | k < l < |raws| ensures Canon(raws[l]) != Canon(raws[k]) {
      if l < |explicit| {
        LaterEntryDiffers(t, specs, meshes, i, raws[k], explicit[l]);
      } else {
        OtherThanMesh(t, meshes, specs[i], raws[k], crossed[l - |explicit|]);
      }
    }
  }

  lemma LaterEntryDiffers(t: Topology, specs: seq<PairSpec>, meshes: seq<MeshSpec>, i: nat, r: Raw, s: Raw)
    requires i < |specs| && IsRawOf(t, specs[i], r) && FromLater(t, specs, i, s) && NamedLast(specs, meshes, i)
    ensures Canon(s) != Canon(r)
  {
    var j :| i < j < |specs| && IsRawOf(t, specs[j], s);
    if Canon(s) == Canon(r) { SameKeySameNames(t, specs[i], specs[j], r, s); }
  }

  /** A raw pair with no later one of its key is what its key expands to. */
  lemma LatestIs(t: Topology, raws: seq<Raw>, pairs: seq<Pair>, k: nat) returns (x: nat)
    requires t.spines > 0 && (forall r :: r in raws ==> RawOk(t, r)) && Expands(t, raws, pairs) && k < |raws|
    requires forall l :: k < l < |raws| ==> Canon(raws[l]) != Canon(raws[k])
    ensures x < |pairs| && pairs[x] == Chosen(t, Canon(raws[k]), raws[k].choice)
  {
    var key := Canon(raws[k]);
    assert LastFor(raws, k, key) && raws[k] in raws;
    x :| 0 <= x < |pairs| && pairs[x].key == key;
    var j :| 0 <= j < |raws| && LastFor(raws, j, key) && pairs[x] == Chosen(t, key, raws[j].choice);
    assert j == k;
  }

  lemma SameKeySameNames(t: Topology, p: PairSpec, q: PairSpec, r: Raw, s: Raw)
    requires IsRawOf(t, p, r) && IsRawOf(t, q, s) && Canon(r) == Canon(s)
    ensures p.tenant == q.tenant && {p.src, p.dst} == {q.src, q.dst}
  {
  }

  lemma ChoiceAsksFor(t: Topology, p: PairSpec, r: Raw)
    requires t.spines > 0 && IsRawOf(t, p, r) && p.src != p.dst
    ensures AsksFor(t, p, Chosen(t, Canon(r), r.choice))
  {
    PlanesSorted(if p.planes.Some? then p.planes.value else AllPlanes(t.planes), t.planes);
  }

  ghost predicate PairOk(t: Topology, p: Pair) {
    p.key.a < p.key.b < t.leaves && IncreasingBelow(p.planes, t.planes)
  }

  /** Every expanded pair is in order, in range and on valid planes; its spine exists
      if it was given, or if the automatic choice always names one that does. */
  lemma ExpandedPairsOk(t: Topology, raws: seq<Raw>, pairs: seq<Pair>, p: Pair)
    requires t.spines > 0 && (forall r :: r in raws ==> RawOk(t, r)) && Expands(t, raws, pairs) && p in pairs
    ensures PairOk(t, p)
    ensures t.spines >= 8 || t.leaves <= 8 ==> p.spine < t.spines
  {
    var i :| 0 <= i < |pairs| && pairs[i] == p;
    var j :| 0 <= j < |raws| && LastFor(raws, j, pairs[i].key) && pairs[i] == Chosen(t, pairs[i].key, raws[j].choice);
    assert raws[j] in raws && RawOk(t, raws[j]);
    SpineChoiceInRangeIff(t);
  }

  ghost predicate KeysDistinct(routes: seq<Route>) {
    forall i, j :: 0 <= i < j < |routes| ==> KeyOf(routes[i]) != KeyOf(routes[j])
  }

  lemma DirectionKeys(p: Pair, src: nat, dst: nat, r: Route)
    requires r in Direction(p, src, dst)
    ensures r.host == Host(p.key.tenant, src) && r.dst == InnerAddr(p.key.tenant, dst)
    ensures r.dev >= 1 && r.dev - 1 in p.planes && r == RouteOf(p.key.tenant, p.spine, src, dst, r.dev - 1)
  {
  }

  /** The pair a route belongs to can be read off its key. */
  function Owner(k: RouteKey): PairKey
    requires k.host.Host?
  {
    if k.host.index < k.dst.g3 then PairKey(k.host.tenant, k.host.index, k.dst.g3)
    else PairKey(k.host.tenant, k.dst.g3, k.host.index)
  }

  lemma RouteOwner(t: Topology, p: Pair, r: Route)
    requires PairOk(t, p) && r in PairRoutes(p)
    ensures r.host.Host? && Owner(KeyOf(r)) == p.key
  {
    if r in Direction(p, p.key.a, p.key.b) {
      DirectionKeys(p, p.key.a, p.key.b, r);
    } else {
      DirectionKeys(p, p.key.b, p.key.a, r);
    }
  }

  lemma PairKeysDistinct(t: Topology, p: Pair)
    requires PairOk(t, p)
    ensures KeysDistinct(PairRoutes(p))
  {
    var there, back := Direction(p, p.key.a, p.key.b), Direction(p, p.key.b, p.key.a);
    var all := there + back;
    forall i, j | 0 <= i < j < |all| ensures KeyOf(all[i]) != KeyOf(all[j]) {
      if i < |there| <= j {
        assert all[i].host.index == p.key.a && all[j].host.index == p.key.b;
      }
    }
  }

  /** All routes of sorted pairs have distinct keys, and each belongs to one of the pairs. */
  lemma {:induction false} RouteKeysDistinct(t: Topology, pairs: seq<Pair>)
    requires Sorted(KeysOf(pairs)) && forall p :: p in pairs ==> PairOk(t, p)
    ensures KeysDistinct(AllRoutes(pairs))
    ensures forall r :: r in AllRoutes(pairs) ==> r.host.Host? && Owner(KeyOf(r)) in KeysOf(pairs)
  {
    if pairs != [] {
      var init, last := pairs[..|pairs| - 1], pairs[|pairs| - 1];
      assert KeysOf(init) == KeysOf(pairs)[..|init|];
      assert last in pairs && forall p :: p in init ==> p in pairs;
      RouteKeysDistinct(t, init);
      PairKeysDistinct(t, last);
      forall r | r in PairRoutes(last) ensures r.host.Host? && Owner(KeyOf(r)) == last.key
              && last.key in KeysOf(pairs) {
        RouteOwner(t, last, r);
        assert KeysOf(pairs)[|init|] == last.key;
      }
      LaterKeyIsNew(KeysOf(pairs));
      DistinctAcross(AllRoutes(init), PairRoutes(last));
    }
  }

  /** All routes of an expanded spec have distinct (host, dst, dev, metric) keys. */
  lemma ExpandedKeysDistinct(t: Topology, raws: seq<Raw>, pairs: seq<Pair>)
    requires t.spines > 0 && (forall r :: r in raws ==> RawOk(t, r)) && Expands(t, raws, pairs)
    ensures KeysDistinct(AllRoutes(pairs))
  {
    forall p | p in pairs ensures PairOk(t, p) { ExpandedPairsOk(t, raws, pairs, p); }
    RouteKeysDistinct(t, pairs);
  }

  lemma LaterKeyIsNew(keys: seq<PairKey>)
    requires Sorted(keys) && keys != []
    ensures keys[|keys| - 1] !in keys[..|keys| - 1]
  {
    forall i | 0 <= i < |keys| - 1 ensures keys[i] != keys[|keys| - 1] {
      assert Less(keys[i], keys[|keys| - 1]);
    }
  }

  lemma DistinctAcross(x: seq<Route>, y: seq<Route>)
    requires KeysDistinct(x) && KeysDistinct(y)
    requires forall r, s :: r in x && s in y ==> KeyOf(r) != KeyOf(s)
    ensures KeysDistinct(x + y)
  {
    forall i, j | 0 <= i < j < |x + y| ensures KeyOf((x + y)[i]) != KeyOf((x + y)[j]) {
      if i < |x| <= j {
        assert (x + y)[i] in x && (x + y)[j] in y;
      }
    }
  }

  // ---------------------------------------------------------------------
  // Applying and deleting
  // ---------------------------------------------------------------------

  type Kernel = map<RouteKey, Addr>

  function Apply(k: Kernel, routes: seq<Route>): Kernel {
    if routes == [] then k else Apply(k,
            routes[..|routes| - 1])[KeyOf(routes[|routes| - 1]) := routes[|routes| - 1].segs]
  }

  /** A route that is absent is no error. */
  function Delete(k: Kernel, routes: seq<Route>): Kernel {
    if routes == [] then k else Delete(k, routes[..|routes| - 1]) - {KeyOf(routes[|routes| - 1])}
  }

  ghost predicate Names(routes: seq<Route>, key: RouteKey) {
    exists i :: 0 <= i < |routes| && KeyOf(routes[i]) == key
  }

  lemma NamesSnoc(routes: seq<Route>, key: RouteKey)
    requires routes != []
    ensures Names(routes, key) <==> Names(routes[..|routes| - 1], key) || KeyOf(routes[|routes| - 1]) == key
  {
    var init := routes[..|routes| - 1];
    if Names(init, key) {
      var i :| 0 <= i < |init| && KeyOf(init[i]) == key;
      assert KeyOf(routes[i]) == key;
    }
    if Names(routes, key) && KeyOf(routes[|routes| - 1]) != key {
      var i :| 0 <= i < |routes| && KeyOf(routes[i]) == key;
      assert KeyOf(init[i]) == key;
    }
  }

  lemma {:induction false} ApplyDomain(k: Kernel, routes: seq<Route>, key: RouteKey)
    ensures key in Apply(k, routes) <==> key in k || Names(routes, key)
    ensures !Names(routes, key) && key in k ==> Apply(k, routes)[key] == k[key]
  {
    if routes != [] {
      ApplyDomain(k, routes[..|routes| - 1], key);
      NamesSnoc(routes, key);
    }
  }

  lemma {:induction false} ApplyValue(k: Kernel, routes: seq<Route>, i: nat)
    requires i < |routes| && KeysDistinct(routes)
    ensures KeyOf(routes[i]) in Apply(k, routes) && Apply(k, routes)[KeyOf(routes[i])] == routes[i].segs
  {
    if i < |routes| - 1 {
      ApplyValue(k, routes[..|routes| - 1], i);
    }
  }

  lemma {:induction false} DeleteIs(k: Kernel, routes: seq<Route>, key: RouteKey)
    ensures key in Delete(k, routes) <==> key in k && !Names(routes, key)
    ensures key in Delete(k, routes) ==> Delete(k, routes)[key] == k[key]
  {
    if routes != [] {
      DeleteIs(k, routes[..|routes| - 1], key);
      NamesSnoc(routes, key);
    }
  }

  ghost predicate SameRoutes(x: seq<Route>, y: seq<Route>) {
    forall r :: r in x <==> r in y
  }

  lemma NamesIn(routes: seq<Route>, key: RouteKey)
    ensures Names(routes, key) <==> exists r :: r in routes && KeyOf(r) == key
  {
    if Names(routes, key) {
      var i :| 0 <= i < |routes| && KeyOf(routes[i]) == key;
      assert routes[i] in routes;
    }
  }

  lemma SameNames(x: seq<Route>, y: seq<Route>, key: RouteKey)
    requires SameRoutes(x, y)
    ensures Names(x, key) <==> Names(y, key)
  {
    NamesIn(x, key);
    NamesIn(y, key);
  }

  lemma SameApply(k: Kernel, x: seq<Route>, y: seq<Route>, key: RouteKey)
    requires KeysDistinct(x) && KeysDistinct(y) && SameRoutes(x, y)
    ensures key in Apply(k, x) <==> key in Apply(k, y)
    ensures key in Apply(k, x) ==> Apply(k, x)[key] == Apply(k, y)[key]
  {
    ApplyDomain(k, x, key);
    ApplyDomain(k, y, key);
    SameNames(x, y, key);
    if Names(x, key) {
      var i :| 0 <= i < |x| && KeyOf(x[i]) == key;
      assert x[i] in y;
      var j :| 0 <= j < |y| && y[j] == x[i];
      ApplyValue(k, x, i);
      ApplyValue(k, y, j);
    }
  }

  lemma SameDelete(k: Kernel, x: seq<Route>, y: seq<Route>, key: RouteKey)
    requires SameRoutes(x, y)
    ensures key in Delete(k, x) <==> key in Delete(k, y)
    ensures key in Delete(k, x) ==> Delete(k, x)[key] == Delete(k, y)[key]
  {
    DeleteIs(k, x, key);
    DeleteIs(k, y, key);
    SameNames(x, y, key);
  }

  /** In whatever order the thread pool applies or deletes the routes of a spec, the
      kernel table ends the same. */
  lemma AnyOrderSameTable(k: Kernel, x: seq<Route>, y: seq<Route>)
    requires KeysDistinct(x) && KeysDistinct(y) && SameRoutes(x, y)
    ensures Apply(k, x) == Apply(k, y)
    ensures Delete(k, x) == Delete(k, y)
  {
    forall key
      ensures key in Apply(k, x) <==> key in Apply(k, y)
      ensures key in Apply(k, x) ==> Apply(k, x)[key] == Apply(k, y)[key]
    {
      SameApply(k, x, y, key);
    }
    forall key
      ensures key in Delete(k, x) <==> key in Delete(k, y)
      ensures key in Delete(k, x) ==> Delete(k, x)[key] == Delete(k, y)[key]
    {
      SameDelete(k, x, y, key);
    }
  }

  /** Applying a spec twice is applying it once. */
  lemma ApplyIsIdempotent(k: Kernel, routes: seq<Route>)
    requires KeysDistinct(routes)
    ensures Apply(Apply(k, routes), routes) == Apply(k, routes)
  {
    var once := Apply(k, routes);
    forall key ensures key in Apply(once, routes) <==> key in once {
      ApplyDomain(once, routes, key);
      ApplyDomain(k, routes, key);
    }
    forall key | key in once ensures Apply(once, routes)[key] == once[key] {
      ApplyDomain(once, routes, key);
      if Names(routes, key) {
        var i :| 0 <= i < |routes| && KeyOf(routes[i]) == key;
        ApplyValue(k, routes, i);
        ApplyValue(once, routes, i);
      }
    }
  }

  /** Deleting an applied spec removes exactly its keys. */
  lemma DeleteUndoesApply(k: Kernel, routes: seq<Route>)
    ensures Delete(Apply(k, routes), routes) == Delete(k, routes)
    ensures forall key :: key in Delete(k, routes) <==> key in k && !Names(routes, key)
  {
    forall key
      ensures key in Delete(Apply(k, routes), routes) <==> key in Delete(k, routes)
      ensures key in Delete(k, routes) <==> key in k && !Names(routes, key)
    {
      DeleteIs(Apply(k, routes), routes, key);
      DeleteIs(k, routes, key);
      ApplyDomain(k, routes, key);
    }
    forall key | key in Delete(k, routes) ensures Delete(Apply(k, routes), routes)[key] == Delete(k, routes)[key] {
      DeleteIs(Apply(k, routes), routes, key);
      DeleteIs(k, routes, key);
      ApplyDomain(k, routes, key);
    }
  }

  // ---------------------------------------------------------------------
  // Every route delivers
  // ---------------------------------------------------------------------

  lemma {:induction false} RouteOrigin(pairs: seq<Pair>, r: Route)
    requires r in AllRoutes(pairs)
    ensures exists i :: 0 <= i < |pairs| && r in PairRoutes(pairs[i])
  {
    var init, last := pairs[..|pairs| - 1], pairs[|pairs| - 1];
    if r in AllRoutes(init) {
      RouteOrigin(init, r);
      var i :| 0 <= i < |init| && r in PairRoutes(init[i]);
      assert pairs[i] == init[i];
    } else {
      assert r in PairRoutes(pairs[|pairs| - 1]);
    }
  }

  /** The run follows `path`, and decapsulates exactly at its end, on `to`. */
  ghost predicate FollowsTo(t: Topology, run: seq<Packet>, path: seq<Packet>, dst: Addr, end: Endpoint) {
    && IsRun(t, path) && |run| <= |path| && run == path[..|run|]
    && forall i, inner, to :: 0 <= i < |run| ==>
         (Delivers(t, run[i], inner, to) <==> i == |path| - 1 && inner == dst && to == end)
  }

  lemma PairRouteDelivers(t: Topology, p: Pair, src: nat, dst: nat, r: Route, k: Packet, run: seq<Packet>)
    requires WithinLimits(t) && PairOk(t, p) && src < t.leaves && dst < t.leaves && r in Direction(p, src, dst)
    requires r.dev >= 1 && SentBy(t, r.host, r.dev - 1, k) && k.da == r.segs && IsRun(t, run) && run[0] == k
    ensures p.spine < t.spines ==>
              FollowsTo(t, run, Path(p.key.tenant, r.dev - 1, p.spine, src, dst, k.nic), r.dst,
                        Endpoint(Host(p.key.tenant, dst), r.dev))
    ensures p.spine >= t.spines ==> run == [k] && forall inner, to :: !Delivers(t, k, inner, to)
  {
    DirectionKeys(p, src, dst, r);
    var i :| 0 <= i < |p.planes| && p.planes[i] == r.dev - 1;
    if p.spine < t.spines {
      CarrierDelivers(t, p.key.tenant, r.dev - 1, p.spine, src, dst, k, run);
    } else {
      assert k.at == Leaf(r.dev - 1, src);
      if |run| > 1 { assert Step(t, run[0], run[1]); }
      MissingSpineIsDropped(t, k);
      assert run == [run[0]];
    }
  }

  /** The spine a route's carrier names exists. */
  predicate SpineExists(t: Topology, r: Route) { r.segs.g2 < 0xf000 + t.spines }

  lemma SpineOfRoute(t: Topology, tenant: Tenant, spine: nat, src: nat, dst: nat, plane: nat)
    ensures SpineExists(t, RouteOf(tenant, spine, src, dst, plane)) <==> spine < t.spines
  {
  }

  /** The direction of a pair that a route of it is in. */
  lemma PairRouteEnds(p: Pair, r: Route) returns (src: nat, dst: nat)
    requires r in PairRoutes(p)
    ensures r in Direction(p, src, dst) && ((src, dst) == (p.key.a, p.key.b) || (src, dst) == (p.key.b, p.key.a))
  {
    if r in Direction(p, p.key.a, p.key.b) {
      return p.key.a, p.key.b;
    }
    return p.key.b, p.key.a;
  }

  /** The pair a route was made for, and its direction. */
  lemma RouteEnds(t: Topology, raws: seq<Raw>, pairs: seq<Pair>, r: Route) returns (p: Pair, src: nat, dst: nat)
    requires t.spines > 0 && (forall x :: x in raws ==> RawOk(t, x)) && Expands(t, raws, pairs) && r in AllRoutes(pairs)
    ensures p in pairs && PairOk(t, p) && src < t.leaves && dst < t.leaves && r in Direction(p, src, dst)
    ensures r.host == Host(p.key.tenant, src) && r.dst == InnerAddr(p.key.tenant, dst)
    ensures SpineExists(t, r) <==> p.spine < t.spines
    ensures t.spines >= 8 || t.leaves <= 8 ==> p.spine < t.spines
  {
    RouteOrigin(pairs, r);
    var n :| 0 <= n < |pairs| && r in PairRoutes(pairs[n]);
    p := pairs[n];
    ExpandedPairsOk(t, raws, pairs, p);
    src, dst := PairRouteEnds(p, r);
    DirectionKeys(p, src, dst, r);
    SpineOfRoute(t, p.key.tenant, p.spine, src, dst, r.dev - 1);
  }

  /** A packet that a host sends by one of the routes, on the NIC the route names,
      takes one path and is decapsulated exactly once, at its end: on the same plane's
      NIC of the host whose address the route is for. Only if the spine its carrier
      names does not exist is it dropped at once. */
  lemma RouteDeliversIff(t: Topology, raws: seq<Raw>, pairs: seq<Pair>, r: Route, k: Packet, run: seq<Packet>)
    requires WithinLimits(t)
    requires (forall x :: x in raws ==> RawOk(t, x)) && Expands(t, raws, pairs) && r in AllRoutes(pairs)
    requires r.dev >= 1 && SentBy(t, r.host, r.dev - 1, k) && k.da == r.segs && IsRun(t, run) && run[0] == k
    ensures SpineExists(t, r) ==>
              exists path, tenant, dst ::
                && r.host.Host? && r.host.tenant == tenant && r.dst == InnerAddr(tenant, dst)
                && FollowsTo(t, run, path, r.dst, Endpoint(Host(tenant, dst), r.dev))
    ensures !SpineExists(t, r) ==> run == [k] && forall inner, to :: !Delivers(t, k, inner, to)
  {
    var p, src, dst := RouteEnds(t, raws, pairs, r);
    PairRouteDelivers(t, p, src, dst, r, k, run);
  }

  /** Every expanded route names a spine that exists when there are eight spines or
      at most eight leaves, whatever the spec. */
  lemma ExpandedSpinesExist(t: Topology, raws: seq<Raw>, pairs: seq<Pair>, r: Route)
    requires t.spines >= 8 || (t.spines > 0 && t.leaves <= 8)
    requires (forall x :: x in raws ==> RawOk(t, x)) && Expands(t, raws, pairs) && r in AllRoutes(pairs)
    ensures SpineExists(t, r)
  {
    var p, src, dst := RouteEnds(t, raws, pairs, r);
  }

  /** With fewer spines and the pair (7, 8) it can fail: `auto` takes spine 7 from the
      reference table whatever the topology. */
  lemma AutoSpineCanBeMissing(t: Topology)
    requires WithinLimits(t) && t.spines < 8 && t.leaves > 8
    ensures var raw := Raw(Green, 7, 8, Choice(None, [0]));
            var pair := Chosen(t, Canon(raw), raw.choice);
            RawOk(t, raw) && Expands(t, [raw], [pair])
            && PairRoutes(pair) != [] && forall r :: r in PairRoutes(pair) ==> !SpineExists(t, r)
  {
    var raw := Raw(Green, 7, 8, Choice(None, [0]));
    var pair := Chosen(t, Canon(raw), raw.choice);
    assert LastFor([raw], 0, pair.key);
    assert pair.spine == 7 && [pair][0].key == Canon(raw);
    assert [raw][0].choice == raw.choice;
  }
}
