/** Per-flow reorder and loss statistics at the receiver (srv6_fabric/reorder.py). */
module Reorder {
  import opened Wrappers
  import opened Arith

  datatype Arrival = Arrival(seqno: nat, plane: Option<nat>)

  datatype Stats = Stats(
    firstSeq: Option<nat>,
    lastSeq: int,
    received: nat,
    duplicates: nat,
    perPlane: map<nat, nat>,
    hist: map<nat, nat>,
    window: set<nat>)

  const EMPTY := Stats(None, -1, 0, 0, map[], map[], {})

  function At(m: map<nat, nat>, k: nat): nat { if k in m then m[k] else 0 }

  function Bump(m: map<nat, nat>, k: nat): (r: map<nat, nat>)
    ensures forall j :: At(r, j) == At(m, j) + (if j == k then 1 else 0)
  {
    m[k := At(m, k) + 1]
  }

  predicate IsMin(s: set<nat>, m: nat) { m in s && forall x :: x in s ==> m <= x }

  method MinOf(s: set<nat>) returns (m: nat)
    requires s != {}
    ensures IsMin(s, m)
  {
    m :| m in s;
    var rest := s - {m};
    while rest != {}
      invariant rest <= s && m in s && forall x :: x in s && x !in rest ==> m <= x
    {
      var x :| x in rest;
      if x < m { m := x; }
      rest := rest - {x};
    }
  }

  lemma {:induction false} LeastExists(s: set<nat>)
    requires s != {}
    ensures exists m :: IsMin(s, m)
  {
    var x :| x in s;
    if s != {x} {
      LeastExists(s - {x});
      var m :| IsMin(s - {x}, m);
      assert s == s - {x} + {x};
      assert IsMin(s, if x < m then x else m);
    } else {
      assert IsMin(s, x);
    }
  }

  ghost function LeastOf(s: set<nat>): (m: nat)
    requires s != {}
    ensures IsMin(s, m)
  {
    LeastExists(s);
    var m :| IsMin(s, m);
    m
  }

  lemma MinUnique(s: set<nat>, m: nat)
    requires IsMin(s, m)
    ensures m == LeastOf(s)
  {
  }

  /** The new seq joins the window, and the smallest leaves a window that is over its cap. */
  ghost function Admit(cap: nat, window: set<nat>, s: nat): set<nat> {
    var w := window + {s};
    if |w| > cap then w - {LeastOf(w)} else w
  }

  ghost function ObserveStep(cap: nat, st: Stats, a: Arrival): Stats {
    var s := a.seqno;
    var st := st.(firstSeq := if st.firstSeq.None? then Some(s) else st.firstSeq);
    if s in st.window then st.(duplicates := st.duplicates + 1)
    else
      st.(window := Admit(cap, st.window, s),
          received := st.received + 1,
          perPlane := if a.plane.Some? then Bump(st.perPlane, a.plane.value) else st.perPlane,
          hist := Bump(st.hist, if s > st.lastSeq then 0 else st.lastSeq - s),
          lastSeq := if s > st.lastSeq then s else st.lastSeq)
  }

  ghost function Run(cap: nat, arrivals: seq<Arrival>): Stats {
    if arrivals == [] then EMPTY
    else ObserveStep(cap, Run(cap, arrivals[..|arrivals| - 1]), arrivals[|arrivals| - 1])
  }

  // ---------------------------------------------------------------------
  // The bounded window against the full history
  // ---------------------------------------------------------------------

  ghost function Seen(arrivals: seq<Arrival>): (r: set<nat>)
    ensures forall x :: x in r <==> exists i :: 0 <= i < |arrivals| && arrivals[i].seqno == x
  {
    set i | 0 <= i < |arrivals| :: arrivals[i].seqno
  }

  ghost function Larger(s: set<nat>, x: nat): set<nat> { set y | y in s && y > x }

  /** w holds the cap largest elements of s, or all of s if there are fewer. */
  ghost predicate IsTop(w: set<nat>, s: set<nat>, cap: nat) {
    && w <= s && |w| <= cap
    && (w != s ==> |w| == cap)
    && (forall x, y :: x in w && y in s && y !in w ==> y < x)
  }

  lemma AdmitKeepsTop(w: set<nat>, s: set<nat>, cap: nat, x: nat)
    requires IsTop(w, s, cap) && x !in w
    ensures IsTop(Admit(cap, w, x), s + {x}, cap)
  {
    if |w + {x}| > cap {
      DropMin(w, s, cap, x, LeastOf(w + {x}));
    } else {
      assert w == s;
    }
  }

  lemma DropMin(w: set<nat>, s: set<nat>, cap: nat, x: nat, m: nat)
    requires IsTop(w, s, cap) && x !in w && |w| == cap && IsMin(w + {x}, m)
    ensures IsTop(w + {x} - {m}, s + {x}, cap)
  {
    var w' := w + {x} - {m};
    assert |w'| == |w + {x}| - 1 == cap;
    forall a, b | a in w' && b in s + {x} && b !in w' ensures b < a {
      assert b == m || (b in s && b !in w);
      assert m < a;
    }
  }

  /** The bounded window always holds the cap largest distinct seqs ever observed. */
  lemma {:induction false} WindowIsTop(cap: nat, arrivals: seq<Arrival>)
    ensures IsTop(Run(cap, arrivals).window, Seen(arrivals), cap)
  {
    if arrivals != [] {
      var init, a := arrivals[..|arrivals| - 1], arrivals[|arrivals| - 1];
      WindowIsTop(cap, init);
      SeenSnoc(arrivals);
      var w := Run(cap, init).window;
      if a.seqno in w {
        assert Seen(arrivals) == Seen(init);
      } else {
        AdmitKeepsTop(w, Seen(init), cap, a.seqno);
      }
    } else {
      assert Seen([]) == {};
    }
  }

  lemma SeenSnoc(arrivals: seq<Arrival>)
    requires arrivals != []
    ensures Seen(arrivals) == Seen(arrivals[..|arrivals| - 1]) + {arrivals[|arrivals| - 1].seqno}
  {
    var init, a := arrivals[..|arrivals| - 1], arrivals[|arrivals| - 1];
    forall x | x in Seen(arrivals) ensures x in Seen(init) + {a.seqno} {
      var i :| 0 <= i < |arrivals| && arrivals[i].seqno == x;
      if i < |init| { assert init[i].seqno == x; }
    }
    forall x | x in Seen(init) + {a.seqno} ensures x in Seen(arrivals) {
      if x in Seen(init) {
        var i :| 0 <= i < |init| && init[i].seqno == x;
        assert arrivals[i].seqno == x;
      } else {
        assert arrivals[|init|].seqno == x;
      }
    }
  }

  /** Seen before, with fewer than cap distinct larger seqs seen. */
  ghost predicate IsDuplicate(cap: nat, before: seq<Arrival>, s: nat) {
    s in Seen(before) && |Larger(Seen(before), s)| < cap
  }

  lemma InTopIff(w: set<nat>, s: set<nat>, cap: nat, x: nat)
    requires IsTop(w, s, cap)
    ensures x in w <==> x in s && |Larger(s, x)| < cap
  {
    if x in w {
      SubsetSize(Larger(s, x), w - {x});
    } else if x in s {
      SubsetSize(w, Larger(s, x));
    }
  }

  /** So the window recognizes exactly those duplicates. */
  lemma DuplicateIff(cap: nat, before: seq<Arrival>, a: Arrival)
    ensures Run(cap, before + [a]).duplicates ==
              Run(cap, before).duplicates + (if IsDuplicate(cap, before, a.seqno) then 1 else 0)
  {
    assert (before + [a])[..|before|] == before;
    WindowIsTop(cap, before);
    InTopIff(Run(cap, before).window, Seen(before), cap, a.seqno);
  }

  // ---------------------------------------------------------------------
  // Accounting against the history
  // ---------------------------------------------------------------------

  ghost predicate IsMaxOf(arrivals: seq<Arrival>, m: int) {
    if arrivals == [] then m == -1 else m >= 0 && m in Seen(arrivals) && forall x :: x in Seen(arrivals) ==> x <= m
  }

  /** How far an arrival is behind the largest seq before it. */
  ghost function Lateness(before: seq<Arrival>, s: nat): nat {
    if Larger(Seen(before), s) == {} then 0 else MaxSeq(before) - s
  }

  ghost function MaxSeq(arrivals: seq<Arrival>): (m: int)
    ensures IsMaxOf(arrivals, m)
  {
    if arrivals == [] then -1 else
    SeenSnoc(arrivals);
    var m := MaxSeq(arrivals[..|arrivals| - 1]);
    var s := arrivals[|arrivals| - 1].seqno;
    if s > m then s else m
  }

  datatype Bin = Counted | Duplicate | Late(d: nat) | OnPlane(p: nat) | NewMaximum | Again

  ghost predicate Falls(cap: nat, before: seq<Arrival>, a: Arrival, bin: Bin) {
    var dup := IsDuplicate(cap, before, a.seqno);
    match bin
    case Counted => !dup
    case Duplicate => dup
    case Late(d) => !dup && Lateness(before, a.seqno) == d
    case OnPlane(p) => !dup && a.plane == Some(p)
    case NewMaximum => forall x :: x in Seen(before) ==> x < a.seqno
    case Again => !dup && a.seqno in Seen(before)
  }

  /** How many arrivals fall in a bin. */
  ghost function Count(cap: nat, arrivals: seq<Arrival>, bin: Bin): nat {
    if arrivals == [] then 0 else
    var init := arrivals[..|arrivals| - 1];
    Count(cap, init, bin) + (if Falls(cap, init, arrivals[|arrivals| - 1], bin) then 1 else 0)
  }

  lemma {:induction false} CountersMatchHistory(cap: nat, arrivals: seq<Arrival>)
    ensures var st := Run(cap, arrivals);
            && st.lastSeq == MaxSeq(arrivals)
            && st.firstSeq == (if arrivals == [] then None else Some(arrivals[0].seqno))
            && st.received == Count(cap, arrivals, Counted)
            && st.duplicates == Count(cap, arrivals, Duplicate)
            && st.received + st.duplicates == |arrivals|
  {
    if arrivals != [] {
      var init := arrivals[..|arrivals| - 1];
      CountersMatchHistory(cap, init);
      WindowIsTop(cap, init);
      InTopIff(Run(cap, init).window, Seen(init), cap, arrivals[|arrivals| - 1].seqno);
    }
  }

  lemma LatenessIs(before: seq<Arrival>, s: nat)
    ensures Lateness(before, s) == if s > MaxSeq(before) then 0 else MaxSeq(before) - s
  {
    var m := MaxSeq(before);
    if s < m {
      assert m in Larger(Seen(before), s);
    }
  }

  /** Every histogram bin is the number of counted arrivals that late. */
  lemma {:induction false} BinsMatchHistory(cap: nat, arrivals: seq<Arrival>, k: nat)
    ensures At(Run(cap, arrivals).hist, k) == Count(cap, arrivals, Late(k))
  {
    if arrivals != [] {
      var init, a := arrivals[..|arrivals| - 1], arrivals[|arrivals| - 1];
      BinsMatchHistory(cap, init, k);
      CountersMatchHistory(cap, init);
      WindowIsTop(cap, init);
      InTopIff(Run(cap, init).window, Seen(init), cap, a.seqno);
      LatenessIs(init, a.seqno);
    }
  }

  /** Every per-plane count is the number of counted arrivals on that plane. */
  lemma {:induction false} PlanesMatchHistory(cap: nat, arrivals: seq<Arrival>, p: nat)
    ensures At(Run(cap, arrivals).perPlane, p) == Count(cap, arrivals, OnPlane(p))
  {
    if arrivals != [] {
      var init, a := arrivals[..|arrivals| - 1], arrivals[|arrivals| - 1];
      PlanesMatchHistory(cap, init, p);
      WindowIsTop(cap, init);
      InTopIff(Run(cap, init).window, Seen(init), cap, a.seqno);
    }
  }

  /** The largest seq is always recognized as a duplicate, unless the window holds nothing. */
  lemma ZeroLateness(cap: nat, before: seq<Arrival>, a: Arrival)
    requires cap >= 1
    ensures Falls(cap, before, a, Late(0)) <==> Falls(cap, before, a, NewMaximum)
  {
    LatenessIs(before, a.seqno);
    if a.seqno == MaxSeq(before) {
      assert Larger(Seen(before), a.seqno) == {};
    }
  }

  lemma {:induction false} BinZeroCounts(cap: nat, arrivals: seq<Arrival>)
    requires cap >= 1
    ensures Count(cap, arrivals, Late(0)) == Count(cap, arrivals, NewMaximum)
  {
    if arrivals != [] {
      var init := arrivals[..|arrivals| - 1];
      BinZeroCounts(cap, init);
      ZeroLateness(cap, init, arrivals[|arrivals| - 1]);
    }
  }

  ghost predicate BinZeroIsNewMaxima(cap: nat) {
    forall arrivals :: At(Run(cap, arrivals).hist, 0) == Count(cap, arrivals, NewMaximum)
  }

  /** Bin 0 counts exactly the strict new maxima iff the window can hold anything. */
  lemma BinZeroIff(cap: nat)
    ensures BinZeroIsNewMaxima(cap) <==> cap >= 1
  {
    if cap >= 1 {
      forall arrivals ensures At(Run(cap, arrivals).hist, 0) == Count(cap, arrivals, NewMaximum) {
        BinsMatchHistory(cap, arrivals, 0);
        BinZeroCounts(cap, arrivals);
      }
    } else {
      var a := Arrival(5, None);
      BinZeroWithoutWindow(a);
    }
  }

  lemma BinZeroWithoutWindow(a: Arrival)
    ensures At(Run(0, [a, a]).hist, 0) == 2 && Count(0, [a, a], NewMaximum) == 1
  {
    assert [a, a][..1] == [a] && [a][..0] == [];
    assert Seen([a]) == {a.seqno} by { assert [a][0].seqno == a.seqno; }
    assert Seen([]) == {};
    WindowIsTop(0, [a]);
    WindowIsTop(0, []);
    assert Run(0, []) == EMPTY;
    assert Run(0, [a]).lastSeq == a.seqno && At(Run(0, [a]).hist, 0) == 1;
    assert Count(0, [], NewMaximum) == 0;
    assert Count(0, [a], NewMaximum) == 1;
  }

  // ---------------------------------------------------------------------
  // Loss
  // ---------------------------------------------------------------------

  function Expected(st: Stats): int { if st.firstSeq.None? then 0 else st.lastSeq - st.firstSeq.value + 1 }

  function Loss(st: Stats): nat {
    if Expected(st) > st.received then Expected(st) - st.received else 0
  }

  /** Seqs from the first arrival's to the largest that were never seen. */
  ghost function NeverSeen(arrivals: seq<Arrival>): set<nat>
    requires arrivals != []
  {
    Interval(arrivals[0].seqno, MaxSeq(arrivals) + 1) - Seen(arrivals)
  }

  /** Counted arrivals are the distinct seqs and the duplicates the window missed. */
  lemma {:induction false} CountedSplits(cap: nat, arrivals: seq<Arrival>)
    ensures Count(cap, arrivals, Counted) == |Seen(arrivals)| + Count(cap, arrivals, Again)
  {
    if arrivals != [] {
      var init, s := arrivals[..|arrivals| - 1], arrivals[|arrivals| - 1].seqno;
      CountedSplits(cap, init);
      SeenSnoc(arrivals);
      assert |Seen(init) + {s}| == |Seen(init)| + (if s in Seen(init) then 0 else 1) by {
        if s in Seen(init) { assert Seen(init) + {s} == Seen(init); }
      }
    } else {
      assert Seen(arrivals) == {};
    }
  }

  ghost function Below(s: set<nat>, first: nat): set<nat> { set x | x in s && x < first }

  lemma PartitionSize<T>(s: set<T>, a: set<T>, b: set<T>)
    requires s == a + b && a !! b
    ensures |s| == |a| + |b|
  {
  }

  lemma RangeSplits(arrivals: seq<Arrival>)
    requires arrivals != []
    ensures var first := arrivals[0].seqno;
            MaxSeq(arrivals) - first + 1 == |NeverSeen(arrivals)| + |Seen(arrivals)| - |Below(Seen(arrivals), first)|
  {
    var first, last := arrivals[0].seqno, MaxSeq(arrivals);
    var seen, range := Seen(arrivals), Interval(first, last + 1);
    assert first in seen;
    IntervalSize(first, last + 1);
    assert forall x :: x in seen ==> x <= last;
    PartitionSize(seen, Below(seen, first), seen * range);
    PartitionSize(range, range - seen, seen * range);
  }

  /** `loss` never overstates the seqs that were never seen, and states them
      exactly iff there are none, or the window missed no duplicate and nothing
      arrived below the first arrival. */
  lemma LossIff(cap: nat, arrivals: seq<Arrival>)
    requires arrivals != []
    ensures var loss, missing := Loss(Run(cap, arrivals)), |NeverSeen(arrivals)|;
            && loss <= missing
            && (loss == missing <==>
                  || missing == 0
                  || (Count(cap, arrivals, Again) == 0 && forall x :: x in Seen(arrivals) ==> arrivals[0].seqno <= x))
  {
    CountersMatchHistory(cap, arrivals);
    CountedSplits(cap, arrivals);
    RangeSplits(arrivals);
    var below := Below(Seen(arrivals), arrivals[0].seqno);
    assert |below| == 0 <==> below == {};
    if x :| x in Seen(arrivals) && x < arrivals[0].seqno { assert x in below; }
  }

  lemma NotSeenCounts(cap: nat, arrivals: seq<Arrival>, a: Arrival)
    requires a.seqno !in Seen(arrivals)
    ensures var st, next := Run(cap, arrivals), Run(cap, arrivals + [a]);
            && next.received == st.received + 1
            && next.lastSeq == (if a.seqno > st.lastSeq then a.seqno else st.lastSeq)
            && next.firstSeq == (if st.firstSeq.None? then Some(a.seqno) else st.firstSeq)
  {
    WindowIsTop(cap, arrivals);
    assert (arrivals + [a])[..|arrivals|] == arrivals;
  }

  /** An arrival before the first one hides a loss: 6 is never seen, and the loss is 0. */
  lemma EarlyArrivalHidesLoss(cap: nat)
    ensures var a := [Arrival(5, None)] + [Arrival(3, None)] + [Arrival(7, None)];
            Loss(Run(cap, a)) == 0 && 6 in NeverSeen(a)
  {
    var one := [Arrival(5, None)];
    var two := one + [Arrival(3, None)];
    var three := two + [Arrival(7, None)];
    assert [] + one == one;
    NotSeenCounts(cap, [], Arrival(5, None));
    NotSeenCounts(cap, one, Arrival(3, None));
    NotSeenCounts(cap, two, Arrival(7, None));
    assert three[2].seqno in Seen(three);
    assert 6 !in Seen(three);
  }

  // ---------------------------------------------------------------------
  // Histogram mass and percentiles
  // ---------------------------------------------------------------------

  /** Arrivals with lateness at most d. */
  function MassUpTo(hist: map<nat, nat>, d: int): nat
    decreases d + 1
  {
    if d < 0 then 0 else MassUpTo(hist, d - 1) + At(hist, d)
  }

  lemma {:induction false} MassAfterBump(hist: map<nat, nat>, k: nat, d: int)
    ensures MassUpTo(Bump(hist, k), d) == MassUpTo(hist, d) + (if k <= d then 1 else 0)
    decreases d + 1
  {
    if d >= 0 { MassAfterBump(hist, k, d - 1); }
  }

  lemma {:induction false} MassOfNothing(d: int)
    ensures MassUpTo(map[], d) == 0
    decreases d + 1
  {
    if d >= 0 { MassOfNothing(d - 1); }
  }

  /** Every counted arrival is in the histogram, once. */
  lemma {:induction false} MassIsReceived(cap: nat, arrivals: seq<Arrival>, d: int)
    requires d >= 0 && d >= MaxSeq(arrivals)
    ensures MassUpTo(Run(cap, arrivals).hist, d) == Run(cap, arrivals).received
  {
    if arrivals == [] {
      MassOfNothing(d);
    } else {
      var init, a := arrivals[..|arrivals| - 1], arrivals[|arrivals| - 1];
      MassIsReceived(cap, init, d);
      CountersMatchHistory(cap, init);
      var st := Run(cap, init);
      MassAfterBump(st.hist, if a.seqno > st.lastSeq then 0 else st.lastSeq - a.seqno, d);
    }
  }

  predicate StrictlyIncreasing(s: seq<nat>) { forall i, j :: 0 <= i < j < |s| ==> s[i] < s[j] }

  method Sorted(keys: set<nat>) returns (s: seq<nat>)
    ensures StrictlyIncreasing(s) && forall k :: k in s <==> k in keys
  {
    s := [];
    var rest := keys;
    while rest != {}
      invariant rest <= keys && StrictlyIncreasing(s)
      invariant forall k :: k in s <==> k in keys && k !in rest
      invariant forall k, r :: k in s && r in rest ==> k < r
    {
      var m := MinOf(rest);
      assert forall i :: 0 <= i < |s| ==> s[i] in s;
      s := s + [m];
      rest := rest - {m};
    }
  }

  lemma {:induction false} MassFlat(hist: map<nat, nat>, a: int, b: int)
    requires a <= b && forall k :: k in hist ==> k <= a || k > b
    ensures MassUpTo(hist, a) == MassUpTo(hist, b)
    decreases b - a
  {
    if a < b { MassFlat(hist, a, b - 1); }
  }

  /** The mass at or below the i-th sorted key. */
  lemma MassAtKey(hist: map<nat, nat>, keys: seq<nat>, i: nat)
    requires StrictlyIncreasing(keys) && (forall k :: k in keys <==> k in hist) && i < |keys|
    ensures MassUpTo(hist, keys[i]) == (if i == 0 then 0 else MassUpTo(hist, keys[i - 1])) + hist[keys[i]]
    ensures forall e :: (i == 0 || keys[i - 1] <= e) && -1 <= e < keys[i] ==>
              MassUpTo(hist, e) == if i == 0 then 0 else MassUpTo(hist, keys[i - 1])
  {
    var low := if i == 0 then -1 else keys[i - 1];
    forall k | k in hist ensures k <= low || k >= keys[i] {
      var j :| 0 <= j < |keys| && keys[j] == k;
      if j < i - 1 { assert keys[j] < keys[i - 1]; }
      if i < j { assert keys[i] < keys[j]; }
    }
    forall e | low <= e < keys[i] ensures MassUpTo(hist, e) == MassUpTo(hist, low) {
      MassFlat(hist, low, e);
    }
  }

  /** An upper bound of the keys, -1 if there are none. */
  ghost function Bound(keys: set<nat>): (b: int)
    ensures b >= -1 && forall k :: k in keys ==> k <= b
  {
    if keys == {} then -1 else
    var k :| k in keys;
    assert keys == keys - {k} + {k};
    var b := Bound(keys - {k});
    if k > b then k else b
  }

  ghost function Mass(hist: map<nat, nat>): nat { MassUpTo(hist, Bound(hist.Keys)) }

  lemma MassEquals(cap: nat, arrivals: seq<Arrival>)
    ensures Mass(Run(cap, arrivals).hist) == Run(cap, arrivals).received
  {
    var hist := Run(cap, arrivals).hist;
    var b := Bound(hist.Keys);
    var d := if b > MaxSeq(arrivals) then b else if MaxSeq(arrivals) > 0 then MaxSeq(arrivals) else 0;
    MassIsReceived(cap, arrivals, d);
    MassFlat(hist, b, d);
  }

  method SumValues(hist: map<nat, nat>, keys: seq<nat>) returns (total: nat)
    requires StrictlyIncreasing(keys) && (forall k :: k in keys <==> k in hist) && keys != []
    ensures total == Mass(hist) == MassUpTo(hist, keys[|keys| - 1])
  {
    total := 0;
    for i := 0 to |keys|
      invariant total == if i == 0 then 0 else MassUpTo(hist, keys[i - 1])
    {
      MassAtKey(hist, keys, i);
      assert keys[i] in hist;
      total := total + hist[keys[i]];
    }
    var last := keys[|keys| - 1];
    forall k | k in hist ensures k <= last {
      var j :| 0 <= j < |keys| && keys[j] == k;
      if j < |keys| - 1 { assert keys[j] < last; }
    }
    assert last in hist;
    MassFlat(hist, last, Bound(hist.Keys));
  }

  /** The smallest D such that the counted arrivals at most D late reach the target. */
  ghost predicate IsPercentile(hist: map<nat, nat>, target: real, d: nat) {
    MassUpTo(hist, d) as real >= target && forall e :: 0 <= e < d ==> (MassUpTo(hist, e) as real) < target
  }

  lemma {:induction false} MassGrows(hist: map<nat, nat>, a: int, b: int)
    requires a <= b
    ensures MassUpTo(hist, a) <= MassUpTo(hist, b)
    decreases b - a
  {
    if a < b { MassGrows(hist, a, b - 1); }
  }

  /** The first sorted key whose mass reaches the target is the percentile. */
  lemma FirstReaching(hist: map<nat, nat>, keys: seq<nat>, i: nat, target: real)
    requires StrictlyIncreasing(keys) && (forall k :: k in keys <==> k in hist) && i < |keys|
    requires (if i == 0 then 0 else MassUpTo(hist, keys[i - 1])) as real < target
    ensures forall e :: 0 <= e < keys[i] ==> (MassUpTo(hist, e) as real) < target
  {
    MassAtKey(hist, keys, i);
    forall e | 0 <= e < keys[i] ensures (MassUpTo(hist, e) as real) < target {
      if i > 0 && e <= keys[i - 1] { MassGrows(hist, e, keys[i - 1]); }
    }
  }

  /** pct percent of a total. */
  function Target(total: nat, pct: real): real {
    if total == 0 then 0.0 else Target(total - 1, pct) + pct / 100.0
  }

  lemma {:induction false} TargetIs(total: nat, pct: real)
    ensures Target(total, pct) == total as real * pct / 100.0
    ensures total > 0 && 0.0 < pct <= 100.0 ==> 0.0 < Target(total, pct) <= total as real
  {
    if total > 0 { TargetIs(total - 1, pct); }
  }

  method TargetOf(total: nat, pct: real) returns (target: real)
    requires 0.0 < pct <= 100.0
    ensures target == Target(total, pct)
    ensures target <= total as real && (total > 0 ==> 0.0 < target)
  {
    TargetIs(total, pct);
    target := total as real * pct / 100.0;
  }

  /** The smallest bin at which the target is reached. */
  ghost predicate IsLeastBin(hist: map<nat, nat>, target: real, d: nat) {
    && d in hist && MassUpTo(hist, d) as real >= target
    && forall k :: k in hist && k < d ==> (MassUpTo(hist, k) as real) < target
  }

  ghost predicate AtLeastPercent(m: nat, total: nat, pct: real) { 100.0 * m as real >= pct * total as real }

  /** At least pct percent of the counted arrivals are at most d late. */
  ghost predicate Covers(hist: map<nat, nat>, pct: real, d: nat) { AtLeastPercent(MassUpTo(hist, d), Mass(hist), pct) }

  lemma {:induction false} TargetTimes(total: nat, pct: real)
    ensures 100.0 * Target(total, pct) == pct * total as real
  {
    if total > 0 {
      TargetTimes(total - 1, pct);
      assert pct * total as real == pct * (total - 1) as real + pct;
    }
  }

  lemma Hundredfold(m: real, t: real, all: real)
    requires 100.0 * t == all
    ensures 100.0 * m >= all <==> m >= t
  {
  }

  lemma ReachesIff(m: nat, total: nat, pct: real)
    ensures AtLeastPercent(m, total, pct) <==> m as real >= Target(total, pct)
  {
    TargetTimes(total, pct);
    Hundredfold(m as real, Target(total, pct), pct * total as real);
  }

  lemma CoversIff(hist: map<nat, nat>, pct: real, d: nat)
    ensures Covers(hist, pct, d) <==> MassUpTo(hist, d) as real >= Target(Mass(hist), pct)
  {
    ReachesIff(MassUpTo(hist, d), Mass(hist), pct);
  }

  /** The smallest bin that covers pct percent. If any arrival was counted, no smaller D
      covers them either, bin or not. */
  method ReorderPercentile(hist: map<nat, nat>, pct: real) returns (r: Result<nat>)
    ensures hist == map[] ==> r == Ok(0)
    ensures hist != map[] && !(0.0 < pct <= 100.0) ==> r == Err(BadPercentile)
    ensures hist != map[] && 0.0 < pct <= 100.0 ==>
              && r.Ok? && r.value in hist && Covers(hist, pct, r.value)
              && (forall k :: k in hist && k < r.value ==> !Covers(hist, pct, k))
              && (Mass(hist) > 0 ==> forall e :: 0 <= e < r.value ==> !Covers(hist, pct, e))
  {
    if hist == map[] { return Ok(0); }
    if !(0.0 < pct <= 100.0) { return Err(BadPercentile); }
    var d := PercentileOf(hist, pct);
    forall e: nat ensures Covers(hist, pct, e) <==> MassUpTo(hist, e) as real >= Target(Mass(hist), pct) {
      CoversIff(hist, pct, e);
    }
    return Ok(d);
  }

  method PercentileOf(hist: map<nat, nat>, pct: real) returns (d: nat)
    requires hist != map[] && 0.0 < pct <= 100.0
    ensures IsLeastBin(hist, Target(Mass(hist), pct), d)
    ensures Mass(hist) > 0 ==> IsPercentile(hist, Target(Mass(hist), pct), d)
  {
    var keys := Sorted(hist.Keys);
    assert keys != [] by { var k :| k in hist; assert k in keys; }
    var total := SumValues(hist, keys);
    var target := TargetOf(total, pct);
    assert keys[|keys| - 1] in keys;
    d := FirstToReach(hist, keys, target);
  }

  lemma EarlierBins(hist: map<nat, nat>, keys: seq<nat>, i: nat, target: real)
    requires StrictlyIncreasing(keys) && (forall k :: k in keys <==> k in hist) && i < |keys|
    requires forall j :: 0 <= j < i ==> (MassUpTo(hist, keys[j]) as real) < target
    ensures forall k :: k in hist && k < keys[i] ==> (MassUpTo(hist, k) as real) < target
  {
    forall k | k in hist && k < keys[i] ensures (MassUpTo(hist, k) as real) < target {
      var j :| 0 <= j < |keys| && keys[j] == k;
      assert i < j ==> keys[i] < keys[j];
    }
  }

  method FirstToReach(hist: map<nat, nat>, keys: seq<nat>, target: real) returns (d: nat)
    requires StrictlyIncreasing(keys) && (forall k :: k in keys <==> k in hist) && keys != []
    ensures target <= MassUpTo(hist, keys[|keys| - 1]) as real ==> IsLeastBin(hist, target, d)
    ensures 0.0 < target <= MassUpTo(hist, keys[|keys| - 1]) as real ==> IsPercentile(hist, target, d)
  {
    var cum := 0;
    for i := 0 to |keys|
      invariant cum == if i == 0 then 0 else MassUpTo(hist, keys[i - 1])
      invariant forall j :: 0 <= j < i ==> (MassUpTo(hist, keys[j]) as real) < target
    {
      MassAtKey(hist, keys, i);
      EarlierBins(hist, keys, i, target);
      assert keys[i] in hist;
      if target > 0.0 { FirstReaching(hist, keys, i, target); }
      cum := cum + hist[keys[i]];
      if cum as real >= target {
        return keys[i];
      }
    }
    return keys[|keys| - 1];
  }

  // ---------------------------------------------------------------------
  // FlowStats
  // ---------------------------------------------------------------------

  class FlowStats {
    var firstSeq: Option<nat>
    var lastSeqSeen: int
    var received: nat
    var duplicates: nat
    var perPlane: map<nat, nat>
    var reorderHist: map<nat, nat>
    var window: set<nat>
    const windowCap: nat

    ghost function View(): Stats
      reads this
    {
      Stats(firstSeq, lastSeqSeen, received, duplicates, perPlane, reorderHist, window)
    }

    constructor (windowCap: nat)
      ensures this.windowCap == windowCap && View() == EMPTY
    {
      this.windowCap := windowCap;
      firstSeq, lastSeqSeen, received, duplicates := None, -1, 0, 0;
      perPlane, reorderHist, window := map[], map[], {};
    }

    method AddToWindow(seqno: nat)
      modifies this`window
      ensures window == Admit(windowCap, old(window), seqno)
    {
      window := window + {seqno};
      if |window| > windowCap {
        var m := MinOf(window);
        MinUnique(window, m);
        window := window - {m};
      }
    }

    /** The lateness of a counted arrival, and the new maximum if it is one. */
    method AddToHist(seqno: nat)
      modifies this`lastSeqSeen, this`reorderHist
      ensures reorderHist == Bump(old(reorderHist), if seqno > old(lastSeqSeen) then 0 else old(lastSeqSeen) - seqno)
      ensures lastSeqSeen == if seqno > old(lastSeqSeen) then seqno else old(lastSeqSeen)
    {
      if seqno > lastSeqSeen {
        lastSeqSeen := seqno;
        reorderHist := Bump(reorderHist, 0);
      } else {
        reorderHist := Bump(reorderHist, lastSeqSeen - seqno);
      }
    }

    method Observe(seqno: nat, plane: Option<nat>)
      modifies this
      ensures View() == ObserveStep(windowCap, old(View()), Arrival(seqno, plane))
    {
      if firstSeq.None? {
        firstSeq := Some(seqno);
      }
      if seqno in window {
        duplicates := duplicates + 1;
        return;
      }
      AddToWindow(seqno);
      received := received + 1;
      if plane.Some? {
        perPlane := Bump(perPlane, plane.value);
      }
      AddToHist(seqno);
    }
  }
}
