/** The order in which the testdata of a submission are judged. With skip_group the
    testdata are put in layers that each touch as many groups as possible. */
module Layering {
  import opened Types

  /* ---- stable sorting by an integer key, as the library does it ---- */

  predicate Bounded(xs: seq<nat>, n: nat) { forall a :: 0 <= a < |xs| ==> xs[a] < n }

  function Insert(x: nat, xs: seq<nat>, key: seq<int>): (r: seq<nat>)
    requires x < |key| && Bounded(xs, |key|)
    ensures Bounded(r, |key|) && |r| == |xs| + 1 && multiset(r) == multiset(xs) + multiset{x}
  {
    if xs == [] || key[x] <= key[xs[0]] then [x] + xs
    else
      assert xs == [xs[0]] + xs[1..];
      [xs[0]] + Insert(x, xs[1..], key)
  }

  function StableSort(xs: seq<nat>, key: seq<int>): (r: seq<nat>)
    requires Bounded(xs, |key|)
    ensures Bounded(r, |key|) && |r| == |xs| && multiset(r) == multiset(xs)
  {
    if xs == [] then []
    else
      assert xs == [xs[0]] + xs[1..];
      Insert(xs[0], StableSort(xs[1..], key), key)
  }

  /** Sorted by key, and where keys are equal in the order of the numbers themselves. */
  ghost predicate LexSorted(xs: seq<nat>, key: seq<int>)
    requires Bounded(xs, |key|)
  {
    forall a, b :: 0 <= a < b < |xs| ==> Before(xs[a], xs[b], key)
  }

  predicate Before(x: nat, y: nat, key: seq<int>)
    requires x < |key| && y < |key|
  {
    key[x] < key[y] || (key[x] == key[y] && x < y)
  }

  lemma {:induction false} InsertLexSorted(x: nat, xs: seq<nat>, key: seq<int>)
    requires x < |key| && Bounded(xs, |key|) && LexSorted(xs, key)
    requires forall a :: 0 <= a < |xs| ==> x < xs[a]
    ensures LexSorted(Insert(x, xs, key), key)
  {
    if xs == [] || key[x] <= key[xs[0]] {
      forall b | 0 <= b < |xs| ensures Before(x, xs[b], key) {
        if b > 0 { assert Before(xs[0], xs[b], key); }
      }
    } else {
      var tail := xs[1..];
      InsertLexSorted(x, tail, key);
      var rest := Insert(x, tail, key);
      forall b | 0 <= b < |rest| ensures Before(xs[0], rest[b], key) {
        assert rest[b] in multiset(rest);
        if rest[b] != x {
          assert rest[b] in tail;
          var c :| 0 <= c < |tail| && tail[c] == rest[b];
          assert Before(xs[0], xs[c + 1], key);
        }
      }
    }
  }

  lemma {:induction false} SortLexSorted(xs: seq<nat>, key: seq<int>)
    requires Bounded(xs, |key|)
    requires forall a, b :: 0 <= a < b < |xs| ==> xs[a] < xs[b]
    ensures LexSorted(StableSort(xs, key), key)
  {
    if xs != [] {
      var rest := StableSort(xs[1..], key);
      SortLexSorted(xs[1..], key);
      forall a | 0 <= a < |rest| ensures xs[0] < rest[a] {
        assert rest[a] in multiset(rest);
        assert rest[a] in xs[1..];
      }
      InsertLexSorted(xs[0], rest, key);
    }
  }

  function Iota(n: nat): (r: seq<nat>)
    ensures |r| == n && forall i :: 0 <= i < n ==> r[i] == i
  {
    seq(n, i requires 0 <= i => i)
  }

  /* ---- layers ---- */

  function GroupSet(groups: seq<nat>): set<nat> { set g | g in groups }

  predicate Contains(layer: set<nat>, groups: seq<nat>) {
    forall g :: g in groups ==> g in layer
  }

  /** By linear scan: the first layer that misses one of the groups. */
  function FirstMissing(layers: seq<set<nat>>, groups: seq<nat>): (p: nat)
    ensures p <= |layers|
    ensures forall a :: 0 <= a < p ==> Contains(layers[a], groups)
    ensures p < |layers| ==> !Contains(layers[p], groups)
  {
    if layers == [] || !Contains(layers[0], groups) then 0
    else 1 + FirstMissing(layers[1..], groups)
  }

  function AddTo(layers: seq<set<nat>>, p: nat, groups: seq<nat>): seq<set<nat>>
    requires p <= |layers|
  {
    if p == |layers| then layers + [GroupSet(groups)] else layers[p := layers[p] + GroupSet(groups)]
  }

  /** Layers and placement after the first `k` testdata of the scan order. */
  function Place(tds: seq<Testdata>, scan: seq<nat>, k: nat): (r: (seq<set<nat>>, map<nat, nat>))
    requires k <= |scan| && Bounded(scan, |tds|)
  {
    if k == 0 then ([], map[])
    else
      var (layers, layerOf) := Place(tds, scan, k - 1);
      var td := scan[k - 1];
      var p := FirstMissing(layers, tds[td].groups);
      (AddTo(layers, p, tds[td].groups), layerOf[td := p])
  }

  ghost predicate Descending(layers: seq<set<nat>>) {
    forall a, b :: 0 <= a <= b < |layers| ==> layers[b] <= layers[a]
  }

  /** Why binary search is legal here: each layer includes all later ones. */
  lemma {:induction false} LayersDescend(tds: seq<Testdata>, scan: seq<nat>, k: nat)
    requires k <= |scan| && Bounded(scan, |tds|)
    ensures Descending(Place(tds, scan, k).0)
  {
    if k > 0 {
      LayersDescend(tds, scan, k - 1);
      var layers := Place(tds, scan, k - 1).0;
      var groups := tds[scan[k - 1]].groups;
      AddKeepsDescending(layers, FirstMissing(layers, groups), groups);
    }
  }

  lemma AddKeepsDescending(layers: seq<set<nat>>, p: nat, groups: seq<nat>)
    requires Descending(layers) && p <= |layers|
    requires forall a :: 0 <= a < p ==> Contains(layers[a], groups)
    ensures Descending(AddTo(layers, p, groups))
  {
    var after := AddTo(layers, p, groups);
    forall a, b | 0 <= a <= b < |after| ensures after[b] <= after[a] {
      if b == p && a < p {
        assert GroupSet(groups) <= layers[a];
      }
    }
  }

  predicate Covered(layers: seq<set<nat>>, p: nat, groups: seq<nat>) {
    p < |layers| && forall a :: 0 <= a <= p ==> Contains(layers[a], groups)
  }

  lemma AddCovers(layers: seq<set<nat>>, p: nat, groups: seq<nat>)
    requires p <= |layers| && forall a :: 0 <= a < p ==> Contains(layers[a], groups)
    ensures Covered(AddTo(layers, p, groups), p, groups)
    ensures forall q: nat, other: seq<nat> :: Covered(layers, q, other) ==> Covered(AddTo(layers, p, groups), q, other)
  {
    var after := AddTo(layers, p, groups);
    forall q: nat, other: seq<nat> | Covered(layers, q, other) ensures Covered(after, q, other) {
      forall a | 0 <= a <= q ensures Contains(after[a], other) { assert layers[a] <= after[a]; }
    }
  }

  /** Every layer touches all groups of every testdata placed in a later layer. */
  lemma {:induction false} EarlierLayersCover(tds: seq<Testdata>, scan: seq<nat>, k: nat)
    requires k <= |scan| && Bounded(scan, |tds|)
    ensures forall y :: y in scan[..k] <==> y in Place(tds, scan, k).1
    ensures forall td :: td in Place(tds, scan, k).1 ==>
              td < |tds| && Covered(Place(tds, scan, k).0, Place(tds, scan, k).1[td], tds[td].groups)
  {
    hide Place, Covered, FirstMissing, Contains;
    if k == 0 {
      NothingPlaced(tds, scan);
    } else {
      EarlierLayersCover(tds, scan, k - 1);
      var before, x := Place(tds, scan, k - 1), scan[k - 1];
      PlaceStep(tds, scan, k - 1);
      assert scan[..k] == scan[..k - 1] + [x];
      OneMoreCovered(tds, before.0, before.1, x, FirstMissing(before.0, tds[x].groups));
    }
  }

  lemma NothingPlaced(tds: seq<Testdata>, scan: seq<nat>)
    requires Bounded(scan, |tds|)
    ensures Place(tds, scan, 0) == ([], map[])
  {
  }

  lemma OneMoreCovered(tds: seq<Testdata>, layers: seq<set<nat>>, layerOf: map<nat, nat>, x: nat, p: nat)
    requires x < |tds| && p <= |layers| && forall a :: 0 <= a < p ==> Contains(layers[a], tds[x].groups)
    requires forall td :: td in layerOf ==> td < |tds| && Covered(layers, layerOf[td], tds[td].groups)
    ensures forall td :: td in layerOf[x := p] ==>
              td < |tds| && Covered(AddTo(layers, p, tds[x].groups), layerOf[x := p][td], tds[td].groups)
  {
    AddCovers(layers, p, tds[x].groups);
    hide AddTo, Covered;
    forall td | td in layerOf[x := p]
      ensures td < |tds| && Covered(AddTo(layers, p, tds[x].groups), layerOf[x := p][td], tds[td].groups)
    {
      if td != x { assert td in layerOf; }
    }
  }

  /** A group of the problem is touched by the layer judged first, if any testdata has it. */
  lemma LayerZeroTouchesAll(tds: seq<Testdata>, scan: seq<nat>, td: nat, g: nat)
    requires Bounded(scan, |tds|)
    requires td in scan && g in tds[td].groups
    ensures var layers := Place(tds, scan, |scan|).0; |layers| > 0 && g in layers[0]
  {
    EarlierLayersCover(tds, scan, |scan|);
    assert scan[..|scan|] == scan;
    assert td in Place(tds, scan, |scan|).1;
    var (layers, layerOf) := Place(tds, scan, |scan|);
    assert Contains(layers[0], tds[td].groups);
  }

  /** std::lower_bound over the layers. */
  method LowerBound(layers: seq<set<nat>>, groups: seq<nat>) returns (p: nat)
    requires Descending(layers)
    ensures p == FirstMissing(layers, groups)
  {
    var lo, n := 0, |layers|;
    while n > 0
      invariant 0 <= lo && 0 <= n && lo + n <= |layers|
      invariant forall a :: 0 <= a < lo ==> Contains(layers[a], groups)
      invariant lo + n < |layers| ==> !Contains(layers[lo + n], groups)
    {
      var half := n / 2;
      var mid := lo + half;
      if Contains(layers[mid], groups) {
        forall a | 0 <= a <= mid ensures Contains(layers[a], groups) {
          assert layers[mid] <= layers[a];
        }
        lo, n := mid + 1, n - half - 1;
      } else {
        n := half;
      }
    }
    p := lo;
  }

  /* ---- the order ---- */

  function GroupCountKey(tds: seq<Testdata>): seq<int> {
    seq(|tds|, i requires 0 <= i < |tds| => -|tds[i].groups|)
  }

  function ScanOrder(tds: seq<Testdata>): seq<nat> { StableSort(Iota(|tds|), GroupCountKey(tds)) }

  lemma ScanIsPermutation(tds: seq<Testdata>)
    ensures IsPermutation(ScanOrder(tds), |tds|)
  {
    SortedIotaIsPermutation(|tds|, GroupCountKey(tds));
  }

  /** A list of the numbers below n, each once. */
  ghost predicate IsPermutation(xs: seq<nat>, n: nat) {
    && |xs| == n
    && (forall k :: 0 <= k < n ==> xs[k] < n)
    && (forall i: nat :: i < n ==> i in xs)
    && (forall a, b :: 0 <= a < b < n ==> xs[a] != xs[b])
  }

  lemma SortedIotaIsPermutation(n: nat, key: seq<int>)
    requires |key| == n
    ensures IsPermutation(StableSort(Iota(n), key), n)
    ensures LexSorted(StableSort(Iota(n), key), key)
  {
    var iota := Iota(n);
    var xs := StableSort(iota, key);
    SortLexSorted(iota, key);
    assert |multiset(xs)| == |multiset(iota)|;
    forall i: nat | i < n ensures i in xs {
      assert iota[i] == i;
      assert i in multiset(iota);
    }
    forall a, b | 0 <= a < b < n ensures xs[a] != xs[b] { assert Before(xs[a], xs[b], key); }
  }

  function LayerKey(tds: seq<Testdata>): (key: seq<int>)
    ensures |key| == |tds|
  {
    var layerOf := Place(tds, ScanOrder(tds), |ScanOrder(tds)|).1;
    seq(|tds|, i => if i in layerOf then layerOf[i] else 0)
  }

  /** inv_order: which testdata is judged k-th. */
  function JudgingOrder(sub: Submission): (inv: seq<nat>)
    ensures |inv| == |sub.testdata| && Bounded(inv, |sub.testdata|)
  {
    if sub.skipGroup then StableSort(Iota(|sub.testdata|), LayerKey(sub.testdata)) else Iota(|sub.testdata|)
  }

  /* ---- what the layers are ---- */

  /** Looked at earlier: more groups, or equally many and a smaller index. */
  predicate Precedes(tds: seq<Testdata>, y: nat, x: nat) {
    y < |tds| && x < |tds| &&
    (|tds[y].groups| > |tds[x].groups| || (|tds[y].groups| == |tds[x].groups| && y < x))
  }

  /** Every testdata is scanned once, and in that order. */
  lemma MoreGroupsFirst(tds: seq<Testdata>, a: nat, b: nat)
    requires a < |tds| && b < |tds|
    ensures IsPermutation(ScanOrder(tds), |tds|)
    ensures Precedes(tds, ScanOrder(tds)[a], ScanOrder(tds)[b]) <==> a < b
  {
    var scan, key := ScanOrder(tds), GroupCountKey(tds);
    SortedIotaIsPermutation(|tds|, key);
    if a < b { assert Before(scan[a], scan[b], key); }
    if b < a { assert Before(scan[b], scan[a], key); }
  }

  /** Of the testdata looked at before x, one with group g is in layer q. */
  ghost predicate Touched(tds: seq<Testdata>, layer: seq<int>, x: nat, q: int, g: nat)
    requires |layer| == |tds|
  {
    exists y: nat :: Precedes(tds, y, x) && layer[y] == q && g in tds[y].groups
  }

  /** A layer to which x would add no group. */
  ghost predicate Full(tds: seq<Testdata>, layer: seq<int>, x: nat, q: int)
    requires |layer| == |tds| && x < |tds|
  {
    && (exists y: nat :: Precedes(tds, y, x) && layer[y] == q)
    && forall g :: g in tds[x].groups ==> Touched(tds, layer, x, q, g)
  }

  /** Every testdata is in the first layer that it adds a group to, or in a new one. */
  ghost predicate IsLayering(tds: seq<Testdata>, layer: seq<int>) {
    |layer| == |tds| && forall x: nat :: x < |tds| ==> InFirst(tds, layer, x)
  }

  ghost predicate InFirst(tds: seq<Testdata>, layer: seq<int>, x: nat)
    requires |layer| == |tds| && x < |tds|
  {
    layer[x] >= 0 && !Full(tds, layer, x, layer[x]) && forall q :: 0 <= q < layer[x] ==> Full(tds, layer, x, q)
  }

  /** One of the first `k` testdata of the scan is in layer q. */
  ghost predicate Used(scan: seq<nat>, k: nat, layer: seq<int>, q: int)
    requires k <= |scan| && Bounded(scan, |layer|)
  {
    exists a :: 0 <= a < k && layer[scan[a]] == q
  }

  /** And has group g. */
  ghost predicate Holds(tds: seq<Testdata>, scan: seq<nat>, k: nat, layer: seq<int>, q: int, g: nat)
    requires k <= |scan| && Bounded(scan, |layer|) && |layer| == |tds|
  {
    exists a :: 0 <= a < k && layer[scan[a]] == q && g in tds[scan[a]].groups
  }

  /** The layers made of the first `k` testdata hold the groups of those put there. */
  ghost predicate Placed(tds: seq<Testdata>, scan: seq<nat>, k: nat, layer: seq<int>)
    requires k <= |scan| && Bounded(scan, |layer|) && |layer| == |tds|
  {
    var layers := Place(tds, scan, k).0;
    && (forall q :: 0 <= q < |layers| <==> Used(scan, k, layer, q))
    && (forall q, g :: 0 <= q < |layers| ==> (g in layers[q] <==> Holds(tds, scan, k, layer, q, g)))
  }

  lemma {:induction false} NobodyMoves(tds: seq<Testdata>, scan: seq<nat>, k: nat, n: nat)
    requires k < n <= |scan| && Bounded(scan, |tds|) && forall m :: k < m < |scan| ==> scan[m] != scan[k]
    ensures scan[k] in Place(tds, scan, n).1
    ensures Place(tds, scan, n).1[scan[k]] == FirstMissing(Place(tds, scan, k).0, tds[scan[k]].groups)
  {
    hide Place, FirstMissing, AddTo, Contains;
    PlaceStep(tds, scan, n - 1);
    if k < n - 1 { NobodyMoves(tds, scan, k, n - 1); }
  }

  lemma PlacedNext(tds: seq<Testdata>, scan: seq<nat>, k: nat, layer: seq<int>)
    requires k < |scan| && Bounded(scan, |layer|) && |layer| == |tds| && Placed(tds, scan, k, layer)
    requires layer[scan[k]] == FirstMissing(Place(tds, scan, k).0, tds[scan[k]].groups)
    ensures Placed(tds, scan, k + 1, layer)
  {
    var layers, x, n := Place(tds, scan, k).0, scan[k], k + 1;
    var groups := tds[x].groups;
    var p := FirstMissing(layers, groups);
    assert Place(tds, scan, n).0 == AddTo(layers, p, groups);
    forall q ensures Used(scan, n, layer, q) <==> Used(scan, k, layer, q) || q == p {
      assert layer[scan[k]] == p;
    }
    forall q, g
      ensures Holds(tds, scan, n, layer, q, g) <==> Holds(tds, scan, k, layer, q, g) || (q == p && g in groups)
    {
      assert layer[scan[k]] == p;
    }
    var after := Place(tds, scan, n).0;
    forall q ensures 0 <= q < |after| <==> Used(scan, n, layer, q) {
      assert 0 <= q < |layers| <==> Used(scan, k, layer, q);
    }
    forall q, g | 0 <= q < |after|
      ensures g in after[q] <==> Holds(tds, scan, n, layer, q, g)
    {
      assert q == |layers| ==> !Used(scan, k, layer, q);
    }
  }

  /** x goes into the first layer that its groups are missing from. */
  lemma PlacedFirst(tds: seq<Testdata>, k: nat, layer: seq<int>)
    requires k < |tds| == |layer| == |ScanOrder(tds)| && Bounded(ScanOrder(tds), |layer|)
    requires Placed(tds, ScanOrder(tds), k, layer)
    requires layer[ScanOrder(tds)[k]] ==
             FirstMissing(Place(tds, ScanOrder(tds), k).0, tds[ScanOrder(tds)[k]].groups)
    ensures InFirst(tds, layer, ScanOrder(tds)[k])
  {
    var scan := ScanOrder(tds);
    var layers, x := Place(tds, scan, k).0, scan[k];
    ScanIsPermutation(tds);
    forall y: nat ensures Precedes(tds, y, x) <==> y in scan[..k] {
      if y < |tds| {
        assert y in scan;
        var a :| 0 <= a < |scan| && scan[a] == y;
        MoreGroupsFirst(tds, a, k);
      }
    }
    hide ScanOrder, Precedes, Place;
    forall q: int
      ensures Full(tds, layer, x, q) <==> 0 <= q < |layers| && Contains(layers[q], tds[x].groups)
    {
      UsedMeans(tds, scan, k, layer, x, q);
      forall g: nat ensures Touched(tds, layer, x, q, g) <==> Holds(tds, scan, k, layer, q, g) {
        HoldsMeans(tds, scan, k, layer, x, q, g);
      }
    }
  }

  lemma UsedMeans(tds: seq<Testdata>, scan: seq<nat>, k: nat, layer: seq<int>, x: nat, q: int)
    requires k <= |scan| && Bounded(scan, |layer|) && |layer| == |tds|
    requires forall y: nat :: Precedes(tds, y, x) <==> y in scan[..k]
    ensures (exists y: nat :: Precedes(tds, y, x) && layer[y] == q) <==> Used(scan, k, layer, q)
  {
    if y: nat :| Precedes(tds, y, x) && layer[y] == q {
      var a :| 0 <= a < k && scan[..k][a] == y;
      assert layer[scan[a]] == q;
    }
    if a :| 0 <= a < k && layer[scan[a]] == q {
      assert scan[a] in scan[..k];
    }
  }

  lemma HoldsMeans(tds: seq<Testdata>, scan: seq<nat>, k: nat, layer: seq<int>, x: nat, q: int, g: nat)
    requires k <= |scan| && Bounded(scan, |layer|) && |layer| == |tds|
    requires forall y: nat :: Precedes(tds, y, x) <==> y in scan[..k]
    ensures Touched(tds, layer, x, q, g) <==> Holds(tds, scan, k, layer, q, g)
  {
    if Touched(tds, layer, x, q, g) {
      var y: nat :| Precedes(tds, y, x) && layer[y] == q && g in tds[y].groups;
      var a :| 0 <= a < k && scan[..k][a] == y;
      assert layer[scan[a]] == q;
    }
    if Holds(tds, scan, k, layer, q, g) {
      var a :| 0 <= a < k && layer[scan[a]] == q && g in tds[scan[a]].groups;
      assert scan[a] in scan[..k];
    }
  }

  lemma KeyIsPlace(tds: seq<Testdata>, k: nat)
    requires k < |tds| == |ScanOrder(tds)| && Bounded(ScanOrder(tds), |tds|)
    ensures LayerKey(tds)[ScanOrder(tds)[k]] ==
            FirstMissing(Place(tds, ScanOrder(tds), k).0, tds[ScanOrder(tds)[k]].groups)
  {
    ScanIsPermutation(tds);
    hide ScanOrder, Place, FirstMissing;
    NobodyMoves(tds, ScanOrder(tds), k, |tds|);
  }

  lemma NobodyPlaced(tds: seq<Testdata>, scan: seq<nat>, layer: seq<int>)
    requires Bounded(scan, |layer|) && |layer| == |tds|
    ensures Placed(tds, scan, 0, layer)
  {
    NothingPlaced(tds, scan);
  }

  lemma {:induction false} PlacedSoFar(tds: seq<Testdata>, k: nat)
    requires k <= |tds| == |ScanOrder(tds)| && Bounded(ScanOrder(tds), |tds|)
    ensures Placed(tds, ScanOrder(tds), k, LayerKey(tds))
    ensures forall a :: 0 <= a < k ==> InFirst(tds, LayerKey(tds), ScanOrder(tds)[a])
  {
    hide Place, ScanOrder, Placed, InFirst, FirstMissing, LayerKey;
    if k == 0 {
      NobodyPlaced(tds, ScanOrder(tds), LayerKey(tds));
    } else {
      PlacedSoFar(tds, k - 1);
      KeyIsPlace(tds, k - 1);
      PlacedFirst(tds, k - 1, LayerKey(tds));
      PlacedNext(tds, ScanOrder(tds), k - 1, LayerKey(tds));
    }
  }

  lemma LayersAreGreedy(tds: seq<Testdata>)
    ensures IsLayering(tds, LayerKey(tds))
  {
    ScanIsPermutation(tds);
    PlacedSoFar(tds, |tds|);
    forall x: nat | x < |tds| ensures InFirst(tds, LayerKey(tds), x) { assert x in ScanOrder(tds); }
  }

  /** There is no other such layering. */
  lemma {:induction false} OneLayering(tds: seq<Testdata>, a: seq<int>, b: seq<int>, k: nat)
    requires IsLayering(tds, a) && IsLayering(tds, b) && k <= |tds|
    ensures |ScanOrder(tds)| == |tds| && Bounded(ScanOrder(tds), |tds|)
    ensures forall m :: 0 <= m < k ==> a[ScanOrder(tds)[m]] == b[ScanOrder(tds)[m]]
  {
    ScanIsPermutation(tds);
    if k > 0 {
      OneLayering(tds, a, b, k - 1);
      var x := ScanOrder(tds)[k - 1];
      forall y: nat | Precedes(tds, y, x) ensures a[y] == b[y] {
        assert y in ScanOrder(tds);
        var m :| 0 <= m < |tds| && ScanOrder(tds)[m] == y;
        MoreGroupsFirst(tds, m, k - 1);
      }
      hide ScanOrder, Precedes;
      forall q ensures Full(tds, a, x, q) <==> Full(tds, b, x, q) { SameFull(tds, a, b, x, q); }
      assert InFirst(tds, a, x) && InFirst(tds, b, x);
    }
  }

  lemma SameFull(tds: seq<Testdata>, a: seq<int>, b: seq<int>, x: nat, q: int)
    requires |a| == |b| == |tds| && x < |tds| && forall y: nat :: Precedes(tds, y, x) ==> a[y] == b[y]
    ensures Full(tds, a, x, q) <==> Full(tds, b, x, q)
  {
    assert forall g: nat :: Touched(tds, a, x, q, g) <==> Touched(tds, b, x, q, g);
  }

  /** td_order: the number each testdata gets. */
  ghost predicate Numbers(order: seq<nat>, inv: seq<nat>) {
    |order| == |inv| && forall k :: 0 <= k < |inv| ==> inv[k] < |order| && order[inv[k]] == k
  }

  function IndexOf(xs: seq<nat>, x: nat): (k: nat)
    requires x in xs
    ensures k < |xs| && xs[k] == x
  {
    if xs[0] == x then 0 else 1 + IndexOf(xs[1..], x)
  }

  function TdOrder(sub: Submission): (order: seq<nat>)
    ensures |order| == |sub.testdata| && Bounded(order, |sub.testdata|)
  {
    var inv := JudgingOrder(sub);
    seq(|sub.testdata|, i => if i in inv then IndexOf(inv, i) else 0)
  }

  /** Every testdata is judged, once, layer by layer and within a layer in its own order. */
  lemma JudgingOrderIsLayered(sub: Submission)
    ensures IsPermutation(JudgingOrder(sub), |sub.testdata|)
    ensures sub.skipGroup ==> LexSorted(JudgingOrder(sub), LayerKey(sub.testdata))
  {
    if sub.skipGroup {
      SortedIotaIsPermutation(|sub.testdata|, LayerKey(sub.testdata));
    } else {
      forall i: nat | i < |sub.testdata| ensures i in JudgingOrder(sub) { assert Iota(|sub.testdata|)[i] == i; }
    }
  }

  /** With skip_group layer by layer, within a layer by index; otherwise by index alone. */
  ghost predicate IsGreedyOrder(sub: Submission, inv: seq<nat>) {
    && IsPermutation(inv, |sub.testdata|)
    && (sub.skipGroup ==>
          exists layer: seq<int> :: IsLayering(sub.testdata, layer) && Bounded(inv, |layer|) && LexSorted(inv, layer))
    && (!sub.skipGroup ==> forall k :: 0 <= k < |inv| ==> inv[k] == k)
  }

  lemma OrderIsGreedy(sub: Submission)
    ensures IsGreedyOrder(sub, JudgingOrder(sub))
  {
    hide IsLayering, LayerKey, StableSort;
    JudgingOrderIsLayered(sub);
    LayersAreGreedy(sub.testdata);
  }

  lemma {:induction false} SameSorted(a: seq<nat>, b: seq<nat>, key: seq<int>, k: nat)
    requires IsPermutation(a, |key|) && IsPermutation(b, |key|) && LexSorted(a, key) && LexSorted(b, key)
    requires k <= |key|
    ensures forall j :: 0 <= j < k ==> a[j] == b[j]
  {
    if k > 0 {
      var m := k - 1;
      SameSorted(a, b, key, m);
      assert a[m] in b && b[m] in a;
      var p :| 0 <= p < |b| && b[p] == a[m];
      var q :| 0 <= q < |a| && a[q] == b[m];
      assert a[m] == b[m];
    }
  }

  /** There is only one such order. */
  lemma OneGreedyOrder(sub: Submission, a: seq<nat>, b: seq<nat>)
    requires IsGreedyOrder(sub, a) && IsGreedyOrder(sub, b)
    ensures a == b
  {
    if sub.skipGroup {
      var tds := sub.testdata;
      var x :| IsLayering(tds, x) && Bounded(a, |x|) && LexSorted(a, x);
      var y :| IsLayering(tds, y) && Bounded(b, |y|) && LexSorted(b, y);
      SameLayering(tds, x, y);
      hide IsLayering, LexSorted;
      SameSorted(a, b, x, |tds|);
    }
  }

  lemma SameLayering(tds: seq<Testdata>, x: seq<int>, y: seq<int>)
    requires IsLayering(tds, x) && IsLayering(tds, y)
    ensures x == y
  {
    OneLayering(tds, x, y, |tds|);
    ScanIsPermutation(tds);
    hide ScanOrder, InFirst;
    forall i: nat | i < |tds| ensures x[i] == y[i] { assert i in ScanOrder(tds); }
  }

  /** With skip_group the testdata judged first is in layer zero, with everyone of a smaller index in a later one;
      the first of those that have the most groups is in layer zero, too. */
  lemma JudgedFirst(sub: Submission, x: nat)
    requires sub.skipGroup && x < |sub.testdata|
    requires forall y: nat :: y < |sub.testdata| && y != x ==> Precedes(sub.testdata, x, y)
    ensures LayerKey(sub.testdata)[x] == 0
    ensures LayerKey(sub.testdata)[JudgingOrder(sub)[0]] == 0 && JudgingOrder(sub)[0] <= x
    ensures forall y: nat :: y < JudgingOrder(sub)[0] ==> LayerKey(sub.testdata)[y] > 0
  {
    var layer, inv := LayerKey(sub.testdata), JudgingOrder(sub);
    JudgingOrderIsLayered(sub);
    LayersAreGreedy(sub.testdata);
    hide LayerKey, JudgingOrder;
    assert InFirst(sub.testdata, layer, x);
    forall y: nat ensures !Precedes(sub.testdata, y, x) {
      if y < |sub.testdata| && y != x { assert Precedes(sub.testdata, x, y); }
    }
    assert !Full(sub.testdata, layer, x, 0);
    forall y: nat | y < |sub.testdata| && y != inv[0] ensures Before(inv[0], y, layer) && layer[y] >= 0 {
      assert y in inv;
      var k :| 0 <= k < |inv| && inv[k] == y;
      assert InFirst(sub.testdata, layer, y);
    }
    assert InFirst(sub.testdata, layer, inv[0]);
  }

  /** A testdata of one group, listed before one that has this group and another, is judged after it. */
  lemma LargerFirst(sub: Submission)
    requires sub.skipGroup && |sub.testdata| == 2
    requires sub.testdata[0].groups == [0] && sub.testdata[1].groups == [0, 1]
    ensures JudgingOrder(sub) == [1, 0] && TdOrder(sub) == [1, 0]
  {
    hide IsLayering, LexSorted, IsPermutation, Before, JudgingOrder, TdOrder;
    LargerLayered(sub.testdata, [1, 0]);
    Swapped([1, 0], [1, 0]);
    OrderIsGreedy(sub);
    OneGreedyOrder(sub, JudgingOrder(sub), [1, 0]);
    TdOrderNumbers(sub);
    SwappedNumbers(TdOrder(sub), [1, 0]);
  }

  lemma Swapped(inv: seq<nat>, key: seq<int>)
    requires inv == [1, 0] && key == [1, 0]
    ensures IsPermutation(inv, 2) && LexSorted(inv, key)
  {
    assert inv[0] == 1 && inv[1] == 0;
  }

  lemma SwappedNumbers(order: seq<nat>, inv: seq<nat>)
    requires inv == [1, 0] && Numbers(order, inv)
    ensures order == [1, 0]
  {
    assert inv[0] == 1 && inv[1] == 0;
  }

  lemma LargerLayered(tds: seq<Testdata>, layer: seq<int>)
    requires |tds| == 2 && tds[0].groups == [0] && tds[1].groups == [0, 1] && layer == [1, 0]
    ensures IsLayering(tds, layer)
  {
    assert Precedes(tds, 1, 0) && forall y: nat :: !Precedes(tds, y, 1);
    assert tds[1].groups[0] == 0;
    assert Touched(tds, layer, 0, 0, 0);
    assert 0 in tds[0].groups && !Touched(tds, layer, 0, 1, 0) by { assert tds[0].groups[0] == 0; }
    assert InFirst(tds, layer, 0);
    assert InFirst(tds, layer, 1);
  }

  lemma TdOrderNumbers(sub: Submission)
    ensures Numbers(TdOrder(sub), JudgingOrder(sub))
    ensures IsPermutation(TdOrder(sub), |sub.testdata|)
  {
    JudgingOrderIsLayered(sub);
    var order, inv, n := TdOrder(sub), JudgingOrder(sub), |sub.testdata|;
    forall i | 0 <= i < n ensures order[i] < n && inv[order[i]] == i {
      assert i in inv;
    }
    forall k | 0 <= k < n ensures order[inv[k]] == k && k in order {
      assert inv[order[inv[k]]] == inv[k];
    }
  }

  /** emplace_back where the layer is new, then insert. */
  lemma AppendThenInsert(layers: seq<set<nat>>, p: nat, groups: seq<nat>)
    requires p <= |layers|
    ensures var grown := if p == |layers| then layers + [{}] else layers;
            AddTo(layers, p, groups) == grown[p := grown[p] + GroupSet(groups)]
  {
    assert {} + GroupSet(groups) == GroupSet(groups);
  }

  lemma PlaceStep(tds: seq<Testdata>, scan: seq<nat>, k: nat)
    requires k < |scan| && Bounded(scan, |tds|)
    ensures var before, groups := Place(tds, scan, k), tds[scan[k]].groups;
            var p := FirstMissing(before.0, groups);
            Place(tds, scan, k + 1) == (AddTo(before.0, p, groups), before.1[scan[k] := p])
  {
  }

  method SkipGroupOrder(tds: seq<Testdata>) returns (inv: seq<nat>)
    ensures inv == StableSort(Iota(|tds|), LayerKey(tds))
  {
    var scan := ScanOrder(tds);
    var layers: seq<set<nat>> := [];
    var layerOf: map<nat, nat> := map[];
    assert Place(tds, scan, 0) == (layers, layerOf);
    hide Place, AddTo, StableSort, FirstMissing, Descending, Contains;
    for k := 0 to |scan|
      invariant (layers, layerOf) == Place(tds, scan, k)
    {
      LayersDescend(tds, scan, k);
      var groups := tds[scan[k]].groups;
      var p := LowerBound(layers, groups);
      AppendThenInsert(layers, p, groups);
      PlaceStep(tds, scan, k);
      if p == |layers| { layers := layers + [{}]; }
      layers := layers[p := layers[p] + GroupSet(groups)];
      layerOf := layerOf[scan[k] := p];
    }
    inv := StableSort(Iota(|tds|), seq(|tds|, i => if i in layerOf then layerOf[i] else 0));
  }

  lemma NumbersUnique(a: seq<nat>, b: seq<nat>, inv: seq<nat>)
    requires Numbers(a, inv) && Numbers(b, inv) && IsPermutation(inv, |inv|)
    ensures a == b
  {
    forall i: nat | i < |a| ensures a[i] == b[i] {
      assert i in inv;
      var k :| 0 <= k < |inv| && inv[k] == i;
      assert a[inv[k]] == k && b[inv[k]] == k;
    }
  }

  /** The numbering part of PushSubmission. */
  method AssignOrder(sub: Submission) returns (order: seq<nat>, inv: seq<nat>)
    ensures order == TdOrder(sub) && inv == JudgingOrder(sub)
    ensures IsGreedyOrder(sub, inv) && Numbers(order, inv)
  {
    var n := |sub.testdata|;
    OrderIsGreedy(sub);
    JudgingOrderIsLayered(sub);
    TdOrderNumbers(sub);
    if sub.skipGroup { inv := SkipGroupOrder(sub.testdata); } else { inv := Iota(n); }
    order := Invert(inv);
    NumbersUnique(order, TdOrder(sub), inv);
  }

  method Invert(inv: seq<nat>) returns (order: seq<nat>)
    requires IsPermutation(inv, |inv|)
    ensures Numbers(order, inv)
  {
    var a := new nat[|inv|](_ => 0);
    for i := 0 to |inv|
      invariant forall k :: 0 <= k < i ==> a[inv[k]] == k
    {
      a[inv[i]] := i;
    }
    order := a[..];
  }
}
