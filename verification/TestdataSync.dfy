/** Keeping the local copy of a problem's testdata up to date by differences. */
module TestdataSync {

  /** A row of the local database, and an entry of the list the server sends. Both files of a
      testdata are treated alike; what a pool file contains is known by its timestamp. */
  datatype Row = Row(timestamp: int, order: nat)
  datatype Item = Item(id: nat, timestamp: int)

  /** Rows by testdata id, pool files by testdata id, position links. */
  datatype State = State(db: map<nat, Row>, pool: map<nat, int>, links: map<nat, nat>)

  const EMPTY := State(map[], map[], map[])

  ghost predicate Listed(list: seq<Item>, id: nat) { exists i :: 0 <= i < |list| && list[i].id == id }

  ghost predicate DistinctIds(list: seq<Item>) {
    forall i, j :: 0 <= i < j < |list| ==> list[i].id != list[j].id
  }

  predicate Outdated(db: map<nat, Row>, x: Item) { x.id !in db || db[x.id].timestamp != x.timestamp }

  predicate Misplaced(db: map<nat, Row>, x: Item, i: nat) { x.id !in db || db[x.id].order != i }

  /** One more than every position in the database. */
  ghost predicate Beyond(db: map<nat, Row>, n: nat) { forall id :: id in db ==> db[id].order < n }

  /* ---- what a complete sync does ---- */

  ghost predicate DbSynced(db: map<nat, Row>, list: seq<Item>, db': map<nat, Row>) {
    && (forall i :: 0 <= i < |list| ==> list[i].id in db' && db'[list[i].id] == Row(list[i].timestamp, i))
    && (forall id :: !Listed(list, id) ==> (id in db' <==> id in db) && (id in db ==> db'[id] == db[id]))
  }

  ghost predicate PoolSynced(db: map<nat, Row>, pool: map<nat, int>, list: seq<Item>, pool': map<nat, int>) {
    && (forall i :: 0 <= i < |list| && Outdated(db, list[i]) ==>
      list[i].id in pool' && pool'[list[i].id] == list[i].timestamp)
    && (forall i :: 0 <= i < |list| && !Outdated(db, list[i]) ==> SameAt(pool, pool', list[i].id))
    && (forall id :: !Listed(list, id) ==> if id in db then id !in pool' else SameAt(pool, pool', id))
  }

  predicate SameAt<T(==)>(m: map<nat, T>, m': map<nat, T>, k: nat) {
    (k in m <==> k in m') && (k in m ==> m'[k] == m[k])
  }

  ghost predicate LinksSynced(db: map<nat, Row>, links: map<nat, nat>, list: seq<Item>, links': map<nat, nat>) {
    && (forall i :: 0 <= i < |list| && Misplaced(db, list[i], i) ==> i in links' && links'[i] == list[i].id)
    && (forall i :: 0 <= i < |list| && !Misplaced(db, list[i], i) ==> SameAt(links, links', i))
    && (forall id, i: nat :: id in db && |list| <= i <= db[id].order ==> i !in links')
    && (forall i: nat :: i >= |list| && i in links' ==> i in links)
  }

  ghost predicate SyncedTo(s: State, list: seq<Item>, s': State) {
    DbSynced(s.db, list, s'.db) && PoolSynced(s.db, s.pool, list, s'.pool) && LinksSynced(s.db, s.links, list, s'.links)
  }

  /* ---- when that is right ---- */

  /** What a full rebuild would leave: position i links to the pool file of the i-th testdata at its
      listed timestamp, and there are no other links. */
  ghost predicate Correct(s: State, list: seq<Item>) {
    && (forall i :: 0 <= i < |list| ==> CorrectAt(s, list[i], i))
    && (forall i :: i in s.links ==> i < |list|)
  }

  predicate CorrectAt(s: State, x: Item, i: nat) {
    i in s.links && s.links[i] == x.id && x.id in s.pool && s.pool[x.id] == x.timestamp
  }

  /** After a successful sync to `cur`. Rows of testdata that were dropped stay in the database,
      their files do not. */
  ghost predicate SyncInv(s: State, cur: seq<Item>) {
    && DistinctIds(cur) && Correct(s, cur)
    && (forall i :: 0 <= i < |cur| ==> cur[i].id in s.db && s.db[cur[i].id] == Row(cur[i].timestamp, i))
    && (forall id :: id in s.db && !Listed(cur, id) ==> id !in s.pool)
  }

  /** A testdata that was dropped before comes back with a new timestamp and at a new position. */
  ghost predicate ComesBackChanged(s: State, cur: seq<Item>, x: Item, i: nat) {
    x.id in s.db && !Listed(cur, x.id) ==> Outdated(s.db, x) && Misplaced(s.db, x, i)
  }

  ghost predicate AllComeBackChanged(s: State, cur: seq<Item>, list: seq<Item>) {
    forall i :: 0 <= i < |list| ==> ComesBackChanged(s, cur, list[i], i)
  }

  lemma ItemCorrect(s: State, cur: seq<Item>, list: seq<Item>, s': State, i: nat)
    requires SyncInv(s, cur) && DistinctIds(list) && SyncedTo(s, list, s') && i < |list|
    ensures CorrectAt(s', list[i], i) <==> ComesBackChanged(s, cur, list[i], i)
  {
    var x := list[i];
    if x.id in s.db {
      if Listed(cur, x.id) {
        var j :| 0 <= j < |cur| && cur[j].id == x.id;
        assert CorrectAt(s, cur[j], j);
      } else if !Misplaced(s.db, x, i) && i in s.links {
        assert i < |cur| && CorrectAt(s, cur[i], i);
        assert s.links[i] == cur[i].id && Listed(cur, cur[i].id);
      }
    }
  }

  lemma NoLinksBeyond(s: State, cur: seq<Item>, list: seq<Item>, s': State)
    requires SyncInv(s, cur) && SyncedTo(s, list, s')
    ensures forall i :: i in s'.links ==> i < |list|
  {
    forall i: nat | |list| <= i < |cur| ensures i !in s'.links {
      assert cur[i].id in s.db && s.db[cur[i].id].order == i;
    }
  }

  /** A sync by difference agrees with a full rebuild exactly if no dropped testdata comes back
      with the timestamp or the position it had. */
  lemma SyncIsRebuildIff(s: State, cur: seq<Item>, list: seq<Item>, s': State)
    requires SyncInv(s, cur) && DistinctIds(list) && SyncedTo(s, list, s')
    ensures Correct(s', list) <==> AllComeBackChanged(s, cur, list)
    ensures AllComeBackChanged(s, cur, list) ==> SyncInv(s', list)
  {
    NoLinksBeyond(s, cur, list, s');
    forall i | 0 <= i < |list| ensures CorrectAt(s', list[i], i) <==> ComesBackChanged(s, cur, list[i], i) {
      ItemCorrect(s, cur, list, s', i);
    }
    forall id | id in s'.db && !Listed(list, id) ensures id !in s'.pool { assert id in s.db; }
  }

  /* ---- sequences of syncs ---- */

  /** Each sync runs to the end (`oks`), or fails while downloading and changes nothing. */
  ghost predicate IsHistory(ss: seq<State>, lists: seq<seq<Item>>, oks: seq<bool>) {
    && |ss| == |lists| + 1 == |oks| + 1 && ss[0] == EMPTY
    && forall k :: 0 <= k < |lists| ==> DistinctIds(lists[k]) && IsStep(ss[k], lists[k], oks[k], ss[k + 1])
  }

  ghost predicate IsStep(s: State, list: seq<Item>, ok: bool, s': State) {
    if ok then SyncedTo(s, list, s') else s' == s
  }

  /** The list of the last successful sync among the first `k`. */
  function LastList(lists: seq<seq<Item>>, oks: seq<bool>, k: nat): seq<Item>
    requires k <= |lists| == |oks|
  {
    if k == 0 then [] else if oks[k - 1] then lists[k - 1] else LastList(lists, oks, k - 1)
  }

  /** Among the first `k` syncs, sync `a` is the last successful one that listed testdata `id`, at position `p`. */
  ghost predicate IsLastListing(lists: seq<seq<Item>>, oks: seq<bool>, k: nat, id: nat, a: nat, p: nat)
    requires k <= |lists| == |oks|
  {
    && a < k && oks[a] && p < |lists[a]| && lists[a][p].id == id
    && forall b :: a < b < k && oks[b] ==> !Listed(lists[b], id)
  }

  /** The database remembers exactly the last listing of each testdata. */
  ghost predicate RowsAreLast(db: map<nat, Row>, lists: seq<seq<Item>>, oks: seq<bool>, k: nat)
    requires k <= |lists| == |oks|
  {
    && (forall id: nat, a: nat, p: nat :: IsLastListing(lists, oks, k, id, a, p) ==>
          id in db && db[id] == Row(lists[a][p].timestamp, p))
    && (forall id :: id in db ==> WasListed(lists, oks, k, id))
  }

  ghost predicate WasListed(lists: seq<seq<Item>>, oks: seq<bool>, k: nat, id: nat)
    requires k <= |lists| == |oks|
  {
    exists a: nat, p: nat :: IsLastListing(lists, oks, k, id, a, p)
  }

  lemma RowsAfterSync(s: State, lists: seq<seq<Item>>, oks: seq<bool>, k: nat, s': State)
    requires |lists| == |oks| && k < |lists| && oks[k] && RowsAreLast(s.db, lists, oks, k)
    requires DbSynced(s.db, lists[k], s'.db)
    ensures RowsAreLast(s'.db, lists, oks, k + 1)
  {
    forall id: nat, a: nat, p: nat | IsLastListing(lists, oks, k + 1, id, a, p)
      ensures id in s'.db && s'.db[id] == Row(lists[a][p].timestamp, p)
    {
      if a < k { assert !Listed(lists[k], id) && IsLastListing(lists, oks, k, id, a, p); }
    }
    forall id | id in s'.db ensures WasListed(lists, oks, k + 1, id) {
      if Listed(lists[k], id) {
        var p: nat :| p < |lists[k]| && lists[k][p].id == id;
        assert IsLastListing(lists, oks, k + 1, id, k, p);
      } else {
        assert WasListed(lists, oks, k, id);
        var a: nat, p: nat :| IsLastListing(lists, oks, k, id, a, p);
        assert IsLastListing(lists, oks, k + 1, id, a, p);
      }
    }
  }

  lemma RowsAfterFailure(db: map<nat, Row>, lists: seq<seq<Item>>, oks: seq<bool>, k: nat)
    requires |lists| == |oks| && k < |lists| && !oks[k] && RowsAreLast(db, lists, oks, k)
    ensures RowsAreLast(db, lists, oks, k + 1)
  {
    forall id: nat, a: nat, p: nat
      ensures IsLastListing(lists, oks, k + 1, id, a, p) <==> IsLastListing(lists, oks, k, id, a, p)
    {
    }
    forall id | id in db ensures WasListed(lists, oks, k + 1, id) {
      var a: nat, p: nat :| IsLastListing(lists, oks, k, id, a, p);
      assert IsLastListing(lists, oks, k + 1, id, a, p);
    }
  }

  lemma NoRows(lists: seq<seq<Item>>, oks: seq<bool>)
    requires |lists| == |oks|
    ensures RowsAreLast(map[], lists, oks, 0)
  {
  }

  lemma {:induction false} HistoryRows(ss: seq<State>, lists: seq<seq<Item>>, oks: seq<bool>, k: nat)
    requires IsHistory(ss, lists, oks) && k <= |lists|
    ensures RowsAreLast(ss[k].db, lists, oks, k)
  {
    hide RowsAreLast, DbSynced, PoolSynced, LinksSynced, DistinctIds;
    if k == 0 {
      NoRows(lists, oks);
    } else {
      HistoryRows(ss, lists, oks, k - 1);
      assert IsStep(ss[k - 1], lists[k - 1], oks[k - 1], ss[k]);
      if oks[k - 1] {
        RowsAfterSync(ss[k - 1], lists, oks, k - 1, ss[k]);
      } else {
        RowsAfterFailure(ss[k - 1].db, lists, oks, k - 1);
      }
    }
  }

  /** Whatever sync `k` lists again after it was dropped has a new timestamp and a new position. */
  ghost predicate ReturnsChanged(lists: seq<seq<Item>>, oks: seq<bool>, k: nat)
    requires k < |lists| == |oks|
  {
    forall i :: 0 <= i < |lists[k]| ==> ReturnsChangedAt(lists, oks, k, lists[k][i], i)
  }

  ghost predicate ReturnsChangedAt(lists: seq<seq<Item>>, oks: seq<bool>, k: nat, x: Item, i: nat)
    requires k < |lists| == |oks|
  {
    forall a: nat, p: nat :: IsLastListing(lists, oks, k, x.id, a, p) && !Listed(LastList(lists, oks, k), x.id) ==>
      lists[a][p].timestamp != x.timestamp && p != i
  }

  lemma ReturnIsRow(s: State, lists: seq<seq<Item>>, oks: seq<bool>, k: nat, x: Item, i: nat)
    requires k < |lists| == |oks| && RowsAreLast(s.db, lists, oks, k)
    ensures ReturnsChangedAt(lists, oks, k, x, i) <==> ComesBackChanged(s, LastList(lists, oks, k), x, i)
  {
    hide LastList, Listed;
    if x.id in s.db {
      assert WasListed(lists, oks, k, x.id);
      var a: nat, p: nat :| IsLastListing(lists, oks, k, x.id, a, p);
    }
  }

  lemma ReturnsAreRows(s: State, lists: seq<seq<Item>>, oks: seq<bool>, k: nat)
    requires k < |lists| == |oks| && RowsAreLast(s.db, lists, oks, k)
    ensures ReturnsChanged(lists, oks, k) <==> AllComeBackChanged(s, LastList(lists, oks, k), lists[k])
  {
    hide ReturnsChangedAt, ComesBackChanged, RowsAreLast, LastList;
    forall i | 0 <= i < |lists[k]|
      ensures ReturnsChangedAt(lists, oks, k, lists[k][i], i) <==>
              ComesBackChanged(s, LastList(lists, oks, k), lists[k][i], i)
    {
      ReturnIsRow(s, lists, oks, k, lists[k][i], i);
    }
  }

  /** The first `n` syncs leave what full rebuilds would, as far as they succeed. */
  ghost predicate RebuildsSoFar(ss: seq<State>, lists: seq<seq<Item>>, oks: seq<bool>, n: nat)
    requires n <= |lists| == |oks| < |ss|
  {
    forall k :: 0 <= k < n && oks[k] ==> Correct(ss[k + 1], lists[k])
  }

  ghost predicate ChangedSoFar(lists: seq<seq<Item>>, oks: seq<bool>, n: nat)
    requires n <= |lists| == |oks|
  {
    forall k :: 0 <= k < n && oks[k] ==> ReturnsChanged(lists, oks, k)
  }

  lemma OneMoreSync(ss: seq<State>, lists: seq<seq<Item>>, oks: seq<bool>, n: nat)
    requires n < |lists| == |oks| < |ss|
    ensures RebuildsSoFar(ss, lists, oks, n + 1) <==>
            RebuildsSoFar(ss, lists, oks, n) && (oks[n] ==> Correct(ss[n + 1], lists[n]))
    ensures ChangedSoFar(lists, oks, n + 1) <==>
            ChangedSoFar(lists, oks, n) && (oks[n] ==> ReturnsChanged(lists, oks, n))
  {
    hide Correct, ReturnsChanged;
  }

  lemma NoSyncs(ss: seq<State>, lists: seq<seq<Item>>, oks: seq<bool>)
    requires |lists| == |oks| < |ss|
    ensures RebuildsSoFar(ss, lists, oks, 0) && ChangedSoFar(lists, oks, 0) && SyncInv(EMPTY, [])
  {
  }

  /** In every history, whatever failed in between, all successful syncs so far left what full rebuilds would, if
      and only if each of them gave what it listed again a new timestamp and a new position. */
  lemma {:induction false} SyncsSoFarIff(ss: seq<State>, lists: seq<seq<Item>>, oks: seq<bool>, n: nat)
    requires IsHistory(ss, lists, oks) && n <= |lists|
    ensures RebuildsSoFar(ss, lists, oks, n) <==> ChangedSoFar(lists, oks, n)
    ensures ChangedSoFar(lists, oks, n) ==> SyncInv(ss[n], LastList(lists, oks, n))
  {
    hide RebuildsSoFar, ChangedSoFar, SyncInv, Correct, AllComeBackChanged, ReturnsChanged, RowsAreLast, DbSynced,
         PoolSynced, LinksSynced, DistinctIds;
    if n == 0 {
      NoSyncs(ss, lists, oks);
    } else {
      SyncsSoFarIff(ss, lists, oks, n - 1);
      HistoryRows(ss, lists, oks, n - 1);
      assert DistinctIds(lists[n - 1]) && IsStep(ss[n - 1], lists[n - 1], oks[n - 1], ss[n]);
      OneMoreSync(ss, lists, oks, n - 1);
      if ChangedSoFar(lists, oks, n - 1) && oks[n - 1] {
        ReturnsAreRows(ss[n - 1], lists, oks, n - 1);
        SyncIsRebuildIff(ss[n - 1], LastList(lists, oks, n - 1), lists[n - 1], ss[n]);
      }
    }
  }

  ghost predicate NeverRelisted(lists: seq<seq<Item>>, oks: seq<bool>)
    requires |lists| == |oks|
  {
    forall a, c, id :: 0 <= a < c < |lists| && oks[a] && oks[c] && Listed(lists[a], id) && Listed(lists[c], id) ==>
      Listed(LastList(lists, oks, c), id)
  }

  lemma NotRelisted(lists: seq<seq<Item>>, oks: seq<bool>, c: nat, i: nat)
    requires |lists| == |oks| && NeverRelisted(lists, oks) && c < |lists| && oks[c] && i < |lists[c]|
    ensures ReturnsChangedAt(lists, oks, c, lists[c][i], i)
  {
    var id := lists[c][i].id;
    forall a: nat, p: nat | IsLastListing(lists, oks, c, id, a, p) ensures Listed(LastList(lists, oks, c), id) {
      assert Listed(lists[a], id) && Listed(lists[c], id);
    }
  }

  /** If removed testdata are never listed again, every successful sync leaves what a full rebuild
      would, whatever failed before. */
  lemma EverySyncIsRebuild(ss: seq<State>, lists: seq<seq<Item>>, oks: seq<bool>, k: nat)
    requires IsHistory(ss, lists, oks) && NeverRelisted(lists, oks) && k < |lists| && oks[k]
    ensures Correct(ss[k + 1], lists[k])
  {
    forall c | 0 <= c < k + 1 && oks[c] ensures ReturnsChanged(lists, oks, c) {
      forall i | 0 <= i < |lists[c]| ensures ReturnsChangedAt(lists, oks, c, lists[c][i], i) {
        NotRelisted(lists, oks, c, i);
      }
    }
    hide IsHistory, Correct, ReturnsChanged;
    SyncsSoFarIff(ss, lists, oks, k + 1);
  }

  /* Testdata 7, then testdata 8, then both. */
  const ONE := State(map[7 := Row(1, 0)], map[7 := 1], map[0 := 7])
  const TWO := State(map[7 := Row(1, 0), 8 := Row(1, 0)], map[8 := 1], map[0 := 8])
  const THREE := State(map[8 := Row(1, 0), 7 := Row(1, 1)], map[8 := 1], map[0 := 8, 1 := 7])

  lemma ListedIn(list: seq<Item>)
    ensures |list| == 1 ==> forall id :: Listed(list, id) <==> id == list[0].id
    ensures |list| == 2 ==> forall id :: Listed(list, id) <==> id == list[0].id || id == list[1].id
  {
    if |list| == 1 { assert Listed(list, list[0].id); }
    if |list| == 2 { assert Listed(list, list[0].id) && Listed(list, list[1].id); }
  }

  lemma First()
    ensures SyncedTo(EMPTY, [Item(7, 1)], ONE)
  {
    ListedIn([Item(7, 1)]);
  }

  lemma Second()
    ensures SyncedTo(ONE, [Item(8, 1)], TWO)
  {
    ListedIn([Item(8, 1)]);
  }

  lemma ThirdRows()
    ensures DbSynced(TWO.db, [Item(8, 1), Item(7, 1)], THREE.db)
  {
    ListedIn([Item(8, 1), Item(7, 1)]);
    hide Listed;
  }

  lemma ThirdFiles()
    ensures PoolSynced(TWO.db, TWO.pool, [Item(8, 1), Item(7, 1)], THREE.pool)
  {
    ListedIn([Item(8, 1), Item(7, 1)]);
  }

  lemma ThirdLinks()
    ensures LinksSynced(TWO.db, TWO.links, [Item(8, 1), Item(7, 1)], THREE.links)
  {
    ListedIn([Item(8, 1), Item(7, 1)]);
  }

  lemma Third()
    ensures SyncedTo(TWO, [Item(8, 1), Item(7, 1)], THREE)
  {
    hide DbSynced, PoolSynced, LinksSynced;
    ThirdRows();
    ThirdFiles();
    ThirdLinks();
  }

  lemma ThirdIsWrong()
    ensures !CorrectAt(THREE, Item(7, 1), 1)
  {
  }

  /** Without that hypothesis the promise fails: a testdata is dropped and comes back unchanged.
      Its old row hides that its files are gone. */
  lemma RelistingBreaks() returns (ss: seq<State>, lists: seq<seq<Item>>, oks: seq<bool>)
    ensures IsHistory(ss, lists, oks) && |lists| == 3 && oks == [true, true, true] && !Correct(ss[3], lists[2])
  {
    hide SyncedTo, CorrectAt;
    First();
    Second();
    Third();
    ThirdIsWrong();
    ss, lists, oks := [EMPTY, ONE, TWO, THREE], [[Item(7, 1)], [Item(8, 1)], [Item(8, 1), Item(7, 1)]],
      [true, true, true];
    forall k | 0 <= k < 3 ensures DistinctIds(lists[k]) && IsStep(ss[k], lists[k], oks[k], ss[k + 1]) {
      if k == 0 {} else if k == 1 {} else {}
    }
    assert !CorrectAt(ss[3], lists[2][1], 1);
  }

  /* ---- the code ---- */

  /** A link to be made. */
  datatype Place = Place(order: nat, id: nat)

  predicate IsMove(db: map<nat, Row>, list: seq<Item>, n: nat, p: Place)
    requires n <= |list|
  {
    p.order < n && p.id == list[p.order].id && Misplaced(db, list[p.order], p.order)
  }

  class Store {
    var db: map<nat, Row>
    var pool: map<nat, int>
    /** Downloaded files that were not moved into place yet. */
    var temp: map<nat, int>
    var links: map<nat, nat>

    constructor ()
      ensures Now() == EMPTY
    {
      db, pool, temp, links := map[], map[], map[], map[];
    }

    ghost function Now(): State
      reads this
    {
      State(db, pool, links)
    }

    /** Compares the list with the rows. */
    method Compare(list: seq<Item>) returns (toDownload: seq<Item>, toUpdate: seq<Place>)
      ensures |toDownload| <= |list| && forall x :: x in toDownload <==> x in list && Outdated(db, x)
      ensures forall p: Place :: p in toUpdate <==> IsMove(db, list, |list|, p)
    {
      toDownload, toUpdate := [], [];
      for i := 0 to |list|
        invariant |toDownload| <= i && forall x :: x in toDownload <==> x in list[..i] && Outdated(db, x)
        invariant forall p: Place :: p in toUpdate <==> IsMove(db, list, i, p)
      {
        var x := list[i];
        assert list[..i + 1] == list[..i] + [x];
        if x.id !in db || db[x.id].timestamp != x.timestamp { toDownload := toDownload + [x]; }
        if x.id !in db || db[x.id].order != i { toUpdate := toUpdate + [Place(i, x.id)]; }
      }
      assert list[..|list|] == list;
    }

    /** One more than the largest position of a row. */
    method OrigCount() returns (n: nat)
      ensures Beyond(db, n)
    {
      n := 0;
      var rest := db.Keys;
      while rest != {}
        invariant rest <= db.Keys && forall id :: id in db && id !in rest ==> db[id].order < n
        decreases rest
      {
        var id :| id in rest;
        if db[id].order >= n { n := db[id].order + 1; }
        rest := rest - {id};
      }
    }

    /** new_meta: the rows that the list stands for. */
    method Meta(list: seq<Item>) returns (meta: map<nat, Row>)
      requires DistinctIds(list)
      ensures forall i :: 0 <= i < |list| ==> list[i].id in meta && meta[list[i].id] == Row(list[i].timestamp, i)
      ensures forall id :: id in meta ==> Listed(list, id)
    {
      meta := map[];
      for i := 0 to |list|
        invariant forall j :: 0 <= j < i ==> list[j].id in meta && meta[list[j].id] == Row(list[j].timestamp, j)
        invariant forall id :: id in meta ==> Listed(list, id)
      {
        meta := meta[list[i].id := Row(list[i].timestamp, i)];
      }
    }

    /** `downloads` is the number of files that arrive before the connection fails. */
    method Download(toDownload: seq<Item>, downloads: nat) returns (ok: bool)
      requires OneItemEach(toDownload)
      modifies `temp
      ensures ok == (|toDownload| <= downloads)
      ensures ok ==> forall x :: x in toDownload ==> x.id in temp && temp[x.id] == x.timestamp
    {
      for k := 0 to |toDownload|
        invariant k <= downloads
        invariant forall j :: 0 <= j < k ==>
                  toDownload[j].id in temp && temp[toDownload[j].id] == toDownload[j].timestamp
      {
        if k >= downloads { return false; }
        temp := temp[toDownload[k].id := toDownload[k].timestamp];
      }
      return true;
    }

    method Rename(toDownload: seq<Item>)
      requires OneItemEach(toDownload) && forall x :: x in toDownload ==> x.id in temp && temp[x.id] == x.timestamp
      modifies `temp, `pool
      ensures forall x :: x in toDownload ==> x.id in pool && pool[x.id] == x.timestamp
      ensures forall id :: !Listed(toDownload, id) ==> SameAt(old(pool), pool, id)
    {
      ghost var before := temp;
      for k := 0 to |toDownload|
        invariant forall x :: x in toDownload ==> x.id in before && before[x.id] == x.timestamp
        invariant forall j :: 0 <= j < k ==>
                  toDownload[j].id in pool && pool[toDownload[j].id] == toDownload[j].timestamp
        invariant forall id :: !Listed(toDownload, id) ==> SameAt(old(pool), pool, id)
      {
        var x := toDownload[k];
        assert Listed(toDownload, x.id);
        pool := pool[x.id := x.timestamp];
      }
      temp := temp - set x | x in toDownload :: x.id;
    }

    /** Links that have to change are removed and made anew, then links behind the end go. */
    method Relink(list: seq<Item>, toUpdate: seq<Place>, origCount: nat)
      requires Beyond(db, origCount) && forall p: Place :: p in toUpdate <==> IsMove(db, list, |list|, p)
      modifies `links
      ensures LinksSynced(db, old(links), list, links)
    {
      MakeLinks(list, toUpdate);
      MovesDone(db, old(links), list, toUpdate, links);
      ghost var moved := links;
      DropLinks(|list|, origCount);
      forall i: nat | i < |list| ensures SameAt(moved, links, i) {}
      LinksDone(db, old(links), list, moved, links);
    }

    method DropLinks(from: nat, to: nat)
      modifies `links
      ensures forall i: nat :: from <= i < to ==> i !in links
      ensures forall i :: i in links ==> i in old(links) && links[i] == old(links)[i]
      ensures forall i :: i in old(links) && (i < from || to <= i) ==> i in links
    {
      var i := from;
      while i < to
        invariant from <= i && (i <= to || i == from)
        invariant forall j: nat :: from <= j < i ==> j !in links
        invariant forall j :: j in links ==> j in old(links) && links[j] == old(links)[j]
        invariant forall j :: j in old(links) && (j < from || i <= j) ==> j in links
      {
        links := links - {i};
        i := i + 1;
      }
    }

    method MakeLinks(list: seq<Item>, toUpdate: seq<Place>)
      requires forall p :: p in toUpdate ==> IsMove(db, list, |list|, p)
      modifies `links
      ensures forall p :: p in toUpdate ==> p.order in links && links[p.order] == p.id
      ensures forall i: nat :: !Moves(toUpdate, i) ==> SameAt(old(links), links, i)
    {
      for k := 0 to |toUpdate|
        invariant forall j :: 0 <= j < k ==> toUpdate[j].order in links && links[toUpdate[j].order] == toUpdate[j].id
        invariant forall i: nat :: !Moves(toUpdate, i) ==> SameAt(old(links), links, i)
      {
        var p := toUpdate[k];
        assert Moves(toUpdate, p.order);
        forall j | 0 <= j < k && toUpdate[j].order == p.order ensures toUpdate[j].id == p.id {
          assert IsMove(db, list, |list|, toUpdate[j]) && IsMove(db, list, |list|, p);
        }
        links := links - {p.order};
        links := links[p.order := p.id];
      }
    }

    /** The sync of one problem: either it fails while downloading and changes nothing, or it runs
        to the end. */
    method Sync(list: seq<Item>, downloads: nat) returns (ok: bool)
      requires DistinctIds(list)
      modifies this
      ensures IsStep(old(Now()), list, ok, Now())
      ensures downloads >= |list| ==> ok
    {
      var toDownload, toUpdate := Compare(list);
      var origCount := OrigCount();
      var meta := Meta(list);
      DownloadsAreDistinct(list, toDownload);
      ok := Download(toDownload, downloads);
      if ok {
        Rename(toDownload);
        RemoveFiles(meta);
        PoolIsSynced(db, old(pool), list, toDownload, meta, pool);
        Relink(list, toUpdate, origCount);
        db := db + meta;
      }
    }

    /** to_delete: the files of testdata that are no longer listed. */
    method RemoveFiles(meta: map<nat, Row>)
      modifies `pool
      ensures forall id: nat :: if id in db && id !in meta then id !in pool else SameAt(old(pool), pool, id)
    {
      var rest := db.Keys;
      while rest != {}
        invariant rest <= db.Keys
        invariant forall id: nat :: if id in db && id !in meta && id !in rest then id !in pool
                  else SameAt(old(pool), pool, id)
        decreases rest
      {
        var id :| id in rest;
        if id !in meta { pool := pool - {id}; }
        rest := rest - {id};
      }
    }
  }

  lemma DownloadsAreDistinct(list: seq<Item>, items: seq<Item>)
    requires DistinctIds(list) && forall x :: x in items ==> x in list
    ensures OneItemEach(items)
  {
    forall x, y | x in items && y in items && x.id == y.id ensures x == y {
      var i :| 0 <= i < |list| && list[i] == x;
      var j :| 0 <= j < |list| && list[j] == y;
    }
  }

  lemma PoolIsSynced(db: map<nat, Row>, before: map<nat, int>, list: seq<Item>, items: seq<Item>, meta: map<nat, Row>,
                     after: map<nat, int>)
    requires DistinctIds(list) && forall x :: x in items <==> x in list && Outdated(db, x)
    requires (forall i :: 0 <= i < |list| ==> list[i].id in meta) && (forall id :: id in meta ==> Listed(list, id))
    requires forall id: nat :: id in db && id !in meta ==> id !in after
    requires forall x :: x in items && x.id in meta ==> x.id in after && after[x.id] == x.timestamp
    requires forall id: nat :: !Listed(items, id) && (id in db ==> id in meta) ==> SameAt(before, after, id)
    ensures PoolSynced(db, before, list, after)
  {
    forall i | 0 <= i < |list| && !Outdated(db, list[i]) ensures SameAt(before, after, list[i].id) {
      DownloadedIsOutdated(db, list, items, i);
    }
    forall id | !Listed(list, id) ensures !Listed(items, id) && id !in meta {
      DownloadedIsListed(list, items, id);
    }
  }

  lemma DownloadedIsListed(list: seq<Item>, items: seq<Item>, id: nat)
    requires forall x :: x in items ==> x in list
    ensures Listed(items, id) ==> Listed(list, id)
  {
    if Listed(items, id) {
      var j :| 0 <= j < |items| && items[j].id == id;
      assert items[j] in list;
    }
  }

  lemma DownloadedIsOutdated(db: map<nat, Row>, list: seq<Item>, items: seq<Item>, i: nat)
    requires DistinctIds(list) && i < |list| && forall x :: x in items <==> x in list && Outdated(db, x)
    ensures Listed(items, list[i].id) ==> Outdated(db, list[i])
  {
    if Listed(items, list[i].id) {
      var j :| 0 <= j < |items| && items[j].id == list[i].id;
      assert items[j] in list && Outdated(db, items[j]);
    }
  }

  ghost predicate Moves(toUpdate: seq<Place>, i: nat) { exists p :: p in toUpdate && p.order == i }

  lemma MovedIsMisplaced(db: map<nat, Row>, list: seq<Item>, toUpdate: seq<Place>, i: nat)
    requires forall p: Place :: p in toUpdate <==> IsMove(db, list, |list|, p)
    ensures Moves(toUpdate, i) ==> i < |list| && Misplaced(db, list[i], i)
  {
    if Moves(toUpdate, i) {
      var p :| p in toUpdate && p.order == i;
      assert IsMove(db, list, |list|, p);
    }
  }

  lemma LinksDone(db: map<nat, Row>, links: map<nat, nat>, list: seq<Item>, moved: map<nat, nat>, links': map<nat, nat>)
    requires forall i :: 0 <= i < |list| && Misplaced(db, list[i], i) ==> i in moved && moved[i] == list[i].id
    requires forall i :: 0 <= i < |list| && !Misplaced(db, list[i], i) ==> SameAt(links, moved, i)
    requires forall i: nat :: i >= |list| ==> SameAt(links, moved, i)
    requires forall i: nat :: i < |list| ==> SameAt(moved, links', i)
    requires forall i :: i in links' ==> i in moved
    requires forall id, i: nat :: id in db && |list| <= i <= db[id].order ==> i !in links'
    ensures LinksSynced(db, links, list, links')
  {
    forall i: nat | i < |list|
      ensures if Misplaced(db, list[i], i) then i in links' && links'[i] == list[i].id else SameAt(links, links', i)
    {
      assert SameAt(moved, links', i);
    }
    forall i: nat | i >= |list| && i in links' ensures i in links { assert SameAt(links, moved, i); }
  }

  lemma MovesDone(db: map<nat, Row>, links: map<nat, nat>, list: seq<Item>, toUpdate: seq<Place>, links': map<nat, nat>)
    requires forall p: Place :: p in toUpdate <==> IsMove(db, list, |list|, p)
    requires forall p :: p in toUpdate ==> p.order in links' && links'[p.order] == p.id
    requires forall i: nat :: !Moves(toUpdate, i) ==> SameAt(links, links', i)
    ensures forall i :: 0 <= i < |list| && Misplaced(db, list[i], i) ==> i in links' && links'[i] == list[i].id
    ensures forall i :: 0 <= i < |list| && !Misplaced(db, list[i], i) ==> SameAt(links, links', i)
    ensures forall i: nat :: i >= |list| ==> SameAt(links, links', i)
  {
    forall i | 0 <= i < |list| && Misplaced(db, list[i], i) ensures i in links' && links'[i] == list[i].id {
      assert IsMove(db, list, |list|, Place(i, list[i].id));
    }
    forall i: nat | i >= |list| || !Misplaced(db, list[i], i) ensures !Moves(toUpdate, i) {
      MovedIsMisplaced(db, list, toUpdate, i);
    }
  }

  ghost predicate OneItemEach(items: seq<Item>) {
    forall x, y :: x in items && y in items && x.id == y.id ==> x == y
  }
}
