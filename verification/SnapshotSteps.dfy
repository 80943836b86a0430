/** What the scheduler's updates of its variables mean for the judge they represent. */
module SnapshotSteps {
  import opened Types
  import TaskGraph
  import opened Lifecycle
  import opened World
  import opened TaskList
  import TaskPool
  import opened Snapshot

  /** The records of submission `id` now say `l`; its tasks are not touched. */
  ghost predicate Moved(s: Snap, s': Snap, id: int, l: Live) {
    && s' == s.(subs := s.subs[id := l.j], hist := s.hist[id := l.h], cg := s'.cg)
    && GroupsLost(s'.cg, id) == l.cgroups && s'.cg - {id} == s.cg - {id} && s'.cg.Keys <= s.cg.Keys + {id}
    && forall x :: x != id ==> GroupsLost(s'.cg, x) == GroupsLost(s.cg, x)
  }

  /** The records of submission `id` are erased, and history keeps that it ended as `l`. */
  ghost predicate Erased(s: Snap, s': Snap, id: int, l: Live) {
    s' == s.(subs := s.subs - {id}, hist := s.hist - {id}, cl := s.cl - {id}, cg := s.cg - {id},
             idMap := s.idMap - {id}, closed := s.closed[id := l])
  }

  /** Successors of `k` that waited for nothing else are pushed. */
  ghost predicate Woken(s: Snap, queue: multiset<Key>, k: Key)
    requires k in s.tl
  {
    forall x :: queue[x] == s.queue[x] +
      if x in s.tl && x.sid == k.sid && x.task in s.tl[k].edges && s.tl[x].indeg == 1 then 1 else 0
  }

  /** What runs waits for nothing. */
  ghost predicate HandledFree(s: Snap) {
    forall h :: h in s.hm ==> s.hm[h] in s.tl && s.tl[s.hm[h]].indeg == 0
  }

  lemma HandledIsFree(s: Snap, ora: Oracle)
    requires Core(s, ora)
    ensures HandledFree(s)
  {
    forall h | h in s.hm ensures s.hm[h] in s.tl && s.tl[s.hm[h]].indeg == 0 {
      assert s.hm[h] in s.hm.Values;
      HandledIsUnblocked(s, ora, s.hm[h]);
    }
  }

  lemma HandledIsUnblocked(s: Snap, ora: Oracle, k: Key)
    requires Core(s, ora) && k in s.hm.Values
    ensures k in s.tl && s.tl[k].indeg == 0
  {
    var h :| h in s.hm && s.hm[h] == k;
    assert HandleAt(s, ora, h) && EntryAt(s, k);
    LiveFacts(s, ora, k.sid);
    RunningIffHandled(s.hm, k);
    forall x | x in s.tl && x.sid == k.sid ensures EntryOk(s.tl, x, s.subs[k.sid].sub, s.numbering[k.sid]) {
      assert EntryAt(s, x);
    }
    ZeroIsUnblocked(s.tl, k, s.subs[k.sid].sub, s.numbering[k.sid]);
  }

  lemma SuccessorWaits(s: Snap, k: Key, x: Key)
    requires k in s.tl && x in s.tl && x.sid == k.sid && x.task in s.tl[k].edges && EntryAt(s, x)
    ensures s.tl[x].indeg >= 1
  {
    assert k.task in Preds(s.tl, x);
  }

  lemma ReadyAfterRemove(s: Snap, s': Snap, k: Key, x: Key)
    requires HandledFree(s) && k in s.tl && (x in s.tl ==> EntryAt(s, x))
    requires s'.tl == Removed(s.tl, k) && s'.hm == s.hm
    ensures Ready(s', x) ==
            (x != k && (Ready(s, x) || (x in s.tl && x.sid == k.sid && x.task in s.tl[k].edges && s.tl[x].indeg == 1)))
    ensures Ready(s, x) ==> !(x.sid == k.sid && x.task in s.tl[k].edges)
  {
    if x in s.tl && x.sid == k.sid && x.task in s.tl[k].edges { SuccessorWaits(s, k, x); }
    if h :| h in s.hm && s.hm[h] == x { assert s.tl[x].indeg == 0; }
  }

  /** Removing a finished task leaves exactly the ready tasks in the queue. */
  lemma RemoveKeepsQueue(s: Snap, ora: Oracle, k: Key, s': Snap)
    requires Recorded(s, ora) && HandledFree(s)
    requires QueueOk(s, {k}) && k in s.tl && s.tl[k].indeg == 0 && k !in s.hm.Values
    requires s'.tl == Removed(s.tl, k) && s'.hm == s.hm && Woken(s, s'.queue, k)
    ensures QueueOk(s', {})
  {
    forall x ensures s'.queue[x] == if Ready(s', x) then 1 else 0 {
      ReadyAfterRemove(s, s', k, x);
    }
  }

  /* ---- what the updates mean ---- */

  /** The record of one live submission is replaced, everything else stays. */
  lemma ReplaceIsStore(w: World, w': World, id: int, l: Live)
    requires id in w.live && l.left != {}
    requires w' == w.(live := w'.live) && w'.live.Keys == w.live.Keys
    requires forall x :: x in w.live ==> w'.live[x] == if x == id then l else w.live[x]
    ensures w' == Store(w, id, l)
  {
    assert w'.live == w.live[id := l];
  }

  lemma LiveAfterMove(s: Snap, s1: Snap, s': Snap, k: Key, l: Live, id: int)
    requires s.hist.Keys == s.subs.Keys && k.sid in s.subs && k in s.tl && id in s.subs
    requires Moved(s, s1, k.sid, l) && s' == s1.(tl := Removed(s.tl, k), queue := s'.queue)
    ensures id in s'.subs && id in s'.hist
    ensures LiveAt(s', id) == if id == k.sid
            then l.(left := LeftIn(s.tl, id) - {k.task}, running := RunningIn(s.hm, id), cancelled := id in s.cl)
            else LiveAt(s, id)
  {
    RemovedLeft(s.tl, k, id);
  }

  /** A task of submission k.sid is done and other tasks remain: the judge's record is replaced. */
  lemma MovedWorld(s: Snap, s1: Snap, s': Snap, k: Key, l: Live, l': Live)
    requires s.hist.Keys == s.subs.Keys && k.sid in s.subs && k in s.tl
    requires Moved(s, s1, k.sid, l) && s' == s1.(tl := Removed(s.tl, k), queue := s'.queue)
    requires l' ==
             l.(left := LeftIn(s.tl, k.sid) - {k.task}, running := RunningIn(s.hm, k.sid), cancelled := k.sid in s.cl)
    requires l'.left != {}
    ensures s'.hist.Keys == s'.subs.Keys && WorldOf(s') == Store(WorldOf(s), k.sid, l')
  {
    var w, w' := WorldOf(s), WorldOf(s');
    forall id | id in w.live ensures id in w'.live && w'.live[id] == if id == k.sid then l' else w.live[id] {
      LiveAfterMove(s, s1, s', k, l, id);
    }
    ReplaceIsStore(w, w', k.sid, l');
  }

  lemma MovedEntry(s: Snap, s1: Snap, s': Snap, k: Key, l: Live, x: Key)
    requires k in s.tl && x in s.tl && x != k && EntryAt(s, x)
    requires k.sid in s.subs && l.j.sub == s.subs[k.sid].sub
    requires Moved(s, s1, k.sid, l) && s' == s1.(tl := Removed(s.tl, k), queue := s'.queue)
    ensures x in s'.tl && EntryAt(s', x)
  {
    RemovedEntryOk(s.tl, k, x, s.subs[x.sid].sub, s.numbering[x.sid]);
  }

  lemma MovedHandle(s: Snap, s1: Snap, s': Snap, ora: Oracle, k: Key, l: Live, h: nat)
    requires h in s.hm && h in s.pending && HandleAt(s, ora, h) && k in s.tl && s.hm[h] != k
    requires k.sid in s.subs && l.j.sub == s.subs[k.sid].sub
    requires Moved(s, s1, k.sid, l) && s' == s1.(tl := Removed(s.tl, k), queue := s'.queue)
    ensures HandleAt(s', ora, h)
  {
  }

  lemma MovedRecorded(s: Snap, s1: Snap, s': Snap, ora: Oracle, k: Key, l: Live)
    requires Recorded(s, ora) && k in s.tl && k !in s.hm.Values
    requires k.sid in s.subs && l.j.sub == s.subs[k.sid].sub
    requires Moved(s, s1, k.sid, l) && s' == s1.(tl := Removed(s.tl, k), queue := s'.queue)
    ensures Recorded(s', ora)
  {
    forall x | x in s'.tl ensures EntryAt(s', x) { MovedEntry(s, s1, s', k, l, x); }
    forall h | h in s'.hm ensures HandleAt(s', ora, h) { MovedHandle(s, s1, s', ora, k, l, h); }
  }

  lemma LiveAfterErase(s: Snap, s1: Snap, s': Snap, k: Key, l: Live, id: int)
    requires s.hist.Keys == s.subs.Keys && k in s.tl && id in s.subs && id != k.sid
    requires Erased(s, s1, k.sid, l) && s' == s1.(tl := Removed(s.tl, k), queue := s'.queue)
    ensures id in s'.subs && id in s'.hist && LiveAt(s', id) == LiveAt(s, id)
  {
    RemovedLeft(s.tl, k, id);
  }

  /** The last task of submission k.sid is done: the judge's record is erased. */
  lemma ErasedWorld(s: Snap, s1: Snap, s': Snap, k: Key, l: Live)
    requires s.hist.Keys == s.subs.Keys && k.sid in s.subs && k in s.tl
    requires Erased(s, s1, k.sid, l) && s' == s1.(tl := Removed(s.tl, k), queue := s'.queue)
    requires l.left == {}
    ensures s'.hist.Keys == s'.subs.Keys && WorldOf(s') == Store(WorldOf(s), k.sid, l)
  {
    var w, w' := WorldOf(s), WorldOf(s');
    forall id | id in w.live && id != k.sid ensures id in w'.live && w'.live[id] == w.live[id] {
      LiveAfterErase(s, s1, s', k, l, id);
    }
    assert w'.live == w.live - {k.sid};
  }

  lemma OthersElsewhere(s: Snap, k: Key, x: Key)
    requires x in s.tl && LeftIn(s.tl, k.sid) == {k.task} && x != k
    ensures x.sid != k.sid
  {
    assert x.task in LeftIn(s.tl, x.sid);
  }

  lemma ErasedEntry(s: Snap, s1: Snap, s': Snap, k: Key, l: Live, x: Key)
    requires k in s.tl && x in s.tl && x.sid != k.sid && EntryAt(s, x)
    requires Erased(s, s1, k.sid, l) && s' == s1.(tl := Removed(s.tl, k), queue := s'.queue)
    ensures x in s'.tl && EntryAt(s', x)
  {
    RemovedEntryOk(s.tl, k, x, s.subs[x.sid].sub, s.numbering[x.sid]);
  }

  lemma ErasedHandle(s: Snap, s1: Snap, s': Snap, ora: Oracle, k: Key, l: Live, h: nat)
    requires h in s.hm && h in s.pending && HandleAt(s, ora, h) && k in s.tl && s.hm[h].sid != k.sid
    requires Erased(s, s1, k.sid, l) && s' == s1.(tl := Removed(s.tl, k), queue := s'.queue)
    ensures HandleAt(s', ora, h)
  {
  }

  lemma ErasedRecorded(s: Snap, s1: Snap, s': Snap, ora: Oracle, k: Key, l: Live)
    requires Recorded(s, ora) && k in s.tl && k !in s.hm.Values && k.sid in s.subs
    requires LeftIn(s.tl, k.sid) == {k.task}
    requires Erased(s, s1, k.sid, l) && s' == s1.(tl := Removed(s.tl, k), queue := s'.queue)
    ensures Recorded(s', ora)
  {
    forall x | x in s'.tl ensures EntryAt(s', x) {
      OthersElsewhere(s, k, x);
      ErasedEntry(s, s1, s', k, l, x);
    }
    forall h | h in s'.hm ensures HandleAt(s', ora, h) {
      assert HandleAt(s, ora, h) && s.hm[h] != k;
      OthersElsewhere(s, k, s.hm[h]);
      ErasedHandle(s, s1, s', ora, k, l, h);
    }
  }

  /** A task is started under a handle that was free. */
  ghost predicate Started(s: Snap, s': Snap, k: Key, h: nat, o: Outcome) {
    s' == s.(hm := s.hm[h := k], pending := s.pending[h := o])
  }

  lemma RunningAfterStart(hm: map<nat, Key>, h: nat, k: Key, id: int)
    requires h !in hm
    ensures RunningIn(hm[h := k], id) == if id == k.sid then RunningIn(hm, id) + {k.task} else RunningIn(hm, id)
  {
    var hm' := hm[h := k];
    forall t ensures t in RunningIn(hm', id) <==> t in RunningIn(hm, id) || (id == k.sid && t == k.task) {
      if t in RunningIn(hm, id) {
        var g :| g in hm && hm[g].sid == id && hm[g].task == t;
        assert g in hm' && hm'[g] == hm[g];
      }
      if id == k.sid && t == k.task { assert h in hm' && hm'[h].sid == id; }
    }
  }

  lemma LiveAfterStart(s: Snap, s1: Snap, s': Snap, k: Key, h: nat, o: Outcome, l: Live, id: int)
    requires s.hist.Keys == s.subs.Keys && k.sid in s.subs && h !in s.hm && id in s.subs
    requires Moved(s, s1, k.sid, l) && Started(s1, s', k, h, o)
    ensures id in s'.subs && id in s'.hist
    ensures LiveAt(s', id) == if id == k.sid
            then l.(left := LeftIn(s.tl, id), running := RunningIn(s.hm, id) + {k.task}, cancelled := id in s.cl)
            else LiveAt(s, id)
  {
    RunningAfterStart(s.hm, h, k, id);
  }

  lemma StartedWorld(s: Snap, s1: Snap, s': Snap, k: Key, h: nat, o: Outcome, l: Live, l': Live)
    requires s.hist.Keys == s.subs.Keys && k.sid in s.subs && h !in s.hm
    requires Moved(s, s1, k.sid, l) && Started(s1, s', k, h, o)
    requires l' ==
             l.(left := LeftIn(s.tl, k.sid), running := RunningIn(s.hm, k.sid) + {k.task}, cancelled := k.sid in s.cl)
    requires l'.left != {}
    ensures s'.hist.Keys == s'.subs.Keys && WorldOf(s') == Store(WorldOf(s), k.sid, l')
  {
    var w, w' := WorldOf(s), WorldOf(s');
    forall id | id in w.live ensures id in w'.live && w'.live[id] == if id == k.sid then l' else w.live[id] {
      LiveAfterStart(s, s1, s', k, h, o, l, id);
    }
    ReplaceIsStore(w, w', k.sid, l');
  }

  lemma StartedEntry(s: Snap, s1: Snap, s': Snap, k: Key, h: nat, o: Outcome, l: Live, x: Key)
    requires x in s.tl && EntryAt(s, x) && k.sid in s.subs && l.j.sub == s.subs[k.sid].sub
    requires Moved(s, s1, k.sid, l) && Started(s1, s', k, h, o)
    ensures x in s'.tl && EntryAt(s', x)
  {
  }

  lemma StartedHandle(s: Snap, s1: Snap, s': Snap, ora: Oracle, k: Key, h: nat, o: Outcome, l: Live, g: nat)
    requires g in s.hm && g in s.pending && HandleAt(s, ora, g) && g != h
    requires k.sid in s.subs && l.j.sub == s.subs[k.sid].sub
    requires Moved(s, s1, k.sid, l) && Started(s1, s', k, h, o)
    ensures HandleAt(s', ora, g)
  {
  }

  lemma StillOneHandle(hm: map<nat, Key>, h: nat, k: Key)
    requires TaskPool.Injective(hm) && h !in hm && k !in hm.Values
    ensures TaskPool.Injective(hm[h := k])
  {
    assert forall g :: g in hm ==> hm[g] in hm.Values;
  }

  lemma StartedNew(s: Snap, s1: Snap, s': Snap, ora: Oracle, k: Key, h: nat, o: Outcome, l: Live)
    requires k in s.tl && k.sid in s.subs && l.j.sub == s.subs[k.sid].sub && h !in s.hm
    requires Moved(s, s1, k.sid, l) && Started(s1, s', k, h, o)
    requires l.j.sub.stages >= 1 && TaskGraph.IsTask(l.j.sub, k.task) && o == Expected(l.j.sub, ora, k.task)
    ensures HandleAt(s', ora, h)
  {
  }

  lemma StartedRecorded(s: Snap, s1: Snap, s': Snap, ora: Oracle, k: Key, h: nat, o: Outcome, l: Live)
    requires Recorded(s, ora) && Ready(s, k) && k.sid in s.subs && l.j.sub == s.subs[k.sid].sub && h !in s.hm
    requires Moved(s, s1, k.sid, l) && Started(s1, s', k, h, o)
    requires l.j.sub.stages >= 1 && TaskGraph.IsTask(l.j.sub, k.task) && o == Expected(l.j.sub, ora, k.task)
    ensures Recorded(s', ora)
  {
    StartedNew(s, s1, s', ora, k, h, o, l);
    StillOneHandle(s.hm, h, k);
    StartedParts(s, s1, s', ora, k, h, o, l);
  }

  lemma StartedParts(s: Snap, s1: Snap, s': Snap, ora: Oracle, k: Key, h: nat, o: Outcome, l: Live)
    requires Recorded(s, ora) && k.sid in s.subs && l.j.sub == s.subs[k.sid].sub && h !in s.hm
    requires Moved(s, s1, k.sid, l) && Started(s1, s', k, h, o)
    requires HandleAt(s', ora, h) && TaskPool.Injective(s'.hm)
    ensures Recorded(s', ora)
  {
    hide EntryAt, HandleAt, TaskPool.Injective;
    forall x | x in s'.tl ensures EntryAt(s', x) { StartedEntry(s, s1, s', k, h, o, l, x); }
    forall g | g in s'.hm ensures HandleAt(s', ora, g) {
      if g != h { StartedHandle(s, s1, s', ora, k, h, o, l, g); }
    }
  }

  lemma StartedQueue(s: Snap, s1: Snap, s': Snap, k: Key, h: nat, o: Outcome, l: Live)
    requires QueueOk(s, {k}) && h !in s.hm && Moved(s, s1, k.sid, l) && Started(s1, s', k, h, o)
    ensures QueueOk(s', {})
  {
    forall x ensures x in s'.hm.Values <==> x in s.hm.Values || x == k {
      if x in s.hm.Values {
        var g :| g in s.hm && s.hm[g] == x;
        assert s'.hm[g] == x;
      }
      if x == k { assert s'.hm[h] == x; }
    }
  }
}
