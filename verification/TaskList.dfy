/** Task entries with edge lists and in-degrees, and how they follow the dependency graph. */
module TaskList {
  import opened Types
  import opened TaskGraph
  import opened Serial
  import opened World

  /** TaskEntry; the counter that numbers entries is replaced by the key (submission, task). */
  datatype Entry = Entry(priority: int, order: nat, indeg: int, edges: seq<Task>)

  ghost predicate Distinct(edges: seq<Task>) {
    forall a, b :: 0 <= a < b < |edges| ==> edges[a] != edges[b]
  }

  /* ---- one submission's graph while it is being built ---- */

  function Into(g: map<Task, Entry>, t: Task): set<Task> { set a | a in g && t in g[a].edges }

  ghost predicate EntryCounts(g: map<Task, Entry>, t: Task)
    requires t in g
  {
    && Distinct(g[t].edges)
    && (forall b :: b in g[t].edges ==> b in g)
    && g[t].indeg == |Into(g, t)|
  }

  ghost predicate Counts(g: map<Task, Entry>) { forall t :: t in g ==> EntryCounts(g, t) }

  function AddEntry(g: map<Task, Entry>, t: Task, priority: int, order: nat): map<Task, Entry> {
    g[t := Entry(priority, order, 0, [])]
  }

  function LinkEntries(g: map<Task, Entry>, a: Task, b: Task): map<Task, Entry>
    requires a in g && b in g && a != b
  {
    g[a := g[a].(edges := g[a].edges + [b])][b := g[b].(indeg := g[b].indeg + 1)]
  }

  lemma AddCounts(g: map<Task, Entry>, t: Task, priority: int, order: nat)
    requires Counts(g) && t !in g
    ensures Counts(AddEntry(g, t, priority, order))
  {
    var g' := AddEntry(g, t, priority, order);
    forall x | x in g' ensures EntryCounts(g', x) {
      if x in g {
        assert EntryCounts(g, x);
        assert Into(g', x) == Into(g, x);
      } else {
        assert forall a :: a in g ==> EntryCounts(g, a);
        assert Into(g', x) == {};
      }
    }
  }

  lemma LinkInto(g: map<Task, Entry>, a: Task, b: Task, x: Task)
    requires a in g && b in g && a != b && x in g
    ensures Into(LinkEntries(g, a, b), x) == if x == b then Into(g, x) + {a} else Into(g, x)
  {
  }

  lemma LinkCounts(g: map<Task, Entry>, a: Task, b: Task)
    requires Counts(g) && a in g && b in g && a != b && b !in g[a].edges
    ensures Counts(LinkEntries(g, a, b))
  {
    var g' := LinkEntries(g, a, b);
    forall x | x in g' ensures EntryCounts(g', x) {
      assert EntryCounts(g, x);
      LinkInto(g, a, b, x);
    }
  }

  /** The dependencies recorded in the edge lists. */
  function Links(g: map<Task, Entry>): set<(Task, Task)> {
    set a, b | a in g && b in g[a].edges :: (a, b)
  }

  /* ---- the whole task list ---- */

  function Preds(tl: map<Key, Entry>, k: Key): set<Task> {
    set a | a in tl && a.sid == k.sid && k.task in tl[a].edges :: a.task
  }

  function LeftIn(tl: map<Key, Entry>, id: int): set<Task> {
    set k | k in tl && k.sid == id :: k.task
  }

  /** The edge list of an entry is the set of tasks that wait for it; its in-degree counts the
      remaining tasks it waits for. */
  ghost predicate EntryOk(tl: map<Key, Entry>, k: Key, sub: Submission, nm: Numbering)
    requires k in tl && sub.stages >= 1
  {
    && IsTask(sub, k.task)
    && Distinct(tl[k].edges)
    && (forall b :: b in tl[k].edges <==> Edge(sub, k.task, b))
    && tl[k].indeg == |Preds(tl, k)|
    && tl[k].priority == sub.priority && tl[k].order == OrderOf(nm, k.task)
  }

  /** The list after the entry `k` was removed and its successors counted down. */
  function Removed(tl: map<Key, Entry>, k: Key): map<Key, Entry>
    requires k in tl
  {
    map x | x in tl && x != k ::
      if x.sid == k.sid && x.task in tl[k].edges then tl[x].(indeg := tl[x].indeg - 1) else tl[x]
  }

  lemma RemovedPreds(tl: map<Key, Entry>, k: Key, x: Key)
    requires k in tl && x in tl && x != k
    ensures Preds(Removed(tl, k), x) ==
            if x.sid == k.sid && x.task in tl[k].edges then Preds(tl, x) - {k.task} else Preds(tl, x)
    ensures x.sid == k.sid && x.task in tl[k].edges ==> k.task in Preds(tl, x)
  {
  }

  lemma RemovedEntryOk(tl: map<Key, Entry>, k: Key, x: Key, sub: Submission, nm: Numbering)
    requires k in tl && x in tl && x != k && sub.stages >= 1 && EntryOk(tl, x, sub, nm)
    ensures EntryOk(Removed(tl, k), x, sub, nm)
  {
    RemovedPreds(tl, k, x);
    hide Preds, Edge, IsTask, Distinct, OrderOf;
  }

  lemma RemovedLeft(tl: map<Key, Entry>, k: Key, id: int)
    requires k in tl
    ensures LeftIn(Removed(tl, k), id) == if id == k.sid then LeftIn(tl, id) - {k.task} else LeftIn(tl, id)
  {
    forall t ensures t in LeftIn(Removed(tl, k), id) <==> t in LeftIn(tl, id) && Key(id, t) != k {
      if t in LeftIn(tl, id) { assert Key(id, t) in tl; }
    }
  }

  /** An in-degree of zero is the same as waiting for nothing. */
  lemma ZeroIsUnblocked(tl: map<Key, Entry>, k: Key, sub: Submission, nm: Numbering)
    requires k in tl && sub.stages >= 1 && EntryOk(tl, k, sub, nm)
    requires forall x :: x in tl && x.sid == k.sid ==> EntryOk(tl, x, sub, nm)
    ensures tl[k].indeg == 0 <==> Unblocked(sub, LeftIn(tl, k.sid), k.task)
  {
    assert k.task in LeftIn(tl, k.sid);
    forall a ensures a in Preds(tl, k) <==> a in LeftIn(tl, k.sid) && Edge(sub, a, k.task) {
      if a in LeftIn(tl, k.sid) {
        assert EntryOk(tl, Key(k.sid, a), sub, nm);
      }
    }
    if |Preds(tl, k)| == 0 { assert Preds(tl, k) == {}; }
    if Unblocked(sub, LeftIn(tl, k.sid), k.task) { assert Preds(tl, k) == {}; }
  }

  /** The list with the entries of one more submission. */
  function Inserted(tl: map<Key, Entry>, id: int, g: map<Task, Entry>): map<Key, Entry> {
    tl + map t | t in g :: Key(id, t) := g[t]
  }

  lemma InsertedOther(tl: map<Key, Entry>, id: int, g: map<Task, Entry>, x: Key, sub: Submission, nm: Numbering)
    requires x in tl && x.sid != id && sub.stages >= 1 && EntryOk(tl, x, sub, nm)
    ensures x in Inserted(tl, id, g) && EntryOk(Inserted(tl, id, g), x, sub, nm)
  {
    assert Preds(Inserted(tl, id, g), x) == Preds(tl, x);
  }

  lemma InsertedNew(tl: map<Key, Entry>, id: int, g: map<Task, Entry>, t: Task, sub: Submission, nm: Numbering)
    requires t in g && sub.stages >= 1 && (forall x :: x in tl ==> x.sid != id)
    requires IsTask(sub, t) && EntryCounts(g, t) && (forall b :: b in g[t].edges <==> Edge(sub, t, b))
    requires g[t].priority == sub.priority && g[t].order == OrderOf(nm, t)
    ensures Key(id, t) in Inserted(tl, id, g) && EntryOk(Inserted(tl, id, g), Key(id, t), sub, nm)
  {
    var tl' := Inserted(tl, id, g);
    forall a ensures a in Preds(tl', Key(id, t)) <==> a in Into(g, t) {
      if a in Into(g, t) { assert Key(id, a) in tl'; }
    }
    assert Preds(tl', Key(id, t)) == Into(g, t);
  }

  lemma InsertedLeft(tl: map<Key, Entry>, id: int, g: map<Task, Entry>, x: int)
    requires forall k :: k in tl ==> k.sid != id
    ensures LeftIn(Inserted(tl, id, g), x) == if x == id then g.Keys else LeftIn(tl, x)
  {
    var tl' := Inserted(tl, id, g);
    forall t ensures t in LeftIn(tl', x) <==> if x == id then t in g else t in LeftIn(tl, x) {
      if t in g { assert Key(id, t) in tl'; }
      if t in LeftIn(tl, x) { assert Key(x, t) in tl'; }
      if t in LeftIn(tl', x) { assert Key(x, t) in tl'; }
    }
  }
}
