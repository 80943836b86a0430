/** The scheduler's variables as one value, and how they represent the judge of `World`. */
module Snapshot {
  import opened Types
  import TestdataRun
  import TaskGraph
  import opened Lifecycle
  import LifecycleInv
  import Serial
  import opened World
  import TaskList
  import TaskPool

  /** `tl` to `cg` are the variables of submission.cpp; `pending` is what the sandbox processes
      will return; the rest is history. */
  datatype Snap = Snap(tl: map<Key, TaskList.Entry>, queue: multiset<Key>, hm: map<nat, Key>, subs: map<int, Judged>,
                       idMap: map<int, int>, cl: set<int>, cg: map<int, set<nat>>, pending: map<nat, Outcome>,
                       hist: map<int, History>, closed: map<int, Live>, numbering: map<int, Serial.Numbering>,
                       pushes: seq<(int, int)>)

  function RunningIn(hm: map<nat, Key>, id: int): set<Task> {
    set h | h in hm && hm[h].sid == id :: hm[h].task
  }

  function GroupsLost(cg: map<int, set<nat>>, id: int): set<nat> { if id in cg then cg[id] else {} }

  function LiveAt(s: Snap, id: int): Live
    requires id in s.subs && id in s.hist
  {
    Live(s.subs[id], TaskList.LeftIn(s.tl, id), RunningIn(s.hm, id), id in s.cl, GroupsLost(s.cg, id), s.hist[id])
  }

  function WorldOf(s: Snap): World
    requires s.hist.Keys == s.subs.Keys
  {
    EMPTY.(live := map id | id in s.subs :: LiveAt(s, id), closed := s.closed, numbering := s.numbering,
           idMap := s.idMap, pushes := s.pushes)
  }

  /** The task may be taken: nothing it waits for is left and it is not running. */
  predicate Ready(s: Snap, k: Key) { k in s.tl && s.tl[k].indeg == 0 && k !in s.hm.Values }

  /** Each ready task is queued once, except those in `hole`, which are being worked on. */
  ghost predicate QueueOk(s: Snap, hole: set<Key>) {
    forall k :: s.queue[k] == if Ready(s, k) && k !in hole then 1 else 0
  }

  ghost predicate EntryAt(s: Snap, k: Key)
    requires k in s.tl
  {
    && k.sid in s.subs && k.sid in s.numbering
    && s.subs[k.sid].sub.stages >= 1
    && TaskList.EntryOk(s.tl, k, s.subs[k.sid].sub, s.numbering[k.sid])
  }

  /** What a running task returns; while it runs nothing else touches its testdata. */
  function Expected(sub: Submission, ora: Oracle, t: Task): Outcome
    requires sub.stages >= 1 && TaskGraph.IsTask(sub, t)
  {
    if t.Execute? || t.Scoring? then
      TaskGraph.PosOfTask(sub, t);
      ora(sub.internalId, t, TestdataRun.Chain(sub, ora, t.td, TaskGraph.PosOf(sub, t)))
    else ora(sub.internalId, t, NO_RESULT)
  }

  ghost predicate HandleAt(s: Snap, ora: Oracle, h: nat)
    requires h in s.hm && h in s.pending
  {
    var k := s.hm[h];
    && k in s.tl && k.sid in s.subs && s.subs[k.sid].sub.stages >= 1 && TaskGraph.IsTask(s.subs[k.sid].sub, k.task)
    && s.pending[h] == Expected(s.subs[k.sid].sub, ora, k.task)
  }

  /** The variables fit together. */
  ghost predicate Recorded(s: Snap, ora: Oracle) {
    && s.hist.Keys == s.subs.Keys
    && (forall k :: k in s.tl ==> EntryAt(s, k))
    && TaskPool.Injective(s.hm) && s.hm.Keys == s.pending.Keys
    && (forall h :: h in s.hm ==> HandleAt(s, ora, h))
    && (forall id :: id in s.cl ==> id in s.subs || id in s.closed)
    && (forall id :: id in s.cg ==> id in s.subs)
    && (forall ext :: ext in s.idMap ==> s.idMap[ext] in s.subs || s.idMap[ext] in s.closed)
  }

  /** They do, and what they represent is a state the judge may be in. */
  ghost predicate Core(s: Snap, ora: Oracle) {
    Recorded(s, ora) && WInv(WorldOf(s), ora)
  }

  lemma LiveFacts(s: Snap, ora: Oracle, id: int)
    requires Core(s, ora) && id in s.subs
    ensures id in WorldOf(s).live && WorldOf(s).live[id] == LiveAt(s, id)
    ensures LifecycleInv.Inv(LiveAt(s, id), ora) && s.subs[id].sub.internalId == id && id !in s.closed
    ensures id in s.numbering && Serial.Numbered(s.subs[id].sub, s.numbering[id])
  {
    assert LiveOk(WorldOf(s), ora, id);
  }

  /** Ready means startable. */
  lemma ReadyIsStartable(s: Snap, ora: Oracle, k: Key)
    requires Core(s, ora) && k.sid in s.subs && s.subs[k.sid].sub.stages >= 1
    ensures Ready(s, k) <==> LifecycleInv.Startable(LiveAt(s, k.sid), k.task)
  {
    if k in s.tl {
      assert EntryAt(s, k);
      forall x | x in s.tl && x.sid == k.sid ensures TaskList.EntryOk(s.tl, x, s.subs[k.sid].sub, s.numbering[k.sid]) {
        assert EntryAt(s, x);
      }
      TaskList.ZeroIsUnblocked(s.tl, k, s.subs[k.sid].sub, s.numbering[k.sid]);
    }
    RunningIffHandled(s.hm, k);
  }

  lemma RunningIffHandled(hm: map<nat, Key>, k: Key)
    ensures k.task in RunningIn(hm, k.sid) <==> k in hm.Values
  {
    if k.task in RunningIn(hm, k.sid) {
      var h :| h in hm && hm[h].sid == k.sid && hm[h].task == k.task;
      assert hm[h] == k;
    }
    if k in hm.Values {
      var h :| h in hm && hm[h] == k;
    }
  }

  /** The tasks the queue may hand out are exactly those the judge may take. */
  lemma ReadyIsCanStart(s: Snap, ora: Oracle, k: Key)
    requires Core(s, ora)
    ensures Ready(s, k) <==> CanStart(WorldOf(s), k)
  {
    if k in s.tl { assert EntryAt(s, k); }
    if k.sid in s.subs {
      LiveFacts(s, ora, k.sid);
      ReadyIsStartable(s, ora, k);
    }
  }

  /** A running task will return what the judge expects of it. */
  lemma OutcomeIsExpected(l: Live, ora: Oracle, t: Task)
    requires LifecycleInv.Inv(l, ora) && t in l.running
    ensures l.j.sub.stages >= 1 && TaskGraph.IsTask(l.j.sub, t) && OutcomeOf(l, ora, t) == Expected(l.j.sub, ora, t)
  {
    if t.Execute? || t.Scoring? {
      LifecycleInv.HeadFacts(l, ora, t);
      TaskGraph.TaskAtPos(l.j.sub, t.td, l.h.pos[t.td]);
    }
  }
}
