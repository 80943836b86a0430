/** The moves of the scheduler: taking a task, getting one back, taking in a submission. Each
    refines one step of the judge and leaves exactly the ready tasks in the queue. */
module SnapshotMoves {
  import opened Types
  import TestdataRun
  import opened TaskGraph
  import Totals
  import opened Lifecycle
  import opened LifecycleInv
  import Outcomes
  import opened Serial
  import opened World
  import opened TaskList
  import opened TaskPool
  import GraphBuilder
  import opened Snapshot
  import opened SnapshotSteps

  /** What finalizing task `k` relies on. */
  ghost predicate Leaving(s: Snap, k: Key, skipped: bool) {
    && k.sid in s.subs && k.sid in s.hist && Sized(LiveAt(s, k.sid))
    && k in s.tl && Distinct(s.tl[k].edges)
    && (forall b :: b in s.tl[k].edges ==> b != k.task && Key(k.sid, b) in s.tl)
    && (k.task.Scoring? && !skipped ==> k.task.td < |s.subs[k.sid].tds|)
  }

  lemma LeavingFacts(s: Snap, k: Key, skipped: bool)
    requires Leaving(s, k, skipped)
    ensures k.sid in s.subs && k.sid in s.hist && k in s.tl && k.task in LiveAt(s, k.sid).left
    ensures var l := LiveAt(s, k.sid); IsTask'(l, k.task) && |l.j.tds| <= |l.j.sub.testdata|
  {
  }

  lemma EdgesStay(s: Snap, k: Key)
    requires k in s.tl && EntryAt(s, k) && UpClosed(s.subs[k.sid].sub, LeftIn(s.tl, k.sid))
    ensures Distinct(s.tl[k].edges)
    ensures forall b :: b in s.tl[k].edges ==> b != k.task && Key(k.sid, b) in s.tl
  {
    forall b | b in s.tl[k].edges ensures b != k.task && Key(k.sid, b) in s.tl {
      EdgeRaisesRank(s.subs[k.sid].sub, k.task, b);
      assert b in LeftIn(s.tl, k.sid);
    }
  }

  lemma TakeFacts(s: Snap, ora: Oracle, k: Key)
    requires Core(s, ora) && Ready(s, k)
    ensures k.sid in s.subs && k.sid in s.hist && k in s.tl
    ensures Inv(LiveAt(s, k.sid), ora) && Startable(LiveAt(s, k.sid), k.task)
    ensures Leaving(s, k, true)
  {
    hide WInv, HandleAt, Injective;
    assert EntryAt(s, k);
    LiveFacts(s, ora, k.sid);
    ReadyIsStartable(s, ora, k);
    EdgesStay(s, k);
  }

  lemma SetupKeepsLeaving(s: Snap, s1: Snap, k: Key, l1: Live)
    requires Leaving(s, k, true) && Moved(s, s1, k.sid, l1)
    requires l1.j.sub == s.subs[k.sid].sub && |l1.j.tds| == |s.subs[k.sid].tds|
    requires l1.h.pos == s.hist[k.sid].pos && l1.h.eff == s.hist[k.sid].eff
    ensures Leaving(s1, k, true)
  {
  }

  lemma SetupKeeps(l: Live, t: Task)
    requires IsTask'(l, t) && |l.j.tds| <= |l.j.sub.testdata|
    ensures var l1 := AfterSetup(l, t);
            && l1.j.sub == l.j.sub && |l1.j.tds| == |l.j.tds| && l1.h.pos == l.h.pos && l1.h.eff == l.h.eff
            && l1.left == l.left && l1.running == l.running && l1.cancelled == l.cancelled
  {
  }

  lemma UnblockedScoring(l: Live, ora: Oracle, t: Task)
    requires Inv(l, ora) && t in l.running
    ensures Sized(l) && t in l.left && (t.Scoring? ==> t.td < |l.j.tds|)
  {
    assert Unblocked(l.j.sub, l.left, t);
    if t.Scoring? { ScoringHasResult(l, ora, t); }
  }

  lemma FetchedLeaving(s: Snap, k: Key, h: nat)
    requires s.hist.Keys == s.subs.Keys && Injective(s.hm) && h in s.hm && k == s.hm[h] && k.sid in s.subs
    requires k in s.tl && EntryAt(s, k) && Sized(LiveAt(s, k.sid))
    requires k.task.Scoring? ==> k.task.td < |s.subs[k.sid].tds|
    ensures Leaving(Fetched(s, h), k, false)
  {
    EdgesStay(s, k);
    LiveAfterFetch(s, h, k.sid);
  }

  /** After the result of handle `h` was fetched. */
  lemma ReturnFacts(s: Snap, ora: Oracle, k: Key, h: nat)
    requires Core(s, ora) && QueueOk(s, {}) && h in s.hm && k == s.hm[h]
    ensures k.sid in s.subs && k.sid in s.hist && k in s.tl && Sized(LiveAt(s, k.sid))
    ensures k.task in LiveAt(s, k.sid).left
    ensures Leaving(Fetched(s, h), k, false) && s.pending[h] == OutcomeOf(LiveAt(s, k.sid), ora, k.task)
    ensures LiveAt(Fetched(s, h), k.sid) == LiveAt(s, k.sid).(running := LiveAt(s, k.sid).running - {k.task})
  {
    hide WInv, HandleAt, QueueOk, Inv, EntryOk, HandledFree, Leaving, RunningKeys, Sized;
    FetchFacts(s, ora, k, h);
    LiveAfterFetch(s, h, k.sid);
    UnblockedScoring(LiveAt(s, k.sid), ora, k.task);
    assert EntryAt(s, k);
    FetchedLeaving(s, k, h);
  }

  lemma ScoringHasResult(l: Live, ora: Oracle, t: Task)
    requires Inv(l, ora) && t in l.running && t.Scoring?
    ensures t.td < |l.j.tds|
  {
    HeadFacts(l, ora, t);
    TestdataRun.FirstTask(l.j.sub, t.td, l.h.pos[t.td]);
  }

  /* ---- a task is started ---- */

  lemma StartedOutcome(l: Live, ora: Oracle, t: Task)
    requires Inv(l, ora) && Startable(l, t) && IsTask(l.j.sub, t) && SetupStarts(l, t)
    ensures OutcomeOf(l, ora, t) == Expected(l.j.sub, ora, t)
  {
    DispatchInv(l, ora, t);
    OutcomeIsExpected(Dispatch(l, t), ora, t);
  }

  lemma StartIs(l: Live, t: Task)
    requires Sized(l) && t in l.left && SetupStarts(l, t)
    ensures AfterSetup(l, t).j.sub == l.j.sub
    ensures Dispatch(l, t) == AfterSetup(l, t).(left := l.left, running := l.running + {t}, cancelled := l.cancelled)
  {
  }

  /** `s1` is what Setup leaves, `s'` what starting the process leaves. */
  lemma TakeStarts(s: Snap, s1: Snap, s': Snap, ora: Oracle, k: Key, h: nat)
    requires Core(s, ora) && QueueOk(s, {k}) && Ready(s, k) && k.sid in s.subs && h !in s.hm
    requires var l := LiveAt(s, k.sid);
             && IsTask'(l, k.task) && |l.j.tds| <= |l.j.sub.testdata| && SetupStarts(l, k.task)
             && Moved(s, s1, k.sid, AfterSetup(l, k.task)) && Started(s1, s', k, h, OutcomeOf(l, ora, k.task))
    ensures Core(s', ora) && QueueOk(s', {})
    ensures CanStart(WorldOf(s), k) && Sized(WorldOf(s).live[k.sid]) && WorldOf(s') == DispatchKey(WorldOf(s), k)
  {
    var l, o := LiveAt(s, k.sid), OutcomeOf(LiveAt(s, k.sid), ora, k.task);
    LiveFacts(s, ora, k.sid);
    ReadyIsCanStart(s, ora, k);
    ReadyIsStartable(s, ora, k);
    StartedOutcome(l, ora, k.task);
    TakeKeeps(WorldOf(s), ora, k);
    StartIs(l, k.task);
    StartedWorld(s, s1, s', k, h, o, AfterSetup(l, k.task), Dispatch(l, k.task));
    StartedRecorded(s, s1, s', ora, k, h, o, AfterSetup(l, k.task));
    StartedQueue(s, s1, s', k, h, o, AfterSetup(l, k.task));
  }

  lemma OutcomeAfterSetup(l: Live, ora: Oracle, t: Task)
    requires IsTask'(l, t) && |l.j.tds| <= |l.j.sub.testdata| && SetupStarts(l, t)
    ensures OutcomeOf(AfterSetup(l, t), ora, t) == OutcomeOf(l, ora, t)
  {
  }

  lemma MovedKnown(s: Snap, s1: Snap, id: int, l: Live)
    requires Moved(s, s1, id, l)
    ensures id in s1.subs && id in s1.hist && s1.hm == s.hm && s1.pending == s.pending
  {
  }

  lemma StartedIsTaken(s: Snap, s1: Snap, s': Snap, ora: Oracle, k: Key, h: nat)
    requires Core(s, ora) && QueueOk(s, {k}) && Ready(s, k) && Leaving(s, k, true) && h !in s.hm
    requires SetupStarts(LiveAt(s, k.sid), k.task) && Moved(s, s1, k.sid, AfterSetup(LiveAt(s, k.sid), k.task))
    requires k.sid in s1.subs && k.sid in s1.hist
    requires Started(s1, s', k, h, OutcomeOf(LiveAt(s1, k.sid), ora, k.task))
    ensures Core(s', ora) && QueueOk(s', {}) && s'.hist.Keys == s'.subs.Keys
    ensures CanStart(WorldOf(s), k) && Sized(WorldOf(s).live[k.sid]) && WorldOf(s') == DispatchKey(WorldOf(s), k)
  {
    LeavingFacts(s, k, true);
    SetupKeeps(LiveAt(s, k.sid), k.task);
    assert LiveAt(s1, k.sid) == AfterSetup(LiveAt(s, k.sid), k.task);
    OutcomeAfterSetup(LiveAt(s, k.sid), ora, k.task);
    hide WInv, QueueOk, Moved, Dispatch, HandledFree, EntryAt, HandleAt, Injective, UpClosed, Started, Leaving;
    TakeStarts(s, s1, s', ora, k, h);
  }

  /* ---- a task leaves the graph ---- */

  /** FinalizeTask: the records are updated or, for a summary, erased, then the task is removed. */
  ghost predicate Finished(s: Snap, s': Snap, k: Key, l: Live)
    requires k in s.tl
  {
    && s'.tl == Removed(s.tl, k) && Woken(s, s'.queue, k)
    && var s1 := s'.(tl := s.tl, queue := s.queue);
       if k.task.Summary? then Erased(s, s1, k.sid, l) else Moved(s, s1, k.sid, l)
  }

  /** Whatever the judge makes of submission k.sid when `k` leaves, the variables follow. */
  lemma FinishedFollows(s: Snap, s': Snap, ora: Oracle, k: Key, l: Live, l': Live)
    requires Recorded(s, ora) && HandledFree(s) && QueueOk(s, {k}) && k in s.tl && s.tl[k].indeg == 0
    requires k !in s.hm.Values
    requires k.sid in s.subs && l.j.sub == s.subs[k.sid].sub && Finished(s, s', k, l)
    requires l' ==
             l.(left := LeftIn(s.tl, k.sid) - {k.task}, running := RunningIn(s.hm, k.sid), cancelled := k.sid in s.cl)
    requires k.task.Summary? ==> l == l' && LeftIn(s.tl, k.sid) == {k.task}
    requires !k.task.Summary? ==> l'.left != {}
    ensures Recorded(s', ora) && QueueOk(s', {}) && WorldOf(s') == Store(WorldOf(s), k.sid, l')
  {
    var s1 := s'.(tl := s.tl, queue := s.queue);
    RemoveKeepsQueue(s, ora, k, s');
    if k.task.Summary? {
      ErasedRecorded(s, s1, s', ora, k, l);
      ErasedWorld(s, s1, s', k, l);
    } else {
      MovedRecorded(s, s1, s', ora, k, l);
      MovedWorld(s, s1, s', k, l, l');
    }
  }

  /** The state of a submission after a task that was not started. */
  function AfterSkip(l: Live, t: Task): Live
    requires IsTask'(l, t) && |l.j.tds| <= |l.j.sub.testdata|
  {
    if t.Summary? then AfterSummary(AfterSetup(l, t), true, EMPTY_OUTCOME) else AfterSetup(l, t)
  }

  /** Setup may have scored a testdata before the task leaves. */
  lemma FinishedAfterSetup(s: Snap, s1: Snap, s': Snap, k: Key, l1: Live, l': Live)
    requires k in s.tl && Moved(s, s1, k.sid, l1) && Finished(s1, s', k, l')
    ensures Finished(s, s', k, l')
  {
    hide Removed;
    OverwrittenOrErased(s.subs, k.sid, l1.j, l'.j);
    OverwrittenOrErased(s.hist, k.sid, l1.h, l'.h);
  }

  lemma OverwrittenOrErased<T>(m: map<int, T>, id: int, x: T, y: T)
    ensures m[id := x] - {id} == m - {id}
    ensures m[id := x][id := y] == m[id := y]
  {
  }

  lemma SkipIs(l: Live, t: Task)
    requires Sized(l) && t in l.left && IsTask(l.j.sub, t) && !SetupStarts(l, t)
    ensures Dispatch(l, t) == Gone(AfterSkip(l, t), t, !Dropped(l, t), false)
  {
  }

  lemma SkipRemoves(l: Live, t: Task)
    requires Sized(l) && t in l.left && !SetupStarts(l, t)
    ensures Dispatch(l, t).j.sub == l.j.sub && Dispatch(l, t).left == l.left - {t}
    ensures Dispatch(l, t).running == l.running - {t} && Dispatch(l, t).cancelled == l.cancelled
  {
  }

  lemma SkipLeaves(l: Live, ora: Oracle, t: Task)
    requires Inv(l, ora) && Startable(l, t) && Sized(l) && !SetupStarts(l, t)
    ensures var l' := Dispatch(l, t);
            && l'.j.sub == l.j.sub && l'.left == l.left - {t} && l'.running == l.running && l'.cancelled == l.cancelled
    ensures t.Summary? ==> l.left == {t}
    ensures !t.Summary? ==> l.left - {t} != {}
  {
    SkipRemoves(l, t);
    SummaryStays(l, ora, t);
    assert l.running - {t} == l.running;
  }

  lemma SummaryStays(l: Live, ora: Oracle, t: Task)
    requires Inv(l, ora) && Unblocked(l.j.sub, l.left, t)
    ensures t.Summary? ==> l.left == {t}
    ensures !t.Summary? ==> l.left - {t} != {}
  {
    if t.Summary? { Outcomes.SummaryFacts(l, ora); } else { assert Summary in l.left - {t}; }
  }

  lemma SkipFacts(s: Snap, ora: Oracle, k: Key, l: Live)
    requires Core(s, ora) && Ready(s, k) && k.sid in s.subs && l == LiveAt(s, k.sid)
    ensures Inv(l, ora) && Startable(l, k.task)
    ensures HandledFree(s) && CanStart(WorldOf(s), k) && WorldOf(s).live[k.sid] == l
  {
    LiveFacts(s, ora, k.sid);
    ReadyIsCanStart(s, ora, k);
    ReadyIsStartable(s, ora, k);
    HandledIsFree(s, ora);
  }

  lemma FinishedTake(s: Snap, s': Snap, ora: Oracle, k: Key, l: Live, l': Live)
    requires Recorded(s, ora) && HandledFree(s) && QueueOk(s, {k}) && Ready(s, k) && k.sid in s.subs
    requires l == LiveAt(s, k.sid) && Finished(s, s', k, l')
    requires l'.j.sub == l.j.sub && l'.left == l.left - {k.task} && l'.running == l.running
    requires l'.cancelled == l.cancelled
    requires k.task.Summary? ==> l.left == {k.task}
    requires !k.task.Summary? ==> l.left - {k.task} != {}
    ensures Recorded(s', ora) && QueueOk(s', {}) && WorldOf(s') == Store(WorldOf(s), k.sid, l')
  {
    FinishedFollows(s, s', ora, k, l', l');
  }

  lemma TakeSkips(s: Snap, s': Snap, ora: Oracle, k: Key)
    requires Core(s, ora) && QueueOk(s, {k}) && Ready(s, k) && k.sid in s.subs
    requires var l := LiveAt(s, k.sid);
             && Sized(l) && k.task in l.left && !SetupStarts(l, k.task)
             && Finished(s, s', k, Dispatch(l, k.task))
    ensures Core(s', ora) && QueueOk(s', {})
    ensures CanStart(WorldOf(s), k) && WorldOf(s') == DispatchKey(WorldOf(s), k)
  {
    hide WInv, QueueOk, Finished, Dispatch, LiveAt, HandledFree, EntryAt, HandleAt, Injective, Sized;
    var l := LiveAt(s, k.sid);
    SkipFacts(s, ora, k, l);
    SkipLeaves(l, ora, k.task);
    FinishedTake(s, s', ora, k, l, Dispatch(l, k.task));
    TakeKeeps(WorldOf(s), ora, k);
  }

  /** The state of a submission once a task is finalized and removed. */
  function AfterLeaving(l: Live, t: Task, o: Outcome, skipped: bool, effective: bool): Live
    requires Sized(l) && t in l.left
  {
    var after := if t.Summary? then AfterSummary(l, skipped, o) else if skipped then l else Finalize(l, t, o);
    Gone(after, t, effective, !skipped)
  }

  ghost predicate EffectiveSkip(s: Snap, k: Key)
    requires Leaving(s, k, true)
  {
    !Dropped(LiveAt(s, k.sid), k.task)
  }

  /** Setup declined: what it left may be finalized, and that is how the judge dispatches the task. */
  lemma SkippedMayLeave(s: Snap, s1: Snap, ora: Oracle, k: Key)
    requires Leaving(s, k, true) && !SetupStarts(LiveAt(s, k.sid), k.task)
    requires Moved(s, s1, k.sid, AfterSetup(LiveAt(s, k.sid), k.task))
    ensures Leaving(s1, k, true)
    ensures AfterLeaving(LiveAt(s1, k.sid), k.task, EMPTY_OUTCOME, true, EffectiveSkip(s, k)) ==
            Dispatch(LiveAt(s, k.sid), k.task)
  {
    LeavingFacts(s, k, true);
    hide UpClosed, LeftIn, RunningIn, TestdataRun.PlanOf;
    var l := LiveAt(s, k.sid);
    SetupKeeps(l, k.task);
    SetupKeepsLeaving(s, s1, k, AfterSetup(l, k.task));
    assert LiveAt(s1, k.sid) == AfterSetup(l, k.task);
    SkipIs(l, k.task);
  }

  lemma SkippedIsTaken(s: Snap, s1: Snap, s': Snap, ora: Oracle, k: Key)
    requires Core(s, ora) && QueueOk(s, {k}) && Ready(s, k) && Leaving(s, k, true)
    requires !SetupStarts(LiveAt(s, k.sid), k.task) && Moved(s, s1, k.sid, AfterSetup(LiveAt(s, k.sid), k.task))
    requires k in s1.tl && Finished(s1, s', k, Dispatch(LiveAt(s, k.sid), k.task))
    ensures Core(s', ora) && QueueOk(s', {}) && s'.hist.Keys == s'.subs.Keys
    ensures CanStart(WorldOf(s), k) && Sized(WorldOf(s).live[k.sid]) && WorldOf(s') == DispatchKey(WorldOf(s), k)
  {
    LeavingFacts(s, k, true);
    hide WInv, QueueOk, Finished, Moved, Dispatch, HandledFree, EntryAt, HandleAt, Injective, UpClosed;
    var l := LiveAt(s, k.sid);
    FinishedAfterSetup(s, s1, s', k, AfterSetup(l, k.task), Dispatch(l, k.task));
    TakeSkips(s, s', ora, k);
  }

  /* ---- a task comes back ---- */

  /** WaitTask has fetched the result of handle `h`. */
  function Fetched(s: Snap, h: nat): Snap { s.(hm := s.hm - {h}, pending := s.pending - {h}) }

  lemma RunningAfterFetch(hm: map<nat, Key>, h: nat, id: int)
    requires Injective(hm) && h in hm
    ensures RunningIn(hm - {h}, id) == if id == hm[h].sid then RunningIn(hm, id) - {hm[h].task} else RunningIn(hm, id)
  {
    var hm' := hm - {h};
    forall t ensures t in RunningIn(hm', id) <==> t in RunningIn(hm, id) && Key(id, t) != hm[h] {
      if t in RunningIn(hm, id) {
        var g :| g in hm && hm[g].sid == id && hm[g].task == t;
        assert hm[g] == Key(id, t);
        if Key(id, t) != hm[h] { assert g in hm' && hm'[g] == hm[g]; }
      }
      if t in RunningIn(hm', id) {
        var g :| g in hm' && hm'[g].sid == id && hm'[g].task == t;
        assert g in hm && hm[g] == Key(id, t);
      }
    }
  }

  lemma LiveAfterFetch(s: Snap, h: nat, id: int)
    requires s.hist.Keys == s.subs.Keys && Injective(s.hm) && h in s.hm && id in s.subs
    ensures LiveAt(Fetched(s, h), id) ==
            if id == s.hm[h].sid then LiveAt(s, id).(running := LiveAt(s, id).running - {s.hm[h].task})
            else LiveAt(s, id)
  {
    RunningAfterFetch(s.hm, h, id);
  }

  lemma SameEntry(s: Snap, s': Snap, k: Key)
    requires k in s.tl && EntryAt(s, k) && s'.tl == s.tl && s'.subs == s.subs && s'.numbering == s.numbering
    ensures EntryAt(s', k)
  {
  }

  lemma SameHandle(s: Snap, s': Snap, ora: Oracle, h: nat)
    requires h in s.hm && h in s.pending && HandleAt(s, ora, h) && s'.tl == s.tl && s'.subs == s.subs
    requires h in s'.hm && h in s'.pending && s'.hm[h] == s.hm[h] && s'.pending[h] == s.pending[h]
    ensures HandleAt(s', ora, h)
  {
  }

  lemma FetchedRecorded(s: Snap, ora: Oracle, h: nat)
    requires Recorded(s, ora) && h in s.hm
    ensures Recorded(Fetched(s, h), ora) && s.hm[h] !in Fetched(s, h).hm.Values
  {
    hide EntryAt, HandleAt;
    var s' := Fetched(s, h);
    forall k | k in s'.tl ensures EntryAt(s', k) { SameEntry(s, s', k); }
    forall g | g in s'.hm ensures HandleAt(s', ora, g) { SameHandle(s, s', ora, g); }
    assert forall g :: g in s'.hm ==> s'.hm[g] != s.hm[h];
  }

  lemma FetchedQueue(s: Snap, h: nat)
    requires QueueOk(s, {}) && h in s.hm && Injective(s.hm) && HandledFree(s)
    ensures QueueOk(Fetched(s, h), {s.hm[h]}) && HandledFree(Fetched(s, h))
  {
    var s' := Fetched(s, h);
    forall x ensures x in s.hm.Values <==> x in s'.hm.Values || x == s.hm[h] {
      if x in s.hm.Values {
        var g :| g in s.hm && s.hm[g] == x;
        assert g != h ==> s'.hm[g] == x;
      }
      if x in s'.hm.Values {
        var g :| g in s'.hm && s'.hm[g] == x;
        assert s.hm[g] == x;
      }
    }
    assert forall g :: g in s'.hm ==> s'.hm[g] != s.hm[h];
  }

  lemma StoreAfterFetch(s: Snap, h: nat, l: Live)
    requires s.hist.Keys == s.subs.Keys && Injective(s.hm) && h in s.hm && s.hm[h].sid in s.subs
    ensures Store(WorldOf(Fetched(s, h)), s.hm[h].sid, l) == Store(WorldOf(s), s.hm[h].sid, l)
  {
    var w, w', id := WorldOf(s), WorldOf(Fetched(s, h)), s.hm[h].sid;
    forall x | x in w.live && x != id ensures w'.live[x] == w.live[x] {
      LiveAfterFetch(s, h, x);
    }
    assert w.live[id := l] == w'.live[id := l];
    assert w.live - {id} == w'.live - {id};
  }

  /** Finalizing does not look at what else is running. */
  lemma CompleteIs(l: Live, ora: Oracle, t: Task)
    requires Sized(l) && t in l.left
    ensures Complete(l, ora, t) ==
            Gone(Finalize(l.(running := l.running - {t}), t, OutcomeOf(l, ora, t)), t, true, true)
  {
    assert l.running - {t} - {t} == l.running - {t};
  }

  lemma CompleteRemoves(l: Live, ora: Oracle, t: Task)
    requires Sized(l) && t in l.left
    ensures var l' := Complete(l, ora, t);
            && l'.j.sub == l.j.sub && l'.left == l.left - {t} && l'.running == l.running - {t}
              && l'.cancelled == l.cancelled
  {
  }

  lemma FetchFacts(s: Snap, ora: Oracle, k: Key, h: nat)
    requires Core(s, ora) && QueueOk(s, {}) && h in s.hm && k == s.hm[h]
    ensures k.sid in s.subs && Inv(LiveAt(s, k.sid), ora) && k.task in LiveAt(s, k.sid).running
    ensures k in RunningKeys(WorldOf(s)) && k in s.tl && s.tl[k].indeg == 0
    ensures HandledFree(s) && s.pending[h] == OutcomeOf(LiveAt(s, k.sid), ora, k.task)
  {
    assert HandleAt(s, ora, h);
    LiveFacts(s, ora, k.sid);
    HandledIsFree(s, ora);
    assert k in s.hm.Values;
    RunningIffHandled(s.hm, k);
    assert WorldOf(s).live[k.sid] == LiveAt(s, k.sid);
    OutcomeIsExpected(LiveAt(s, k.sid), ora, k.task);
  }

  lemma FinishedReturn(s: Snap, s': Snap, ora: Oracle, k: Key, h: nat, l: Live, l': Live)
    requires Recorded(s, ora) && HandledFree(s) && QueueOk(s, {}) && h in s.hm && k == s.hm[h]
    requires k.sid in s.subs && k in s.tl && s.tl[k].indeg == 0
    requires l == LiveAt(s, k.sid) && Finished(Fetched(s, h), s', k, l')
    requires l'.j.sub == l.j.sub && l'.left == l.left - {k.task} && l'.running == l.running - {k.task}
    requires l'.cancelled == l.cancelled
    requires k.task.Summary? ==> l.left == {k.task}
    requires !k.task.Summary? ==> l.left - {k.task} != {}
    ensures Recorded(s', ora) && QueueOk(s', {}) && WorldOf(s') == Store(WorldOf(s), k.sid, l')
  {
    FetchedRecorded(s, ora, h);
    FetchedQueue(s, h);
    RunningAfterFetch(s.hm, h, k.sid);
    FinishedFollows(Fetched(s, h), s', ora, k, l', l');
    StoreAfterFetch(s, h, l');
  }

  lemma ReturnWorld(w: World, ora: Oracle, k: Key, l: Live, l': Live)
    requires WInv(w, ora) && k in RunningKeys(w) && w.live[k.sid] == l && Sized(l) && k.task in l.left
    requires l' == Complete(l, ora, k.task)
    ensures Store(w, k.sid, l') == CompleteKey(w, ora, k) && WInv(Store(w, k.sid, l'), ora)
  {
    ReturnKeeps(w, ora, k);
  }

  lemma Returns(s: Snap, s': Snap, ora: Oracle, k: Key, h: nat, l: Live, l': Live)
    requires Core(s, ora) && QueueOk(s, {}) && h in s.hm && k == s.hm[h] && k.sid in s.subs && k in s.tl
    requires l == LiveAt(s, k.sid) && Sized(l) && k.task in l.left && l' == Complete(l, ora, k.task)
    requires Finished(Fetched(s, h), s', k, l')
    ensures Core(s', ora) && QueueOk(s', {})
    ensures k in RunningKeys(WorldOf(s)) && WorldOf(s') == CompleteKey(WorldOf(s), ora, k)
  {
    hide WInv, QueueOk, Finished, Complete, LiveAt, HandledFree, EntryAt, HandleAt, Injective, Sized;
    FetchFacts(s, ora, k, h);
    SummaryStays(l, ora, k.task);
    CompleteRemoves(l, ora, k.task);
    FinishedReturn(s, s', ora, k, h, l, l');
    ReturnWorld(WorldOf(s), ora, k, l, l');
  }

  lemma CompletesAs(l: Live, lf: Live, ora: Oracle, t: Task, o: Outcome)
    requires Sized(l) && t in l.left && lf == l.(running := l.running - {t}) && o == OutcomeOf(l, ora, t)
    ensures Sized(lf) && AfterLeaving(lf, t, o, false, true) == Complete(l, ora, t)
  {
    CompleteIs(l, ora, t);
  }

  lemma ReturnIsComplete(s: Snap, s': Snap, ora: Oracle, k: Key, h: nat, l: Live, lf: Live, o: Outcome)
    requires Core(s, ora) && QueueOk(s, {}) && h in s.hm && k == s.hm[h] && Leaving(Fetched(s, h), k, false)
    requires k.sid in s.subs && k.sid in s.hist && l == LiveAt(s, k.sid) && lf == LiveAt(Fetched(s, h), k.sid)
    requires Sized(l) && k.task in l.left && lf == l.(running := l.running - {k.task}) && o == OutcomeOf(l, ora, k.task)
    requires Finished(Fetched(s, h), s', k, AfterLeaving(lf, k.task, o, false, true))
    ensures Core(s', ora) && QueueOk(s', {}) && s'.hist.Keys == s'.subs.Keys
    ensures k in RunningKeys(WorldOf(s)) && Sized(WorldOf(s).live[k.sid]) && k.task in WorldOf(s).live[k.sid].left
    ensures WorldOf(s') == CompleteKey(WorldOf(s), ora, k)
  {
    LeavingFacts(Fetched(s, h), k, false);
    LiveFacts(s, ora, k.sid);
    CompletesAs(l, lf, ora, k.task, o);
    hide WInv, QueueOk, Finished, HandledFree, EntryAt, HandleAt, Leaving, UpClosed, Inv, WorldOf, LiveAt, CompleteKey,
         RunningKeys, AfterLeaving, Complete, OutcomeOf, Sized;
    Returns(s, s', ora, k, h, l, Complete(l, ora, k.task));
  }

  /* ---- a submission comes in ---- */

  ghost predicate Queued(s: Snap, queue: multiset<Key>, id: int, g: map<Task, Entry>) {
    forall x :: queue[x] == s.queue[x] + if x.sid == id && x.task in g && g[x.task].indeg == 0 then 1 else 0
  }

  /** PushSubmission, with the entries `g`. */
  ghost predicate Pushed(s: Snap, s': Snap, sub: Submission, nm: Numbering, g: map<Task, Entry>)
    requires sub.stages >= 1
  {
    var id, ext, l := sub.internalId, sub.submissionId, Arrived(sub);
    && Queued(s, s'.queue, id, g)
    && s' == s.(tl := Inserted(s.tl, id, g), queue := s'.queue, subs := s.subs[id := l.j], hist := s.hist[id := l.h],
                idMap := s.idMap[ext := id], cl := if ext in s.idMap then s.cl + {s.idMap[ext]} else s.cl,
                numbering := s.numbering[id := nm], pushes := s.pushes + [(id, ext)])
  }

  lemma IsPushed(s: Snap, s': Snap, sub: Submission, nm: Numbering, g: map<Task, Entry>)
    requires sub.stages >= 1 && Queued(s, s'.queue, sub.internalId, g)
    requires var id, ext := sub.internalId, sub.submissionId;
      s' == s.(tl := Inserted(s.tl, id, g), queue := s'.queue,
        subs := s.subs[id := Judged(sub, [], NUL, Totals.NO_TOTALS)],
               hist := s.hist[id := Arrived(sub).h], idMap := s.idMap[ext := id],
               cl := if ext in s.idMap then s.cl + {s.idMap[ext]} else s.cl,
               numbering := s.numbering[id := nm], pushes := s.pushes + [(id, ext)])
    ensures Pushed(s, s', sub, nm, g)
  {
  }

  ghost predicate Fresh(s: Snap, id: int) { id !in s.subs && id !in s.closed }

  lemma FreshFacts(s: Snap, ora: Oracle, id: int)
    requires Recorded(s, ora) && Fresh(s, id)
    ensures (forall k :: k in s.tl ==> k.sid != id) && (forall h :: h in s.hm ==> s.hm[h].sid != id)
    ensures id !in s.cl && id !in s.cg && RunningIn(s.hm, id) == {}
  {
    forall k | k in s.tl ensures k.sid != id { assert EntryAt(s, k); }
    forall h | h in s.hm ensures s.hm[h].sid != id { assert HandleAt(s, ora, h); }
  }

  /** A newer submission with the same external id cancels the one the id map leads to. */
  predicate NowCancelled(idMap: map<int, int>, ext: int, id: int) { ext in idMap && idMap[ext] == id }

  lemma NewLive(s: Snap, s': Snap, ora: Oracle, sub: Submission, nm: Numbering, g: map<Task, Entry>)
    requires Recorded(s, ora) && Fresh(s, sub.internalId) && ValidSub(sub) && Pushed(s, s', sub, nm, g)
    requires g.Keys == AllTasks(sub)
    ensures LiveAt(s', sub.internalId) == Arrived(sub)
  {
    FreshFacts(s, ora, sub.internalId);
    InsertedLeft(s.tl, sub.internalId, g, sub.internalId);
  }

  lemma OldLive(s: Snap, s': Snap, ora: Oracle, sub: Submission, nm: Numbering, g: map<Task, Entry>, id: int)
    requires Recorded(s, ora) && Fresh(s, sub.internalId) && ValidSub(sub) && Pushed(s, s', sub, nm, g)
    requires id in s.subs
    ensures id in s'.subs && id in s'.hist
    ensures var l := LiveAt(s, id);
            LiveAt(s', id) == l.(cancelled := l.cancelled || NowCancelled(s.idMap, sub.submissionId, id))
  {
    hide EntryAt, HandleAt, ValidSub, Queued, Injective, LeftIn, RunningIn, Inserted, Arrived;
    FreshFacts(s, ora, sub.internalId);
    InsertedLeft(s.tl, sub.internalId, g, id);
  }

  lemma IsPush(w: World, w': World, sub: Submission, nm: Numbering)
    requires sub.stages >= 1 && sub.internalId !in w.live && w'.live.Keys == w.live.Keys + {sub.internalId}
    requires w'.live[sub.internalId] == Arrived(sub)
    requires forall x :: x in w.live ==>
      w'.live[x] == w.live[x].(cancelled := w.live[x].cancelled || NowCancelled(w.idMap, sub.submissionId, x))
    requires w'.closed == w.closed && w'.numbering == w.numbering[sub.internalId := nm]
    requires w'.idMap == w.idMap[sub.submissionId := sub.internalId]
    requires w'.pushes == w.pushes + [(sub.internalId, sub.submissionId)]
    ensures w' == Push(w, sub, nm)
  {
    var sup := Superseded(w, sub.submissionId);
    forall x | x in w.live ensures x in sup && sup[x] == w'.live[x] {
      assert sup[x] == if NowCancelled(w.idMap, sub.submissionId, x) then Cancel(w.live[x]) else w.live[x];
    }
    assert w'.live == sup[sub.internalId := Arrived(sub)];
  }

  lemma RecordedKeys(s: Snap, ora: Oracle)
    requires Recorded(s, ora)
    ensures s.hist.Keys == s.subs.Keys
  {
  }

  lemma PushedWorld(s: Snap, s': Snap, ora: Oracle, sub: Submission, nm: Numbering, g: map<Task, Entry>)
    requires Recorded(s, ora) && Fresh(s, sub.internalId) && ValidSub(sub) && Pushed(s, s', sub, nm, g)
    requires g.Keys == AllTasks(sub)
    ensures s'.hist.Keys == s'.subs.Keys && WorldOf(s') == Push(WorldOf(s), sub, nm)
  {
    hide Recorded, Queued, LeftIn, RunningIn, Inserted, Arrived, Push, AllTasks, NowCancelled, LiveAt;
    NewLive(s, s', ora, sub, nm, g);
    RecordedKeys(s, ora);
    forall x | x in s.subs
      ensures x in s'.subs && x in s'.hist
      ensures var l := LiveAt(s, x);
              LiveAt(s', x) == l.(cancelled := l.cancelled || NowCancelled(s.idMap, sub.submissionId, x))
    {
      OldLive(s, s', ora, sub, nm, g, x);
    }
    IsPush(WorldOf(s), WorldOf(s'), sub, nm);
  }

  lemma PushedEntry(s: Snap, s': Snap, ora: Oracle, sub: Submission, nm: Numbering, g: map<Task, Entry>, x: Key)
    requires Recorded(s, ora) && Fresh(s, sub.internalId) && ValidSub(sub) && Pushed(s, s', sub, nm, g)
    requires GraphBuilder.Follows(sub, nm, g) && x in s'.tl
    ensures EntryAt(s', x)
  {
    AllTasksAreTasks(sub);
    FreshFacts(s, ora, sub.internalId);
    if x.sid == sub.internalId {
      assert x !in s.tl;
      InsertedNew(s.tl, sub.internalId, g, x.task, sub, nm);
    } else {
      assert EntryAt(s, x);
      InsertedOther(s.tl, sub.internalId, g, x, s.subs[x.sid].sub, s.numbering[x.sid]);
    }
  }

  lemma PushedRecorded(s: Snap, s': Snap, ora: Oracle, sub: Submission, nm: Numbering, g: map<Task, Entry>)
    requires Recorded(s, ora) && Fresh(s, sub.internalId) && ValidSub(sub) && Pushed(s, s', sub, nm, g)
    requires GraphBuilder.Follows(sub, nm, g)
    ensures Recorded(s', ora)
  {
    hide EntryAt, HandleAt, Queued, Inserted, Arrived, GraphBuilder.Follows, ValidSub;
    forall x | x in s'.tl ensures EntryAt(s', x) { PushedEntry(s, s', ora, sub, nm, g, x); }
    forall h | h in s'.hm ensures HandleAt(s', ora, h) { PushedHandle(s, s', ora, sub, nm, g, h); }
  }

  lemma PushedHandle(s: Snap, s': Snap, ora: Oracle, sub: Submission, nm: Numbering, g: map<Task, Entry>, h: nat)
    requires h in s.hm && h in s.pending && HandleAt(s, ora, h)
    requires Fresh(s, sub.internalId) && ValidSub(sub) && Pushed(s, s', sub, nm, g)
    ensures HandleAt(s', ora, h)
  {
  }

  lemma PushedQueue(s: Snap, s': Snap, ora: Oracle, sub: Submission, nm: Numbering, g: map<Task, Entry>)
    requires Recorded(s, ora) && Fresh(s, sub.internalId) && ValidSub(sub) && Pushed(s, s', sub, nm, g)
    requires QueueOk(s, {})
    ensures QueueOk(s', {})
  {
    FreshFacts(s, ora, sub.internalId);
    hide Recorded, ValidSub, Fresh;
    forall x ensures s'.queue[x] == if Ready(s', x) then 1 else 0 { ReadyAfterPush(s, s', sub, nm, g, x); }
  }

  lemma ReadyAfterPush(s: Snap, s': Snap, sub: Submission, nm: Numbering, g: map<Task, Entry>, x: Key)
    requires sub.stages >= 1 && Pushed(s, s', sub, nm, g) && forall k :: k in s.tl ==> k.sid != sub.internalId
    requires s.queue[x] == if Ready(s, x) then 1 else 0
    requires x.sid == sub.internalId ==> x !in s.hm.Values
    ensures s'.queue[x] == if Ready(s', x) then 1 else 0
  {
    hide Arrived;
  }

  lemma Pushes(s: Snap, s': Snap, ora: Oracle, sub: Submission, nm: Numbering, g: map<Task, Entry>)
    requires Core(s, ora) && QueueOk(s, {}) && Fresh(s, sub.internalId) && ValidSub(sub) && Numbered(sub, nm)
    requires GraphBuilder.Follows(sub, nm, g) && Pushed(s, s', sub, nm, g)
    ensures Core(s', ora) && QueueOk(s', {}) && s'.hist.Keys == s'.subs.Keys && WorldOf(s') == Push(WorldOf(s), sub, nm)
  {
    PushedWorld(s, s', ora, sub, nm, g);
    PushedRecorded(s, s', ora, sub, nm, g);
    PushedQueue(s, s', ora, sub, nm, g);
    ArriveKeeps(WorldOf(s), ora, sub, nm);
  }

  /** The entries of the tasks not in `rest` are in the list already. */
  function PartlyInserted(tl: map<Key, Entry>, id: int, g: map<Task, Entry>, rest: set<Task>): map<Key, Entry> {
    tl + map t | t in g && t !in rest :: Key(id, t) := g[t]
  }

  function QueuedBy(id: int, g: map<Task, Entry>, rest: set<Task>, x: Key): nat {
    if x.sid == id && x.task in g && x.task !in rest && g[x.task].indeg == 0 then 1 else 0
  }

  lemma InsertOne(tl: map<Key, Entry>, id: int, g: map<Task, Entry>, rest: set<Task>, t: Task)
    requires t in rest && t in g
    ensures PartlyInserted(tl, id, g, rest - {t}) == PartlyInserted(tl, id, g, rest)[Key(id, t) := g[t]]
    ensures forall x ::
              QueuedBy(id, g, rest - {t}, x) == QueuedBy(id, g, rest, x) +
                if x == Key(id, t) && g[t].indeg == 0 then 1 else 0
  {
  }

  lemma InsertNone(tl: map<Key, Entry>, id: int, g: map<Task, Entry>)
    ensures PartlyInserted(tl, id, g, g.Keys) == tl
    ensures PartlyInserted(tl, id, g, {}) == Inserted(tl, id, g)
  {
  }

  /* ---- the queue ---- */

  /** TaskEntry::operator<, on the entries of the task list. */
  predicate EntryLess(tl: map<Key, Entry>, a: Key, b: Key)
    requires a in tl && b in tl
  {
    || tl[a].priority < tl[b].priority
    || (tl[a].priority == tl[b].priority && (b.sid < a.sid || (a.sid == b.sid && tl[b].order < tl[a].order)))
  }

  lemma EntryLessIsLess(s: Snap, a: Key, b: Key)
    requires s.hist.Keys == s.subs.Keys && a in s.tl && b in s.tl && EntryAt(s, a) && EntryAt(s, b)
    ensures a.sid in WorldOf(s).live && b.sid in WorldOf(s).live
    ensures EntryLess(s.tl, a, b) == Less(WorldOf(s), a, b)
  {
  }

  ghost predicate Greatest(s: Snap, k: Key) {
    k in s.queue && forall x :: x in s.queue ==> x in s.tl && k in s.tl && !EntryLess(s.tl, k, x)
  }

  lemma NotLess(s: Snap, ora: Oracle, k: Key, x: Key)
    requires Core(s, ora) && QueueOk(s, {}) && Greatest(s, k) && Ready(s, x)
    ensures k.sid in WorldOf(s).live && k.sid in s.numbering && x.sid in WorldOf(s).live && x.sid in s.numbering
    ensures !Less(WorldOf(s), k, x)
  {
    hide WInv, HandleAt, Injective, EntryLess, WorldOf;
    assert s.queue[x] == 1;
    assert EntryAt(s, k) && EntryAt(s, x);
    EntryLessIsLess(s, k, x);
  }

  /** The greatest entry of the queue is the task the judge has to take next. */
  lemma GreatestIsTop(s: Snap, ora: Oracle, k: Key)
    requires Core(s, ora) && QueueOk(s, {}) && Greatest(s, k)
    ensures Ready(s, k) && IsTop(WorldOf(s), k)
  {
    hide WInv, HandleAt, EntryAt, Injective, Less, EntryLess, Startable;
    assert s.queue[k] == 1;
    ReadyIsCanStart(s, ora, k);
    forall x | CanStart(WorldOf(s), x) ensures !Less(WorldOf(s), k, x) {
      ReadyIsCanStart(s, ora, x);
      NotLess(s, ora, k, x);
    }
  }

  lemma PoppedQueue(s: Snap, k: Key)
    requires QueueOk(s, {}) && Ready(s, k)
    ensures QueueOk(s.(queue := s.queue - multiset{k}), {k})
  {
  }

  /** The number of running tasks is the number of handles. */
  lemma RunningCount(s: Snap, ora: Oracle)
    requires Recorded(s, ora)
    ensures |RunningKeys(WorldOf(s))| == |s.hm|
  {
    hide EntryAt, Injective;
    var w := WorldOf(s);
    forall k ensures k in RunningKeys(w) <==> k in s.hm.Values {
      RunningIffHandled(s.hm, k);
      if h :| h in s.hm && s.hm[h] == k { assert HandleAt(s, ora, h); }
      if k.sid in s.subs { assert w.live[k.sid].running == RunningIn(s.hm, k.sid); }
    }
    assert RunningKeys(w) == s.hm.Values;
    SizeOfValues(s.hm);
  }

  lemma NothingYet(s: Snap, ora: Oracle)
    requires s.tl == map[] && s.queue == multiset{} && s.hm == map[] && s.subs == map[] && s.idMap == map[]
    requires s.cl == {}
    requires s.cg == map[] && s.pending == map[] && s.hist == map[] && s.closed == map[] && s.numbering == map[]
    requires s.pushes == []
    ensures Core(s, ora) && QueueOk(s, {}) && WorldOf(s) == EMPTY
  {
  }

  /** When nothing is ready and nothing is running, nothing is left. */
  lemma NothingLeft(s: Snap, ora: Oracle)
    requires Core(s, ora) && QueueOk(s, {}) && s.queue == multiset{} && s.hm == map[]
    ensures s.subs == map[] && s.tl == map[]
  {
    forall id ensures id !in s.subs {
      if id in s.subs {
        var k := NoDeadlock(WorldOf(s), ora, id);
        RunningIffHandled(s.hm, k);
        ReadyIsCanStart(s, ora, k);
      }
    }
    assert s.subs == map[];
    NoEntries(s);
  }

  lemma NoEntries(s: Snap)
    requires s.subs == map[] && forall k :: k in s.tl ==> EntryAt(s, k)
    ensures s.tl == map[]
  {
  }

  lemma QueueIsListed(s: Snap)
    requires QueueOk(s, {})
    ensures forall x :: x in s.queue ==> x in s.tl
  {
    forall x | x in s.queue ensures x in s.tl { assert s.queue[x] != 0; }
  }

  /** The popped task may be dispatched, and the judge may take it now. */
  lemma PoppedIsTaken(s: Snap, s': Snap, ora: Oracle, k: Key, kmax: nat)
    requires Core(s, ora) && QueueOk(s, {}) && Greatest(s, k) && |s.hm| < kmax
    requires s' == s.(queue := s.queue - multiset{k})
    ensures Core(s', ora) && QueueOk(s', {k}) && Ready(s', k)
    ensures WorldOf(s') == WorldOf(s) && CanStep(WorldOf(s), kmax, Take(k))
  {
    GreatestIsTop(s, ora, k);
    PoppedQueue(s, k);
    SameButQueue(s, s', ora);
    RunningCount(s, ora);
    TakeFacts(s, ora, k);
    LeavingFacts(s, k, true);
    assert WorldOf(s).live[k.sid] == LiveAt(s, k.sid);
  }

  lemma SameButQueue(s: Snap, s': Snap, ora: Oracle)
    requires Core(s, ora) && s' == s.(queue := s'.queue)
    ensures Core(s', ora) && WorldOf(s') == WorldOf(s)
  {
    hide WInv, EntryAt, HandleAt;
    assert WorldOf(s').live == WorldOf(s).live;
    forall k | k in s'.tl ensures EntryAt(s', k) { SameEntry(s, s', k); }
    forall h | h in s'.hm ensures HandleAt(s', ora, h) { SameHandle(s, s', ora, h); }
  }

  /* ---- submissions still to come ---- */

  /** At least one stage and at most 32. */
  function Clamped(sub: Submission): Submission { sub.(stages := Min(Max(1, sub.stages), 32)) }

  lemma ClampedIs(sub: Submission)
    ensures var n := Clamped(sub).stages;
            && Clamped(sub) == sub.(stages := n) && 1 <= n <= 32
            && (1 <= sub.stages <= 32 ==> n == sub.stages)
            && (sub.stages < 1 ==> n == 1) && (sub.stages > 32 ==> n == 32)
  {
  }

  /** Their internal ids are new, and the checks made when they were received were passed. */
  ghost predicate CanArrive(s: Snap, subs: seq<Submission>) {
    && (forall i :: 0 <= i < |subs| ==> Fresh(s, subs[i].internalId) && ValidSub(Clamped(subs[i])))
    && (forall i, j :: 0 <= i < j < |subs| ==> subs[i].internalId != subs[j].internalId)
  }

  lemma StepKeepsArrivals(s: Snap, s': Snap, ora: Oracle, kmax: nat, a: Action, subs: seq<Submission>)
    requires CanArrive(s, subs) && s.hist.Keys == s.subs.Keys && s'.hist.Keys == s'.subs.Keys
    requires CanStep(WorldOf(s), kmax, a) && WorldOf(s') == Step(WorldOf(s), ora, kmax, a)
    requires a.Arrive? ==> forall i :: 0 <= i < |subs| ==> subs[i].internalId != a.sub.internalId
    ensures CanArrive(s', subs)
  {
    forall i | 0 <= i < |subs| ensures Fresh(s', subs[i].internalId) {
      assert Fresh(s, subs[i].internalId);
      hide CanStep, Step, CanArrive;
      StepKeepsFresh(WorldOf(s), ora, kmax, a, subs[i].internalId);
    }
  }

  lemma FirstArrives(s: Snap, subs: seq<Submission>)
    requires CanArrive(s, subs) && subs != []
    ensures Fresh(s, subs[0].internalId) && ValidSub(Clamped(subs[0])) && CanArrive(s, subs[1..])
    ensures forall i :: 0 <= i < |subs[1..]| ==> subs[1..][i].internalId != subs[0].internalId
  {
  }

  lemma FirstCanStep(s: Snap, kmax: nat, subs: seq<Submission>)
    requires CanArrive(s, subs) && subs != [] && s.hist.Keys == s.subs.Keys
    ensures var sub := Clamped(subs[0]); CanStep(WorldOf(s), kmax, Action.Arrive(sub, TdNumbering(sub)))
  {
    assert Fresh(s, subs[0].internalId);
    TdNumberingNumbers(Clamped(subs[0]));
  }
}
