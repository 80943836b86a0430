/** Two workers or more: one of them can be busy with the first task of a testdata until all others of the
    submission are judged. Then all its groups may be given up, and what it would have scored is never known. */
module Overtaking {
  import opened Types
  import opened TestdataRun
  import TaskGraph
  import opened Lifecycle
  import opened LifecycleInv
  import GroupSkip
  import Serial
  import opened World
  import opened Draining
  import opened SerialSkipping
  import OneWorker

  predicate OfTd(t: Task, c: nat) { (t.Execute? || t.Scoring?) && t.td == c }

  predicate GivenUp(l: Live, c: nat) {
    c < |l.j.sub.testdata| && l.j.sub.testdata[c].groups != []
    && forall h :: h in l.j.sub.testdata[c].groups ==> h in l.cgroups
  }

  /** Testdata c has not been run once, or has been given up before anything else of it was started. */
  ghost predicate Held(l: Live, c: nat) {
    Execute(c, 0) in l.left || (GivenUp(l, c) && forall t :: t in l.running ==> !OfTd(t, c))
  }

  /** Each group of c has another testdata that is not accepted. */
  ghost predicate CanBeOvertaken(sub: Submission, good: set<nat>, c: nat)
    requires c < |sub.testdata|
  {
    && sub.skipGroup && sub.testdata[c].groups != []
    && forall h :: GroupSkip.InGroup(sub, c, h) ==> exists e :: GroupSkip.InGroup(sub, e, h) && e != c && e !in good
  }

  /* ---- one submission ---- */

  lemma FirstIsHead(l: Live, ora: Oracle, c: nat, t: Task)
    requires Inv(l, ora) && TaskGraph.Unblocked(l.j.sub, l.left, t) && OfTd(t, c) && Execute(c, 0) in l.left
    ensures t == Execute(c, 0)
  {
    HeadFacts(l, ora, t);
    assert ChainLeft(l.j.sub, l.left, c, l.h.pos[c]);
    assert ChainTask(l.j.sub, c, 0) == Execute(c, 0);
    FirstTask(l.j.sub, c, l.h.pos[c]);
  }

  lemma HeldAfterOther(l: Live, ora: Oracle, c: nat, t: Task)
    requires Inv(l, ora) && t in l.running && t != Execute(c, 0) && Held(l, c)
    ensures !OfTd(t, c) && Sized(l) && t in l.left && Held(Complete(l, ora, t), c)
  {
    if OfTd(t, c) && Execute(c, 0) in l.left { FirstIsHead(l, ora, c, t); }
    CompleteKeepsSub(l, ora, t);
    CompleteGroups(l, ora, t);
  }

  lemma CompleteGroups(l: Live, ora: Oracle, t: Task)
    requires Sized(l) && t in l.left
    ensures var l' := Complete(l, ora, t);
            l.cgroups <= l'.cgroups && l'.left == l.left - {t} && l'.running == l.running - {t}
  {
  }

  lemma DispatchGroups(l: Live, t: Task)
    requires Sized(l) && t in l.left
    ensures var l' := Dispatch(l, t);
            && l.cgroups <= l'.cgroups
            && if SetupStarts(l, t) then l'.left == l.left && l'.running == l.running + {t}
               else l'.left == l.left - {t} && l'.running == l.running - {t}
  {
  }

  lemma HeldAfterTake(l: Live, ora: Oracle, c: nat, t: Task)
    requires Inv(l, ora) && Startable(l, t) && Held(l, c) && !l.cancelled
    requires CompileVerdict(l.j.sub, ora, l.h.ran) == NUL
    ensures Sized(l) && t in l.left && Held(Dispatch(l, t), c)
  {
    DispatchGroups(l, t);
    DispatchKeepsSub(l, t);
    if OfTd(t, c) {
      NotDroppedNotFrozen(l, ora, t);
      if Execute(c, 0) in l.left { FirstIsHead(l, ora, c, t); }
      forall u | u in l.running && OfTd(u, c) ensures false {
        if Execute(c, 0) in l.left { FirstIsHead(l, ora, c, u); }
      }
    }
  }

  /** When only the first task of c is running and nothing can be started, all other chains are finished. */
  lemma OthersAreDone(l: Live, ora: Oracle, c: nat, i: nat)
    requires Inv(l, ora) && l.running == {Execute(c, 0)} && (forall t :: !Startable(l, t)) && i < |l.h.pos| && i != c
    ensures l.h.pos[i] == ChainLen(l.j.sub)
  {
    var sub, k := l.j.sub, l.h.pos[i];
    assert ChainLeft(sub, l.left, i, k);
    if k < ChainLen(sub) {
      var head := ChainTask(sub, i, k);
      TaskGraph.TaskAtPos(sub, i, k);
      assert head in l.left && !Startable(l, head);
      var a :| a in l.left && TaskGraph.Edge(sub, a, head);
      if a.Compile? {
        assert Startable(l, a);
      } else {
        TaskGraph.PosOfTask(sub, a);
        TaskGraph.EdgeRaisesRank(sub, a, head);
        assert false;
      }
    }
  }

  /** A finished testdata that is not accepted has its groups given up, itself or by those that had it dropped. */
  lemma DoneGivesUp(l: Live, sub: Submission, good: set<nat>, score: nat -> Score, e: nat, h: nat)
    requires l.j.sub == sub && Inv(l, Marked(sub, good, score)) && !l.cancelled && sub.skipGroup && !sub.specjudge.SKIP?
    requires GroupSkip.InGroup(sub, e, h) && e !in good && e < |l.h.pos| && l.h.pos[e] == ChainLen(sub)
    ensures h in l.cgroups
  {
    var ora := Marked(sub, good, score);
    MarkedCompiles(sub, good, score, l.h.ran);
    assert ResultOk(sub, ora, l.j.tds, l.running, e, l.h.pos[e], l.h.eff[e], Frozen(l, ora, e));
    if l.h.eff[e] == ChainLen(sub) {
      MarkedFinal(sub, good, score, e);
      assert Spoils(sub, ora, e, l.h.eff[e]);
      assert h in GroupsOf(sub, e);
    }
  }

  lemma AllGroupsGivenUp(l: Live, sub: Submission, good: set<nat>, score: nat -> Score, c: nat)
    requires l.j.sub == sub && Inv(l, Marked(sub, good, score)) && !l.cancelled && !sub.specjudge.SKIP?
    requires c < |sub.testdata| && CanBeOvertaken(sub, good, c)
    requires l.running == {Execute(c, 0)} && forall t :: !Startable(l, t)
    ensures GivenUp(l, c)
  {
    forall h | h in sub.testdata[c].groups ensures h in l.cgroups {
      assert GroupSkip.InGroup(sub, c, h);
      var e :| GroupSkip.InGroup(sub, e, h) && e != c && e !in good;
      OthersAreDone(l, Marked(sub, good, score), c, e);
      DoneGivesUp(l, sub, good, score, e, h);
    }
  }

  lemma HeldAfterFirst(l: Live, sub: Submission, good: set<nat>, score: nat -> Score, c: nat)
    requires l.j.sub == sub && Inv(l, Marked(sub, good, score)) && !l.cancelled && !sub.specjudge.SKIP?
    requires c < |sub.testdata| && CanBeOvertaken(sub, good, c)
    requires l.running == {Execute(c, 0)} && forall t :: !Startable(l, t)
    ensures Sized(l) && Execute(c, 0) in l.left && Held(Complete(l, Marked(sub, good, score), Execute(c, 0)), c)
  {
    AllGroupsGivenUp(l, sub, good, score, c);
    CompleteGroups(l, Marked(sub, good, score), Execute(c, 0));
    CompleteKeepsSub(l, Marked(sub, good, score), Execute(c, 0));
  }

  /* ---- the run ---- */

  /** The judge has at most this submission, and testdata c is held in it. */
  ghost predicate HeldAt(w: World, sub: Submission, c: nat) {
    && w.live.Keys <= {sub.internalId}
    && (sub.internalId in w.live ==>
          var l := w.live[sub.internalId]; l.j.sub == sub && !l.cancelled && Held(l, c))
  }

  /** The action does not score testdata c. */
  predicate ScoresNot(a: Action, sub: Submission, c: nat) {
    a.Return? ==> a.key.sid == sub.internalId && !(a.key.task.Scoring? && a.key.task.td == c)
  }

  lemma StoredHeld(w: World, sub: Submission, c: nat, l: Live)
    requires HeldAt(w, sub, c) && sub.internalId in w.live && l.j.sub == sub && !l.cancelled && Held(l, c)
    ensures HeldAt(Store(w, sub.internalId, l), sub, c)
  {
  }

  lemma TakeHolds(w: World, sub: Submission, good: set<nat>, score: nat -> Score, kmax: nat, c: nat, k: Key)
    requires WInv(w, Marked(sub, good, score)) && HeldAt(w, sub, c) && CanStep(w, kmax, Take(k))
    ensures HeldAt(Step(w, Marked(sub, good, score), kmax, Take(k)), sub, c)
  {
    var ora, l := Marked(sub, good, score), w.live[k.sid];
    assert LiveOk(w, ora, k.sid);
    MarkedCompiles(sub, good, score, l.h.ran);
    hide Inv, CompileVerdict, Marked, Held, Startable, Dispatch;
    HeldAfterTake(l, ora, c, k.task);
    DispatchKeepsSub(l, k.task);
    StoredHeld(w, sub, c, Dispatch(l, k.task));
  }

  /** Nothing else can be started, for there are at least two workers. */
  lemma NothingElse(w: World, ora: Oracle, sub: Submission, kmax: nat, c: nat)
    requires WInv(w, ora) && HeldAt(w, sub, c) && sub.internalId in w.live && kmax >= 2
    requires RunningKeys(w) == {Key(sub.internalId, Execute(c, 0))} && Waits(w, kmax)
    ensures w.live[sub.internalId].running == {Execute(c, 0)} && sub.stages >= 1
    ensures forall t :: !Startable(w.live[sub.internalId], t)
  {
    var id := sub.internalId;
    var l := w.live[id];
    assert LiveOk(w, ora, id);
    assert |RunningKeys(w)| == 1;
    forall t ensures !Startable(l, t) { assert !CanStart(w, Key(id, t)); }
    forall t ensures t in l.running <==> t == Execute(c, 0) {
      assert t in l.running ==> Key(id, t) in RunningKeys(w);
      if t == Execute(c, 0) { assert Key(id, t) in RunningKeys(w); }
    }
  }

  lemma ReturnHolds(w: World, sub: Submission, good: set<nat>, score: nat -> Score, kmax: nat, c: nat, k: Key)
    requires WInv(w, Marked(sub, good, score)) && HeldAt(w, sub, c) && CanStep(w, kmax, Return(k)) && kmax >= 2
    requires c < |sub.testdata| && !sub.specjudge.SKIP? && CanBeOvertaken(sub, good, c)
    requires Eager(w, kmax, Key(sub.internalId, Execute(c, 0)), Return(k))
    ensures HeldAt(Step(w, Marked(sub, good, score), kmax, Return(k)), sub, c) && ScoresNot(Return(k), sub, c)
  {
    var ora, l := Marked(sub, good, score), w.live[k.sid];
    assert LiveOk(w, ora, k.sid);
    assert k.sid == sub.internalId && k.task in l.running;
    hide Inv, CompileVerdict, Marked, Held, Startable, Complete, CanBeOvertaken;
    if k.task == Execute(c, 0) {
      NothingElse(w, ora, sub, kmax, c);
      HeldAfterFirst(l, sub, good, score, c);
    } else {
      HeldAfterOther(l, ora, c, k.task);
    }
    CompleteKeepsSub(l, ora, k.task);
    StoredHeld(w, sub, c, Complete(l, ora, k.task));
  }

  lemma FirstHeld(sub: Submission, nm: Serial.Numbering, c: nat)
    requires ValidSub(sub) && c < |sub.testdata|
    ensures HeldAt(Push(EMPTY, sub, nm), sub, c)
  {
    AllTasksAreTasks(sub);
    assert Execute(c, 0) in AllTasks(sub);
  }

  /** Whatever the run does, testdata c is held in it and never scored. */
  lemma {:induction false} HeldAlong(ws: seq<World>, acts: seq<Action>, sub: Submission, nm: Serial.Numbering,
                                     good: set<nat>, score: nat -> Score, kmax: nat, c: nat, m: nat)
    requires IsRun(ws, acts, Marked(sub, good, score), kmax) && OneWorker.OnlyArrival(acts, sub, nm) && kmax >= 2
    requires EagerAll(ws, acts, kmax, Key(sub.internalId, Execute(c, 0)))
    requires c < |sub.testdata| && !sub.specjudge.SKIP? && CanBeOvertaken(sub, good, c) && 1 <= m < |ws|
    ensures HeldAt(ws[m], sub, c) && ScoresNot(acts[m - 1], sub, c)
    decreases m
  {
    var w, a := ws[m - 1], acts[m - 1];
    assert CanStep(w, kmax, a) && ws[m] == Step(w, Marked(sub, good, score), kmax, a);
    if m == 1 {
      FirstHeld(sub, nm, c);
    } else {
      HeldAlong(ws, acts, sub, nm, good, score, kmax, c, m - 1);
      RunKeeps(ws, acts, Marked(sub, good, score), kmax, m - 1);
      assert Eager(w, kmax, Key(sub.internalId, Execute(c, 0)), a);
      hide IsRun, CanStep, Step, WInv, HeldAt, CanBeOvertaken, Marked, Eager, EagerAll;
      match a
      case Take(k) => TakeHolds(w, sub, good, score, kmax, c, k);
      case Return(k) => ReturnHolds(w, sub, good, score, kmax, c, k);
    }
  }

  /* ---- and with other outcomes ---- */

  /** Outcomes that agree on what returns in a run make the same run. */
  lemma SameRun(ws: seq<World>, acts: seq<Action>, a: Oracle, b: Oracle, kmax: nat)
    requires IsRun(ws, acts, a, kmax)
    requires forall m, r :: 0 <= m < |acts| && acts[m].Return? ==>
               var k := acts[m].key;
               k.sid in ws[m].live ==>
                 a(ws[m].live[k.sid].j.sub.internalId, k.task, r) == b(ws[m].live[k.sid].j.sub.internalId, k.task, r)
    ensures IsRun(ws, acts, b, kmax)
  {
    hide Sized, IsTop;
    forall m | 0 <= m < |acts| ensures CanStep(ws[m], kmax, acts[m]) && ws[m + 1] == Step(ws[m], b, kmax, acts[m]) {
      assert CanStep(ws[m], kmax, acts[m]) && ws[m + 1] == Step(ws[m], a, kmax, acts[m]);
    }
  }

  /** There is an eager run that cannot tell whether testdata c would have been accepted, and with what score. */
  lemma Overtakes(sub: Submission, nm: Serial.Numbering, kmax: nat, good: set<nat>, good': set<nat>,
                  score: nat -> Score, score': nat -> Score, c: nat)
    returns (ws: seq<World>, acts: seq<Action>)
    requires ValidSub(sub) && Serial.Numbered(sub, nm) && kmax >= 2 && !sub.specjudge.SKIP?
    requires c < |sub.testdata| && CanBeOvertaken(sub, good, c)
    requires forall i: nat :: i != c ==> (i in good <==> i in good') && score(i) == score'(i)
    ensures IsRun(ws, acts, Marked(sub, good, score), kmax) && IsRun(ws, acts, Marked(sub, good', score'), kmax)
    ensures OneWorker.JudgedIn(ws[|acts|], sub, nm) && EagerAll(ws, acts, kmax, Key(sub.internalId, Execute(c, 0)))
  {
    var last := Key(sub.internalId, Execute(c, 0));
    ws, acts := OneWorker.JudgedByItself(sub, nm, Marked(sub, good, score), kmax, last);
    forall m, r: TdResult | 0 <= m < |acts| && acts[m].Return?
      ensures var k := acts[m].key;
              k.sid in ws[m].live ==>
                Marked(sub, good, score)(ws[m].live[k.sid].j.sub.internalId, k.task, r) ==
                Marked(sub, good', score')(ws[m].live[k.sid].j.sub.internalId, k.task, r)
    {
      hide IsRun, OneWorker.JudgedIn, EagerAll, CanBeOvertaken;
      HeldAlong(ws, acts, sub, nm, good, score, kmax, c, m + 1);
    }
    SameRun(ws, acts, Marked(sub, good, score), Marked(sub, good', score'), kmax);
  }
}
