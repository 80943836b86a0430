/** Whole runs with a single worker. */
module SerialRuns {
  import opened Types
  import TestdataRun
  import TaskGraph
  import opened Lifecycle
  import opened LifecycleInv
  import opened Serial
  import opened Closing
  import opened World

  ghost predicate SerialLive(w: World, ora: Oracle, id: int)
    requires id in w.live
  {
    id in w.numbering && SerialInv(w.live[id], ora, w.numbering[id])
  }

  ghost predicate SerialClosed(l: Live, ora: Oracle, nm: Numbering) {
    exists l0 :: SerialInv(l0, ora, nm) && FinishedBy(l0, l, ora)
  }

  ghost predicate SerialWorld(w: World, ora: Oracle) {
    && (forall id :: id in w.live ==> SerialLive(w, ora, id))
    && (forall id :: id in w.closed ==> id in w.numbering && SerialClosed(w.closed[id], ora, w.numbering[id]))
  }

  lemma NothingRuns(w: World, id: int)
    requires |RunningKeys(w)| < 1 && id in w.live
    ensures w.live[id].running == {}
  {
    assert RunningKeys(w) == {};
    assert forall t :: t in w.live[id].running ==> Key(id, t) in RunningKeys(w);
  }

  lemma TopOfItsOwn(w: World, k: Key)
    requires IsTop(w, k)
    ensures Top(w.live[k.sid], w.numbering[k.sid], k.task)
  {
    var l, nm := w.live[k.sid], w.numbering[k.sid];
    forall u | Startable(l, u) ensures OrderOf(nm, k.task) <= OrderOf(nm, u) {
      assert CanStart(w, Key(k.sid, u));
      assert !Less(w, k, Key(k.sid, u));
    }
  }

  lemma StoreSerial(w: World, ora: Oracle, id: int, l: Live)
    requires SerialWorld(w, ora) && WInv(w, ora) && id in w.live
    requires if l.left == {} then SerialClosed(l, ora, w.numbering[id]) else SerialInv(l, ora, w.numbering[id])
    ensures SerialWorld(Store(w, id, l), ora)
  {
    hide SerialInv, WInv, FinishedBy;
    var w' := Store(w, id, l);
    assert SerialLive(w, ora, id);
    forall x | x in w'.live ensures SerialLive(w', ora, x) {
      if x != id { assert SerialLive(w, ora, x); }
    }
  }

  lemma TakeSerial(w: World, ora: Oracle, k: Key)
    requires SerialWorld(w, ora) && WInv(w, ora) && IsTop(w, k) && |RunningKeys(w)| < 1 && Sized(w.live[k.sid])
    ensures SerialWorld(DispatchKey(w, k), ora)
  {
    var l, nm, t := w.live[k.sid], w.numbering[k.sid], k.task;
    NothingRuns(w, k.sid);
    TopOfItsOwn(w, k);
    assert SerialLive(w, ora, k.sid);
    if t.Summary? && !SetupStarts(l, t) {
      assert FinishedBy(l, Dispatch(l, t), ora);
      FinishedFacts(l, Dispatch(l, t), ora);
      assert SerialClosed(Dispatch(l, t), ora, nm);
    } else {
      SerialDispatch(l, ora, nm, t);
    }
    StoreSerial(w, ora, k.sid, Dispatch(l, t));
  }

  lemma ReturnSerial(w: World, ora: Oracle, k: Key)
    requires SerialWorld(w, ora) && WInv(w, ora) && k in RunningKeys(w) && Sized(w.live[k.sid])
    requires k.task in w.live[k.sid].left
    ensures SerialWorld(CompleteKey(w, ora, k), ora)
  {
    var l, nm, t := w.live[k.sid], w.numbering[k.sid], k.task;
    assert SerialLive(w, ora, k.sid);
    if t.Summary? {
      assert FinishedBy(l, Complete(l, ora, t), ora);
      FinishedFacts(l, Complete(l, ora, t), ora);
      assert SerialClosed(Complete(l, ora, t), ora, nm);
    } else {
      SerialComplete(l, ora, nm, t);
    }
    StoreSerial(w, ora, k.sid, Complete(l, ora, t));
  }

  lemma ArriveSerial(w: World, ora: Oracle, sub: Submission, nm: Numbering)
    requires SerialWorld(w, ora) && WInv(w, ora) && ValidSub(sub) && Numbered(sub, nm)
    requires sub.internalId !in w.live && sub.internalId !in w.closed
    ensures SerialWorld(Push(w, sub, nm), ora)
  {
    var w' := Push(w, sub, nm);
    SerialArrived(sub, ora, nm);
    forall id | id in w'.live ensures SerialLive(w', ora, id) {
      if id != sub.internalId {
        assert SerialLive(w, ora, id);
        SerialCancel(w.live[id], ora, w.numbering[id]);
      }
    }
  }

  lemma {:induction false} SerialRunKeeps(ws: seq<World>, acts: seq<Action>, ora: Oracle, i: nat)
    requires IsRun(ws, acts, ora, 1) && i < |ws|
    ensures SerialWorld(ws[i], ora) && WInv(ws[i], ora)
  {
    RunKeeps(ws, acts, ora, 1, i);
    if i > 0 {
      SerialRunKeeps(ws, acts, ora, i - 1);
      match acts[i - 1]
      case Arrive(sub, nm) => ArriveSerial(ws[i - 1], ora, sub, nm);
      case Take(k) => TakeSerial(ws[i - 1], ora, k);
      case Return(k) => ReturnSerial(ws[i - 1], ora, k);
    }
  }

  lemma NoTaskOf(l: Live, ora: Oracle, i: nat)
    requires Inv(l, ora) && i < |l.h.pos| && l.h.pos[i] == TestdataRun.ChainLen(l.j.sub)
    ensures forall t :: t in l.left && (t.Execute? || t.Scoring?) ==> t.td != i
  {
    forall t | t in l.left && (t.Execute? || t.Scoring?) ensures t.td != i {
      TaskGraph.PosOfTask(l.j.sub, t);
      assert ChainLeft(l.j.sub, l.left, i, l.h.pos[i]);
    }
  }

  /** Serial order: whenever one worker takes an execute or scoring task, every testdata of that
      submission with a smaller number has no task left. */
  lemma SerialOrder(ws: seq<World>, acts: seq<Action>, ora: Oracle, m: nat, i: nat)
    requires IsRun(ws, acts, ora, 1) && m < |acts| && acts[m].Take?
    requires var k := acts[m].key;
             var sub := ws[m].live[k.sid].j.sub;
             (k.task.Execute? || k.task.Scoring?) && i < |sub.testdata|
    ensures var k := acts[m].key;
            var nm, sub := ws[m].numbering[k.sid], ws[m].live[k.sid].j.sub;
            i < |nm.order| && k.task.td < |nm.order| &&
            (nm.order[i] < nm.order[k.task.td] ==>
              forall t :: t in ws[m].live[k.sid].left && (t.Execute? || t.Scoring?) ==> t.td != i)
  {
    SerialRunKeeps(ws, acts, ora, m);
    hide Shape, GroupsOk, LogOk, RanOk, ResultOk, Compiles, Statuses, InOrder, TailJudged, Step;
    var k := acts[m].key;
    var l, nm := ws[m].live[k.sid], ws[m].numbering[k.sid];
    NothingRuns(ws[m], k.sid);
    TopOfItsOwn(ws[m], k);
    assert SerialLive(ws[m], ora, k.sid);
    TakenFacts(l, ora, nm, k.task);
    if nm.order[i] < nm.order[k.task.td] { NoTaskOf(l, ora, i); }
  }

  /** In a run with one worker, the first stage of a testdata of a submission that is neither failed
      nor superseded is dropped exactly when the testdata has groups and each of them contains a
      testdata with a smaller number that was judged and not accepted. */
  lemma DroppedExactlyWhenLost(ws: seq<World>, acts: seq<Action>, ora: Oracle, m: nat)
    requires IsRun(ws, acts, ora, 1) && m < |acts| && acts[m].Take?
    requires var k := acts[m].key; k.task.Execute? && k.task.stage == 0 && Clean(ws[m].live[k.sid], ora)
    ensures var k := acts[m].key;
            var l, nm := ws[m].live[k.sid], ws[m].numbering[k.sid];
            && Posed(l, nm) && IsTask'(l, k.task)
            && (Dropped(l, k.task) <==>
                (l.j.sub.testdata[k.task.td].groups != [] &&
                 forall g :: g in l.j.sub.testdata[k.task.td].groups ==>
                   HasCulprit(l, ora, nm, nm.order[k.task.td], g)))
  {
    SerialRunKeeps(ws, acts, ora, m);
    hide Shape, GroupsOk, LogOk, RanOk, ResultOk, Compiles, Statuses, InOrder, TailJudged, Step, HasCulprit;
    var k := acts[m].key;
    NothingRuns(ws[m], k.sid);
    TopOfItsOwn(ws[m], k);
    assert SerialLive(ws[m], ora, k.sid);
    DroppedIffLost(ws[m].live[k.sid], ora, ws[m].numbering[k.sid], k.task);
  }

  ghost function SerialReport(sub: Submission, ora: Oracle, nm: Numbering): Report
    requires sub.stages >= 1 && Numbered(sub, nm)
  {
    var t := SerialTotals(sub, ora, nm);
    OverallReport(SerialVerdict(sub, ora, nm), t.score, t.time, t.memory)
  }

  /** With one worker the overall report is determined by the submission, its numbering and the
      outcomes, group skipping and partial scores included: it does not depend on what else is
      judged, or when anything arrives. */
  lemma SerialDeterminism(ws: seq<World>, acts: seq<Action>, ora: Oracle, id: int)
    requires IsRun(ws, acts, ora, 1) && id in ws[|acts|].closed
    requires var l := ws[|acts|].closed[id]; !l.cancelled && !l.j.sub.customSummary
    ensures var w := ws[|acts|];
            var l := w.closed[id];
            && id in w.numbering && l.j.sub.stages >= 1 && Numbered(l.j.sub, w.numbering[id])
            && |l.h.log| > 0 && l.h.log[|l.h.log| - 1] == SerialReport(l.j.sub, ora, w.numbering[id])
  {
    SerialRunKeeps(ws, acts, ora, |acts|);
    var w := ws[|acts|];
    var l, nm := w.closed[id], w.numbering[id];
    var l0 :| SerialInv(l0, ora, nm) && FinishedBy(l0, l, ora);
    FinishedFacts(l0, l, ora);
    SerialSummary(l0, ora, nm);
  }
}
