/** submission.cpp: the queue of tasks and what is done with each of them. The variables of the
    source are fields; `hist`, `closed`, `numbering` and `pushes` are history kept for the proof. */
module Scheduler {
  import opened Types
  import opened TestdataRun
  import TaskGraph
  import opened Totals
  import opened Lifecycle
  import LifecycleInv
  import Outcomes
  import Layering
  import Serial
  import opened World
  import opened TaskList
  import GraphBuilder
  import opened Snapshot
  import opened SnapshotSteps
  import opened SnapshotMoves
  import opened Causes
  import opened Effects
  import opened Offers
  import opened TaskPool

  class Scheduler {
    const ora: Oracle
    const kMax: nat
    const pool: Pool
    var taskList: map<Key, Entry>
    var taskQueue: multiset<Key>
    var handleMap: map<nat, Key>
    var submissionList: map<int, Judged>
    var submissionIdMap: map<int, int>
    var cancelledList: set<int>
    var cancelledGroup: map<int, set<nat>>
    ghost var hist: map<int, History>
    ghost var closed: map<int, Live>
    ghost var numbering: map<int, Serial.Numbering>
    ghost var pushes: seq<(int, int)>

    ghost function Now(): Snap
      reads this, pool
    {
      Snap(taskList, taskQueue, handleMap, submissionList, submissionIdMap, cancelledList, cancelledGroup,
           pool.Pending(), hist, closed, numbering, pushes)
    }

    /** Every variable fits, every ready task is queued once, and the number of tasks being run is
        within bounds: what a worker or a pushing thread finds whenever it takes the lock. */
    ghost predicate Valid()
      reads this, pool
    {
      && pool.Valid() && |handleMap| <= kMax <= UID_POOL_SIZE && hist.Keys == submissionList.Keys
      && Core(Now(), ora) && QueueOk(Now(), {})
    }

    /** Handles, running and finished processes and the tasks the judge runs are equally many, and
        there is a user id for every task that may still be started. */
    lemma Conservation()
      requires Valid()
      ensures |handleMap| == |pool.running| + |pool.finished| == |RunningKeys(WorldOf(Now()))|
      ensures |pool.uidPool| + |pool.running| == UID_POOL_SIZE
      ensures |handleMap| < kMax ==> pool.uidPool != []
    {
      pool.UidsLeft();
      pool.PendingSize();
      PendingIsHandled(Now(), ora, pool);
      RunningCount(Now(), ora);
    }

    constructor (ora: Oracle, kMax: nat, cpus: seq<nat>)
      requires kMax <= UID_POOL_SIZE && DistinctSeq(cpus)
      ensures Valid() && fresh(pool) && this.ora == ora && this.kMax == kMax
      ensures WorldOf(Now()) == EMPTY && handleMap == map[]
    {
      this.ora, this.kMax := ora, kMax;
      pool := new Pool(cpus);
      taskList, taskQueue, handleMap, submissionList, submissionIdMap := map[], multiset{}, map[], map[], map[];
      cancelledList, cancelledGroup := {}, map[];
      hist, closed, numbering, pushes := map[], map[], map[], [];
      new;
      hide Core, QueueOk, PoolsOk, Merge;
      NothingYet(Now(), ora);
    }

    ghost predicate Known(id: int)
      reads this
    {
      id in submissionList && id in hist
    }

    /** The record of a submission, as the judge sees it. */
    ghost function At(id: int): Live
      requires Known(id)
      reads this, pool
    {
      LiveAt(Now(), id)
    }

    /* ---- the graph ---- */

    /** Counts down the successors of a finished task, pushes those that are now ready, and
        erases the entry. */
    method Remove(k: Key)
      requires k in taskList && Distinct(taskList[k].edges)
      requires forall b :: b in taskList[k].edges ==> b != k.task && Key(k.sid, b) in taskList
      modifies `taskList, `taskQueue
      ensures taskList == Removed(old(taskList), k)
      ensures Woken(old(Now()), taskQueue, k)
    {
      var edges := taskList[k].edges;
      for i := 0 to |edges|
        invariant taskList == CountedDown(old(taskList), k.sid, edges[..i])
        invariant forall x :: taskQueue[x] == old(taskQueue[x]) + WokenBy(old(taskList), k.sid, edges[..i], x)
      {
        var next := Key(k.sid, edges[i]);
        CountDownOne(old(taskList), k.sid, edges, i);
        taskList := taskList[next := taskList[next].(indeg := taskList[next].indeg - 1)];
        if taskList[next].indeg == 0 {
          taskQueue := taskQueue + multiset{next};
        }
      }
      assert edges[..|edges|] == edges;
      CountedDownIsRemoved(old(taskList), k);
      taskList := taskList - {k};
    }

    method IsCancelled(id: int, groups: seq<nat>) returns (res: bool)
      ensures res == Lifecycle.IsCancelled(id in cancelledList, GroupsLost(cancelledGroup, id), groups)
    {
      if id in cancelledList { return true; }
      if id !in cancelledGroup || groups == [] {
        assert groups != [] ==> groups[0] in groups;
        return false;
      }
      for i := 0 to |groups|
        invariant forall m :: 0 <= m < i ==> groups[m] in cancelledGroup[id]
      {
        if groups[i] !in cancelledGroup[id] { return false; }
      }
      return true;
    }

    /* ---- setting up a task ---- */

    /** The task waits for nothing and is not running. */
    ghost predicate CanTake(k: Key)
      reads this, pool
    {
      Known(k.sid) && LifecycleInv.Inv(At(k.sid), ora) && LifecycleInv.Startable(At(k.sid), k.task)
    }

    method SetupCompile(k: Key) returns (res: bool)
      requires CanTake(k) && k.task.Compile?
      ensures res == SetupStarts(At(k.sid), k.task)
      ensures Moved(Now(), Now(), k.sid, AfterSetup(At(k.sid), k.task))
    {
      MovedNowhere(Now(), k.sid);
      return k.sid !in cancelledList;
    }

    /** The result of a later stage is read: the vector is long enough. */
    method SetupExecute(k: Key) returns (res: bool)
      requires CanTake(k) && k.task.Execute?
      ensures res == SetupStarts(At(k.sid), k.task)
      ensures Moved(Now(), Now(), k.sid, AfterSetup(At(k.sid), k.task))
    {
      hide Moved;
      MovedNowhere(Now(), k.sid);
      var j := submissionList[k.sid];
      if j.verdict != NUL { return false; }
      var cancelled := IsCancelled(k.sid, j.sub.testdata[k.task.td].groups);
      if cancelled { return false; }
      if k.task.stage > 0 {
        Outcomes.ResultIsThere(At(k.sid), ora, k.task);
        var r := j.tds[k.task.td];
        if r.skipStage || r.verdict != NUL { return false; }
      }
      return true;
    }

    method SetupScoring(k: Key) returns (res: bool)
      requires CanTake(k) && k.task.Scoring?
      modifies `submissionList, `cancelledGroup, `hist
      ensures res == SetupStarts(old(At(k.sid)), k.task)
      ensures Moved(old(Now()), Now(), k.sid, AfterSetup(old(At(k.sid)), k.task))
    {
      hide Moved, ScoringDone;
      MovedNowhere(Now(), k.sid);
      var j := submissionList[k.sid];
      if j.verdict != NUL { return false; }
      var cancelled := IsCancelled(k.sid, j.sub.testdata[k.task.td].groups);
      if cancelled { return false; }
      Outcomes.ResultIsThere(At(k.sid), ora, k.task);
      var r := j.tds[k.task.td];
      if r.skipStage { return false; }
      if r.verdict != NUL && !j.sub.judgeAbnormallyTerminated {
        FinalizeScoring(k, EMPTY_OUTCOME, true);
        return false;
      }
      if j.sub.specjudge.SKIP? {
        FinalizeScoring(k, EMPTY_OUTCOME, false);
        return false;
      }
      return true;
    }

    method SetupSummary(k: Key) returns (res: bool)
      requires CanTake(k) && k.task.Summary?
      modifies `submissionList
      ensures res == SetupStarts(old(At(k.sid)), k.task)
      ensures Moved(old(Now()), Now(), k.sid, AfterSetup(old(At(k.sid)), k.task))
    {
      var j := submissionList[k.sid];
      var verdict := j.verdict;
      if verdict == NUL {
        verdict := OverallVerdict(j);
      }
      submissionList := submissionList[k.sid := j.(verdict := verdict)];
      hide LifecycleInv.Inv, LifecycleInv.Startable;
      SummaryMoves(old(Now()), Now(), k, verdict);
      return j.sub.customSummary && verdict != JCE;
    }

    /* ---- finalizing a task ---- */

    method FinalizeCompile(k: Key, o: Outcome)
      requires Known(k.sid) && k.task.Compile?
      modifies `submissionList
      ensures Moved(old(Now()), Now(), k.sid, AfterCompile(old(At(k.sid)), k.task.which, o))
      ensures Known(k.sid) && CompileDone(old(At(k.sid)), k.task.which, o, At(k.sid))
    {
      CompileMeans(At(k.sid), k.task.which, o);
      hide CompiledTo;
      var j := submissionList[k.sid];
      if o.timekill == -1 {
        submissionList := submissionList[k.sid := j.(verdict := JE)];
      } else if o.timekill != 0 || o.oomkill > 0 || o.siStatus != 0 || !o.outputRegular {
        var verdict;
        if k.task.which != USERPROG {
          verdict := JCE;
        } else if o.timekill != 0 || o.oomkill > 0 {
          verdict := CLE;
        } else {
          verdict := CE;
        }
        submissionList := submissionList[k.sid := j.(verdict := MaxVerdict(j.verdict, verdict))];
      } else {
        MovedNowhere(Now(), k.sid);
      }
    }

    method FinalizeExecute(k: Key, o: Outcome)
      requires Known(k.sid) && k.task.Execute? && k.task.td < |submissionList[k.sid].sub.testdata|
      modifies `submissionList
      ensures Moved(old(Now()), Now(), k.sid, AfterExecute(old(At(k.sid)), k.task, o))
      ensures Known(k.sid) && ExecuteDone(old(At(k.sid)), k.task.td, k.task.stage, o, At(k.sid))
    {
      ExecuteIs(At(k.sid), k.task.td, k.task.stage, o);
      hide ExecuteDone;
      var j, td := submissionList[k.sid], k.task.td;
      var tds := Grow(j.tds, td + 1);
      var r := tds[td];
      if k.task.stage == 0 {
        r := r.(vss := o.hiwaterVm, rss := o.maxrss, time := o.utime + o.stime, score := 0);
      } else {
        r := r.(vss := Max(r.vss, o.hiwaterVm), rss := Max(r.rss, o.maxrss), time := r.time + (o.utime + o.stime));
      }
      r := r.(verdict := ExecVerdict(j.sub, j.sub.testdata[td], o, r.vss, r.rss, r.time));
      submissionList := submissionList[k.sid := j.(tds := tds[td := r])];
    }

    method FinalizeScoring(k: Key, o: Outcome, skipped: bool)
      requires Known(k.sid) && k.task.Scoring? && k.task.td < |submissionList[k.sid].sub.testdata|
      requires k.task.td < |submissionList[k.sid].tds|
      modifies `submissionList, `cancelledGroup, `hist
      ensures Moved(old(Now()), Now(), k.sid, AfterScoring(old(At(k.sid)), k.task, skipped, o))
      ensures Known(k.sid) && ScoringDone(old(At(k.sid)), k.task.td, k.task.stage, skipped, o, At(k.sid))
    {
      ScoringIs(At(k.sid), k.task.td, k.task.stage, skipped, o);
      hide ScoringDone;
      var j, td := submissionList[k.sid], k.task.td;
      var r := ScoreTestdata(j.sub, k.task.stage, o, skipped, j.tds[td]);
      submissionList := submissionList[k.sid := j.(tds := j.tds[td := r])];
      if j.sub.skipGroup && r.verdict != NUL && r.verdict != AC {
        var groups := if k.sid in cancelledGroup then cancelledGroup[k.sid] else {};
        cancelledGroup := cancelledGroup[k.sid := groups + GroupsOf(j.sub, td)];
      }
      if k.sid !in cancelledList && (j.sub.reportIntermediateStage || LastStage(j.sub, k.task.stage) || r.skipStage) {
        Report(k.sid, [TdReport(td, k.task.stage, r)]);
      } else {
        Report(k.sid, []);
      }
      ScoringMoves(old(Now()), Now(), k, skipped, o, r);
    }

    /** What the reporter callbacks receive is recorded. */
    ghost method Report(id: int, reports: seq<Report>)
      requires id in hist
      modifies `hist
      ensures hist == old(hist)[id := old(hist[id]).(log := old(hist[id].log) + reports)]
    {
      hist := hist[id := hist[id].(log := hist[id].log + reports)];
    }

    method FinalizeSummary(k: Key, o: Outcome, skipped: bool)
      requires Known(k.sid) && k.task.Summary? && Sized(At(k.sid))
      modifies `submissionList, `submissionIdMap, `cancelledList, `cancelledGroup, `hist, `closed
      ensures Erased(old(Now()), Now(), k.sid, Gone(AfterSummary(old(At(k.sid)), skipped, o), k.task, true, !skipped))
      ensures k.sid in closed && SummaryDone(old(At(k.sid)), skipped, o, closed[k.sid])
    {
      hide ReadSummary, DefaultTotals, Gone, AfterSummary, SummaryDone, LeftIn, RunningIn, TaskGraph.UpClosed,
           PoolsOk, Merge, Pool.Pending;
      var j := submissionList[k.sid];
      ghost var l := At(k.sid);
      StaysSized(l, skipped, o);
      ghost var after := Gone(AfterSummary(l, skipped, o), k.task, true, !skipped);
      var verdict, totals := SummaryOutcome(j, o, skipped);
      SendOverall(k.sid, OverallReport(verdict, totals.score, totals.time, totals.memory));
      ClosesAs(l, skipped, o, verdict, totals, hist[k.sid].log);
      assert hist - {k.sid} == old(hist) - {k.sid} && cancelledList == old(cancelledList) - {k.sid};
      EraseRecords(k.sid, after);
    }

    /** A superseded submission is not reported any more. */
    method SendOverall(id: int, report: Report)
      requires id in hist
      modifies `cancelledList, `hist
      ensures cancelledList == old(cancelledList) - {id}
      ensures var h := old(hist[id]);
              hist == old(hist)[id := h.(log := if id in old(cancelledList) then h.log else h.log + [report])]
    {
      if id in cancelledList {
        cancelledList := cancelledList - {id};
        assert hist == hist[id := hist[id].(log := hist[id].log)];
      } else {
        Report(id, [report]);
      }
    }

    /** Nothing is kept of a finished submission. The id map is keyed by external ids, but it is the
        internal id that is erased from it. */
    method EraseRecords(id: int, ghost l: Live)
      modifies `submissionList, `submissionIdMap, `cancelledGroup, `hist, `closed
      ensures submissionList == old(submissionList) - {id} && submissionIdMap == old(submissionIdMap) - {id}
      ensures cancelledGroup == old(cancelledGroup) - {id}
      ensures hist == old(hist) - {id} && closed == old(closed)[id := l]
    {
      cancelledGroup := cancelledGroup - {id};
      submissionIdMap := submissionIdMap - {id};
      submissionList := submissionList - {id};
      closed, hist := closed[id := l], hist - {id};
    }

    /* ---- a task leaves ---- */

    /** Calls the Finalize function of the task, unless it was skipped. `effective` and the positions
        in the history do not influence anything. */
    method FinalizeRecords(k: Key, o: Outcome, skipped: bool, ghost effective: bool)
      requires Leaving(Now(), k, skipped)
      modifies `submissionList, `submissionIdMap, `cancelledList, `cancelledGroup, `hist, `closed
      ensures k.task.Summary? ==>
              Erased(old(Now()), Now(), k.sid, AfterLeaving(old(At(k.sid)), k.task, o, skipped, effective))
      ensures !k.task.Summary? ==>
              Moved(old(Now()), Now(), k.sid, AfterLeaving(old(At(k.sid)), k.task, o, skipped, effective))
    {
      hide CompileDone, ExecuteDone, ScoringDone, SummaryDone;
      ghost var l := At(k.sid);
      ghost var after := AfterLeaving(l, k.task, o, skipped, effective);
      MovedNowhere(Now(), k.sid);
      if skipped && !k.task.Summary? {
        RecordPosition(k.sid, after.h);
        return;
      }
      match k.task {
        case Compile(_) =>
          FinalizeCompile(k, o);
          RecordPosition(k.sid, after.h);
        case Execute(_, _) =>
          FinalizeExecute(k, o);
          RecordPosition(k.sid, after.h);
        case Scoring(_, _) =>
          FinalizeScoring(k, o, false);
          RecordPosition(k.sid, after.h);
        case Summary =>
          FinalizeSummary(k, o, skipped);
      }
    }

    ghost method RecordPosition(id: int, h: History)
      requires Known(id)
      modifies `hist
      ensures hist == old(hist)[id := h]
    {
      hist := hist[id := h];
    }

    method FinalizeTask(k: Key, o: Outcome, skipped: bool, ghost effective: bool)
      requires Leaving(Now(), k, skipped)
      modifies `submissionList, `submissionIdMap, `cancelledList, `cancelledGroup, `hist, `closed, `taskList, `taskQueue
      ensures Finished(old(Now()), Now(), k, AfterLeaving(old(At(k.sid)), k.task, o, skipped, effective))
      ensures taskList.Keys == old(taskList.Keys) - {k}
    {
      hide AfterLeaving, CountedDown, Sized, WokenBy;
      FinalizeRecords(k, o, skipped, effective);
      Remove(k);
    }

    /* ---- taking a task ---- */

    method Setup(k: Key) returns (res: bool)
      requires CanTake(k)
      modifies `submissionList, `cancelledGroup, `hist
      ensures res == SetupStarts(old(At(k.sid)), k.task)
      ensures IsTask'(old(At(k.sid)), k.task) && |old(At(k.sid)).j.tds| <= |old(At(k.sid)).j.sub.testdata|
      ensures res <==> IsStarted(old(At(k.sid)), k.task)
      ensures Moved(old(Now()), Now(), k.sid, AfterSetup(old(At(k.sid)), k.task))
    {
      StartsIff(At(k.sid), k.task);
      hide IsStarted;
      match k.task {
        case Compile(_) => res := SetupCompile(k);
        case Execute(_, _) => res := SetupExecute(k);
        case Scoring(_, _) => res := SetupScoring(k);
        case Summary => res := SetupSummary(k);
      }
    }

    /** A task whose Setup declined is finalized as skipped. `s` is the state before Setup. */
    method SkipTask(k: Key, ghost s: Snap)
      requires pool.Valid() && |handleMap| <= kMax <= UID_POOL_SIZE && s.hm == handleMap
      requires Core(s, ora) && QueueOk(s, {k}) && Ready(s, k) && Leaving(s, k, true)
      requires !SetupStarts(LiveAt(s, k.sid), k.task) && Moved(s, Now(), k.sid, AfterSetup(LiveAt(s, k.sid), k.task))
      modifies `submissionList, `submissionIdMap, `cancelledList, `cancelledGroup, `hist, `closed, `taskList, `taskQueue
      ensures Valid() && taskList.Keys == old(taskList.Keys) - {k}
      ensures CanStart(WorldOf(s), k) && Sized(WorldOf(s).live[k.sid]) && WorldOf(Now()) == DispatchKey(WorldOf(s), k)
    {
      hide Core, QueueOk, Ready, Leaving, Moved, WorldOf, DispatchKey, CanStart, Sized, SetupStarts, AfterSetup,
           Dispatch, AfterLeaving, Dropped, Finished, Removed, LiveAt, PoolsOk, Merge, Pool.Valid, Pool.Pending;
      ghost var s1 := Now();
      SkippedMayLeave(s, s1, ora, k);
      LeavingFacts(s1, k, true);
      FinalizeTask(k, EMPTY_OUTCOME, true, EffectiveSkip(s, k));
      SkippedIsTaken(s, s1, Now(), ora, k);
    }

    /** Otherwise a process is started. What it will return is up to the oracle. */
    method StartTask(k: Key, ghost s: Snap)
      requires pool.Valid() && |handleMap| < kMax <= UID_POOL_SIZE && s.hm == handleMap && s.pending == pool.Pending()
      requires Core(s, ora) && QueueOk(s, {k}) && Ready(s, k) && Leaving(s, k, true)
      requires SetupStarts(LiveAt(s, k.sid), k.task) && Moved(s, Now(), k.sid, AfterSetup(LiveAt(s, k.sid), k.task))
      modifies `handleMap, pool
      ensures Valid() && |handleMap| == |old(handleMap)| + 1
      ensures CanStart(WorldOf(s), k) && Sized(WorldOf(s).live[k.sid]) && WorldOf(Now()) == DispatchKey(WorldOf(s), k)
    {
      hide Core, QueueOk, Ready, Leaving, Moved, WorldOf, DispatchKey, CanStart, Sized, SetupStarts, AfterSetup,
           Dispatch, IsTask', LiveAt, PoolsOk, Merge, Pool.Valid, Pool.Pending, OutcomeOf;
      ghost var s1 := Now();
      LeavingFacts(s, k, true);
      MovedKnown(s, s1, k.sid, AfterSetup(LiveAt(s, k.sid), k.task));
      PendingIsHandled(s, ora, pool);
      var outcome := WillWrite(k);
      pool.PendingSize();
      var handle := pool.OpenHandle();
      var res := pool.RunTask(handle, outcome, true, true);
      handleMap := handleMap[handle := k];
      StartedIsTaken(s, s1, Now(), ora, k, handle);
    }

    /** What the child process of a task will write. */
    method WillWrite(k: Key) returns (o: Outcome)
      requires Known(k.sid)
      ensures o == OutcomeOf(At(k.sid), ora, k.task)
    {
      var j, t := submissionList[k.sid], k.task;
      o := ora(j.sub.internalId, t, if t.Execute? || t.Scoring? then Td(j.tds, t.td) else NO_RESULT);
    }

    /** Taking a task off the queue is one step of the judge, whether a process is started or not. */
    method DispatchTask(k: Key) returns (started: bool)
      requires pool.Valid() && Core(Now(), ora) && QueueOk(Now(), {k}) && Ready(Now(), k)
      requires |handleMap| < kMax <= UID_POOL_SIZE
      modifies this, pool
      ensures Valid()
      ensures CanStart(old(WorldOf(Now())), k) && Sized(old(WorldOf(Now())).live[k.sid])
      ensures WorldOf(Now()) == DispatchKey(old(WorldOf(Now())), k)
      ensures started ==>
              |handleMap| == |old(handleMap)| + 1 && taskList == old(taskList) && taskQueue == old(taskQueue)
      ensures !started ==> handleMap == old(handleMap) && taskList.Keys == old(taskList.Keys) - {k}
    {
      hide LifecycleInv.Inv, LifecycleInv.Startable, Core, QueueOk, Ready, Leaving, WorldOf, DispatchKey, CanStart,
           Sized, LiveAt, SetupStarts, AfterSetup, Moved, Valid, PoolsOk, Merge, Pool.Valid, Pool.Pending;
      ghost var s := Now();
      TakeFacts(s, ora, k);
      started := Setup(k);
      if started {
        StartTask(k, s);
      } else {
        SkipTask(k, s);
      }
    }

    /** The top of the priority queue: a greatest entry. */
    method PopTop() returns (k: Key)
      requires taskQueue != multiset{} && forall x :: x in taskQueue ==> x in taskList
      modifies `taskQueue
      ensures Greatest(old(Now()), k)
      ensures taskQueue == old(taskQueue) - multiset{k}
    {
      k := GreatestOf(taskQueue, taskList);
      taskQueue := taskQueue - multiset{k};
    }

    /* ---- getting a task back ---- */

    method WaitTask() returns (k: Key, o: Outcome, h: nat)
      requires Valid() && handleMap != map[]
      modifies `handleMap, pool
      ensures pool.Valid()
      ensures h in old(handleMap) && k == old(handleMap)[h] && h in old(Now()).pending && o == old(Now()).pending[h]
      ensures Now() == Fetched(old(Now()), h) && |handleMap| == |old(handleMap)| - 1
    {
      hide Core, QueueOk, PoolsOk, Merge, Pool.Valid, Pool.Pending, Fetched;
      PendingIsHandled(Now(), ora, pool);
      ghost var s := Now();
      var res := pool.WaitAnyResult();
      h, o := res.value.0, res.value.1;
      k := handleMap[h];
      handleMap := handleMap - {h};
      IsFetched(s, Now(), h);
    }

    /** One result is fetched and its task finalized: one step of the judge. */
    method CollectTask() returns (k: Key)
      requires Valid() && handleMap != map[]
      modifies this, pool
      ensures Valid()
      ensures k in RunningKeys(old(WorldOf(Now()))) && Sized(old(WorldOf(Now())).live[k.sid])
      ensures k.task in old(WorldOf(Now())).live[k.sid].left
      ensures WorldOf(Now()) == CompleteKey(old(WorldOf(Now())), ora, k)
      ensures |handleMap| == |old(handleMap)| - 1 && taskList.Keys == old(taskList.Keys) - {k} && k in old(taskList)
    {
      hide Core, QueueOk, Leaving, Fetched, LiveAt, WorldOf, CompleteKey, RunningKeys, Sized, AfterLeaving, Finished,
           OutcomeOf, PoolsOk, Merge, Pool.Valid, Pool.Pending;
      ghost var s := Now();
      var o, h;
      k, o, h := WaitTask();
      ReturnFacts(s, ora, k, h);
      ghost var l := At(k.sid);
      FinalizeTask(k, o, false, true);
      ReturnIsComplete(s, Now(), ora, k, h, LiveAt(s, k.sid), l, o);
    }

    /* ---- taking a submission in ---- */

    /** InsertTaskList, for every entry of a submission. */
    method InsertTaskList(id: int, g: map<Task, Entry>)
      modifies `taskList, `taskQueue
      ensures taskList == Inserted(old(taskList), id, g) && Queued(old(Now()), taskQueue, id, g)
    {
      var rest := g.Keys;
      InsertNone(taskList, id, g);
      while rest != {}
        invariant rest <= g.Keys
        invariant taskList == PartlyInserted(old(taskList), id, g, rest)
        invariant forall x :: taskQueue[x] == old(taskQueue)[x] + QueuedBy(id, g, rest, x)
        decreases rest
      {
        var t :| t in rest;
        InsertOne(old(taskList), id, g, rest, t);
        taskList := taskList[Key(id, t) := g[t]];
        if g[t].indeg == 0 { taskQueue := taskQueue + multiset{Key(id, t)}; }
        rest := rest - {t};
      }
    }

    /** Refused when the queue is full. Otherwise one step of the judge, with td_order as numbering. */
    method PushSubmission(submitted: Submission, maxQueue: nat) returns (accepted: bool)
      requires Valid() && Fresh(Now(), submitted.internalId) && ValidSub(Clamped(submitted))
      modifies `taskList, `taskQueue, `submissionList, `submissionIdMap, `cancelledList, `hist, `numbering, `pushes
      ensures Valid()
      ensures accepted == (maxQueue == 0 || |old(submissionList)| < maxQueue)
      ensures !accepted ==> Now() == old(Now())
      ensures accepted ==>
        WorldOf(Now()) == Push(old(WorldOf(Now())), Clamped(submitted), Serial.TdNumbering(Clamped(submitted)))
    {
      hide Core, QueueOk, Fresh, ValidSub, WorldOf, Push, Arrived, GraphBuilder.Follows, Queued, Pushed, Inserted,
           Layering.TdOrder, Layering.JudgingOrder, PoolsOk, Merge, Pool.Valid, Pool.Pending;
      if maxQueue > 0 && |submissionList| >= maxQueue { return false; }
      var sub := Clamped(submitted);
      var order, inv := Layering.AssignOrder(sub);
      var nm := Serial.Numbering(order, inv);
      Serial.TdNumberingNumbers(sub);
      var g := GraphBuilder.BuildGraph(sub, nm);
      ghost var s := Now();
      Enqueue(sub, nm, g);
      Pushes(s, Now(), ora, sub, nm, g);
      return true;
    }

    method Enqueue(sub: Submission, ghost nm: Serial.Numbering, g: map<Task, Entry>)
      requires sub.stages >= 1
      modifies `taskList, `taskQueue, `submissionList, `submissionIdMap, `cancelledList, `hist, `numbering, `pushes
      ensures Pushed(old(Now()), Now(), sub, nm, g)
    {
      hide Arrived, Queued, Inserted, PoolsOk, Merge, Pool.Pending;
      ghost var s := Now();
      InsertTaskList(sub.internalId, g);
      EnterSubmission(sub);
      Arrive(sub, nm);
      IsPushed(s, Now(), sub, nm, g);
    }

    method EnterSubmission(sub: Submission)
      modifies `submissionList, `submissionIdMap, `cancelledList
      ensures submissionList == old(submissionList)[sub.internalId := Judged(sub, [], NUL, NO_TOTALS)]
      ensures submissionIdMap == old(submissionIdMap)[sub.submissionId := sub.internalId]
      ensures cancelledList == if sub.submissionId in old(submissionIdMap)
                               then old(cancelledList) + {old(submissionIdMap)[sub.submissionId]}
                               else old(cancelledList)
    {
      submissionList := submissionList[sub.internalId := Judged(sub, [], NUL, NO_TOTALS)];
      if sub.submissionId in submissionIdMap {
        // the same submission is already judging: mark it as cancelled
        cancelledList := cancelledList + {submissionIdMap[sub.submissionId]};
      }
      submissionIdMap := submissionIdMap[sub.submissionId := sub.internalId];
    }

    ghost method Arrive(sub: Submission, nm: Serial.Numbering)
      requires sub.stages >= 1
      modifies `hist, `numbering, `pushes
      ensures hist == old(hist)[sub.internalId := Arrived(sub).h] && numbering == old(numbering)[sub.internalId := nm]
      ensures pushes == old(pushes) + [(sub.internalId, sub.submissionId)]
    {
      hist, numbering := hist[sub.internalId := Arrived(sub).h], numbering[sub.internalId := nm];
      pushes := pushes + [(sub.internalId, sub.submissionId)];
    }

    /* ---- the work loop ---- */

    /** What was done since the judge was in state `w`; the arrivals not answered yet may still come. */
    ghost predicate Led(t: Trace, w: World, arrivals: seq<Submission>, maxQueue: nat)
      reads this, pool
    {
      LeadsTo(t, ora, kMax, w, Now(), arrivals, maxQueue)
    }

    /** Takes the top of the queue. */
    method TakeNext(ghost w: World, ghost arrivals: seq<Submission>, ghost maxQueue: nat, ghost t0: Trace)
      returns (started: bool, ghost t: Trace)
      requires Valid() && |handleMap| < kMax && taskQueue != multiset{} && Led(t0, w, arrivals, maxQueue)
      modifies this, pool
      ensures Valid() && Led(t, w, arrivals, maxQueue) && t.offers == t0.offers
      ensures started ==>
              |handleMap| == |old(handleMap)| + 1 && taskList == old(taskList) && |taskQueue| < |old(taskQueue)|
      ensures !started ==> |handleMap| == |old(handleMap)| && |taskList| < |old(taskList)|
    {
      hide Core, QueueOk, WorldOf, Ready, Greatest, CanStep, CanStart, DispatchKey, LeadsTo, PoolsOk, Merge,
           Pool.Valid, Pool.Pending;
      ghost var s := Now();
      QueueIsListed(s);
      var k := PopTop();
      PoppedIsTaken(s, Now(), ora, k, kMax);
      started := DispatchTask(k);
      GoesOn(t0, ora, kMax, w, s, Now(), Take(k), arrivals, maxQueue);
      t := Extended(t0, Take(k), WorldOf(Now()));
    }

    /** Waits for a running task. */
    method CollectNext(ghost w: World, ghost arrivals: seq<Submission>, ghost maxQueue: nat, ghost t0: Trace)
      returns (ghost t: Trace)
      requires Valid() && handleMap != map[] && Led(t0, w, arrivals, maxQueue)
      modifies this, pool
      ensures Valid() && Led(t, w, arrivals, maxQueue) && t.offers == t0.offers
      ensures |handleMap| == |old(handleMap)| - 1 && |taskList| < |old(taskList)|
    {
      hide Core, QueueOk, WorldOf, CompleteKey, RunningKeys, LeadsTo, PoolsOk, Merge, Pool.Valid, Pool.Pending;
      ghost var s := Now();
      var k := CollectTask();
      GoesOn(t0, ora, kMax, w, s, Now(), Return(k), arrivals, maxQueue);
      t := Extended(t0, Return(k), WorldOf(Now()));
    }

    /** The next submission is pushed. */
    method TakeArrival(submitted: Submission, maxQueue: nat, ghost w: World, ghost arrivals: seq<Submission>,
                       ghost t0: Trace)
      returns (ghost t: Trace)
      requires Valid() && Led(t0, w, arrivals, maxQueue)
      requires |t0.offers| < |arrivals| && submitted == arrivals[|t0.offers|]
      modifies `taskList, `taskQueue, `submissionList, `submissionIdMap, `cancelledList, `hist, `numbering, `pushes
      ensures Valid() && Led(t, w, arrivals, maxQueue) && |t.offers| == |t0.offers| + 1
    {
      hide Core, QueueOk, WorldOf, Push, Leads, Answered, ValidSub, PoolsOk, Merge, Pool.Valid, Pool.Pending;
      ghost var s := Now();
      NextArrives(t0, ora, kMax, w, s, arrivals, maxQueue);
      var accepted := PushSubmission(submitted, maxQueue);
      OffersNext(t0, ora, kMax, w, s, Now(), arrivals, maxQueue, accepted);
      t := AfterOffer(t0, s, Now(), arrivals, accepted);
    }

    /** While the worker waits without holding the lock, any number of submissions may come in. */
    method TakeArrivals(rest: seq<Submission>, maxQueue: nat, ghost w: World, ghost arrivals: seq<Submission>,
                        ghost t0: Trace)
      returns (rest': seq<Submission>, ghost t: Trace)
      requires Valid() && Led(t0, w, arrivals, maxQueue) && |t0.offers| <= |arrivals| && rest == arrivals[|t0.offers|..]
      modifies `taskList, `taskQueue, `submissionList, `submissionIdMap, `cancelledList, `hist, `numbering, `pushes
      ensures Valid() && Led(t, w, arrivals, maxQueue) && |t.offers| <= |arrivals| && rest' == arrivals[|t.offers|..]
      ensures |rest'| < |rest| || (|rest'| == |rest| && taskList == old(taskList))
    {
      hide Valid, Led;
      var n: nat :| n <= |rest|;
      rest', t := rest, t0;
      for i := 0 to n
        invariant Valid() && Led(t, w, arrivals, maxQueue) && |t.offers| == |t0.offers| + i
        invariant rest' == arrivals[|t.offers|..]
        invariant i == 0 ==> taskList == old(taskList)
      {
        t := TakeArrival(rest'[0], maxQueue, w, arrivals, t);
        rest' := rest'[1..];
      }
    }

    /** The inner loop, until nothing is left to do. Every submission that was or came in is finished. */
    method Round(rest: seq<Submission>, maxQueue: nat, ghost w: World, ghost arrivals: seq<Submission>, ghost t0: Trace)
      returns (rest': seq<Submission>, ghost t: Trace)
      requires Valid() && kMax >= 1 && handleMap == map[] && Led(t0, w, arrivals, maxQueue)
      requires |t0.offers| <= |arrivals| && rest == arrivals[|t0.offers|..]
      modifies this, pool
      ensures Valid() && Led(t, w, arrivals, maxQueue) && |t.offers| <= |arrivals| && rest' == arrivals[|t.offers|..]
      ensures |rest'| <= |rest| && handleMap == map[] && taskQueue == multiset{}
    {
      hide Core, QueueOk, LeadsTo, PoolsOk, Merge, Pool.Valid, Pool.Pending;
      var running := 0;
      rest', t := rest, t0;
      while running > 0 || taskQueue != multiset{}
        invariant Valid() && running == |handleMap| && Led(t, w, arrivals, maxQueue)
        invariant |t.offers| <= |arrivals| && rest' == arrivals[|t.offers|..] && |rest'| <= |rest|
        decreases |rest'|, |taskList|, |taskQueue|
      {
        if running < kMax && taskQueue != multiset{} {
          var started;
          started, t := TakeNext(w, arrivals, maxQueue, t);
          running := if started then running + 1 else running;
        } else {
          rest', t := TakeArrivals(rest', maxQueue, w, arrivals, t);
          t := CollectNext(w, arrivals, maxQueue, t);
          running := running - 1;
        }
      }
    }

    /** The work loop, as long as submissions keep coming: `arrivals` are those that other threads push,
        one after the other, while the worker waits for a task to finish or for something to do. What it
        does is a path of the judge: each arrival on it is an accepted submission, and only those that
        found a full queue were refused. In the end nothing and nobody is left. */
    method WorkLoop(arrivals: seq<Submission>, maxQueue: nat) returns (ghost t: Trace)
      requires Valid() && kMax >= 1 && handleMap == map[] && CanArrive(Now(), arrivals)
      modifies this, pool
      ensures Valid() && handleMap == map[] && taskList == map[] && submissionList == map[]
      ensures Led(t, old(WorldOf(Now())), arrivals, maxQueue) && |t.offers| == |arrivals|
    {
      hide Core, QueueOk, WorldOf, LeadsTo, CanArrive, PoolsOk, Merge, Pool.Valid, Pool.Pending;
      ghost var w := WorldOf(Now());
      var rest := arrivals;
      t := Trace([w], [], []);
      StartsEmpty(ora, kMax, Now(), arrivals, maxQueue);
      while taskQueue != multiset{} || rest != []
        invariant Valid() && handleMap == map[] && Led(t, w, arrivals, maxQueue)
        invariant |t.offers| <= |arrivals| && rest == arrivals[|t.offers|..]
        decreases |rest|, |taskQueue|
      {
        if taskQueue == multiset{} {
          t := TakeArrival(rest[0], maxQueue, w, arrivals, t);
          rest := rest[1..];
        }
        rest, t := TakeArrivals(rest, maxQueue, w, arrivals, t);
        rest, t := Round(rest, maxQueue, w, arrivals, t);
      }
      NothingLeft(Now(), ora);
    }
  }

  method GreatestOf(queue: multiset<Key>, tl: map<Key, Entry>) returns (k: Key)
    requires queue != multiset{} && forall x :: x in queue ==> x in tl
    ensures k in queue && forall x :: x in queue ==> !EntryLess(tl, k, x)
  {
    k :| k in queue;
    var rest := queue - multiset{k};
    while rest != multiset{}
      invariant k in queue && rest <= queue
      invariant forall x :: x in queue ==> x in rest || !EntryLess(tl, k, x)
      decreases |rest|
    {
      var x :| x in rest;
      if EntryLess(tl, k, x) { k := x; }
      rest := rest - multiset{x};
    }
  }

  /** min over the members of each group, in the array the source fills. */
  method GroupScores(sub: Submission, tds: seq<TdResult>) returns (scores: array<int>)
    requires |tds| <= |sub.testdata|
    requires forall i, g :: 0 <= i < |sub.testdata| && g in sub.testdata[i].groups ==> g < |sub.groupScore|
    ensures fresh(scores) && scores.Length == |sub.groupScore|
    ensures forall g :: 0 <= g < scores.Length ==> scores[g] == GroupScore(sub, tds, g, |tds|)
  {
    scores := new int[|sub.groupScore|](_ => INF_SCORE);
    for i := 0 to |tds|
      invariant forall g :: 0 <= g < scores.Length ==> scores[g] == GroupScore(sub, tds, g, i)
    {
      if !sub.testdata[i].ignoreVerdict {
        LowerScores(scores, sub.testdata[i].groups, tds[i].score);
      }
    }
  }

  method LowerScores(scores: array<int>, groups: seq<nat>, score: int)
    requires forall g :: g in groups ==> g < scores.Length
    modifies scores
    ensures forall g :: 0 <= g < scores.Length ==>
              scores[g] == if g in groups then Min(old(scores[g]), score) else old(scores[g])
  {
    for m := 0 to |groups|
      invariant forall g :: 0 <= g < scores.Length ==>
                  scores[g] == if g in groups[..m] then Min(old(scores[g]), score) else old(scores[g])
    {
      assert groups[m] in groups;
      scores[groups[m]] := Min(scores[groups[m]], score);
      assert groups[..m + 1] == groups[..m] + [groups[m]];
    }
    assert groups[..|groups|] == groups;
  }

  /** The totals FinalizeSummary computes when the submission compiled. */
  method SumUp(sub: Submission, tds: seq<TdResult>) returns (totals: Totals)
    requires |tds| <= |sub.testdata|
    requires forall i, g :: 0 <= i < |sub.testdata| && g in sub.testdata[i].groups ==> g < |sub.groupScore|
    ensures totals == DefaultTotals(sub, tds, AC, NO_TOTALS)
    ensures IsPeak(sub, tds, |tds|, totals.memory)
  {
    MemoryIsPeak(sub, tds, |tds|);
    hide IsPeak;
    var memory, time := 0, 0;
    for i := 0 to |tds|
      invariant memory == TotalMemory(sub, tds, i) && time == TotalTime(sub, tds, i)
    {
      if !sub.testdata[i].ignoreVerdict {
        memory, time := Max(memory, tds[i].rss), time + tds[i].time;
      }
    }
    var scores := GroupScores(sub, tds);
    var sum := 0;
    for g := 0 to scores.Length
      invariant sum == WeightedSum(sub, tds, g)
    {
      var score := if scores[g] == INF_SCORE then FULL_SCORE else scores[g];
      sum := sum + score * sub.groupScore[g];
    }
    totals := NO_TOTALS.(score := NormalizeScore(sum as real / 100_000_000_000_000.0), time := time, memory := memory);
  }

  /** What FinalizeSummary reports: the default totals, unless the summary program says otherwise. */
  method SummaryOutcome(j: Judged, o: Outcome, skipped: bool) returns (verdict: Verdict, totals: Totals)
    requires ValidSub(j.sub) && |j.tds| <= |j.sub.testdata|
    ensures var default_ := DefaultTotals(j.sub, j.tds, j.verdict, j.totals);
            (verdict, totals) == if skipped then (j.verdict, default_) else ReadSummary(o, j.verdict, default_)
  {
    verdict, totals := j.verdict, j.totals.(score := 0);
    if Code(j.verdict) < Code(CE) {
      totals := SumUp(j.sub, j.tds);
    }
    if !skipped {
      if !o.outputRegular || o.siStatus != 0 || !o.summary.parsed {
        verdict, totals := JRE, totals.(time := 0, memory := 0);
      } else {
        if o.summary.verdict.Some? { verdict := o.summary.verdict.value; }
        if verdict == NUL { verdict := WA; }
        if o.summary.score.Some? { totals := totals.(score := o.summary.score.value); }
        if o.summary.time.Some? { totals := totals.(time := o.summary.time.value); }
        if o.summary.memory.Some? { totals := totals.(memory := o.summary.memory.value); }
      }
    }
  }

  /** The first half of SetupSummary. */
  method OverallVerdict(j: Judged) returns (verdict: Verdict)
    requires |j.tds| <= |j.sub.testdata|
    ensures verdict == WorstVerdict(j.sub, j.tds, |j.tds|)
    ensures IsOverall(j.(verdict := NUL), verdict)
  {
    OverallMeans(j.(verdict := NUL));
    hide IsOverall;
    verdict := AC;
    for i := 0 to |j.tds|
      invariant verdict == WorstVerdict(j.sub, j.tds, i)
    {
      if !j.sub.testdata[i].ignoreVerdict && Code(verdict) < Code(j.tds[i].verdict) {
        verdict := j.tds[i].verdict;
      }
    }
  }

  /** The first half of FinalizeScoring. */
  method ScoreTestdata(sub: Submission, stage: nat, o: Outcome, skipped: bool, before: TdResult) returns (r: TdResult)
    ensures r == ScoreResult(sub, stage, skipped, o, before)
    ensures Scored(sub, stage, skipped, o, before, r)
  {
    ScoringMeans(sub, stage, skipped, o, before);
    hide Scored;
    var last := stage == sub.stages - 1;
    r := before.(score := 0);
    if !skipped {
      r := JudgeResult(sub, o, r);
    }
    if !last && r.verdict != NUL {
      r := r.(skipStage := true);
    } else if last && r.verdict == NUL {
      r := r.(verdict := WA);
    }
  }

  lemma MovedNowhere(s: Snap, id: int)
    requires id in s.subs && id in s.hist
    ensures Moved(s, s, id, LiveAt(s, id))
  {
    assert s.subs[id := s.subs[id]] == s.subs && s.hist[id := s.hist[id]] == s.hist;
  }

  lemma IsFetched(s: Snap, s': Snap, h: nat)
    requires s' == s.(hm := s.hm - {h}, pending := s.pending - {h})
    ensures s' == Fetched(s, h)
  {
  }

  lemma PendingIsHandled(s: Snap, ora: Oracle, pool: Pool)
    requires Core(s, ora) && s.pending == pool.Pending()
    ensures |pool.Pending()| == |s.hm| && pool.Pending().Keys == s.hm.Keys
  {
    assert |s.pending.Keys| == |s.hm.Keys|;
  }

  lemma StaysSized(l: Live, skipped: bool, o: Outcome)
    requires Sized(l)
    ensures Sized(AfterSummary(l, skipped, o)) && TaskGraph.IsTask(l.j.sub, Summary)
    ensures AfterSummary(l, skipped, o).j.sub == l.j.sub
  {
  }

  lemma ClosesAs(l: Live, skipped: bool, o: Outcome, verdict: Verdict, totals: Totals, log: seq<Report>)
    requires Sized(l) && TaskGraph.IsTask(l.j.sub, Summary)
    requires var default_ := DefaultTotals(l.j.sub, l.j.tds, l.j.verdict, l.j.totals);
             (verdict, totals) == if skipped then (l.j.verdict, default_) else ReadSummary(o, l.j.verdict, default_)
    requires log == if l.cancelled then l.h.log
             else l.h.log + [OverallReport(verdict, totals.score, totals.time, totals.memory)]
    ensures Gone(AfterSummary(l, skipped, o), Summary, true, !skipped).h.log == log
    ensures SummaryDone(l, skipped, o, Gone(AfterSummary(l, skipped, o), Summary, true, !skipped))
  {
    SummaryIs(l, skipped, o);
    SameSummary(l, skipped, o, AfterSummary(l, skipped, o), Gone(AfterSummary(l, skipped, o), Summary, true, !skipped));
    hide SummaryDone, DefaultTotals, ReadSummary;
  }

  lemma SummaryMoves(s: Snap, s': Snap, k: Key, verdict: Verdict)
    requires k.sid in s.subs && k.sid in s.hist && k.task.Summary? && IsTask'(LiveAt(s, k.sid), k.task)
    requires |s.subs[k.sid].tds| <= |s.subs[k.sid].sub.testdata| && verdict == SummaryVerdict(s.subs[k.sid])
    requires s' == s.(subs := s.subs[k.sid := s.subs[k.sid].(verdict := verdict)])
    ensures Moved(s, s', k.sid, AfterSetup(LiveAt(s, k.sid), k.task))
  {
    hide WorstVerdict;
    assert s.hist[k.sid := s.hist[k.sid]] == s.hist;
  }

  lemma ScoringMoves(s: Snap, s': Snap, k: Key, skipped: bool, o: Outcome, r: TdResult)
    requires k.sid in s.subs && k.sid in s.hist && k.task.Scoring? && k.task.td < |s.subs[k.sid].sub.testdata|
    requires var sub, tds, td := s.subs[k.sid].sub, s.subs[k.sid].tds, k.task.td;
             td < |tds| && r == ScoreResult(sub, k.task.stage, skipped, o, tds[td])
    requires var j, td, h := s.subs[k.sid], k.task.td, s.hist[k.sid];
             s' == s.(subs := s.subs[k.sid := j.(tds := j.tds[td := r])],
                      cg := if Cancels(j.sub, r.verdict)
                            then s.cg[k.sid := GroupsLost(s.cg, k.sid) + GroupsOf(j.sub, td)] else s.cg,
                      hist := s.hist[k.sid := h.(log := h.log +
                        if k.sid in s.cl then [] else ScoringReport(j.sub, k.task, r))])
    ensures Moved(s, s', k.sid, AfterScoring(LiveAt(s, k.sid), k.task, skipped, o))
  {
    hide ScoreResult;
    assert s.hist[k.sid].log + [] == s.hist[k.sid].log;
  }

  function CountedDown(tl: map<Key, Entry>, sid: int, edges: seq<Task>): map<Key, Entry> {
    map x | x in tl :: if x.sid == sid && x.task in edges then tl[x].(indeg := tl[x].indeg - 1) else tl[x]
  }

  lemma CountDownOne(tl: map<Key, Entry>, sid: int, edges: seq<Task>, i: nat)
    requires i < |edges| && Distinct(edges) && Key(sid, edges[i]) in tl
    ensures var next, before := Key(sid, edges[i]), CountedDown(tl, sid, edges[..i]);
            && before[next] == tl[next]
            && CountedDown(tl, sid, edges[..i + 1]) == before[next := before[next].(indeg := before[next].indeg - 1)]
    ensures forall x :: WokenBy(tl, sid, edges[..i + 1], x) == WokenBy(tl, sid, edges[..i], x) +
              if x == Key(sid, edges[i]) && tl[x].indeg == 1 then 1 else 0
  {
    assert edges[i] !in edges[..i] && edges[..i + 1] == edges[..i] + [edges[i]];
  }

  lemma CountedDownIsRemoved(tl: map<Key, Entry>, k: Key)
    requires k in tl && k.task !in tl[k].edges
    ensures CountedDown(tl, k.sid, tl[k].edges) - {k} == Removed(tl, k)
  {
  }

  function WokenBy(tl: map<Key, Entry>, sid: int, edges: seq<Task>, x: Key): nat {
    if x in tl && x.sid == sid && x.task in edges && tl[x].indeg == 1 then 1 else 0
  }
}