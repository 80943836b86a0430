/** The end of a run: everyone who came in has been judged. */
module Finishing {
  import opened Types
  import opened TestdataRun
  import TaskGraph
  import opened Lifecycle
  import opened LifecycleInv
  import Causes
  import Outcomes
  import opened Closing
  import opened World

  ghost predicate SubIs(w: World, id: int, sub: Submission) {
    (id in w.live && w.live[id].j.sub == sub) || (id in w.closed && w.closed[id].j.sub == sub)
  }

  lemma StoreKeepsSub(w: World, sid: int, l: Live, id: int, sub: Submission)
    requires sid in w.live && l.j.sub == w.live[sid].j.sub && SubIs(w, id, sub)
    requires w.live.Keys !! w.closed.Keys
    ensures SubIs(Store(w, sid, l), id, sub)
  {
  }

  lemma StepKeepsSub(w: World, ora: Oracle, kmax: nat, a: Action, id: int, sub: Submission)
    requires WInv(w, ora) && CanStep(w, kmax, a) && SubIs(w, id, sub)
    ensures SubIs(Step(w, ora, kmax, a), id, sub)
  {
    match a
    case Arrive(_, _) =>
    case Take(k) =>
      DispatchKeepsSub(w.live[k.sid], k.task);
      StoreKeepsSub(w, k.sid, Dispatch(w.live[k.sid], k.task), id, sub);
    case Return(k) =>
      CompleteKeepsSub(w.live[k.sid], ora, k.task);
      StoreKeepsSub(w, k.sid, Complete(w.live[k.sid], ora, k.task), id, sub);
  }

  lemma {:induction false} RunKeepsSub(ws: seq<World>, acts: seq<Action>, ora: Oracle, kmax: nat, id: int,
                                       sub: Submission, i: nat, j: nat)
    requires IsRun(ws, acts, ora, kmax) && i <= j < |ws| && SubIs(ws[i], id, sub)
    ensures SubIs(ws[j], id, sub)
    decreases j
  {
    hide CanStep, Step, WInv, SubIs;
    if i < j {
      RunKeepsSub(ws, acts, ora, kmax, id, sub, i, j - 1);
      RunKeeps(ws, acts, ora, kmax, j - 1);
      StepKeepsSub(ws[j - 1], ora, kmax, acts[j - 1], id, sub);
    }
  }

  /** In every run that ends with nothing left, every submission that came in has been finished as
      itself: with exactly one overall report, or none if a later one carried the same external id.
      If it was not superseded, skips no groups and has no summary program, that report is the
      one computed by compiling everything, judging each testdata alone and adding up. */
  lemma EveryArrivalIsJudged(ws: seq<World>, acts: seq<Action>, ora: Oracle, kmax: nat, m: nat)
    requires IsRun(ws, acts, ora, kmax) && m < |acts| && acts[m].Arrive? && ws[|acts|].live == map[]
    ensures acts[m].sub.stages >= 1 && acts[m].sub.internalId in ws[|acts|].closed
    ensures var sub, w := acts[m].sub, ws[|acts|];
            var l := w.closed[sub.internalId];
            var n := OverallReports(l.h.log);
            && l.j.sub == sub
            && (n == 1 || (n == 0 && LaterPush(w.pushes, sub.internalId, sub.submissionId)))
            && (n == 1 && !sub.skipGroup && !sub.customSummary ==>
                  |l.h.log| > 0 && l.h.log[|l.h.log| - 1] == ReferenceReport(sub, ora))
  {
    var sub := acts[m].sub;
    assert SubIs(ws[m + 1], sub.internalId, sub);
    RunKeepsSub(ws, acts, ora, kmax, sub.internalId, sub, m + 1, |acts|);
    RunKeeps(ws, acts, ora, kmax, |acts|);
    var l := ws[|acts|].closed[sub.internalId];
    assert sub.stages >= 1;
    ExactlyOnce(ws, acts, ora, kmax, sub.internalId);
    hide IsRun, WInv, OverallReports, ReferenceReport, LaterPush;
    ClosedReport(ws[|acts|], ora, sub.internalId);
  }

  lemma ClosedReport(w: World, ora: Oracle, id: int)
    requires WInv(w, ora) && id in w.closed
    ensures var l := w.closed[id];
            && l.j.sub.stages >= 1
            && (OverallReports(l.h.log) == 1 && !l.j.sub.skipGroup && !l.j.sub.customSummary ==>
                  |l.h.log| > 0 && l.h.log[|l.h.log| - 1] == ReferenceReport(l.j.sub, ora))
  {
    var l := w.closed[id];
    ReportedOnce(l, ora);
    var l0 :| FinishedBy(l0, l, ora);
    FinishedFacts(l0, l, ora);
    if !l.cancelled && !l.j.sub.skipGroup && !l.j.sub.customSummary { ReportIsReference(l, ora); }
  }

  /** A path that goes on from the end of a run makes a longer run: rounds of the work loop add up. */
  lemma RunsOn(ws: seq<World>, acts: seq<Action>, ws': seq<World>, acts': seq<Action>, ora: Oracle, kmax: nat)
    requires IsRun(ws, acts, ora, kmax) && IsPath(ws', acts', ora, kmax) && ws'[0] == ws[|acts|]
    ensures IsRun(ws + ws'[1..], acts + acts', ora, kmax)
  {
    hide CanStep, Step;
    var all, both := ws + ws'[1..], acts + acts';
    forall i | 0 <= i < |both|
      ensures CanStep(all[i], kmax, both[i]) && all[i + 1] == Step(all[i], ora, kmax, both[i])
    {
      if i < |acts| {
        assert all[i] == ws[i] && all[i + 1] == ws[i + 1];
      } else {
        var j := i - |acts|;
        assert all[i] == ws'[j] && all[i + 1] == ws'[j + 1] && both[i] == acts'[j];
      }
    }
  }

  /* ---- what holds at every step of a run ---- */

  lemma TakenIsReady(ws: seq<World>, acts: seq<Action>, ora: Oracle, kmax: nat, m: nat)
    requires IsRun(ws, acts, ora, kmax) && m < |acts| && acts[m].Take?
    ensures var k := acts[m].key;
            k.sid in ws[m].live && Inv(ws[m].live[k.sid], ora) && Startable(ws[m].live[k.sid], k.task)
  {
    RunKeeps(ws, acts, ora, kmax, m);
    assert CanStep(ws[m], kmax, acts[m]);
    assert LiveOk(ws[m], ora, acts[m].key.sid);
  }

  ghost predicate Compiled(l: Live, ora: Oracle, c: CompileSubtask) {
    Compile(c) in l.h.ran && Causes.CompilerSucceeded(ora(l.j.sub.internalId, Compile(c), NO_RESULT))
  }

  /** In every run, a program that is started was compiled successfully, and at a later stage the
      stage before it really ran; a special judge that is started was compiled successfully. */
  lemma NothingRunsWithoutInputs(ws: seq<World>, acts: seq<Action>, ora: Oracle, kmax: nat, m: nat)
    requires IsRun(ws, acts, ora, kmax) && m < |acts| && acts[m].Take?
    requires var k := acts[m].key; SetupStarts(ws[m].live[k.sid], k.task)
    ensures var k := acts[m].key;
            var l := ws[m].live[k.sid];
            && (k.task.Execute? ==> Compiled(l, ora, TaskGraph.ProgramOf(l.j.sub, k.task.stage)))
            && (k.task.Execute? && k.task.stage > 0 ==> Execute(k.task.td, k.task.stage - 1) in l.h.ran)
            && (k.task.Scoring? && !l.j.sub.specjudge.NORMAL? ==> Compiled(l, ora, SPECJUDGE))
  {
    TakenIsReady(ws, acts, ora, kmax, m);
    hide IsRun, Inv, SetupStarts, Startable;
    var k := acts[m].key;
    var l := ws[m].live[k.sid];
    match k.task
    case Execute(i, j) => Outcomes.ProgramHasInputs(l, ora, i, j);
    case Scoring(i, j) => if !l.j.sub.specjudge.NORMAL? { Outcomes.JudgeHasInputs(l, ora, i, j); }
    case _ =>
  }

  /** In every run, wherever Setup goes on to read the result of a testdata, it is there. */
  lemma ReadsAreInBounds(ws: seq<World>, acts: seq<Action>, ora: Oracle, kmax: nat, m: nat)
    requires IsRun(ws, acts, ora, kmax) && m < |acts| && acts[m].Take?
    requires var k := acts[m].key;
             IsTask'(ws[m].live[k.sid], k.task) && !Dropped(ws[m].live[k.sid], k.task)
             && (k.task.Scoring? || (k.task.Execute? && k.task.stage > 0))
    ensures acts[m].key.task.td < |ws[m].live[acts[m].key.sid].j.tds|
  {
    TakenIsReady(ws, acts, ora, kmax, m);
    Outcomes.ResultIsThere(ws[m].live[acts[m].key.sid], ora, acts[m].key.task);
  }

  /** In every run, each testdata of a finished submission that compiled, was not superseded, skips no
      groups and wants no intermediate reports was reported exactly once, with the verdict it has. */
  lemma EachTestdataReportedOnce(ws: seq<World>, acts: seq<Action>, ora: Oracle, kmax: nat, id: int, i: nat)
    requires IsRun(ws, acts, ora, kmax) && id in ws[|acts|].closed
    requires var l := ws[|acts|].closed[id];
             !l.cancelled && !l.j.sub.skipGroup && !l.j.sub.reportIntermediateStage
             && i < |l.j.sub.testdata| && CompileVerdict(l.j.sub, ora, l.h.ran).NUL?
    ensures var l := ws[|acts|].closed[id];
            i < |l.j.tds| && !l.j.tds[i].verdict.NUL? && IsSingleReport(TdReports(l.h.log, i), i, l.j.tds[i])
  {
    RunKeeps(ws, acts, ora, kmax, |acts|);
    TestdataReportedOnce(ws[|acts|].closed[id], ora, i);
  }

  /** Judged by the default judge in a run, finished, compiled and not superseded, without skipping. */
  ghost predicate JudgedPlainly(ws: seq<World>, acts: seq<Action>, ora: Oracle, kmax: nat, id: int, i: nat) {
    && IsRun(ws, acts, ora, kmax) && id in ws[|acts|].closed
    && var l := ws[|acts|].closed[id];
       && !l.cancelled && !l.j.sub.skipGroup && l.j.sub.specjudge.NORMAL? && i < |l.j.sub.testdata|
       && CompileVerdict(l.j.sub, ora, l.h.ran).NUL?
  }

  /** In every run the time of a testdata is what the program used in all stages that ran, and if it is
      accepted, that time is within the limit and so is the memory of each stage. */
  lemma TimesAndLimits(ws: seq<World>, acts: seq<Action>, ora: Oracle, kmax: nat, id: int, i: nat)
    requires JudgedPlainly(ws, acts, ora, kmax, id, i)
    ensures var l := ws[|acts|].closed[id];
            && l.j.sub.stages >= 1 && i < |l.j.tds|
            && l.j.tds[i].time == UsedTime(l.j.sub, ora, i, ChainLen(l.j.sub))
            && (l.j.tds[i].verdict == AC && !l.j.sub.judgeAbnormallyTerminated ==>
                  l.j.tds[i].time <= l.j.sub.testdata[i].time && WithinMemory(l.j.sub, ora, i, ChainLen(l.j.sub)))
  {
    RunKeeps(ws, acts, ora, kmax, |acts|);
    var l := ws[|acts|].closed[id];
    EndsAlone(l, ora);
    TimeIsSum(l.j.sub, ora, i, ChainLen(l.j.sub));
    if l.j.tds[i].verdict == AC && !l.j.sub.judgeAbnormallyTerminated { AcceptedWithinLimits(l.j.sub, ora, i); }
  }

  /* ---- results along a run ---- */

  /** The record of a submission, finished or not. */
  ghost function RecordOf(w: World, id: int): Live
    requires KnownAt(w, id)
  {
    if id in w.live then w.live[id] else w.closed[id]
  }

  /** At any moment a result is that of the first tasks of its testdata, judged alone. */
  ghost predicate IsPartOfChain(l: Live, ora: Oracle, i: nat) {
    && l.j.sub.stages >= 1 && i < |l.j.sub.testdata| && i < |l.h.eff| && l.h.eff[i] <= ChainLen(l.j.sub)
    && Td(l.j.tds, i) == Chain(l.j.sub, ora, i, l.h.eff[i]) && (l.h.eff[i] > 0 ==> i < |l.j.tds|)
  }

  lemma ResultSoFar(w: World, ora: Oracle, id: int, i: nat)
    requires WInv(w, ora) && KnownAt(w, id) && i < |RecordOf(w, id).j.sub.testdata|
    ensures IsPartOfChain(RecordOf(w, id), ora, i)
  {
    if id in w.live {
      assert LiveOk(w, ora, id);
      var l := w.live[id];
      assert ResultOk(l.j.sub, ora, l.j.tds, l.running, i, l.h.pos[i], l.h.eff[i], Frozen(l, ora, i));
    } else {
      var l := w.closed[id];
      var l0 :| FinishedBy(l0, l, ora);
      FinishedFacts(l0, l, ora);
      assert ResultOk(l0.j.sub, ora, l0.j.tds, l0.running, i, l0.h.pos[i], l0.h.eff[i], Frozen(l0, ora, i));
    }
  }

  /** The same submission, further on. */
  ghost predicate FurtherOn(l: Live, l': Live, i: nat) {
    l'.j.sub == l.j.sub && i < |l.h.eff| && i < |l'.h.eff| && l.h.eff[i] <= l'.h.eff[i]
  }

  lemma MoveGoesOn(l: Live, ora: Oracle, t: Task, i: nat)
    requires Sized(l) && t in l.left && i < |l.h.eff|
    ensures FurtherOn(l, Dispatch(l, t), i) && FurtherOn(l, Complete(l, ora, t), i)
  {
  }

  lemma StoreGoesOn(w: World, sid: int, l: Live, id: int, i: nat)
    requires sid in w.live && w.live.Keys !! w.closed.Keys && KnownAt(w, id) && i < |RecordOf(w, id).h.eff|
    requires id == sid ==> FurtherOn(w.live[sid], l, i)
    ensures KnownAt(Store(w, sid, l), id) && FurtherOn(RecordOf(w, id), RecordOf(Store(w, sid, l), id), i)
  {
  }

  lemma StepGoesOn(w: World, ora: Oracle, kmax: nat, a: Action, id: int, i: nat)
    requires WInv(w, ora) && CanStep(w, kmax, a) && KnownAt(w, id) && i < |RecordOf(w, id).h.eff|
    ensures KnownAt(Step(w, ora, kmax, a), id) && FurtherOn(RecordOf(w, id), RecordOf(Step(w, ora, kmax, a), id), i)
  {
    match a
    case Arrive(_, _) =>
    case Take(k) =>
      if k.sid == id { MoveGoesOn(w.live[id], ora, k.task, i); }
      StoreGoesOn(w, k.sid, Dispatch(w.live[k.sid], k.task), id, i);
    case Return(k) =>
      if k.sid == id { MoveGoesOn(w.live[id], ora, k.task, i); }
      StoreGoesOn(w, k.sid, Complete(w.live[k.sid], ora, k.task), id, i);
  }

  lemma {:induction false} RunGoesOn(ws: seq<World>, acts: seq<Action>, ora: Oracle, kmax: nat, id: int, i: nat,
                                     m: nat, n: nat)
    requires IsRun(ws, acts, ora, kmax) && m <= n < |ws| && KnownAt(ws[m], id) && i < |RecordOf(ws[m], id).h.eff|
    ensures KnownAt(ws[n], id) && FurtherOn(RecordOf(ws[m], id), RecordOf(ws[n], id), i)
    decreases n
  {
    hide CanStep, Step, WInv, KnownAt, RecordOf;
    if m < n {
      RunGoesOn(ws, acts, ora, kmax, id, i, m, n - 1);
      RunKeeps(ws, acts, ora, kmax, n - 1);
      StepGoesOn(ws[n - 1], ora, kmax, acts[n - 1], id, i);
    }
  }

  /** In every run, once a testdata has skip_stage set it has a verdict, and its result never changes
      again, to the end of the run and in the finished submission. */
  lemma SkippedStagesAreFinal(ws: seq<World>, acts: seq<Action>, ora: Oracle, kmax: nat, id: int, i: nat, m: nat,
                              n: nat)
    requires IsRun(ws, acts, ora, kmax) && m <= n < |ws| && KnownAt(ws[m], id)
    requires var l := RecordOf(ws[m], id);
             i < |l.j.tds| && i < |l.j.sub.testdata| && l.j.tds[i].skipStage
    ensures KnownAt(ws[n], id)
    ensures var l, l' := RecordOf(ws[m], id), RecordOf(ws[n], id);
            !l.j.tds[i].verdict.NUL? && i < |l'.j.tds| && l'.j.tds[i] == l.j.tds[i]
  {
    hide IsRun, WInv, KnownAt, RecordOf;
    RunKeeps(ws, acts, ora, kmax, m);
    RunKeeps(ws, acts, ora, kmax, n);
    ResultSoFar(ws[m], ora, id, i);
    RunGoesOn(ws, acts, ora, kmax, id, i, m, n);
    ResultSoFar(ws[n], ora, id, i);
    var l, l' := RecordOf(ws[m], id), RecordOf(ws[n], id);
    SkipStageIsFinal(l.j.sub, ora, i, l.h.eff[i], l'.h.eff[i]);
  }
}
