/** What a submission ends with, whatever the schedule was. */
module Outcomes {
  import opened Types
  import opened TestdataRun
  import opened TaskGraph
  import opened Totals
  import opened Lifecycle
  import opened LifecycleInv
  import Causes

  /* ---- inputs are there when a task starts ---- */

  /** Whenever a program is started, its compilation was run and succeeded, and for a later
      stage the stage before it really ran. */
  lemma ProgramHasInputs(l: Live, ora: Oracle, i: nat, j: nat)
    requires Inv(l, ora) && Startable(l, Execute(i, j)) && SetupStarts(l, Execute(i, j))
    ensures var c := ProgramOf(l.j.sub, j);
            Compile(c) in l.h.ran && Causes.CompilerSucceeded(ora(l.j.sub.internalId, Compile(c), NO_RESULT))
    ensures j > 0 ==> Execute(i, j - 1) in l.h.ran
  {
    var t := Execute(i, j);
    HeadFacts(l, ora, t);
    NotDroppedNotFrozen(l, ora, t);
    EarlierStagesGone(l.j.sub, l.left, i, j, l.h.pos[i]);
    ProgramIsCompiled(l.j.sub, l.left, i, j);
    CompileSucceeded(l, ora, ProgramOf(l.j.sub, j));
    if j > 0 {
      PreviousStageRan(l.j.sub, ora, l.h.ran, i, j, l.h.pos[i]);
    }
  }

  lemma EarlierStagesGone(sub: Submission, left: set<Task>, i: nat, j: nat, k: nat)
    requires sub.stages >= 1 && i < |sub.testdata| && k < ChainLen(sub) && ChainLeft(sub, left, i, k)
    requires ChainTask(sub, i, k) == Execute(i, j) && j < sub.stages
    ensures forall m: nat :: m < j ==> Execute(i, m) !in left
  {
    TaskAtPos(sub, i, k);
    forall m: nat | m < j ensures Execute(i, m) !in left {
      PosOfTask(sub, Execute(i, m));
    }
  }

  lemma PreviousStageRan(sub: Submission, ora: Oracle, ran: set<Task>, i: nat, j: nat, k: nat)
    requires sub.stages >= 1 && i < |sub.testdata| && k < ChainLen(sub) && 0 < j < sub.stages
    requires ChainTask(sub, i, k) == Execute(i, j) && StartsAt(sub, ora, i, k)
    requires RanOk(sub, ora, ran, i, k)
    ensures Execute(i, j - 1) in ran
  {
    TaskAtPos(sub, i, k);
    StageNeedsPrevious(sub, ora, i, k);
    var p := if sub.judgeBetweenStages then k - 2 else k - 1;
    assert ChainTask(sub, i, p) == Execute(i, j - 1);
  }

  lemma CompileSucceeded(l: Live, ora: Oracle, c: CompileSubtask)
    requires Inv(l, ora) && IsTask(l.j.sub, Compile(c)) && Compile(c) !in l.left && !l.cancelled
    requires CompileVerdict(l.j.sub, ora, l.h.ran) == NUL
    ensures Compile(c) in l.h.ran
    ensures Causes.CompilerSucceeded(ora(l.j.sub.internalId, Compile(c), NO_RESULT))
  {
    CodeOfCompileVerdict(l.j.sub, ora, l.h.ran);
    CodeInjective(CompileVerdictOne(l.j.sub, ora, l.h.ran, c), NUL);
    Causes.CompileOutcomeIs(c, ora(l.j.sub.internalId, Compile(c), NO_RESULT), NUL);
  }

  /** A special judge is started only after it was compiled successfully. */
  lemma JudgeHasInputs(l: Live, ora: Oracle, i: nat, j: nat)
    requires Inv(l, ora) && Startable(l, Scoring(i, j)) && SetupStarts(l, Scoring(i, j))
    requires !l.j.sub.specjudge.NORMAL?
    ensures Compile(SPECJUDGE) in l.h.ran
    ensures Causes.CompilerSucceeded(ora(l.j.sub.internalId, Compile(SPECJUDGE), NO_RESULT))
  {
    var sub, t := l.j.sub, Scoring(i, j);
    HeadFacts(l, ora, t);
    NotDroppedNotFrozen(l, ora, t);
    if sub.judgeBetweenStages && j > 0 {
      PosOfTask(sub, t);
      PosOfTask(sub, Scoring(i, 0));
      TaskAtPos(sub, i, l.h.pos[i]);
      assert ChainLeft(sub, l.left, i, l.h.pos[i]);
    }
    JudgeIsCompiled(sub, l.left, i, j);
    CompileSucceeded(l, ora, SPECJUDGE);
  }

  /** The reads of td_results[subtask] in SetupExecute (later stages) and SetupScoring are in bounds. */
  lemma ResultIsThere(l: Live, ora: Oracle, t: Task)
    requires Inv(l, ora) && Startable(l, t) && (t.Execute? || t.Scoring?) && IsTask(l.j.sub, t)
    requires !Dropped(l, t) && (t.Execute? ==> t.stage > 0)
    ensures t.td < |l.j.tds|
  {
    HeadFacts(l, ora, t);
    NotDroppedNotFrozen(l, ora, t);
    FirstTask(l.j.sub, t.td, l.h.pos[t.td]);
  }

  /* ---- the end of a submission ---- */

  /** When the summary may start, every other task is gone. */
  lemma SummaryFacts(l: Live, ora: Oracle)
    requires Inv(l, ora) && Unblocked(l.j.sub, l.left, Summary)
    ensures l.left == {Summary} && l.running <= {Summary}
    ensures forall i :: 0 <= i < |l.h.pos| ==> l.h.pos[i] == ChainLen(l.j.sub)
    ensures !l.cancelled ==> forall c :: IsTask(l.j.sub, Compile(c)) <==> Compile(c) in l.h.ran
  {
    var sub := l.j.sub;
    forall t | t in l.left ensures t == Summary { SummaryIsLast(sub, l.left, t); }
    forall i | 0 <= i < |l.h.pos| ensures l.h.pos[i] == ChainLen(sub) {
      assert ChainLeft(sub, l.left, i, l.h.pos[i]);
      assert l.h.pos[i] < ChainLen(sub) ==> ChainTask(sub, i, l.h.pos[i]) in l.left;
    }
  }

  function AllCompiles(sub: Submission): set<Task>
    requires sub.stages >= 1
  {
    set c | c in {USERPROG, SPECJUDGE, SUMMARY, PROBPROG} && IsTask(sub, Compile(c)) :: Compile(c)
  }

  /** Every testdata judged alone to the end. */
  function Alone(sub: Submission, ora: Oracle): seq<TdResult>
    requires sub.stages >= 1
  {
    seq(|sub.testdata|, i requires 0 <= i < |sub.testdata| => Chain(sub, ora, i, ChainLen(sub)))
  }

  /** The reference: compile everything, judge each testdata alone, add up. No scheduler. */
  function ReferenceVerdict(sub: Submission, ora: Oracle): Verdict
    requires sub.stages >= 1
  {
    var v := CompileVerdict(sub, ora, AllCompiles(sub));
    if !v.NUL? then v else WorstVerdict(sub, Alone(sub, ora), |sub.testdata|)
  }

  function ReferenceTotals(sub: Submission, ora: Oracle): Totals
    requires sub.stages >= 1
  {
    if CompileVerdict(sub, ora, AllCompiles(sub)).NUL? then
      Totals(TotalScore(sub, Alone(sub, ora)), TotalTime(sub, Alone(sub, ora), |sub.testdata|),
             TotalMemory(sub, Alone(sub, ora), |sub.testdata|))
    else NO_TOTALS
  }

  lemma CompileVerdictAtEnd(l: Live, ora: Oracle)
    requires Inv(l, ora) && Unblocked(l.j.sub, l.left, Summary) && !l.cancelled
    ensures CompileVerdict(l.j.sub, ora, l.h.ran) == CompileVerdict(l.j.sub, ora, AllCompiles(l.j.sub))
  {
    SummaryFacts(l, ora);
    assert forall c :: Compile(c) in l.h.ran <==> Compile(c) in AllCompiles(l.j.sub);
  }

  /** A submission that compiled and skips nothing ends with each testdata as if judged alone. */
  lemma ResultsAtEnd(l: Live, ora: Oracle)
    requires Inv(l, ora) && Unblocked(l.j.sub, l.left, Summary) && !l.cancelled && !l.j.sub.skipGroup
    requires CompileVerdict(l.j.sub, ora, l.h.ran) == NUL
    ensures l.j.tds == Alone(l.j.sub, ora)
    ensures forall i :: 0 <= i < |l.h.eff| ==> l.h.eff[i] == ChainLen(l.j.sub)
  {
    SummaryFacts(l, ora);
    var sub := l.j.sub;
    assert forall g :: g !in l.cgroups;
    assert l.cgroups == {};
    forall i | 0 <= i < |sub.testdata|
      ensures l.h.eff[i] == ChainLen(sub) && i < |l.j.tds| && l.j.tds[i] == Chain(sub, ora, i, ChainLen(sub))
    {
      assert ResultOk(sub, ora, l.j.tds, l.running, i, l.h.pos[i], l.h.eff[i], Frozen(l, ora, i));
      NotCancelledByNothing(sub.testdata[i].groups);
    }
    if |sub.testdata| > 0 { assert l.h.eff[|sub.testdata| - 1] == ChainLen(sub); }
  }

  lemma NotCancelledByNothing(groups: seq<nat>)
    ensures !IsCancelled(false, {}, groups)
  {
    if groups != [] { assert groups[0] in groups; }
  }

  lemma RuntimeWorst(sub: Submission, tds: seq<TdResult>, k: nat)
    requires k <= |tds| <= |sub.testdata|
    requires forall i :: 0 <= i < |tds| ==> Code(tds[i].verdict) < Code(CE)
    ensures Code(WorstVerdict(sub, tds, k)) < Code(CE)
  {
    WorstVerdictIsMax(sub, tds, k);
  }

  /** All results are verdicts of a run. */
  lemma RuntimeResults(l: Live, ora: Oracle)
    requires Inv(l, ora)
    ensures forall i :: 0 <= i < |l.j.tds| ==> Code(l.j.tds[i].verdict) < Code(CE)
    ensures ScoresBounded(l.j.tds)
  {
    forall i | 0 <= i < |l.j.tds|
      ensures Code(l.j.tds[i].verdict) < Code(CE) && -MAX_SCORE <= l.j.tds[i].score <= MAX_SCORE
    {
      assert ResultOk(l.j.sub, ora, l.j.tds, l.running, i, l.h.pos[i], l.h.eff[i], Frozen(l, ora, i));
      RuntimeOnly(l.j.sub, ora, i, l.h.eff[i]);
    }
  }

  /** Schedule independence: without group skipping, resubmission or a summary program, the
      summary reports the reference verdict, score, time and memory. */
  lemma SummaryIsReference(l: Live, ora: Oracle)
    requires Inv(l, ora) && Startable(l, Summary) && !l.cancelled
    requires !l.j.sub.skipGroup && !l.j.sub.customSummary
    ensures Sized(l) && !SetupStarts(l, Summary)
    ensures var t := ReferenceTotals(l.j.sub, ora);
            Dispatch(l, Summary).h.log ==
            l.h.log + [OverallReport(ReferenceVerdict(l.j.sub, ora), t.score, t.time, t.memory)]
  {
    SummaryFacts(l, ora);
    CompileVerdictAtEnd(l, ora);
    var v := CompileVerdict(l.j.sub, ora, l.h.ran);
    if v.NUL? {
      ResultsAtEnd(l, ora);
      RuntimeResults(l, ora);
      RuntimeWorst(l.j.sub, l.j.tds, |l.j.tds|);
    } else {
      CompileVerdictIsSevere(l.j.sub, ora, l.h.ran);
    }
  }

  lemma CompileVerdictIsSevere(sub: Submission, ora: Oracle, ran: set<Task>)
    ensures var v := CompileVerdict(sub, ora, ran); v == NUL || Code(v) >= Code(CE)
  {
  }
}
