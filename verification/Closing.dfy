/** Facts about a submission whose summary has been finalized. */
module Closing {
  import opened Types
  import TestdataRun
  import TaskGraph
  import Totals
  import opened Lifecycle
  import opened LifecycleInv
  import opened Outcomes
  import opened GroupSkip

  /** The last move of a submission: its summary is skipped, or its summary program returns. */
  ghost predicate FinishedBy(l0: Live, l: Live, ora: Oracle) {
    && Inv(l0, ora) && Sized(l0) && TaskGraph.Unblocked(l0.j.sub, l0.left, Summary)
    && if Summary in l0.running then l == Complete(l0, ora, Summary)
       else !SetupStarts(l0, Summary) && l == Dispatch(l0, Summary)
  }

  ghost predicate Closed(l: Live, ora: Oracle) { exists l0 :: FinishedBy(l0, l, ora) }

  lemma FinishedFacts(l0: Live, l: Live, ora: Oracle)
    requires FinishedBy(l0, l, ora)
    ensures l.left == {} && l.running == {} && l.cancelled == l0.cancelled && l.j.sub == l0.j.sub
    ensures l.j.tds == l0.j.tds && l.cgroups == l0.cgroups && l.h.eff == l0.h.eff && l0.left == {Summary}
    ensures !l.j.verdict.NUL?
    ensures l.h.log == if l.cancelled then l0.h.log
                       else l0.h.log +
                            [OverallReport(l.j.verdict, l.j.totals.score, l.j.totals.time, l.j.totals.memory)]
    ensures CompileVerdict(l.j.sub, ora, l.h.ran) == CompileVerdict(l.j.sub, ora, l0.h.ran)
  {
    SummaryFacts(l0, ora);
    Totals.WorstVerdictIsMax(l0.j.sub, l0.j.tds, |l0.j.tds|);
  }

  function OverallReports(log: seq<Report>): nat {
    if log == [] then 0
    else OverallReports(log[..|log| - 1]) + if log[|log| - 1].OverallReport? then 1 else 0
  }

  lemma {:induction false} NoOverallYet(log: seq<Report>)
    requires forall k :: 0 <= k < |log| ==> log[k].TdReport?
    ensures OverallReports(log) == 0
  {
    if log != [] { NoOverallYet(log[..|log| - 1]); }
  }

  /** Exactly one overall result, and a real verdict, unless the submission was cancelled;
      then none. */
  lemma ReportedOnce(l: Live, ora: Oracle)
    requires Closed(l, ora)
    ensures OverallReports(l.h.log) == if l.cancelled then 0 else 1
    ensures !l.cancelled ==>
            |l.h.log| > 0 && var last := l.h.log[|l.h.log| - 1]; last.OverallReport? && !last.verdict.NUL?
  {
    var l0 :| FinishedBy(l0, l, ora);
    FinishedFacts(l0, l, ora);
    NoOverallYet(l0.h.log);
    if !l.cancelled {
      assert l.h.log[..|l.h.log| - 1] == l0.h.log;
    }
  }

  function ReferenceReport(sub: Submission, ora: Oracle): Report
    requires sub.stages >= 1
  {
    var t := ReferenceTotals(sub, ora);
    OverallReport(ReferenceVerdict(sub, ora), t.score, t.time, t.memory)
  }

  /** Without group skipping and summary program, the report is the reference report. */
  lemma ReportIsReference(l: Live, ora: Oracle)
    requires Closed(l, ora) && !l.cancelled && !l.j.sub.skipGroup && !l.j.sub.customSummary
    ensures l.j.sub.stages >= 1 && |l.h.log| > 0
    ensures l.h.log[|l.h.log| - 1] == ReferenceReport(l.j.sub, ora)
  {
    var l0 :| FinishedBy(l0, l, ora);
    FinishedFacts(l0, l, ora);
    SummaryIsReference(l0, ora);
  }

  /** With group skipping: same acceptance as the reference without skipping if ignored testdata alone
      cannot have a counted one given up; same score if no group loses a counted testdata without a failure
      of its own (with 0/100 scoring), or none at all (with any scoring). */
  lemma ReportWithSkipping(l: Live, ora: Oracle)
    requires Closed(l, ora) && !l.cancelled && !l.j.sub.customSummary
    ensures l.j.sub.stages >= 1 && |l.h.log| > 0
    ensures var last, reference := l.h.log[|l.h.log| - 1], ReferenceReport(WithoutSkipping(l.j.sub), ora);
            && last.OverallReport?
            && (AcceptanceKept(l.j.sub) ==> (last.verdict == AC <==> reference.verdict == AC))
            && (GroupsKept(l.j.sub, ora) ==> last.score == reference.score)
  {
    var l0 :| FinishedBy(l0, l, ora);
    FinishedFacts(l0, l, ora);
    var v, score, time, memory := SkippingPreservesResult(l0, ora);
  }

  /** Whatever the scores, a group that was never given up has its reference score. */
  lemma GroupKeepsScore(l: Live, ora: Oracle, g: nat)
    requires Closed(l, ora) && !l.cancelled && CompileVerdict(l.j.sub, ora, l.h.ran).NUL? && g !in l.cgroups
    ensures l.j.sub.stages >= 1 && |l.j.tds| <= |l.j.sub.testdata|
    ensures Totals.EffectiveScore(l.j.sub, l.j.tds, g) == Totals.EffectiveScore(l.j.sub, Alone(l.j.sub, ora), g)
  {
    var l0 :| FinishedBy(l0, l, ora);
    FinishedFacts(l0, l, ora);
    KeptGroupKeepsScore(l0, ora, g);
  }

  /** So has one whose members can only be given up after a failure of their own. */
  lemma KeptGroupIsRight(l: Live, ora: Oracle, g: nat)
    requires Closed(l, ora) && !l.cancelled && CompileVerdict(l.j.sub, ora, l.h.ran).NUL? && GroupKept(l.j.sub, ora, g)
    ensures l.j.sub.stages >= 1 && |l.j.tds| <= |l.j.sub.testdata|
    ensures Totals.EffectiveScore(l.j.sub, l.j.tds, g) == Totals.EffectiveScore(l.j.sub, Alone(l.j.sub, ora), g)
  {
    var l0 :| FinishedBy(l0, l, ora);
    FinishedFacts(l0, l, ora);
    GroupIsRight(l0, ora, g);
  }

  /** Without skipping a submission that compiled ends with each testdata as if judged alone. */
  lemma EndsAlone(l: Live, ora: Oracle)
    requires Closed(l, ora) && !l.cancelled && !l.j.sub.skipGroup && CompileVerdict(l.j.sub, ora, l.h.ran).NUL?
    ensures l.j.sub.stages >= 1 && l.j.tds == Alone(l.j.sub, ora)
  {
    var l0 :| FinishedBy(l0, l, ora);
    FinishedFacts(l0, l, ora);
    ResultsAtEnd(l0, ora);
  }

  lemma {:induction false} TdReportsOfAppend(log: seq<Report>, r: Report, i: nat)
    requires r.OverallReport?
    ensures TdReports(log + [r], i) == TdReports(log, i)
  {
    assert (log + [r])[..|log|] == log;
    assert TdReports(log, i) + [] == TdReports(log, i);
  }

  /** One final report per testdata: compiled, not cancelled, nothing skipped, no intermediate
      reports. The report carries the result the testdata ends with, and a verdict. */
  lemma TestdataReportedOnce(l: Live, ora: Oracle, i: nat)
    requires Closed(l, ora) && !l.cancelled && !l.j.sub.skipGroup && !l.j.sub.reportIntermediateStage
    requires i < |l.j.sub.testdata| && CompileVerdict(l.j.sub, ora, l.h.ran).NUL?
    ensures i < |l.j.tds| && !l.j.tds[i].verdict.NUL?
    ensures TestdataRun.IsSingleReport(TdReports(l.h.log, i), i, l.j.tds[i])
  {
    var l0 :| FinishedBy(l0, l, ora);
    FinishedFacts(l0, l, ora);
    ResultsAtEnd(l0, ora);
    TestdataRun.FinalHasVerdict(l.j.sub, ora, i);
    TestdataRun.OneReport(l.j.sub, ora, i, TestdataRun.ChainLen(l.j.sub));
    TdReportsOfAppend(l0.h.log, l.h.log[|l.h.log| - 1], i);
    assert TdReports(l0.h.log, i) == TestdataRun.ReportsOf(l.j.sub, ora, i, l0.h.eff[i]);
  }
}
