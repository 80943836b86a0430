/** The life of one testdata: its execute and scoring tasks in order, judged alone.
    `Chain` is the reference semantics that every schedule is later compared with. */
module TestdataRun {
  import opened Types

  /** FinalizeExecute: the verdict of one run of the program. */
  function ExecVerdict(sub: Submission, lim: Testdata, o: Outcome, vss: int, rss: int, time: int): Verdict {
    var overMemory := (lim.vss != 0 && vss > lim.vss) || (lim.rss != 0 && rss > lim.rss);
    if o.timekill == -1 then EE
    else if o.oomkill > 0 then MLE
    else if o.timekill != 0 then TLE
    else if o.siCode.KILLED? || o.siCode.DUMPED? then
      if o.siStatus == SIGXFSZ || (sub.sandboxStrict && o.siStatus == SIGPIPE) then OLE
      else if overMemory then MLE
      else SIG
    else if overMemory then MLE
    else if o.siStatus != 0 then RE
    else if time > lim.time then TLE
    else NUL
  }

  function ExecResult(sub: Submission, i: nat, stage: nat, o: Outcome, r: TdResult): TdResult
    requires i < |sub.testdata|
  {
    var vss := if stage == 0 then o.hiwaterVm else Max(r.vss, o.hiwaterVm);
    var rss := if stage == 0 then o.maxrss else Max(r.rss, o.maxrss);
    var time := if stage == 0 then o.utime + o.stime else r.time + (o.utime + o.stime);
    var score := if stage == 0 then 0 else r.score;
    TdResult(vss, rss, time, score, ExecVerdict(sub, sub.testdata[i], o, vss, rss, time), r.skipStage)
  }

  predicate JudgeFailed(sub: Submission, o: Outcome) {
    || !o.outputRegular
    || o.siCode != EXITED
    || (!sub.specjudge.SPECJUDGE_POLYGON? && !sub.specjudge.SPECJUDGE_KATTIS? && o.siStatus != 0)
    || (sub.specjudge.SPECJUDGE_POLYGON? && o.siStatus == 3)
    || (sub.specjudge.SPECJUDGE_KATTIS? && o.siStatus != 42 && o.siStatus != 43)
  }

  /** ReadSpecjudgeResult: the default judge prints AC or WA; any other judge may rewrite
      the whole result. */
  function JudgeResult(sub: Submission, o: Outcome, r: TdResult): TdResult {
    if JudgeFailed(sub, o) then
      if r.verdict.NUL? then r.(verdict := if sub.specjudgeReAsWa then WA else JRE) else r
    else if sub.specjudge.NORMAL? then
      if o.judge.accepted then r.(verdict := AC, score := FULL_SCORE) else r.(verdict := WA)
    else
      var j := o.judge;
      r.(verdict := j.verdict, score := j.score, time := j.time, vss := j.vss, rss := j.rss)
  }

  predicate LastStage(sub: Submission, stage: nat) { stage == sub.stages - 1 }

  /** FinalizeScoring, as far as the testdata result is concerned. */
  function ScoreResult(sub: Submission, stage: nat, skipped: bool, o: Outcome, r: TdResult): TdResult {
    var r0 := r.(score := 0);
    var r1 := if skipped then r0 else JudgeResult(sub, o, r0);
    if !LastStage(sub, stage) && !r1.verdict.NUL? then r1.(skipStage := true)
    else if LastStage(sub, stage) && r1.verdict.NUL? then r1.(verdict := WA)
    else r1
  }

  /** What the setup of a task decides once the submission-wide checks have passed. */
  datatype Plan = Leave | ScoreNow(skipped: bool) | Start

  function PlanOf(sub: Submission, t: Task, r: TdResult): Plan
    requires t.Execute? || t.Scoring?
  {
    match t
    case Execute(_, stage) =>
      if stage > 0 && (r.skipStage || !r.verdict.NUL?) then Leave else Start
    case Scoring(_, _) =>
      if r.skipStage then Leave
      else if !r.verdict.NUL? && !sub.judgeAbnormallyTerminated then ScoreNow(true)
      else if sub.specjudge.SKIP? then ScoreNow(false)
      else Start
  }

  /** A testdata result after task `t` was set up and, where it was started, finalized. */
  function TdStep(sub: Submission, ora: Oracle, t: Task, r: TdResult): TdResult
    requires t.Execute? || t.Scoring?
    requires t.td < |sub.testdata|
  {
    match PlanOf(sub, t, r)
    case Leave => r
    case ScoreNow(skipped) => ScoreResult(sub, t.stage, skipped, EMPTY_OUTCOME, r)
    case Start =>
      var o := ora(sub.internalId, t, r);
      if t.Execute? then ExecResult(sub, t.td, t.stage, o, r) else ScoreResult(sub, t.stage, false, o, r)
  }

  function ChainLen(sub: Submission): nat
    requires sub.stages >= 1
  {
    if sub.judgeBetweenStages then 2 * sub.stages else sub.stages + 1
  }

  function ChainTask(sub: Submission, i: nat, p: nat): (t: Task)
    requires sub.stages >= 1 && p < ChainLen(sub)
    ensures (t.Execute? || t.Scoring?) && t.td == i
  {
    if sub.judgeBetweenStages then
      if p % 2 == 0 then Execute(i, p / 2) else Scoring(i, p / 2)
    else if p < sub.stages then Execute(i, p)
    else Scoring(i, sub.stages - 1)
  }

  /** The result of testdata `i` after the first `p` tasks of its chain, nothing else running. */
  function Chain(sub: Submission, ora: Oracle, i: nat, p: nat): TdResult
    requires sub.stages >= 1 && i < |sub.testdata| && p <= ChainLen(sub)
  {
    if p == 0 then NO_RESULT
    else TdStep(sub, ora, ChainTask(sub, i, p - 1), Chain(sub, ora, i, p - 1))
  }

  ghost predicate StartsAt(sub: Submission, ora: Oracle, i: nat, p: nat)
    requires sub.stages >= 1 && i < |sub.testdata| && p < ChainLen(sub)
  {
    PlanOf(sub, ChainTask(sub, i, p), Chain(sub, ora, i, p)).Start?
  }

  /** Once skip_stage is set the testdata has a verdict, and nothing changes it again. */
  lemma {:induction false} SkipStageIsFinal(sub: Submission, ora: Oracle, i: nat, p: nat, q: nat)
    requires sub.stages >= 1 && i < |sub.testdata| && p <= q <= ChainLen(sub)
    requires Chain(sub, ora, i, p).skipStage
    ensures !Chain(sub, ora, i, p).verdict.NUL?
    ensures Chain(sub, ora, i, q) == Chain(sub, ora, i, p)
    decreases q
  {
    SkipStageHasVerdict(sub, ora, i, p);
    if p < q {
      SkipStageIsFinal(sub, ora, i, p, q - 1);
    }
  }

  lemma {:induction false} SkipStageHasVerdict(sub: Submission, ora: Oracle, i: nat, p: nat)
    requires sub.stages >= 1 && i < |sub.testdata| && p <= ChainLen(sub)
    ensures Chain(sub, ora, i, p).skipStage ==> !Chain(sub, ora, i, p).verdict.NUL?
  {
    if p > 0 {
      SkipStageHasVerdict(sub, ora, i, p - 1);
    }
  }

  /** A verdict met by the setup of an execute task is either already final (judging between
      stages) or still waiting for the only scoring task. */
  lemma VerdictBeforeExecute(sub: Submission, ora: Oracle, i: nat, p: nat)
    requires sub.stages >= 1 && i < |sub.testdata| && 0 < p < ChainLen(sub)
    requires sub.judgeBetweenStages && p % 2 == 0
    ensures !Chain(sub, ora, i, p).verdict.NUL? ==> Chain(sub, ora, i, p).skipStage
  {
    assert ChainTask(sub, i, p - 1) == Scoring(i, (p - 1) / 2);
    assert (p - 1) / 2 < sub.stages - 1;
  }

  /** The inputs of stage j: if the program is started at stage j > 0, stage j - 1 was started too. */
  lemma StageNeedsPrevious(sub: Submission, ora: Oracle, i: nat, p: nat)
    requires sub.stages >= 1 && i < |sub.testdata|
    requires sub.judgeBetweenStages ==> p % 2 == 0 && 2 <= p < ChainLen(sub)
    requires !sub.judgeBetweenStages ==> 1 <= p < sub.stages
    requires StartsAt(sub, ora, i, p)
    ensures StartsAt(sub, ora, i, if sub.judgeBetweenStages then p - 2 else p - 1)
  {
    if sub.judgeBetweenStages {
      if p > 2 {
        VerdictBeforeExecute(sub, ora, i, p - 2);
        if Chain(sub, ora, i, p - 2).skipStage { SkipStageIsFinal(sub, ora, i, p - 2, p); }
      }
    }
  }

  /** Every testdata whose chain ran to the end has a verdict. */
  lemma FinalHasVerdict(sub: Submission, ora: Oracle, i: nat)
    requires sub.stages >= 1 && i < |sub.testdata|
    ensures !Chain(sub, ora, i, ChainLen(sub)).verdict.NUL?
  {
    var n := ChainLen(sub);
    SkipStageHasVerdict(sub, ora, i, n - 1);
    assert ChainTask(sub, i, n - 1) == Scoring(i, sub.stages - 1);
  }

  /** Never a compilation verdict. */
  lemma {:induction false} RuntimeOnly(sub: Submission, ora: Oracle, i: nat, p: nat)
    requires sub.stages >= 1 && i < |sub.testdata| && p <= ChainLen(sub)
    ensures IsRuntime(Chain(sub, ora, i, p))
  {
    if p > 0 {
      RuntimeOnly(sub, ora, i, p - 1);
      RuntimeStep(sub, ora, ChainTask(sub, i, p - 1), Chain(sub, ora, i, p - 1));
    }
  }

  ghost predicate IsRuntime(r: TdResult) {
    Code(r.verdict) < Code(CE) && -MAX_SCORE <= r.score <= MAX_SCORE
  }

  lemma RuntimeStep(sub: Submission, ora: Oracle, t: Task, r: TdResult)
    requires (t.Execute? || t.Scoring?) && t.td < |sub.testdata| && IsRuntime(r)
    ensures IsRuntime(TdStep(sub, ora, t, r))
  {
  }

  /* ---- reports ---- */

  /** The scoring reports of the first `p` tasks of the chain. */
  function ReportsOf(sub: Submission, ora: Oracle, i: nat, p: nat): seq<Report>
    requires sub.stages >= 1 && i < |sub.testdata| && p <= ChainLen(sub)
  {
    if p == 0 then [] else
    ReportsOf(sub, ora, i, p - 1) +
    ReportStep(sub, ChainTask(sub, i, p - 1), Chain(sub, ora, i, p - 1), Chain(sub, ora, i, p))
  }

  /** FinalizeScoring reports the last stage, a testdata that stops early and, if asked, every stage. */
  function ReportStep(sub: Submission, t: Task, before: TdResult, after: TdResult): seq<Report>
    requires t.Execute? || t.Scoring?
  {
    if t.Scoring? && !PlanOf(sub, t, before).Leave? then ScoringReport(sub, t, after) else []
  }

  function ScoringReport(sub: Submission, t: Task, after: TdResult): seq<Report>
    requires t.Scoring?
  {
    if sub.reportIntermediateStage || LastStage(sub, t.stage) || after.skipStage
    then [TdReport(t.td, t.stage, after)] else []
  }

  ghost predicate Settled(sub: Submission, ora: Oracle, i: nat, p: nat)
    requires sub.stages >= 1 && i < |sub.testdata| && p <= ChainLen(sub)
  {
    p == ChainLen(sub) || Chain(sub, ora, i, p).skipStage
  }

  /** Without intermediate reports a testdata is reported exactly once: when it is settled,
      with the result it ends with. */
  lemma {:induction false} OneReport(sub: Submission, ora: Oracle, i: nat, p: nat)
    requires sub.stages >= 1 && i < |sub.testdata| && p <= ChainLen(sub)
    requires !sub.reportIntermediateStage
    ensures !Settled(sub, ora, i, p) ==> ReportsOf(sub, ora, i, p) == []
    ensures Settled(sub, ora, i, p) ==> IsSingleReport(ReportsOf(sub, ora, i, p), i, Chain(sub, ora, i, ChainLen(sub)))
  {
    hide TdStep, PlanOf, ScoringReport, ChainTask;
    if p > 0 {
      OneReport(sub, ora, i, p - 1);
      var t := ChainTask(sub, i, p - 1);
      var before, after := Chain(sub, ora, i, p - 1), Chain(sub, ora, i, p);
      assert after == TdStep(sub, ora, t, before);
      LastTask(sub, i, p - 1);
      ReportOnStep(sub, ora, t, before);
      var earlier, now := ReportsOf(sub, ora, i, p - 1), ReportStep(sub, t, before, after);
      assert ReportsOf(sub, ora, i, p) == earlier + now;
      if before.skipStage {
        SkipStageIsFinal(sub, ora, i, p - 1, p);
        assert now == [] && earlier + now == earlier;
      } else if Settled(sub, ora, i, p) {
        if after.skipStage { SkipStageIsFinal(sub, ora, i, p, ChainLen(sub)); }
        assert earlier == [] && earlier + now == [TdReport(i, t.stage, after)];
      } else {
        assert earlier == [] && now == [];
      }
    }
  }

  ghost predicate IsSingleReport(reports: seq<Report>, i: nat, r: TdResult) {
    |reports| == 1 && reports[0].TdReport? && reports[0].td == i && reports[0].result == r
  }

  lemma ReportOnStep(sub: Submission, ora: Oracle, t: Task, before: TdResult)
    requires (t.Execute? || t.Scoring?) && t.td < |sub.testdata|
    requires !sub.reportIntermediateStage
    ensures var after := TdStep(sub, ora, t, before);
            ReportStep(sub, t, before, after) ==
            if !before.skipStage && ((t.Scoring? && LastStage(sub, t.stage)) || after.skipStage)
            then [TdReport(t.td, t.stage, after)] else []
  {
  }

  /* ---- limits ---- */

  /** Time used by the program in the first `p` tasks: the sum over the stages that were started. */
  function UsedTime(sub: Submission, ora: Oracle, i: nat, p: nat): int
    requires sub.stages >= 1 && i < |sub.testdata| && p <= ChainLen(sub)
  {
    if p == 0 then 0 else
    var t := ChainTask(sub, i, p - 1);
    var r := Chain(sub, ora, i, p - 1);
    UsedTime(sub, ora, i, p - 1) +
    (if t.Execute? && PlanOf(sub, t, r).Start? then
       var o := ora(sub.internalId, t, r); o.utime + o.stime else 0)
  }

  /** Every stage that was started stayed within the memory limits. */
  ghost predicate WithinMemory(sub: Submission, ora: Oracle, i: nat, p: nat)
    requires sub.stages >= 1 && i < |sub.testdata| && p <= ChainLen(sub)
  {
    forall q :: 0 <= q < p ==> StageWithinMemory(sub, ora, i, q)
  }

  ghost predicate StageWithinMemory(sub: Submission, ora: Oracle, i: nat, q: nat)
    requires sub.stages >= 1 && i < |sub.testdata| && q < ChainLen(sub)
  {
    ChainTask(sub, i, q).Execute? && StartsAt(sub, ora, i, q) ==>
      var o := ora(sub.internalId, ChainTask(sub, i, q), Chain(sub, ora, i, q));
      var lim := sub.testdata[i];
      (lim.vss != 0 ==> o.hiwaterVm <= lim.vss) && (lim.rss != 0 ==> o.maxrss <= lim.rss)
  }

  ghost predicate MemoryBelow(lim: Testdata, r: TdResult) {
    (lim.vss != 0 ==> r.vss <= lim.vss) && (lim.rss != 0 ==> r.rss <= lim.rss)
  }

  lemma {:induction false} TimeIsSum(sub: Submission, ora: Oracle, i: nat, p: nat)
    requires sub.stages >= 1 && i < |sub.testdata| && p <= ChainLen(sub)
    requires sub.specjudge.NORMAL?
    ensures Chain(sub, ora, i, p).time == UsedTime(sub, ora, i, p)
  {
    if p > 0 {
      TimeIsSum(sub, ora, i, p - 1);
      FirstTask(sub, i, p - 1);
      TimeOfStep(sub, ora, ChainTask(sub, i, p - 1), Chain(sub, ora, i, p - 1));
    }
  }

  lemma TimeOfStep(sub: Submission, ora: Oracle, t: Task, r: TdResult)
    requires (t.Execute? || t.Scoring?) && t.td < |sub.testdata|
    requires sub.specjudge.NORMAL?
    ensures var o := ora(sub.internalId, t, r);
            TdStep(sub, ora, t, r).time ==
            if t.Execute? && PlanOf(sub, t, r).Start? then (if t.stage == 0 then 0 else r.time) + (o.utime + o.stime)
            else r.time
  {
  }

  /** One step of the default judge leaves NUL or AC only on a result that was NUL or AC
      before, and then the limits hold for what the step started. */
  lemma CleanStep(sub: Submission, ora: Oracle, t: Task, r: TdResult)
    requires (t.Execute? || t.Scoring?) && t.td < |sub.testdata|
    requires sub.specjudge.NORMAL? && !sub.judgeAbnormallyTerminated
    requires var v := TdStep(sub, ora, t, r).verdict; v == NUL || v == AC
    ensures (t.Execute? && t.stage == 0) || r.verdict == NUL || r.verdict == AC
    ensures var after := TdStep(sub, ora, t, r);
            var lim := sub.testdata[t.td];
            if t.Execute? && PlanOf(sub, t, r).Start? then
              var o := ora(sub.internalId, t, r);
              after.time <= lim.time && MemoryBelow(lim, after)
              && (lim.vss != 0 ==> o.hiwaterVm <= lim.vss) && (lim.rss != 0 ==> o.maxrss <= lim.rss)
            else after.time == r.time && after.vss == r.vss && after.rss == r.rss
  {
  }

  lemma FirstTask(sub: Submission, i: nat, p: nat)
    requires sub.stages >= 1 && p < ChainLen(sub)
    ensures (ChainTask(sub, i, p).Execute? && ChainTask(sub, i, p).stage == 0) <==> p == 0
  {
  }

  /** While the default judge has nothing to object to, all limits hold. */
  lemma {:induction false} CleanMeansWithinLimits(sub: Submission, ora: Oracle, i: nat, p: nat)
    requires sub.stages >= 1 && i < |sub.testdata| && 0 < p <= ChainLen(sub)
    requires sub.specjudge.NORMAL? && !sub.judgeAbnormallyTerminated
    requires var v := Chain(sub, ora, i, p).verdict; v == NUL || v == AC
    ensures Chain(sub, ora, i, p).time <= sub.testdata[i].time
    ensures MemoryBelow(sub.testdata[i], Chain(sub, ora, i, p))
    ensures WithinMemory(sub, ora, i, p)
  {
    FirstTask(sub, i, p - 1);
    var t, r := ChainTask(sub, i, p - 1), Chain(sub, ora, i, p - 1);
    assert Chain(sub, ora, i, p) == TdStep(sub, ora, t, r);
    CleanStep(sub, ora, t, r);
    if p > 1 {
      CleanMeansWithinLimits(sub, ora, i, p - 1);
    }
    MoreWithinMemory(sub, ora, i, p);
  }

  lemma MoreWithinMemory(sub: Submission, ora: Oracle, i: nat, p: nat)
    requires sub.stages >= 1 && i < |sub.testdata| && 0 < p <= ChainLen(sub)
    requires WithinMemory(sub, ora, i, p - 1) && StageWithinMemory(sub, ora, i, p - 1)
    ensures WithinMemory(sub, ora, i, p)
  {
  }

  /** With the default judge, a testdata that ends AC kept its cumulative time and its memory
      in every started stage within the limits. */
  lemma AcceptedWithinLimits(sub: Submission, ora: Oracle, i: nat)
    requires sub.stages >= 1 && i < |sub.testdata|
    requires sub.specjudge.NORMAL? && !sub.judgeAbnormallyTerminated
    requires Chain(sub, ora, i, ChainLen(sub)).verdict == AC
    ensures UsedTime(sub, ora, i, ChainLen(sub)) <= sub.testdata[i].time
    ensures WithinMemory(sub, ora, i, ChainLen(sub))
  {
    TimeIsSum(sub, ora, i, ChainLen(sub));
    CleanMeansWithinLimits(sub, ora, i, ChainLen(sub));
  }

  /* ---- 0/100 scoring ---- */

  /** The judge gives the full score to AC and nothing to anything else. The default judge always does. */
  ghost predicate ZeroOrFull(sub: Submission, ora: Oracle) {
    forall t: Task, r: TdResult :: t.Scoring? && !sub.specjudge.NORMAL? ==>
      var j := ora(sub.internalId, t, r).judge; j.score == if j.verdict.AC? then FULL_SCORE else 0
  }

  lemma {:induction false} ZeroOrFullChain(sub: Submission, ora: Oracle, i: nat, p: nat)
    requires sub.stages >= 1 && i < |sub.testdata| && p <= ChainLen(sub)
    requires ZeroOrFull(sub, ora)
    ensures var r := Chain(sub, ora, i, p); r.score == if r.verdict.AC? then FULL_SCORE else 0
    ensures Chain(sub, ora, i, p).verdict.AC? ==> Settled(sub, ora, i, p)
  {
    if p > 0 {
      ZeroOrFullChain(sub, ora, i, p - 1);
      FirstTask(sub, i, p - 1);
      LastTask(sub, i, p - 1);
      ZeroOrFullStep(sub, ora, ChainTask(sub, i, p - 1), Chain(sub, ora, i, p - 1));
    }
  }

  lemma ZeroOrFullStep(sub: Submission, ora: Oracle, t: Task, r: TdResult)
    requires (t.Execute? || t.Scoring?) && t.td < |sub.testdata|
    requires ZeroOrFull(sub, ora)
    requires t.Execute? && t.stage == 0 ==> r == NO_RESULT
    requires r.score == if r.verdict.AC? then FULL_SCORE else 0
    requires r.verdict.AC? ==> r.skipStage
    ensures var after := TdStep(sub, ora, t, r);
            && after.score == (if after.verdict.AC? then FULL_SCORE else 0)
            && (after.verdict.AC? ==> after.skipStage || (t.Scoring? && LastStage(sub, t.stage)))
  {
    if t.Scoring? && PlanOf(sub, t, r).Start? && !sub.specjudge.NORMAL? {
      var j := ora(sub.internalId, t, r).judge;
      assert j.score == if j.verdict.AC? then FULL_SCORE else 0;
    }
  }

  lemma LastTask(sub: Submission, i: nat, p: nat)
    requires sub.stages >= 1 && p < ChainLen(sub)
    ensures (ChainTask(sub, i, p).Scoring? && LastStage(sub, ChainTask(sub, i, p).stage)) <==> p == ChainLen(sub) - 1
  {
  }
}
