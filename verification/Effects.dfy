/** What each task does to the record of its submission, said of the fields of the record before and after. */
module Effects {
  import opened Types
  import TestdataRun
  import TaskGraph
  import opened Totals
  import opened Lifecycle
  import opened Causes

  /* ---- when a process is started ---- */

  /** The testdata is not to be judged any more: its submission is superseded, or it has groups and
      all of them are given up. */
  ghost predicate GivenUp(l: Live, i: nat)
    requires i < |l.j.sub.testdata|
  {
    var groups := l.j.sub.testdata[i].groups;
    l.cancelled || (|groups| > 0 && !exists m :: 0 <= m < |groups| && groups[m] !in l.cgroups)
  }

  /** No compilation failed and the testdata is still to be judged. */
  ghost predicate StillJudged(l: Live, i: nat)
    requires i < |l.j.sub.testdata|
  {
    l.j.verdict == NUL && !GivenUp(l, i)
  }

  /** The verdict that the summary finds: that of the compilations, or else the most severe one of a
      testdata that counts, or AC. */
  ghost predicate IsOverall(j: Judged, v: Verdict)
    requires |j.tds| <= |j.sub.testdata|
  {
    if j.verdict != NUL then v == j.verdict else
    && v != NUL
    && (forall i :: 0 <= i < |j.tds| && !j.sub.testdata[i].ignoreVerdict ==> !Worse(v, j.tds[i].verdict))
    && (v == AC || exists i :: 0 <= i < |j.tds| && !j.sub.testdata[i].ignoreVerdict && j.tds[i].verdict == v)
  }

  lemma OverallMeans(j: Judged)
    requires |j.tds| <= |j.sub.testdata|
    ensures IsOverall(j, SummaryVerdict(j))
  {
    hide Worse;
    var v := SummaryVerdict(j);
    WorstVerdictIsMax(j.sub, j.tds, |j.tds|);
    forall i | 0 <= i < |j.tds| ensures Worse(v, j.tds[i].verdict) <==> Code(v) < Code(j.tds[i].verdict) {
      CodeRanks(v, j.tds[i].verdict);
    }
  }

  /** There is only one such verdict. */
  lemma OneOverall(j: Judged, a: Verdict, b: Verdict)
    requires |j.tds| <= |j.sub.testdata| && IsOverall(j, a) && IsOverall(j, b)
    ensures a == b
  {
    hide Worse;
    CodeRanks(a, b);
    CodeRanks(b, a);
    SeverityAt(a);
    SeverityAt(b);
    WorseThanAccepted(a);
    WorseThanAccepted(b);
  }

  lemma WorseThanAccepted(v: Verdict)
    ensures v != NUL && v != AC ==> Worse(AC, v) && !Worse(v, AC)
  {
    CodeRanks(AC, v);
    CodeRanks(v, AC);
  }

  /** A process is started for a task that waits for nothing. */
  ghost predicate IsStarted(l: Live, t: Task)
    requires l.j.sub.stages >= 1 && TaskGraph.IsTask(l.j.sub, t) && |l.j.tds| <= |l.j.sub.testdata|
  {
    match t
    case Compile(_) => !l.cancelled
    case Execute(i, j) =>
      StillJudged(l, i) && (j > 0 ==> Td(l.j.tds, i).verdict == NUL && !Td(l.j.tds, i).skipStage)
    case Scoring(i, _) =>
      && StillJudged(l, i) && !Td(l.j.tds, i).skipStage && l.j.sub.specjudge != SKIP
      && (Td(l.j.tds, i).verdict == NUL || l.j.sub.judgeAbnormallyTerminated)
    case Summary => l.j.sub.customSummary && !IsOverall(l.j, JCE)
  }

  lemma StartsIff(l: Live, t: Task)
    requires l.j.sub.stages >= 1 && TaskGraph.IsTask(l.j.sub, t) && |l.j.tds| <= |l.j.sub.testdata|
    ensures SetupStarts(l, t) <==> IsStarted(l, t)
  {
    match t
    case Compile(_) =>
    case Execute(i, _) => DroppedMeans(l, t);
    case Scoring(i, _) => DroppedMeans(l, t);
    case Summary =>
      OverallMeans(l.j);
      if IsOverall(l.j, JCE) { OneOverall(l.j, SummaryVerdict(l.j), JCE); }
  }

  lemma DroppedMeans(l: Live, t: Task)
    requires l.j.sub.stages >= 1 && TaskGraph.IsTask(l.j.sub, t) && (t.Execute? || t.Scoring?)
    ensures Dropped(l, t) <==> !StillJudged(l, t.td)
  {
    var groups := l.j.sub.testdata[t.td].groups;
    if forall g :: g in groups ==> g in l.cgroups {
      assert forall m :: 0 <= m < |groups| ==> groups[m] in groups;
    }
  }

  /* ---- what is recorded ---- */

  ghost predicate SameTasks(l: Live, l': Live) {
    l'.left == l.left && l'.running == l.running && l'.cancelled == l.cancelled && l'.h.ran == l.h.ran
  }

  /** Reports reach nobody once the submission is superseded. */
  ghost predicate Tells(l: Live, l': Live, reports: seq<Report>) {
    l'.h.log == if l.cancelled then l.h.log else l.h.log + reports
  }

  /** A scoring changes one result. It gives up the groups of the testdata exactly if the submission skips groups
      and the testdata is not accepted, and it is reported exactly if it is the last, ends the testdata, or
      every stage is to be reported. */
  ghost predicate ScoringDone(l: Live, i: nat, stage: nat, skipped: bool, o: Outcome, l': Live)
    requires i < |l.j.tds| && i < |l.j.sub.testdata|
  {
    && |l'.j.tds| == |l.j.tds|
    && var sub, r, r' := l.j.sub, l.j.tds[i], l'.j.tds[i];
       && Scored(sub, stage, skipped, o, r, r')
       && l'.j == l.j.(tds := l.j.tds[i := r'])
       && (forall g :: g in l'.cgroups <==>
            g in l.cgroups || (sub.skipGroup && r'.verdict !in {NUL, AC} && g in sub.testdata[i].groups))
       && Tells(l, l', if stage + 1 == sub.stages || r'.skipStage || sub.reportIntermediateStage
                       then [TdReport(i, stage, r')] else [])
  }

  lemma ScoringIs(l: Live, i: nat, stage: nat, skipped: bool, o: Outcome)
    requires i < |l.j.tds| && i < |l.j.sub.testdata|
    ensures ScoringDone(l, i, stage, skipped, o, AfterScoring(l, Scoring(i, stage), skipped, o))
    ensures SameTasks(l, AfterScoring(l, Scoring(i, stage), skipped, o))
  {
    hide TestdataRun.ScoreResult, Scored;
    ScoringMeans(l.j.sub, stage, skipped, o, l.j.tds[i]);
  }

  /** What is reported unless a summary program decides: a submission that did not compile has no score,
      and its time and memory stay as they were. */
  ghost predicate IsDefault(j: Judged, totals: Totals)
    requires |j.tds| <= |j.sub.testdata|
  {
    if Worse(j.verdict, CE) then
      && totals.score == TotalScore(j.sub, j.tds)
      && totals.time == TotalTime(j.sub, j.tds, |j.tds|)
      && IsPeak(j.sub, j.tds, |j.tds|, totals.memory)
    else totals == Totals(0, j.totals.time, j.totals.memory)
  }

  predicate SummarySucceeded(o: Outcome) { o.outputRegular && o.siStatus == 0 && o.summary.parsed }

  function Given<T>(x: Option<T>, otherwise: T): T {
    if x.Some? then x.value else otherwise
  }

  /** What a summary program makes of the default. One that fails, or prints what cannot be read, leaves JRE and
      the default score; otherwise each value that it gives replaces the default, and there is a verdict. */
  ghost predicate IsSummedUp(o: Outcome, v: Verdict, default_: Totals, v': Verdict, totals: Totals) {
    if SummarySucceeded(o) then
      && (v' == Given(o.summary.verdict, v) || (v' == WA && Given(o.summary.verdict, v) == NUL)) && v' != NUL
      && totals.score == (if o.summary.score.Some? then o.summary.score.value else default_.score)
      && totals.time == Given(o.summary.time, default_.time)
      && totals.memory == Given(o.summary.memory, default_.memory)
    else v' == JRE && totals == Totals(default_.score, 0, 0)
  }

  /** The end of a submission: what is reported is what is recorded. */
  ghost predicate SummaryDone(l: Live, skipped: bool, o: Outcome, l': Live)
    requires |l.j.tds| <= |l.j.sub.testdata|
  {
    && l'.j == l.j.(verdict := l'.j.verdict, totals := l'.j.totals) && l'.cgroups == l.cgroups
    && (exists default_ :: IsDefault(l.j, default_) &&
          if skipped then l'.j.verdict == l.j.verdict && l'.j.totals == default_
          else IsSummedUp(o, l.j.verdict, default_, l'.j.verdict, l'.j.totals))
    && Tells(l, l', [OverallReport(l'.j.verdict, l'.j.totals.score, l'.j.totals.time, l'.j.totals.memory)])
  }

  lemma SummaryIs(l: Live, skipped: bool, o: Outcome)
    requires |l.j.tds| <= |l.j.sub.testdata|
    ensures SummaryDone(l, skipped, o, AfterSummary(l, skipped, o)) && SameTasks(l, AfterSummary(l, skipped, o))
  {
    hide TotalScore, TotalTime, TotalMemory, Worse;
    var default_ := DefaultTotals(l.j.sub, l.j.tds, l.j.verdict, l.j.totals);
    CodeRanks(l.j.verdict, CE);
    MemoryIsPeak(l.j.sub, l.j.tds, |l.j.tds|);
    assert IsDefault(l.j, default_);
  }

  /** A run of the program changes one result; the vector is lengthened if it was too short. */
  ghost predicate ExecuteDone(l: Live, i: nat, stage: nat, o: Outcome, l': Live)
    requires i < |l.j.sub.testdata|
  {
    && |l'.j.tds| == (if i < |l.j.tds| then |l.j.tds| else i + 1)
    && (forall k: nat :: k < |l'.j.tds| && k != i ==> l'.j.tds[k] == Td(l.j.tds, k))
    && Executed(l.j.sub, i, stage, o, Td(l.j.tds, i), l'.j.tds[i])
    && l'.j == l.j.(tds := l'.j.tds) && l'.cgroups == l.cgroups && l'.h.log == l.h.log
  }

  lemma ExecuteIs(l: Live, i: nat, stage: nat, o: Outcome)
    requires i < |l.j.sub.testdata|
    ensures ExecuteDone(l, i, stage, o, AfterExecute(l, Execute(i, stage), o))
    ensures SameTasks(l, AfterExecute(l, Execute(i, stage), o))
  {
    hide TestdataRun.ExecResult, Executed;
    ExecuteMeans(l.j.sub, i, stage, o, Td(l.j.tds, i));
  }

  /** A compilation changes nothing but the verdict of its submission. */
  ghost predicate CompileDone(l: Live, c: CompileSubtask, o: Outcome, l': Live) {
    && CompiledTo(c, o, l.j.verdict, l'.j.verdict)
    && l'.j == l.j.(verdict := l'.j.verdict) && l'.cgroups == l.cgroups && l'.h.log == l.h.log
  }

  /* ---- the steps ---- */

  ghost predicate LeavesGraph(l: Live, t: Task, ran: bool, l': Live) {
    && l'.left == l.left - {t} && l'.running == l.running - {t} && l'.cancelled == l.cancelled
    && l'.h.ran == if ran then l.h.ran + {t} else l.h.ran
  }

  /** The result that a scoring reads and writes is there, wherever the scoring is not dropped. */
  ghost predicate HasResult(l: Live, t: Task) {
    && |l.j.tds| <= |l.j.sub.testdata|
    && (t.Execute? || t.Scoring? ==> t.td < |l.j.sub.testdata|)
    && (t.Scoring? && StillJudged(l, t.td) ==> t.td < |l.j.tds|)
  }

  /** The process of a task has finished with outcome `o`. */
  ghost predicate IsCompleted(l: Live, t: Task, o: Outcome, l': Live)
    requires HasResult(l, t) && (t.Scoring? ==> t.td < |l.j.tds|)
  {
    && LeavesGraph(l, t, true, l')
    && match t
       case Compile(c) => CompileDone(l, c, o, l')
       case Execute(i, j) => ExecuteDone(l, i, j, o, l')
       case Scoring(i, j) => ScoringDone(l, i, j, false, o, l')
       case Summary => SummaryDone(l, false, o, l')
  }

  lemma SameScoring(l: Live, i: nat, stage: nat, skipped: bool, o: Outcome, a: Live, b: Live)
    requires i < |l.j.tds| && i < |l.j.sub.testdata| && Unchanged(a, b)
    ensures ScoringDone(l, i, stage, skipped, o, a) ==> ScoringDone(l, i, stage, skipped, o, b)
  {
  }

  lemma SameSummary(l: Live, skipped: bool, o: Outcome, a: Live, b: Live)
    requires |l.j.tds| <= |l.j.sub.testdata| && Unchanged(a, b)
    ensures SummaryDone(l, skipped, o, a) ==> SummaryDone(l, skipped, o, b)
  {
  }

  lemma CompleteMeans(l: Live, ora: Oracle, t: Task)
    requires Sized(l) && t in l.left && HasResult(l, t) && (t.Scoring? ==> t.td < |l.j.tds|)
    ensures IsCompleted(l, t, OutcomeOf(l, ora, t), Complete(l, ora, t))
  {
    hide AfterCompile, AfterExecute, AfterScoring, AfterSummary, CompiledTo, Executed, Scored, IsDefault, IsSummedUp;
    var o := OutcomeOf(l, ora, t);
    match t
    case Compile(c) =>
      CompileMeans(l, c, o);
    case Execute(i, j) =>
      ExecuteIs(l, i, j, o);
      assert ExecuteDone(l, i, j, o, Finalize(l, t, o));
    case Scoring(i, j) => ScoringIs(l, i, j, false, o);
    case Summary =>
      SummaryIs(l, false, o);
      SameSummary(l, false, o, Finalize(l, t, o), Complete(l, ora, t));
  }

  /** A task is taken that waits for nothing. Either a process is started for it, or it leaves at once: a scoring
      that needs no judge is recorded, so is a summary that has no program, and nothing else changes. */
  ghost predicate IsTaken(l: Live, t: Task, l': Live)
    requires l.j.sub.stages >= 1 && TaskGraph.IsTask(l.j.sub, t) && HasResult(l, t)
  {
    if IsStarted(l, t) then
      && l' == l.(running := l.running + {t}, j := l.j.(verdict := l'.j.verdict))
      && if t.Summary? then IsOverall(l.j, l'.j.verdict) else l'.j.verdict == l.j.verdict
    else
      && LeavesGraph(l, t, false, l')
      && match t
         case Scoring(i, j) =>
           if !StillJudged(l, i) || l.j.tds[i].skipStage then Unchanged(l, l')
           else if l.j.tds[i].verdict != NUL && !l.j.sub.judgeAbnormallyTerminated
           then ScoringDone(l, i, j, true, EMPTY_OUTCOME, l')
           else ScoringDone(l, i, j, false, EMPTY_OUTCOME, l')
         case Summary => exists v :: IsOverall(l.j, v) && SummaryDone(WithVerdict(l, v), true, EMPTY_OUTCOME, l')
         case _ => Unchanged(l, l')
  }

  function WithVerdict(l: Live, v: Verdict): Live { l.(j := l.j.(verdict := v)) }

  ghost predicate Unchanged(l: Live, l': Live) {
    l'.j == l.j && l'.cgroups == l.cgroups && l'.h.log == l.h.log
  }

  lemma TakeMeans(l: Live, t: Task)
    requires Sized(l) && t in l.left && t !in l.running && HasResult(l, t)
    ensures TaskGraph.IsTask(l.j.sub, t) && IsTaken(l, t, Dispatch(l, t))
  {
    hide AfterScoring, AfterSummary, Scored, IsDefault, IsSummedUp, IsOverall, IsStarted, SetupStarts, SummaryVerdict,
         SummaryDone, ScoringDone;
    StartsIff(l, t);
    OverallMeans(l.j);
    if SetupStarts(l, t) {
      StartKeeps(l, t);
    } else {
      match t
      case Scoring(i, j) =>
        SkippedScoringMeans(l, t);
        if StillJudged(l, i) {
          SameScoring(l, i, j, true, EMPTY_OUTCOME, AfterSetup(l, t), Dispatch(l, t));
          SameScoring(l, i, j, false, EMPTY_OUTCOME, AfterSetup(l, t), Dispatch(l, t));
        }
      case Summary =>
        SkippedSummaryMeans(l);
        SameSummary(WithVerdict(l, SummaryVerdict(l.j)), true, EMPTY_OUTCOME,
                    AfterSummary(AfterSetup(l, t), true, EMPTY_OUTCOME), Dispatch(l, t));
      case _ =>
    }
  }

  lemma StartKeeps(l: Live, t: Task)
    requires Sized(l) && t in l.left && SetupStarts(l, t)
    ensures IsTask'(l, t)
    ensures AfterSetup(l, t) == if t.Summary? then WithVerdict(l, SummaryVerdict(l.j)) else l
  {
  }

  lemma SkippedScoringMeans(l: Live, t: Task)
    requires Sized(l) && t in l.left && t.Scoring? && HasResult(l, t) && !SetupStarts(l, t)
    ensures IsTask'(l, t) && SameTasks(l, AfterSetup(l, t))
    ensures var l' := AfterSetup(l, t);
            if !StillJudged(l, t.td) || l.j.tds[t.td].skipStage then l' == l
            else ScoringDone(l, t.td, t.stage, l.j.tds[t.td].verdict != NUL && !l.j.sub.judgeAbnormallyTerminated,
                             EMPTY_OUTCOME, l')
  {
    hide AfterScoring, ScoringDone, StillJudged;
    DroppedMeans(l, t);
    if StillJudged(l, t.td) {
      ScoringIs(l, t.td, t.stage, true, EMPTY_OUTCOME);
      ScoringIs(l, t.td, t.stage, false, EMPTY_OUTCOME);
    }
  }

  lemma SkippedSummaryMeans(l: Live)
    requires Sized(l) && Summary in l.left
    ensures IsTask'(l, Summary) && SameTasks(l, AfterSummary(AfterSetup(l, Summary), true, EMPTY_OUTCOME))
    ensures AfterSetup(l, Summary) == WithVerdict(l, SummaryVerdict(l.j))
    ensures SummaryDone(WithVerdict(l, SummaryVerdict(l.j)), true, EMPTY_OUTCOME,
                        AfterSummary(AfterSetup(l, Summary), true, EMPTY_OUTCOME))
  {
    SummaryIs(WithVerdict(l, SummaryVerdict(l.j)), true, EMPTY_OUTCOME);
  }

  /* ---- nothing else agrees with that ---- */

  ghost predicate SameRecord(a: Live, b: Live) { SameTasks(a, b) && Unchanged(a, b) }

  lemma OneScoring(l: Live, i: nat, stage: nat, skipped: bool, o: Outcome, a: Live, b: Live)
    requires i < |l.j.tds| && i < |l.j.sub.testdata|
    requires ScoringDone(l, i, stage, skipped, o, a) && ScoringDone(l, i, stage, skipped, o, b)
    ensures Unchanged(a, b)
  {
    hide Scored;
    ScoredToOne(l.j.sub, stage, skipped, o, l.j.tds[i], a.j.tds[i], b.j.tds[i]);
    assert forall g :: g in a.cgroups <==> g in b.cgroups;
  }

  lemma OneExecution(l: Live, i: nat, stage: nat, o: Outcome, a: Live, b: Live)
    requires i < |l.j.sub.testdata| && ExecuteDone(l, i, stage, o, a) && ExecuteDone(l, i, stage, o, b)
    ensures Unchanged(a, b)
  {
    hide Executed;
    ExecutedToOne(l.j.sub, i, stage, o, Td(l.j.tds, i), a.j.tds[i], b.j.tds[i]);
    assert a.j.tds == b.j.tds;
  }

  lemma OneDefault(j: Judged, a: Totals, b: Totals)
    requires |j.tds| <= |j.sub.testdata| && IsDefault(j, a) && IsDefault(j, b)
    ensures a == b
  {
    hide IsPeak, TotalScore, TotalTime, Worse;
    if Worse(j.verdict, CE) { OnePeak(j.sub, j.tds, |j.tds|, a.memory, b.memory); }
  }

  lemma OneSummary(l: Live, skipped: bool, o: Outcome, a: Live, b: Live)
    requires |l.j.tds| <= |l.j.sub.testdata| && SummaryDone(l, skipped, o, a) && SummaryDone(l, skipped, o, b)
    ensures Unchanged(a, b)
  {
    hide IsDefault;
    var x :| IsDefault(l.j, x) &&
          if skipped then a.j.verdict == l.j.verdict && a.j.totals == x
          else IsSummedUp(o, l.j.verdict, x, a.j.verdict, a.j.totals);
    var y :| IsDefault(l.j, y) &&
          if skipped then b.j.verdict == l.j.verdict && b.j.totals == y
          else IsSummedUp(o, l.j.verdict, y, b.j.verdict, b.j.totals);
    OneDefault(l.j, x, y);
  }

  /** The record after a finished process is determined, up to the positions kept as history. */
  lemma CompletedToOne(l: Live, t: Task, o: Outcome, a: Live, b: Live)
    requires HasResult(l, t) && (t.Scoring? ==> t.td < |l.j.tds|)
    requires IsCompleted(l, t, o, a) && IsCompleted(l, t, o, b)
    ensures SameRecord(a, b)
  {
    hide ScoringDone, ExecuteDone, SummaryDone, CompiledTo;
    match t
    case Compile(c) => CompiledToOne(c, o, l.j.verdict, a.j.verdict, b.j.verdict);
    case Execute(i, j) => OneExecution(l, i, j, o, a, b);
    case Scoring(i, j) => OneScoring(l, i, j, false, o, a, b);
    case Summary => OneSummary(l, false, o, a, b);
  }

  /** So is the record after a task was taken. */
  lemma TakenToOne(l: Live, t: Task, a: Live, b: Live)
    requires l.j.sub.stages >= 1 && TaskGraph.IsTask(l.j.sub, t) && HasResult(l, t)
    requires IsTaken(l, t, a) && IsTaken(l, t, b)
    ensures SameRecord(a, b)
  {
    hide ScoringDone, SummaryDone, IsStarted, StillJudged, IsOverall;
    if IsStarted(l, t) {
      if t.Summary? { OneOverall(l.j, a.j.verdict, b.j.verdict); }
    } else {
      match t
      case Scoring(i, j) =>
        if StillJudged(l, i) && !l.j.tds[i].skipStage {
          OneScoring(l, i, j, l.j.tds[i].verdict != NUL && !l.j.sub.judgeAbnormallyTerminated, EMPTY_OUTCOME, a, b);
        }
      case Summary =>
        var v :| IsOverall(l.j, v) && SummaryDone(WithVerdict(l, v), true, EMPTY_OUTCOME, a);
        var w :| IsOverall(l.j, w) && SummaryDone(WithVerdict(l, w), true, EMPTY_OUTCOME, b);
        OneOverall(l.j, v, w);
        OneSummary(WithVerdict(l, v), true, EMPTY_OUTCOME, a, b);
      case _ =>
    }
  }
}
