/** When the default judge accepts a testdata: the exact condition, on the outcomes of the processes. */
module Acceptance {
  import opened Types
  import opened TestdataRun
  import opened Causes

  /** How the program of stage `j` ended. Its input is what the stages before it left. */
  function RunOf(sub: Submission, ora: Oracle, i: nat, j: nat): Outcome
    requires sub.stages >= 1 && i < |sub.testdata| && j <= ChainLen(sub)
  {
    ora(sub.internalId, Execute(i, j), Chain(sub, ora, i, j))
  }

  /** What the stages before stage `n` used. */
  function TimeUsed(sub: Submission, ora: Oracle, i: nat, n: nat): int
    requires sub.stages >= 1 && i < |sub.testdata| && n <= ChainLen(sub)
  {
    if n == 0 then 0 else
    TimeUsed(sub, ora, i, n - 1) + RunOf(sub, ora, i, n - 1).utime + RunOf(sub, ora, i, n - 1).stime
  }

  /** The program was not stopped or signalled, exited with status 0, kept to the memory limits, and did not
      bring the time used so far over the limit. */
  ghost predicate RanClean(sub: Submission, ora: Oracle, i: nat, j: nat)
    requires sub.stages >= 1 && i < |sub.testdata| && j < ChainLen(sub)
  {
    var o := RunOf(sub, ora, i, j);
    EndedWell(sub.testdata[i], o, o.hiwaterVm, o.maxrss) && TimeUsed(sub, ora, i, j + 1) <= sub.testdata[i].time
  }

  ghost predicate StagesClean(sub: Submission, ora: Oracle, i: nat, n: nat)
    requires sub.stages >= 1 && i < |sub.testdata| && n <= ChainLen(sub)
  {
    forall j :: 0 <= j < n ==> RanClean(sub, ora, i, j)
  }

  /** A clean stage after clean stages leaves no verdict; nothing else does. */
  lemma StageStep(sub: Submission, ora: Oracle, i: nat, j: nat)
    requires sub.stages >= 1 && i < |sub.testdata| && j < sub.stages && (sub.judgeBetweenStages ==> j == 0)
    requires var r := Chain(sub, ora, i, j);
             r.verdict == NUL && !r.skipStage && r.time == TimeUsed(sub, ora, i, j)
             && (j > 0 ==> MemoryBelow(sub.testdata[i], r))
    ensures var r' := Chain(sub, ora, i, j + 1);
            && (r'.verdict == NUL <==> RanClean(sub, ora, i, j)) && r'.verdict != AC && !r'.skipStage
            && r'.time == TimeUsed(sub, ora, i, j + 1)
            && (r'.verdict == NUL ==> MemoryBelow(sub.testdata[i], r'))
  {
    var o, r := RunOf(sub, ora, i, j), Chain(sub, ora, i, j);
    var r' := ExecResult(sub, i, j, o, r);
    assert ChainTask(sub, i, j) == Execute(i, j);
    assert Chain(sub, ora, i, j + 1) == r';
    ExecVerdictIs(sub, sub.testdata[i], o, r'.vss, r'.rss, r'.time, NUL);
    ExecVerdictIs(sub, sub.testdata[i], o, r'.vss, r'.rss, r'.time, AC);
    if j == 0 { assert r.time == 0; }
  }

  /** Up to the first scoring, a testdata has no verdict exactly while all of its stages were clean. */
  lemma {:induction false} CleanSoFar(sub: Submission, ora: Oracle, i: nat, n: nat)
    requires sub.stages >= 1 && i < |sub.testdata| && n <= sub.stages && (sub.judgeBetweenStages ==> n <= 1)
    ensures var r := Chain(sub, ora, i, n);
            && (r.verdict == NUL <==> StagesClean(sub, ora, i, n)) && r.verdict != AC && !r.skipStage
            && (r.verdict == NUL ==>
                  r.time == TimeUsed(sub, ora, i, n) && (n > 0 ==> MemoryBelow(sub.testdata[i], r)))
  {
    if n > 0 {
      var j := n - 1;
      CleanSoFar(sub, ora, i, j);
      if Chain(sub, ora, i, j).verdict == NUL {
        StageStep(sub, ora, i, j);
      } else {
        assert ChainTask(sub, i, j) == Execute(i, j);
      }
    }
  }

  /** How many stages there are before the output is judged for the first time. */
  function JudgedAfter(sub: Submission): nat
    requires sub.stages >= 1
  {
    if sub.judgeBetweenStages then 1 else sub.stages
  }

  /** The default judge ran as it should, on the output of the last of these stages, and found it right. */
  ghost predicate FoundRight(sub: Submission, ora: Oracle, i: nat)
    requires sub.stages >= 1 && i < |sub.testdata|
  {
    var n := JudgedAfter(sub);
    var o := ora(sub.internalId, Scoring(i, n - 1), Chain(sub, ora, i, n));
    JudgeSucceeded(NORMAL, o) && o.judge.accepted
  }

  /** Once the default judge has spoken, the testdata is settled: with judging between stages, later stages
      are never run. */
  lemma SettledByDefaultJudge(sub: Submission, ora: Oracle, i: nat)
    requires sub.stages >= 1 && i < |sub.testdata| && sub.specjudge == NORMAL
    ensures JudgedAfter(sub) < ChainLen(sub)
    ensures var n := JudgedAfter(sub);
            && Chain(sub, ora, i, ChainLen(sub)) == Chain(sub, ora, i, n + 1)
            && ChainTask(sub, i, n) == Scoring(i, n - 1)
            && (n + 1 < ChainLen(sub) ==> Chain(sub, ora, i, n + 1).skipStage)
  {
    var n := JudgedAfter(sub);
    assert ChainTask(sub, i, n) == Scoring(i, n - 1);
    if n + 1 < ChainLen(sub) {
      CleanSoFar(sub, ora, i, n);
      var t, r := ChainTask(sub, i, n), Chain(sub, ora, i, n);
      var r' := TdStep(sub, ora, t, r);
      assert Chain(sub, ora, i, n + 1) == r';
      assert r'.skipStage;
      SkipStageIsFinal(sub, ora, i, n + 1, ChainLen(sub));
    }
  }

  /** The default judge accepts a testdata if and only if it finds the output right, and the stages before it were
      clean or the judge is to be asked in any case. */
  lemma AcceptedIff(sub: Submission, ora: Oracle, i: nat)
    requires sub.stages >= 1 && i < |sub.testdata| && sub.specjudge == NORMAL
    ensures JudgedAfter(sub) <= ChainLen(sub)
    ensures Chain(sub, ora, i, ChainLen(sub)).verdict == AC <==>
            FoundRight(sub, ora, i) && (sub.judgeAbnormallyTerminated || StagesClean(sub, ora, i, JudgedAfter(sub)))
  {
    SettledByDefaultJudge(sub, ora, i);
    var n := JudgedAfter(sub);
    CleanSoFar(sub, ora, i, n);
    var t, r := ChainTask(sub, i, n), Chain(sub, ora, i, n);
    var o := ora(sub.internalId, t, r);
    assert Chain(sub, ora, i, n + 1) == TdStep(sub, ora, t, r);
    hide StagesClean, Chain;
    ScoringMeans(sub, n - 1, false, o, r);
    ScoringMeans(sub, n - 1, true, EMPTY_OUTCOME, r);
  }

  /** Of a testdata that is accepted so, exactly the stages before the first scoring are started. */
  lemma AcceptedStarts(sub: Submission, ora: Oracle, i: nat, p: nat)
    requires sub.stages >= 1 && i < |sub.testdata| && sub.specjudge == NORMAL && p < ChainLen(sub)
    requires StagesClean(sub, ora, i, JudgedAfter(sub)) && ChainTask(sub, i, p).Execute?
    ensures StartsAt(sub, ora, i, p) <==> ChainTask(sub, i, p).stage < JudgedAfter(sub)
  {
    var n := JudgedAfter(sub);
    SettledByDefaultJudge(sub, ora, i);
    if p < n {
      CleanSoFar(sub, ora, i, p);
      assert StagesClean(sub, ora, i, p);
    } else {
      assert p >= n + 1;
      SkipStageIsFinal(sub, ora, i, n + 1, p);
    }
  }
}
