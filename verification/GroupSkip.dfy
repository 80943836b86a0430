/** Skipping groups that are lost anyway: when it does not change the result, in any schedule. */
module GroupSkip {
  import opened Types
  import opened TestdataRun
  import TaskGraph
  import opened Totals
  import opened Lifecycle
  import opened LifecycleInv
  import opened Outcomes

  function WithoutSkipping(sub: Submission): Submission { sub.(skipGroup := false) }

  /** Each testdata judged alone does not notice the skip_group switch. */
  lemma {:induction false} ChainIgnoresSwitch(sub: Submission, ora: Oracle, i: nat, p: nat)
    requires sub.stages >= 1 && i < |sub.testdata| && p <= ChainLen(sub)
    ensures Chain(WithoutSkipping(sub), ora, i, p) == Chain(sub, ora, i, p)
  {
    if p > 0 {
      ChainIgnoresSwitch(sub, ora, i, p - 1);
      StepIgnoresSwitch(sub, ora, ChainTask(sub, i, p - 1), Chain(sub, ora, i, p - 1));
    }
  }

  lemma StepIgnoresSwitch(sub: Submission, ora: Oracle, t: Task, r: TdResult)
    requires (t.Execute? || t.Scoring?) && t.td < |sub.testdata|
    ensures TdStep(WithoutSkipping(sub), ora, t, r) == TdStep(sub, ora, t, r)
  {
    var o := ora(sub.internalId, t, r);
    if t.Execute? {
      assert ExecResult(WithoutSkipping(sub), t.td, t.stage, o, r) == ExecResult(sub, t.td, t.stage, o, r);
    } else {
      assert ScoreResult(WithoutSkipping(sub), t.stage, false, o, r) == ScoreResult(sub, t.stage, false, o, r);
    }
  }

  lemma AloneIgnoresSwitch(sub: Submission, ora: Oracle)
    requires sub.stages >= 1
    ensures Alone(WithoutSkipping(sub), ora) == Alone(sub, ora)
  {
    forall i | 0 <= i < |sub.testdata| ensures Alone(WithoutSkipping(sub), ora)[i] == Alone(sub, ora)[i] {
      ChainIgnoresSwitch(sub, ora, i, ChainLen(sub));
    }
  }

  lemma FirstStageIgnoresSwitch(sub: Submission, problem: bool, from: nat)
    requires from <= sub.stages
    ensures TaskGraph.FirstStage(WithoutSkipping(sub), problem, from) == TaskGraph.FirstStage(sub, problem, from)
    decreases sub.stages - from
  {
  }

  lemma CompilesIgnoreSwitch(sub: Submission, ora: Oracle)
    requires sub.stages >= 1
    ensures CompileVerdict(WithoutSkipping(sub), ora, AllCompiles(WithoutSkipping(sub))) ==
            CompileVerdict(sub, ora, AllCompiles(sub))
  {
    FirstStageIgnoresSwitch(sub, false, 0);
    FirstStageIgnoresSwitch(sub, true, 0);
    assert AllCompiles(WithoutSkipping(sub)) == AllCompiles(sub);
  }

  lemma {:induction false} WorstIgnoresSwitch(sub: Submission, tds: seq<TdResult>, k: nat)
    requires k <= |tds| <= |sub.testdata|
    ensures WorstVerdict(WithoutSkipping(sub), tds, k) == WorstVerdict(sub, tds, k)
  {
    if k > 0 { WorstIgnoresSwitch(sub, tds, k - 1); }
  }

  lemma {:induction false} GroupScoreIgnoresSwitch(sub: Submission, tds: seq<TdResult>, g: nat, k: nat)
    requires k <= |tds| <= |sub.testdata|
    ensures GroupScore(WithoutSkipping(sub), tds, g, k) == GroupScore(sub, tds, g, k)
  {
    if k > 0 { GroupScoreIgnoresSwitch(sub, tds, g, k - 1); }
  }

  /** Sums of equal group scores are equal; what a group of weight zero has does not matter. */
  lemma {:induction false} SameGroupsSameSum(a: Submission, x: seq<TdResult>, b: Submission, y: seq<TdResult>, m: nat)
    requires |x| <= |a.testdata| && |y| <= |b.testdata| && a.groupScore == b.groupScore && m <= |a.groupScore|
    requires forall g :: 0 <= g < m && a.groupScore[g] != 0 ==> EffectiveScore(a, x, g) == EffectiveScore(b, y, g)
    ensures WeightedSum(a, x, m) == WeightedSum(b, y, m)
  {
    if m > 0 { SameGroupsSameSum(a, x, b, y, m - 1); }
  }

  /* ---- which submissions may skip ---- */

  predicate Counted(sub: Submission, i: nat) { i < |sub.testdata| && !sub.testdata[i].ignoreVerdict }

  predicate InGroup(sub: Submission, i: nat, g: nat) { i < |sub.testdata| && g in sub.testdata[i].groups }

  /** No ignored testdata can give up group `h`. */
  ghost predicate OnlyCounted(sub: Submission, h: nat) {
    forall e :: InGroup(sub, e, h) ==> Counted(sub, e)
  }

  /** No counted testdata can be given up on the account of ignored ones alone. */
  ghost predicate AcceptanceKept(sub: Submission) {
    forall c: nat :: Counted(sub, c) && sub.testdata[c].groups != [] ==>
      exists h :: InGroup(sub, c, h) && OnlyCounted(sub, h)
  }

  /** Whoever gives up group `h` counts, and counts in group `g`. */
  ghost predicate OnlyCountedIn(sub: Submission, g: nat, h: nat) {
    forall e :: InGroup(sub, e, h) ==> Counted(sub, e) && InGroup(sub, e, g)
  }

  /** No counted testdata of group `g` can be given up unless one of the group failed. */
  ghost predicate ScoreKept(sub: Submission, g: nat) {
    forall c :: Counted(sub, c) && InGroup(sub, c, g) ==> exists h :: InGroup(sub, c, h) && OnlyCountedIn(sub, g, h)
  }

  /** Each counted member of group `g` has a group of its own. */
  ghost predicate OwnGroups(sub: Submission, g: nat) {
    forall c :: Counted(sub, c) && InGroup(sub, c, g) ==> exists h :: InGroup(sub, c, h) && OwnGroup(sub, c, h)
  }

  ghost predicate OwnGroup(sub: Submission, c: nat, h: nat) { forall e :: InGroup(sub, e, h) ==> e == c }

  /** What keeps the score of group `g`: with 0/100 scoring, or with any scoring. */
  ghost predicate GroupKept(sub: Submission, ora: Oracle, g: nat) {
    (ScoreKept(sub, g) && ZeroOrFull(sub, ora)) || OwnGroups(sub, g)
  }

  ghost predicate GroupsKept(sub: Submission, ora: Oracle) {
    forall g :: 0 <= g < |sub.groupScore| && sub.groupScore[g] != 0 ==> GroupKept(sub, ora, g)
  }

  /** Without ignored testdata nothing can go wrong. */
  lemma NoneIgnored(sub: Submission)
    requires forall i :: 0 <= i < |sub.testdata| ==> !sub.testdata[i].ignoreVerdict
    ensures AcceptanceKept(sub) && forall g :: ScoreKept(sub, g)
  {
    forall c: nat | Counted(sub, c) && sub.testdata[c].groups != []
      ensures exists h :: InGroup(sub, c, h) && OnlyCounted(sub, h)
    {
      var h := sub.testdata[c].groups[0];
      assert InGroup(sub, c, h) && OnlyCounted(sub, h);
    }
    forall g, c | Counted(sub, c) && InGroup(sub, c, g)
      ensures exists h :: InGroup(sub, c, h) && OnlyCountedIn(sub, g, h)
    {
      assert OnlyCountedIn(sub, g, g);
    }
  }

  /* ---- the end of a run with skipping ---- */

  ghost predicate Ready(l: Live, ora: Oracle) {
    && Inv(l, ora)
    && TaskGraph.Unblocked(l.j.sub, l.left, Summary)
    && !l.cancelled
    && CompileVerdict(l.j.sub, ora, l.h.ran) == NUL
  }

  /** A testdata was either judged to the end or given up with all of its groups. */
  lemma DoneOrGivenUp(l: Live, ora: Oracle, i: nat)
    requires Ready(l, ora) && i < |l.j.sub.testdata|
    ensures Td(l.j.tds, i) == Chain(l.j.sub, ora, i, l.h.eff[i])
    ensures l.h.eff[i] > 0 ==> i < |l.j.tds|
    ensures l.h.eff[i] == ChainLen(l.j.sub) ||
            (l.j.sub.testdata[i].groups != [] && GroupsOf(l.j.sub, i) <= l.cgroups)
  {
    SummaryFacts(l, ora);
    assert ResultOk(l.j.sub, ora, l.j.tds, l.running, i, l.h.pos[i], l.h.eff[i], Frozen(l, ora, i));
  }

  /** A given-up group has a member that was judged to the end and was not accepted. */
  lemma GivenUpHasCulprit(l: Live, ora: Oracle, g: nat) returns (i: nat)
    requires Ready(l, ora) && g in l.cgroups
    ensures i < |l.j.tds| && g in l.j.sub.testdata[i].groups
    ensures l.j.tds[i] == Chain(l.j.sub, ora, i, ChainLen(l.j.sub))
    ensures Code(l.j.tds[i].verdict) > Code(AC)
  {
    var sub := l.j.sub;
    i :| 0 <= i < |l.h.eff| && g in sub.testdata[i].groups && Spoils(sub, ora, i, l.h.eff[i]);
    DoneOrGivenUp(l, ora, i);
    if l.h.eff[i] < ChainLen(sub) { SkipStageIsFinal(sub, ora, i, l.h.eff[i], ChainLen(sub)); }
    CodeInjectiveAC(l.j.tds[i].verdict);
  }

  lemma CodeInjectiveAC(v: Verdict)
    ensures Code(v) <= Code(AC) <==> v == NUL || v == AC
  {
  }

  /** Testdata i counts, was judged to the end and was not accepted. */
  ghost predicate Failed(l: Live, ora: Oracle, i: nat)
    requires l.j.sub.stages >= 1
  {
    && Counted(l.j.sub, i) && i < |l.j.tds|
    && l.j.tds[i] == Chain(l.j.sub, ora, i, ChainLen(l.j.sub)) && Code(l.j.tds[i].verdict) > Code(AC)
  }

  /** A testdata with a group that is not given up was judged to the end. */
  lemma JudgedToTheEnd(l: Live, ora: Oracle, i: nat, h: nat)
    requires Ready(l, ora) && InGroup(l.j.sub, i, h) && h !in l.cgroups
    ensures i < |l.j.tds| && l.j.tds[i] == Chain(l.j.sub, ora, i, ChainLen(l.j.sub))
  {
    DoneOrGivenUp(l, ora, i);
    assert h in GroupsOf(l.j.sub, i);
  }

  /** If no counted testdata failed, every counted one was judged. */
  lemma CountedAreJudged(l: Live, ora: Oracle, c: nat)
    requires Ready(l, ora) && AcceptanceKept(l.j.sub) && Counted(l.j.sub, c)
    requires forall i :: !Failed(l, ora, i)
    ensures c < |l.j.tds| && l.j.tds[c] == Chain(l.j.sub, ora, c, ChainLen(l.j.sub))
  {
    var sub := l.j.sub;
    if sub.testdata[c].groups == [] {
      DoneOrGivenUp(l, ora, c);
    } else {
      var h :| InGroup(sub, c, h) && OnlyCounted(sub, h);
      GivenUpCounted(l, ora, h);
      JudgedToTheEnd(l, ora, c, h);
    }
  }

  /** A group that only counted testdata may give up is given up only if a counted one failed. */
  lemma GivenUpCounted(l: Live, ora: Oracle, h: nat)
    requires Ready(l, ora) && OnlyCounted(l.j.sub, h)
    ensures h in l.cgroups ==> exists i :: InGroup(l.j.sub, i, h) && Failed(l, ora, i)
  {
    if h in l.cgroups {
      var i := GivenUpHasCulprit(l, ora, h);
      assert InGroup(l.j.sub, i, h) && Failed(l, ora, i);
    }
  }

  lemma AcceptedTogether(l: Live, ora: Oracle)
    requires Ready(l, ora) && AcceptanceKept(l.j.sub)
    ensures WorstVerdict(l.j.sub, l.j.tds, |l.j.tds|) == AC <==>
            WorstVerdict(l.j.sub, Alone(l.j.sub, ora), |l.j.sub.testdata|) == AC
  {
    var sub, alone := l.j.sub, Alone(l.j.sub, ora);
    WorstVerdictIsMax(sub, l.j.tds, |l.j.tds|);
    WorstVerdictIsMax(sub, alone, |alone|);
    if i: nat :| Failed(l, ora, i) {
      assert Code(l.j.tds[i].verdict) <= Code(WorstVerdict(sub, l.j.tds, |l.j.tds|));
      assert Code(alone[i].verdict) <= Code(WorstVerdict(sub, alone, |alone|));
    } else {
      forall c | 0 <= c < |sub.testdata| && !sub.testdata[c].ignoreVerdict
        ensures c < |l.j.tds| && alone[c] == l.j.tds[c] && Code(alone[c].verdict) <= Code(AC)
      {
        CountedAreJudged(l, ora, c);
        assert !Failed(l, ora, c);
      }
      CodeInjectiveAC(WorstVerdict(sub, l.j.tds, |l.j.tds|));
      CodeInjectiveAC(WorstVerdict(sub, alone, |alone|));
    }
  }

  lemma ScoresZeroOrFull(l: Live, ora: Oracle)
    requires Ready(l, ora) && ZeroOrFull(l.j.sub, ora)
    ensures forall i :: 0 <= i < |l.j.tds| ==>
              l.j.tds[i].score == if l.j.tds[i].verdict.AC? then FULL_SCORE else 0
    ensures forall i :: 0 <= i < |l.j.sub.testdata| ==>
              var r := Alone(l.j.sub, ora)[i]; r.score == if r.verdict.AC? then FULL_SCORE else 0
  {
    forall i | 0 <= i < |l.j.tds|
      ensures l.j.tds[i].score == if l.j.tds[i].verdict.AC? then FULL_SCORE else 0
    {
      DoneOrGivenUp(l, ora, i);
      ZeroOrFullChain(l.j.sub, ora, i, l.h.eff[i]);
    }
    forall i | 0 <= i < |l.j.sub.testdata|
      ensures var r := Alone(l.j.sub, ora)[i]; r.score == if r.verdict.AC? then FULL_SCORE else 0
    {
      ZeroOrFullChain(l.j.sub, ora, i, ChainLen(l.j.sub));
    }
  }

  /** Whatever the scores: a group that was not given up keeps its score. */
  lemma KeptGroupKeepsScore(l: Live, ora: Oracle, g: nat)
    requires Ready(l, ora) && g !in l.cgroups
    ensures EffectiveScore(l.j.sub, l.j.tds, g) == EffectiveScore(l.j.sub, Alone(l.j.sub, ora), g)
  {
    forall i | 0 <= i < |l.j.sub.testdata| && Counts(l.j.sub, i, g)
      ensures i < |l.j.tds| && l.j.tds[i] == Alone(l.j.sub, ora)[i]
    {
      JudgedToTheEnd(l, ora, i, g);
    }
    RuntimeResults(l, ora);
    AloneBounded(l.j.sub, ora);
    MembersAgree(l.j.sub, l.j.tds, Alone(l.j.sub, ora), g);
  }

  lemma AloneBounded(sub: Submission, ora: Oracle)
    requires sub.stages >= 1
    ensures ScoresBounded(Alone(sub, ora))
  {
    forall i | 0 <= i < |sub.testdata| ensures -MAX_SCORE <= Alone(sub, ora)[i].score <= MAX_SCORE {
      RuntimeOnly(sub, ora, i, ChainLen(sub));
    }
  }

  /** If no counted testdata of group `g` failed, every counted one of it was judged. */
  lemma MembersAreJudged(l: Live, ora: Oracle, g: nat, c: nat)
    requires Ready(l, ora) && ScoreKept(l.j.sub, g) && Counted(l.j.sub, c) && InGroup(l.j.sub, c, g)
    requires forall i :: !(Failed(l, ora, i) && InGroup(l.j.sub, i, g))
    ensures c < |l.j.tds| && l.j.tds[c] == Chain(l.j.sub, ora, c, ChainLen(l.j.sub))
  {
    var h :| InGroup(l.j.sub, c, h) && OnlyCountedIn(l.j.sub, g, h);
    GivenUpCounted(l, ora, h);
    JudgedToTheEnd(l, ora, c, h);
  }

  lemma SameGroupScore(l: Live, ora: Oracle, g: nat)
    requires Ready(l, ora) && ZeroOrFull(l.j.sub, ora) && ScoreKept(l.j.sub, g)
    ensures EffectiveScore(l.j.sub, l.j.tds, g) == EffectiveScore(l.j.sub, Alone(l.j.sub, ora), g)
  {
    var sub, tds, alone := l.j.sub, l.j.tds, Alone(l.j.sub, ora);
    ScoresZeroOrFull(l, ora);
    if i: nat :| Failed(l, ora, i) && InGroup(sub, i, g) {
      GroupScoreIsMin(sub, tds, g, |tds|);
      GroupScoreIsMin(sub, alone, g, |alone|);
      assert alone[i] == tds[i] && Counts(sub, i, g);
      assert HasMember(sub, g, |tds|) && HasMember(sub, g, |alone|);
    } else {
      forall i | 0 <= i < |sub.testdata| && Counts(sub, i, g) ensures i < |tds| && tds[i] == alone[i] {
        MembersAreJudged(l, ora, g, i);
      }
      MembersAgree(sub, tds, alone, g);
    }
  }

  /** Two lists that agree on the members of a group give it the same score. */
  lemma MembersAgree(sub: Submission, x: seq<TdResult>, y: seq<TdResult>, g: nat)
    requires |x| <= |y| == |sub.testdata| && ScoresBounded(x) && ScoresBounded(y)
    requires forall i :: 0 <= i < |sub.testdata| && Counts(sub, i, g) ==> i < |x| && x[i] == y[i]
    ensures GroupScore(sub, x, g, |x|) == GroupScore(sub, y, g, |y|)
  {
    GroupScoreIsMin(sub, x, g, |x|);
    GroupScoreIsMin(sub, y, g, |y|);
    if HasMember(sub, g, |y|) {
      var i :| 0 <= i < |y| && Counts(sub, i, g);
      assert HasMember(sub, g, |x|);
    }
  }

  /** Whatever the scores: a testdata with a group of its own is judged, and if all counted members of
      a group are, the group keeps its score. */
  lemma OwnGroupsKeepScore(l: Live, ora: Oracle, g: nat)
    requires Ready(l, ora) && OwnGroups(l.j.sub, g)
    ensures EffectiveScore(l.j.sub, l.j.tds, g) == EffectiveScore(l.j.sub, Alone(l.j.sub, ora), g)
  {
    forall c | 0 <= c < |l.j.sub.testdata| && Counts(l.j.sub, c, g)
      ensures c < |l.j.tds| && l.j.tds[c] == Alone(l.j.sub, ora)[c]
    {
      assert Counted(l.j.sub, c) && InGroup(l.j.sub, c, g);
      OwnGroupIsJudged(l, ora, g, c);
    }
    RuntimeResults(l, ora);
    AloneBounded(l.j.sub, ora);
    MembersAgree(l.j.sub, l.j.tds, Alone(l.j.sub, ora), g);
  }

  lemma OwnGroupIsJudged(l: Live, ora: Oracle, g: nat, c: nat)
    requires Ready(l, ora) && OwnGroups(l.j.sub, g) && Counted(l.j.sub, c) && InGroup(l.j.sub, c, g)
    ensures c < |l.j.tds| && l.j.tds[c] == Chain(l.j.sub, ora, c, ChainLen(l.j.sub))
  {
    var h :| InGroup(l.j.sub, c, h) && OwnGroup(l.j.sub, c, h);
    if h in l.cgroups {
      var i := GivenUpHasCulprit(l, ora, h);
      assert InGroup(l.j.sub, i, h);
    } else {
      JudgedToTheEnd(l, ora, c, h);
    }
  }

  lemma GroupIsRight(l: Live, ora: Oracle, g: nat)
    requires Ready(l, ora) && GroupKept(l.j.sub, ora, g)
    ensures EffectiveScore(l.j.sub, l.j.tds, g) == EffectiveScore(l.j.sub, Alone(l.j.sub, ora), g)
  {
    hide Ready, ZeroOrFull, ScoreKept, OwnGroups;
    if OwnGroups(l.j.sub, g) { OwnGroupsKeepScore(l, ora, g); } else { SameGroupScore(l, ora, g); }
  }

  /** The total score with skipping is the total score of the run that judges everything. */
  lemma SameTotal(l: Live, ora: Oracle)
    requires Ready(l, ora) && GroupsKept(l.j.sub, ora)
    ensures TotalScore(l.j.sub, l.j.tds) == TotalScore(WithoutSkipping(l.j.sub), Alone(WithoutSkipping(l.j.sub), ora))
  {
    var sub, alone := l.j.sub, Alone(l.j.sub, ora);
    AloneIgnoresSwitch(sub, ora);
    forall g | 0 <= g < |sub.groupScore| && sub.groupScore[g] != 0
      ensures EffectiveScore(sub, l.j.tds, g) == EffectiveScore(WithoutSkipping(sub), alone, g)
    {
      GroupIsRight(l, ora, g);
      GroupScoreIgnoresSwitch(sub, alone, g, |alone|);
    }
    SameGroupsSameSum(sub, l.j.tds, WithoutSkipping(sub), alone, |sub.groupScore|);
  }

  /** Group skipping preserves the result, for every schedule. If no counted testdata can be given up
      on the account of ignored ones alone, the verdict is AC exactly when judging everything is
      accepted. If no group can lose a counted testdata without a failure of its own (with 0/100 scoring), or
      none at all (with any scoring), the score is that of judging everything. */
  lemma SkippingPreservesResult(l: Live, ora: Oracle) returns (v: Verdict, score: int, time: int, memory: int)
    requires Inv(l, ora) && Startable(l, Summary) && !l.cancelled && !l.j.sub.customSummary
    ensures Sized(l) && Dispatch(l, Summary).h.log == l.h.log + [OverallReport(v, score, time, memory)]
    ensures AcceptanceKept(l.j.sub) ==> (v == AC <==> ReferenceVerdict(WithoutSkipping(l.j.sub), ora) == AC)
    ensures GroupsKept(l.j.sub, ora) ==>
              score == ReferenceTotals(WithoutSkipping(l.j.sub), ora).score
  {
    var r := Dispatch(l, Summary).j;
    v, score, time, memory := r.verdict, r.totals.score, r.totals.time, r.totals.memory;
    SummaryFacts(l, ora);
    CompileVerdictAtEnd(l, ora);
    CompilesIgnoreSwitch(l.j.sub, ora);
    if CompileVerdict(l.j.sub, ora, l.h.ran).NUL? {
      RuntimeResults(l, ora);
      RuntimeWorst(l.j.sub, l.j.tds, |l.j.tds|);
      hide Inv, Startable, TaskGraph.Unblocked, GroupsKept, AcceptanceKept, TotalScore, Alone;
      if AcceptanceKept(l.j.sub) { AcceptanceIsReference(l, ora); }
      if GroupsKept(l.j.sub, ora) { SameTotal(l, ora); }
    } else {
      CompileVerdictIsSevere(l.j.sub, ora, l.h.ran);
    }
  }

  lemma AcceptanceIsReference(l: Live, ora: Oracle)
    requires Ready(l, ora) && AcceptanceKept(l.j.sub)
    ensures WorstVerdict(l.j.sub, l.j.tds, |l.j.tds|) == AC <==>
            WorstVerdict(WithoutSkipping(l.j.sub), Alone(WithoutSkipping(l.j.sub), ora), |l.j.sub.testdata|) == AC
  {
    AcceptedTogether(l, ora);
    AloneIgnoresSwitch(l.j.sub, ora);
    WorstIgnoresSwitch(l.j.sub, Alone(l.j.sub, ora), |l.j.sub.testdata|);
  }
}
