/** The reported total under group skipping: when it tells a wrong group score, and for which submissions one
    worker gets it right. */
module ReportedTotals {
  import opened Types
  import TestdataRun
  import opened Totals
  import LifecycleInv
  import opened Outcomes
  import opened GroupSkip
  import opened Serial
  import opened SerialSkipping

  /** Weights that cannot cancel each other, and whose sum is not clamped. */
  ghost predicate Addable(sub: Submission) {
    NonNegativeWeights(sub) && SumOfWeights(sub, |sub.groupScore|) <= MAX_SCORE
  }

  ghost predicate Weighs(sub: Submission, g: nat) { g < |sub.groupScore| && sub.groupScore[g] != 0 }

  function ReferenceTotal(sub: Submission, ora: Oracle): int
    requires sub.stages >= 1
  {
    ReferenceTotals(WithoutSkipping(sub), ora).score
  }

  /* ---- a wrong group makes a wrong total ---- */

  lemma {:induction false} WeightedSumGap(sub: Submission, a: seq<TdResult>, b: seq<TdResult>, m: nat, g: nat, d: nat)
    requires |a| <= |sub.testdata| && ScoresBelow(a, b) && ScoresBounded(a) && ScoresBounded(b)
    requires g < m <= |sub.groupScore| && NonNegativeWeights(sub)
    requires EffectiveScore(sub, a, g) + d <= EffectiveScore(sub, b, g)
    ensures WeightedSum(sub, a, m) + d * sub.groupScore[g] <= WeightedSum(sub, b, m)
  {
    hide EffectiveScore;
    var x, y, w := EffectiveScore(sub, a, m - 1), EffectiveScore(sub, b, m - 1), sub.groupScore[m - 1];
    if g == m - 1 {
      WeightedSumMonotone(sub, a, b, m - 1);
      MulMonotone(x + d, y, w);
      assert (x + d) * w == x * w + d * w;
    } else {
      WeightedSumGap(sub, a, b, m - 1, g, d);
      EffectiveMonotone(sub, a, b, m - 1);
      MulMonotone(x, y, w);
    }
  }

  lemma EffectiveMonotone(sub: Submission, a: seq<TdResult>, b: seq<TdResult>, g: nat)
    requires |a| <= |sub.testdata| && ScoresBelow(a, b) && ScoresBounded(a) && ScoresBounded(b)
    ensures EffectiveScore(sub, a, g) <= EffectiveScore(sub, b, g)
  {
    GroupScoreMonotone(sub, a, b, g, |a|);
    GroupScoreIsMin(sub, a, g, |a|);
    GroupScoreIsMin(sub, b, g, |b|);
  }

  lemma RoundedApart(m: int, n: int)
    requires 0 <= m && m + FULL_SCORE <= n <= FULL_SCORE * MAX_SCORE
    ensures Clamp(RoundDiv(m, 100_000_000)) < Clamp(RoundDiv(n, 100_000_000))
  {
  }

  ghost predicate Ordinary(tds: seq<TdResult>) {
    forall i :: 0 <= i < |tds| ==> 0 <= tds[i].score <= FULL_SCORE
  }

  lemma TotalsApart(sub: Submission, a: seq<TdResult>, b: seq<TdResult>, g: nat)
    requires |a| <= |sub.testdata| && ScoresBelow(a, b) && Ordinary(a) && Ordinary(b) && Addable(sub) && Weighs(sub, g)
    requires EffectiveScore(sub, a, g) == 0 && EffectiveScore(sub, b, g) == FULL_SCORE
    ensures TotalScore(sub, a) < TotalScore(sub, b)
  {
    hide EffectiveScore, TotalScore, Clamp, RoundDiv;
    var n := |sub.groupScore|;
    WeightedSumGap(sub, a, b, n, g, FULL_SCORE);
    WeightedSumRange(sub, a, n);
    WeightedSumRange(sub, b, n);
    MulMonotone(SumOfWeights(sub, n), MAX_SCORE, FULL_SCORE);
    MulMonotone(1, sub.groupScore[g], FULL_SCORE);
    RoundedApart(WeightedSum(sub, a, n), WeightedSum(sub, b, n));
    TotalIsRoundedSum(sub, a);
    TotalIsRoundedSum(sub, b);
  }

  lemma TotalIgnoresSwitch(sub: Submission, tds: seq<TdResult>)
    requires |tds| <= |sub.testdata|
    ensures TotalScore(WithoutSkipping(sub), tds) == TotalScore(sub, tds)
  {
    forall g | 0 <= g < |sub.groupScore|
      ensures EffectiveScore(WithoutSkipping(sub), tds, g) == EffectiveScore(sub, tds, g)
    {
      GroupScoreIgnoresSwitch(sub, tds, g, |tds|);
    }
    SameGroupsSameSum(WithoutSkipping(sub), tds, sub, tds, |sub.groupScore|);
  }

  /** If everything compiles the reference total is that of the testdata judged alone. */
  lemma ReferenceTotalIs(sub: Submission, ora: Oracle)
    requires sub.stages >= 1 && LifecycleInv.CompileVerdict(sub, ora, AllCompiles(sub)) == NUL
    ensures |Alone(sub, ora)| == |sub.testdata| && ReferenceTotal(sub, ora) == TotalScore(sub, Alone(sub, ora))
  {
    CompilesIgnoreSwitch(sub, ora);
    AloneIgnoresSwitch(sub, ora);
    AloneLength(sub, ora);
    TotalIgnoresSwitch(sub, Alone(sub, ora));
  }

  ghost predicate ScoresFrom(sub: Submission, good: set<nat>, score: nat -> Score, good': set<nat>,
                             score': nat -> Score) {
    forall i :: 0 <= i < |sub.testdata| ==>
      0 <= MarkedScore(sub, good, score, i) <= MarkedScore(sub, good', score', i) <= FULL_SCORE
  }

  /** Outcomes that give group g nothing or the full score, and others no less in the second case. */
  lemma ReferencesApart(sub: Submission, good: set<nat>, score: nat -> Score, good': set<nat>, score': nat -> Score,
                        g: nat)
    requires sub.stages >= 1 && !sub.specjudge.SKIP? && Addable(sub) && Weighs(sub, g)
    requires ScoresFrom(sub, good, score, good', score')
    requires ReferenceGroupScore(sub, Marked(sub, good, score), g) == 0
    requires ReferenceGroupScore(sub, Marked(sub, good', score'), g) == FULL_SCORE
    ensures ReferenceTotal(sub, Marked(sub, good, score)) < ReferenceTotal(sub, Marked(sub, good', score'))
  {
    var a, b := Marked(sub, good, score), Marked(sub, good', score');
    MarkedCompiles(sub, good, score, AllCompiles(sub));
    MarkedCompiles(sub, good', score', AllCompiles(sub));
    ReferenceTotalIs(sub, a);
    ReferenceTotalIs(sub, b);
    forall i | 0 <= i < |sub.testdata|
      ensures Alone(sub, a)[i].score == MarkedScore(sub, good, score, i)
      ensures Alone(sub, b)[i].score == MarkedScore(sub, good', score', i)
    {
      MarkedFinal(sub, good, score, i);
      MarkedFinal(sub, good', score', i);
    }
    hide Alone, Marked, MarkedScore, TotalScore, ReferenceTotal, LifecycleInv.CompileVerdict, Addable, Weighs,
         EffectiveScore;
    TotalsApart(sub, Alone(sub, a), Alone(sub, b), g);
  }

  /** 0/100 outcomes: all of group g are accepted, or all but c. */
  lemma HundredApart(sub: Submission, g: nat, c: nat)
    requires sub.stages >= 1 && !sub.specjudge.SKIP? && Counted(sub, c) && InGroup(sub, c, g)
    ensures var all := MembersOf(sub, g);
            var most := all - {c};
            && ReferenceGroupScore(sub, Marked(sub, all, Hundred(all)), g) == FULL_SCORE
            && ReferenceGroupScore(sub, Marked(sub, most, Hundred(most)), g) == 0
            && (Addable(sub) && Weighs(sub, g) ==>
                  ReferenceTotal(sub, Marked(sub, most, Hundred(most))) <
                  ReferenceTotal(sub, Marked(sub, all, Hundred(all))))
  {
    var all := MembersOf(sub, g);
    var most := all - {c};
    ReferenceIsScore(sub, all, Hundred(all), g, c, FULL_SCORE);
    ReferenceIsScore(sub, most, Hundred(most), g, c, 0);
    hide ReferenceGroupScore, ReferenceTotal, Addable, Weighs, Marked;
    if Addable(sub) && Weighs(sub, g) { ReferencesApart(sub, most, Hundred(most), all, Hundred(all), g); }
  }

  /** Nothing is accepted, and all have the full score, or all but c. */
  lemma PartialApart(sub: Submission, g: nat, c: nat)
    requires sub.stages >= 1 && !sub.specjudge.SKIP? && !sub.specjudge.NORMAL? && Counted(sub, c) && InGroup(sub, c, g)
    ensures var a, b := Marked(sub, {}, AllButOne(c, 0)), Marked(sub, {}, AllButOne(c, FULL_SCORE));
            && ReferenceGroupScore(sub, a, g) == 0 && ReferenceGroupScore(sub, b, g) == FULL_SCORE
            && (Addable(sub) && Weighs(sub, g) ==> ReferenceTotal(sub, a) < ReferenceTotal(sub, b))
  {
    ReferenceIsScore(sub, {}, AllButOne(c, 0), g, c, 0);
    ReferenceIsScore(sub, {}, AllButOne(c, FULL_SCORE), g, c, FULL_SCORE);
    hide ReferenceGroupScore, ReferenceTotal, Addable, Weighs, Marked;
    if Addable(sub) && Weighs(sub, g) {
      ReferencesApart(sub, {}, AllButOne(c, 0), {}, AllButOne(c, FULL_SCORE), g);
    }
  }

  /* ---- one worker ---- */

  /** Every group with a weight keeps its score: with 0/100 outcomes, and with any outcomes of a special judge. */
  ghost predicate SerialTotalKept(sub: Submission, nm: Numbering)
    requires |nm.order| == |sub.testdata|
  {
    forall g :: Weighs(sub, g) ==> SerialScoreKept(sub, nm, g)
  }

  ghost predicate PartialTotalKept(sub: Submission, nm: Numbering)
    requires |nm.order| == |sub.testdata|
  {
    forall g :: Weighs(sub, g) ==> PartialScoreKept(sub, nm, g)
  }

  /** A testdata that was skipped leaves the same total whatever its outcome. */
  lemma SameSerialTotal(sub: Submission, nm: Numbering, good: set<nat>, good': set<nat>, score: nat -> Score,
                        score': nat -> Score, c: nat)
    requires sub.stages >= 1 && Numbered(sub, nm) && !sub.specjudge.SKIP? && c < |sub.testdata|
    requires CanBeGivenUp(sub, nm, good, c)
    requires forall i: nat :: i != c ==> (i in good <==> i in good') && score(i) == score'(i)
    ensures SerialTotals(sub, Marked(sub, good, score), nm) == SerialTotals(sub, Marked(sub, good', score'), nm)
  {
    MarkedTwice(sub, nm, good, good', score, score', c);
    MarkedCompiles(sub, good, score, AllCompiles(sub));
    MarkedCompiles(sub, good', score', AllCompiles(sub));
    hide Marked, LifecycleInv.CompileVerdict, SerialResults, TotalScore;
  }

  lemma TotalFails(sub: Submission, nm: Numbering) returns (ora: Oracle)
    requires sub.stages >= 1 && Numbered(sub, nm) && !sub.specjudge.SKIP? && Addable(sub) && !SerialTotalKept(sub, nm)
    ensures TestdataRun.ZeroOrFull(sub, ora) && SerialTotals(sub, ora, nm).score != ReferenceTotal(sub, ora)
  {
    var g: nat :| Weighs(sub, g) && !SerialScoreKept(sub, nm, g);
    hide SerialScoreKept, Addable, Weighs, TestdataRun.ZeroOrFull, SerialTotals, ReferenceTotal, Marked;
    var c := LosableMember(sub, nm, g);
    var all := MembersOf(sub, g);
    var most := all - {c};
    HundredApart(sub, g, c);
    HundredIsZeroOrFull(sub, all);
    HundredIsZeroOrFull(sub, most);
    SameSerialTotal(sub, nm, all, most, Hundred(all), Hundred(most), c);
    var a, b := Marked(sub, all, Hundred(all)), Marked(sub, most, Hundred(most));
    ora := if SerialTotals(sub, a, nm).score == ReferenceTotal(sub, a) then b else a;
  }

  lemma PartialTotalFails(sub: Submission, nm: Numbering) returns (ora: Oracle)
    requires sub.stages >= 1 && Numbered(sub, nm) && !sub.specjudge.SKIP? && !sub.specjudge.NORMAL? && Addable(sub)
    requires !PartialTotalKept(sub, nm)
    ensures SerialTotals(sub, ora, nm).score != ReferenceTotal(sub, ora)
  {
    var g: nat :| Weighs(sub, g) && !PartialScoreKept(sub, nm, g);
    hide PartialScoreKept, Addable, Weighs, SerialTotals, ReferenceTotal, Marked;
    var c := UnopenedMember(sub, nm, g);
    PartialApart(sub, g, c);
    SameSerialTotal(sub, nm, {}, {}, AllButOne(c, 0), AllButOne(c, FULL_SCORE), c);
    var a, b := Marked(sub, {}, AllButOne(c, 0)), Marked(sub, {}, AllButOne(c, FULL_SCORE));
    ora := if SerialTotals(sub, a, nm).score == ReferenceTotal(sub, a) then b else a;
  }

  /** Exactly which submissions one worker gives the right total, whatever the outcomes. */
  lemma TotalIff(sub: Submission, nm: Numbering)
    requires sub.stages >= 1 && Numbered(sub, nm) && !sub.specjudge.SKIP? && Addable(sub)
    ensures SerialTotalKept(sub, nm) <==>
            forall ora: Oracle :: TestdataRun.ZeroOrFull(sub, ora) ==>
              SerialTotals(sub, ora, nm).score == ReferenceTotal(sub, ora)
    ensures !sub.specjudge.NORMAL? ==>
            (PartialTotalKept(sub, nm) <==>
             forall ora: Oracle :: SerialTotals(sub, ora, nm).score == ReferenceTotal(sub, ora))
  {
    hide SerialScoreKept, PartialScoreKept, Addable, TestdataRun.ZeroOrFull, SerialTotals, ReferenceTotals;
    if SerialTotalKept(sub, nm) {
      forall ora: Oracle | TestdataRun.ZeroOrFull(sub, ora)
        ensures SerialTotals(sub, ora, nm).score == ReferenceTotal(sub, ora)
      {
        TotalSuffices(sub, ora, nm);
      }
    } else {
      var ora := TotalFails(sub, nm);
    }
    if PartialTotalKept(sub, nm) {
      forall ora: Oracle ensures SerialTotals(sub, ora, nm).score == ReferenceTotal(sub, ora) {
        TotalSuffices(sub, ora, nm);
      }
    } else if !sub.specjudge.NORMAL? {
      var ora := PartialTotalFails(sub, nm);
    }
  }
}
