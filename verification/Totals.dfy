/** The overall verdict, time, memory and score of a submission, from its testdata results. */
module Totals {
  import opened Types

  const INF_SCORE := 2_000_000_000_000

  /** std::lround: to the nearest integer, halves away from zero. */
  function Lround(x: real): int {
    if x >= 0.0 then (x + 0.5).Floor else -((-x + 0.5).Floor)
  }

  /** The `long double` argument is taken as exact. */
  function NormalizeScore(score: real): int {
    var high := if score > 1_000_000.0 then 1_000_000.0 else score;
    var both := if high < -1_000_000.0 then -1_000_000.0 else high;
    Lround(both * 1_000_000.0)
  }

  predicate Counts(sub: Submission, i: nat, g: nat)
    requires i < |sub.testdata|
  {
    !sub.testdata[i].ignoreVerdict && g in sub.testdata[i].groups
  }

  /** The score of group `g` after the first `k` results: INF_SCORE while it has no member. */
  function GroupScore(sub: Submission, tds: seq<TdResult>, g: nat, k: nat): int
    requires k <= |tds| <= |sub.testdata|
  {
    if k == 0 then INF_SCORE
    else
      var s := GroupScore(sub, tds, g, k - 1);
      if Counts(sub, k - 1, g) then Min(s, tds[k - 1].score) else s
  }

  /** A group without members counts as full. */
  function EffectiveScore(sub: Submission, tds: seq<TdResult>, g: nat): int
    requires |tds| <= |sub.testdata|
  {
    var s := GroupScore(sub, tds, g, |tds|);
    if s == INF_SCORE then FULL_SCORE else s
  }

  function WeightedSum(sub: Submission, tds: seq<TdResult>, m: nat): int
    requires |tds| <= |sub.testdata| && m <= |sub.groupScore|
  {
    if m == 0 then 0
    else WeightedSum(sub, tds, m - 1) + EffectiveScore(sub, tds, m - 1) * sub.groupScore[m - 1]
  }

  function TotalScore(sub: Submission, tds: seq<TdResult>): int
    requires |tds| <= |sub.testdata|
  {
    NormalizeScore(WeightedSum(sub, tds, |sub.groupScore|) as real / 100_000_000_000_000.0)
  }

  function TotalTime(sub: Submission, tds: seq<TdResult>, k: nat): int
    requires k <= |tds| <= |sub.testdata|
  {
    if k == 0 then 0
    else TotalTime(sub, tds, k - 1) + if sub.testdata[k - 1].ignoreVerdict then 0 else tds[k - 1].time
  }

  function TotalMemory(sub: Submission, tds: seq<TdResult>, k: nat): int
    requires k <= |tds| <= |sub.testdata|
  {
    if k == 0 then 0
    else
      var m := TotalMemory(sub, tds, k - 1);
      if sub.testdata[k - 1].ignoreVerdict then m else Max(m, tds[k - 1].rss)
  }

  /** SetupSummary: AC unless a counted testdata is worse. */
  function WorstVerdict(sub: Submission, tds: seq<TdResult>, k: nat): Verdict
    requires k <= |tds| <= |sub.testdata|
  {
    if k == 0 then AC
    else
      var v := WorstVerdict(sub, tds, k - 1);
      if !sub.testdata[k - 1].ignoreVerdict && Code(v) < Code(tds[k - 1].verdict) then tds[k - 1].verdict else v
  }

  datatype Totals = Totals(score: int, time: int, memory: int)

  const NO_TOTALS := Totals(0, 0, 0)

  /** FinalizeSummary before a custom summary program is heard: a submission that did not
      compile scores nothing and keeps its old (zero) time and memory. */
  function DefaultTotals(sub: Submission, tds: seq<TdResult>, verdict: Verdict, old_: Totals): Totals
    requires |tds| <= |sub.testdata|
  {
    if Code(verdict) < Code(CE) then
      Totals(TotalScore(sub, tds), TotalTime(sub, tds, |tds|), TotalMemory(sub, tds, |tds|))
    else old_.(score := 0)
  }

  /* ---- what the total means ---- */

  function Clamp(x: int): int { Max(-MAX_SCORE, Min(x, MAX_SCORE)) }

  /** n / d to the nearest integer, halves away from zero. */
  function RoundDiv(n: int, d: int): int
    requires d > 0
  {
    if n >= 0 then (2 * n + d) / (2 * d) else -((-2 * n + d) / (2 * d))
  }

  lemma FloorOfQuotient(n: int)
    requires n >= 0
    ensures (n as real / 100_000_000.0 + 0.5).Floor == (2 * n + 100_000_000) / 200_000_000
  {
    var q := (2 * n + 100_000_000) / 200_000_000;
    var x := n as real / 100_000_000.0 + 0.5;
    assert q * 200_000_000 <= 2 * n + 100_000_000 < (q + 1) * 200_000_000;
    assert q as real <= x < q as real + 1.0;
  }

  lemma NormalizeIsRoundDiv(n: int)
    ensures NormalizeScore(n as real / 100_000_000_000_000.0) == Clamp(RoundDiv(n, 100_000_000))
  {
    var x := n as real / 100_000_000_000_000.0;
    if x > 1_000_000.0 {
      assert n > 100_000_000_000_000_000_000;
      assert RoundDiv(n, 100_000_000) >= MAX_SCORE;
    } else if x < -1_000_000.0 {
      assert n < -100_000_000_000_000_000_000;
      assert RoundDiv(n, 100_000_000) <= -MAX_SCORE;
    } else {
      assert x * 1_000_000.0 == n as real / 100_000_000.0;
      if n >= 0 { FloorOfQuotient(n); } else {
        FloorOfQuotient(-n);
        assert -(n as real / 100_000_000.0) == (-n) as real / 100_000_000.0;
      }
    }
  }

  /** The smallest score of the counted members of `g` among the first `k` results. */
  ghost predicate IsGroupMin(sub: Submission, tds: seq<TdResult>, g: nat, k: nat, s: int)
    requires k <= |tds| <= |sub.testdata|
  {
    && (forall i :: 0 <= i < k && Counts(sub, i, g) ==> s <= tds[i].score)
    && exists i :: 0 <= i < k && Counts(sub, i, g) && s == tds[i].score
  }

  ghost predicate HasMember(sub: Submission, g: nat, k: nat)
    requires k <= |sub.testdata|
  {
    exists i :: 0 <= i < k && Counts(sub, i, g)
  }

  ghost predicate ScoresBounded(tds: seq<TdResult>) {
    forall i :: 0 <= i < |tds| ==> -MAX_SCORE <= tds[i].score <= MAX_SCORE
  }

  /** The sentinel is told apart from every real score: a group score is the sentinel
      exactly when the group has no counted member, and otherwise it is their minimum. */
  lemma {:induction false} GroupScoreIsMin(sub: Submission, tds: seq<TdResult>, g: nat, k: nat)
    requires k <= |tds| <= |sub.testdata| && ScoresBounded(tds)
    ensures GroupScore(sub, tds, g, k) == INF_SCORE <==> !HasMember(sub, g, k)
    ensures HasMember(sub, g, k) ==> IsGroupMin(sub, tds, g, k, GroupScore(sub, tds, g, k))
  {
    if k > 0 {
      GroupScoreIsMin(sub, tds, g, k - 1);
      if Counts(sub, k - 1, g) {
        assert HasMember(sub, g, k);
      } else if HasMember(sub, g, k) {
        var i :| 0 <= i < k && Counts(sub, i, g);
        assert HasMember(sub, g, k - 1);
      }
    }
  }

  /** The default total in integers: group minima, weighted, divided by 10^8, rounded, clamped. */
  lemma TotalIsRoundedSum(sub: Submission, tds: seq<TdResult>)
    requires |tds| <= |sub.testdata|
    ensures TotalScore(sub, tds) == Clamp(RoundDiv(WeightedSum(sub, tds, |sub.groupScore|), 100_000_000))
  {
    NormalizeIsRoundDiv(WeightedSum(sub, tds, |sub.groupScore|));
  }

  ghost predicate NonNegativeWeights(sub: Submission) {
    forall g :: 0 <= g < |sub.groupScore| ==> sub.groupScore[g] >= 0
  }

  ghost predicate ScoresBelow(a: seq<TdResult>, b: seq<TdResult>) {
    |a| == |b| && forall i :: 0 <= i < |a| ==> a[i].score <= b[i].score
  }

  lemma {:induction false} GroupScoreMonotone(sub: Submission, a: seq<TdResult>, b: seq<TdResult>, g: nat, k: nat)
    requires |a| <= |sub.testdata| && ScoresBelow(a, b) && k <= |a|
    ensures GroupScore(sub, a, g, k) <= GroupScore(sub, b, g, k)
  {
    if k > 0 { GroupScoreMonotone(sub, a, b, g, k - 1); }
  }

  lemma MulMonotone(a: int, b: int, w: int)
    requires a <= b && w >= 0
    ensures a * w <= b * w
  {
  }

  lemma {:induction false} WeightedSumMonotone(sub: Submission, a: seq<TdResult>, b: seq<TdResult>, m: nat)
    requires |a| <= |sub.testdata| && ScoresBelow(a, b) && m <= |sub.groupScore|
    requires ScoresBounded(a) && ScoresBounded(b) && NonNegativeWeights(sub)
    ensures WeightedSum(sub, a, m) <= WeightedSum(sub, b, m)
  {
    if m > 0 {
      WeightedSumMonotone(sub, a, b, m - 1);
      GroupScoreMonotone(sub, a, b, m - 1, |a|);
      GroupScoreIsMin(sub, a, m - 1, |a|);
      GroupScoreIsMin(sub, b, m - 1, |b|);
      MulMonotone(EffectiveScore(sub, a, m - 1), EffectiveScore(sub, b, m - 1), sub.groupScore[m - 1]);
    }
  }

  /** Raising the score of a testdata never lowers the total. */
  lemma TotalMonotone(sub: Submission, a: seq<TdResult>, b: seq<TdResult>)
    requires |a| <= |sub.testdata| && ScoresBelow(a, b)
    requires ScoresBounded(a) && ScoresBounded(b) && NonNegativeWeights(sub)
    ensures TotalScore(sub, a) <= TotalScore(sub, b)
  {
    WeightedSumMonotone(sub, a, b, |sub.groupScore|);
    TotalIsRoundedSum(sub, a);
    TotalIsRoundedSum(sub, b);
  }

  function SumOfWeights(sub: Submission, m: nat): int
    requires m <= |sub.groupScore|
  {
    if m == 0 then 0 else SumOfWeights(sub, m - 1) + sub.groupScore[m - 1]
  }

  lemma {:induction false} WeightedSumRange(sub: Submission, tds: seq<TdResult>, m: nat)
    requires |tds| <= |sub.testdata| && m <= |sub.groupScore| && NonNegativeWeights(sub)
    requires forall i :: 0 <= i < |tds| ==> 0 <= tds[i].score <= FULL_SCORE
    ensures 0 <= WeightedSum(sub, tds, m) <= FULL_SCORE * SumOfWeights(sub, m)
  {
    if m > 0 {
      WeightedSumRange(sub, tds, m - 1);
      GroupScoreIsMin(sub, tds, m - 1, |tds|);
      var s, w := EffectiveScore(sub, tds, m - 1), sub.groupScore[m - 1];
      assert 0 <= s <= FULL_SCORE;
      MulMonotone(0, s, w);
      MulMonotone(s, FULL_SCORE, w);
    }
  }

  /** With ordinary scores and weights the total lies between zero and the sum of the weights. */
  lemma TotalInRange(sub: Submission, tds: seq<TdResult>)
    requires |tds| <= |sub.testdata| && NonNegativeWeights(sub)
    requires forall i :: 0 <= i < |tds| ==> 0 <= tds[i].score <= FULL_SCORE
    ensures 0 <= TotalScore(sub, tds) <= SumOfWeights(sub, |sub.groupScore|)
  {
    WeightedSumRange(sub, tds, |sub.groupScore|);
    TotalIsRoundedSum(sub, tds);
  }

  /** The overall verdict is the largest counted one, or AC. */
  lemma {:induction false} WorstVerdictIsMax(sub: Submission, tds: seq<TdResult>, k: nat)
    requires k <= |tds| <= |sub.testdata|
    ensures WorstVerdict(sub, tds, k) != NUL
    ensures forall i :: 0 <= i < k && !sub.testdata[i].ignoreVerdict ==>
              Code(tds[i].verdict) <= Code(WorstVerdict(sub, tds, k))
    ensures WorstVerdict(sub, tds, k) == AC || exists i ::
              0 <= i < k && !sub.testdata[i].ignoreVerdict && tds[i].verdict == WorstVerdict(sub, tds, k)
  {
    if k > 0 { WorstVerdictIsMax(sub, tds, k - 1); }
  }

  /* ---- time and memory ---- */

  /** A submission of which nothing counted took any time reports none; in particular one without counted results. */
  lemma {:induction false} NoTime(sub: Submission, tds: seq<TdResult>, k: nat)
    requires k <= |tds| <= |sub.testdata|
    requires forall i :: 0 <= i < k && !sub.testdata[i].ignoreVerdict ==> tds[i].time == 0
    ensures TotalTime(sub, tds, k) == 0
  {
    if k > 0 { NoTime(sub, tds, k - 1); }
  }

  /** Another result for one testdata changes the reported time by exactly the difference if it counts,
      and not at all if it is ignored. */
  lemma {:induction false} TimeAddsUp(sub: Submission, tds: seq<TdResult>, i: nat, r: TdResult, k: nat)
    requires i < k <= |tds| <= |sub.testdata|
    ensures TotalTime(sub, tds[i := r], k) - TotalTime(sub, tds, k) ==
            if sub.testdata[i].ignoreVerdict then 0 else r.time - tds[i].time
  {
    if i < k - 1 { TimeAddsUp(sub, tds, i, r, k - 1); } else { TimeOfRest(sub, tds, i, r, i); }
  }

  lemma {:induction false} TimeOfRest(sub: Submission, tds: seq<TdResult>, i: nat, r: TdResult, k: nat)
    requires k <= i < |tds| <= |sub.testdata|
    ensures TotalTime(sub, tds[i := r], k) == TotalTime(sub, tds, k)
  {
    if k > 0 { TimeOfRest(sub, tds, i, r, k - 1); }
  }

  /** The reported memory bounds that of every counted testdata, and one of them used it, unless it is zero. */
  ghost predicate IsPeak(sub: Submission, tds: seq<TdResult>, k: nat, memory: int)
    requires k <= |tds| <= |sub.testdata|
  {
    && memory >= 0
    && (forall i :: 0 <= i < k && !sub.testdata[i].ignoreVerdict ==> tds[i].rss <= memory)
    && (memory == 0 || exists i :: 0 <= i < k && !sub.testdata[i].ignoreVerdict && tds[i].rss == memory)
  }

  lemma {:induction false} MemoryIsPeak(sub: Submission, tds: seq<TdResult>, k: nat)
    requires k <= |tds| <= |sub.testdata|
    ensures IsPeak(sub, tds, k, TotalMemory(sub, tds, k))
  {
    if k > 0 { MemoryIsPeak(sub, tds, k - 1); }
  }

  lemma OnePeak(sub: Submission, tds: seq<TdResult>, k: nat, a: int, b: int)
    requires k <= |tds| <= |sub.testdata| && IsPeak(sub, tds, k, a) && IsPeak(sub, tds, k, b)
    ensures a == b
  {
  }

  /* ---- the sum of the groups ---- */

  /** No rounding takes the total further than half a unit away, and halves go away from zero. */
  lemma RoundDivIsNearest(n: int, d: int)
    requires d > 0
    ensures var twice := 2 * d * RoundDiv(n, d);
            if n >= 0 then twice - d <= 2 * n < twice + d else twice - d < 2 * n <= twice + d
  {
    var q := RoundDiv(n, d);
    if n >= 0 {
      assert 2 * d * q <= 2 * n + d < 2 * d * q + 2 * d;
    } else {
      assert 2 * d * (-q) <= -2 * n + d < 2 * d * (-q) + 2 * d;
      assert 2 * d * (-q) == -(2 * d * q);
    }
  }

  lemma EffectiveIsMin(sub: Submission, tds: seq<TdResult>, g: nat)
    requires |tds| <= |sub.testdata| && ScoresBounded(tds)
    ensures if HasMember(sub, g, |tds|) then IsGroupMin(sub, tds, g, |tds|, EffectiveScore(sub, tds, g))
            else EffectiveScore(sub, tds, g) == FULL_SCORE
  {
    GroupScoreIsMin(sub, tds, g, |tds|);
  }

  lemma {:induction false} NothingScored(sub: Submission, tds: seq<TdResult>, m: nat)
    requires |tds| <= |sub.testdata| && m <= |sub.groupScore|
    requires forall g :: 0 <= g < m ==> EffectiveScore(sub, tds, g) == 0
    ensures WeightedSum(sub, tds, m) == 0
  {
    if m > 0 {
      assert EffectiveScore(sub, tds, m - 1) * sub.groupScore[m - 1] == 0;
      NothingScored(sub, tds, m - 1);
    }
  }

  /** Results that differ in the score of one group differ in the sum by its weight times the difference. */
  lemma {:induction false} WeightsAddUp(sub: Submission, a: seq<TdResult>, b: seq<TdResult>, g: nat, m: nat)
    requires |a| == |b| <= |sub.testdata| && m <= |sub.groupScore|
    requires forall h: nat :: h < m && h != g ==> EffectiveScore(sub, a, h) == EffectiveScore(sub, b, h)
    ensures WeightedSum(sub, b, m) - WeightedSum(sub, a, m) ==
            if g < m then sub.groupScore[g] * (EffectiveScore(sub, b, g) - EffectiveScore(sub, a, g)) else 0
  {
    if m > 0 { WeightsAddUp(sub, a, b, g, m - 1); }
  }
}
