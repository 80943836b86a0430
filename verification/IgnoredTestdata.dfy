/** A submission that one worker accepts although its only counted testdata fails: an ignored testdata
    in the same group fails first, the group is given up, and nothing counted is left to object. */
module IgnoredTestdata {
  import opened Types
  import opened Totals
  import LifecycleInv
  import opened Layering
  import opened Outcomes
  import opened GroupSkip
  import opened Serial
  import World
  import opened SerialSkipping
  import opened OneWorker

  const COUNTED := Testdata(0, 0, 1_000_000, false, [0])
  const IGNORED := COUNTED.(ignoreVerdict := true)

  /** Testdata 0 is ignored, testdata 1 is not, both are in the only group. */
  const SUBMITTED := Submission(1, 7, 0, NORMAL, false, 1, {}, false, false, true, false, [IGNORED, COUNTED], [100],
                                true, false)

  const IN_ORDER := Numbering([0, 1], [0, 1])

  /** Everything compiles, and the default judge says WA twice. */
  function AllWrong(): Oracle { Marked(SUBMITTED, {}, NoScore) }

  lemma SortedStays(key: seq<int>)
    requires |key| == 2 && key[0] <= key[1]
    ensures StableSort(Iota(2), key) == [0, 1]
  {
    hide StableSort, LexSorted, IsPermutation;
    SortedIotaIsPermutation(2, key);
    TwoInOrder(StableSort(Iota(2), key), key);
  }

  lemma TwoInOrder(xs: seq<nat>, key: seq<int>)
    requires |key| == 2 && key[0] <= key[1] && IsPermutation(xs, 2) && Bounded(xs, 2) && LexSorted(xs, key)
    ensures xs == [0, 1]
  {
    assert Before(xs[0], xs[1], key);
    assert xs[0] != xs[1];
  }

  /** The first testdata opens a layer, the second one has to go to the next. */
  lemma TwoLayers(tds: seq<Testdata>)
    requires |tds| == 2 && tds[0].groups == tds[1].groups == [0]
    ensures Place(tds, [0, 1], 2).1 == map[0 := 0, 1 := 1]
  {
    assert Place(tds, [0, 1], 0) == ([], map[]);
    assert GroupSet([0]) == {0};
    assert AddTo([], 0, [0]) == [GroupSet([0])];
    assert Place(tds, [0, 1], 1) == ([{0}], map[0 := 0]);
    assert FirstMissing([{0}], [0]) == 1 + FirstMissing([{0}][1..], [0]) == 1;
  }

  /** So td_order is [0, 1]. */
  lemma NumberedInOrder(sub: Submission)
    requires sub.skipGroup && |sub.testdata| == 2 && sub.testdata[0].groups == sub.testdata[1].groups == [0]
    ensures TdNumbering(sub) == IN_ORDER
  {
    var tds := sub.testdata;
    SortedStays(GroupCountKey(tds));
    TwoLayers(tds);
    hide Place, StableSort;
    assert ScanOrder(tds) == [0, 1];
    SortedStays(LayerKey(tds));
    assert JudgingOrder(sub) == [0, 1];
    assert IndexOf([0, 1], 0) == 0 && IndexOf([0, 1], 1) == 1;
  }

  lemma SecondIsSkipped()
    ensures Numbered(SUBMITTED, IN_ORDER)
    ensures SerialResults(SUBMITTED, AllWrong(), IN_ORDER) == [Final(SUBMITTED, AllWrong(), 0)]
    ensures !Reached(SUBMITTED, IN_ORDER, 1)
  {
    var ora := AllWrong();
    MarkedFinal(SUBMITTED, {}, NoScore, 0);
    assert Lost(SUBMITTED, ora, IN_ORDER, 0) == {};
    assert !Skipped(SUBMITTED, ora, IN_ORDER, 0);
    LostStep(SUBMITTED, ora, IN_ORDER, 0, 0);
    assert Skipped(SUBMITTED, ora, IN_ORDER, 1);
    forall h | InGroup(SUBMITTED, 1, h) ensures EarlierIn(SUBMITTED, IN_ORDER, 1, h, 0) {}
  }

  lemma TotalOfOne(tds: seq<TdResult>, score: int)
    requires |tds| <= 2 && GroupScore(SUBMITTED, tds, 0, |tds|) == score
    ensures score == INF_SCORE ==> TotalScore(SUBMITTED, tds) == 100
    ensures score == 0 ==> TotalScore(SUBMITTED, tds) == 0
  {
    TotalIsRoundedSum(SUBMITTED, tds);
    assert WeightedSum(SUBMITTED, tds, 1) == WeightedSum(SUBMITTED, tds, 0) + EffectiveScore(SUBMITTED, tds, 0) * 100;
  }

  /** One worker: AC and the full score. */
  lemma OneWorkerSays()
    ensures Numbered(SUBMITTED, IN_ORDER)
    ensures SerialVerdict(SUBMITTED, AllWrong(), IN_ORDER) == AC
    ensures SerialTotals(SUBMITTED, AllWrong(), IN_ORDER).score == 100
  {
    SecondIsSkipped();
    MarkedCompiles(SUBMITTED, {}, NoScore, AllCompiles(SUBMITTED));
    hide SerialResults, LifecycleInv.CompileVerdict, TotalScore, AllWrong, Final;
    var tds := [Final(SUBMITTED, AllWrong(), 0)];
    assert WorstVerdict(SUBMITTED, tds, 1) == WorstVerdict(SUBMITTED, tds, 0) == AC;
    assert GroupScore(SUBMITTED, tds, 0, 1) == GroupScore(SUBMITTED, tds, 0, 0) == INF_SCORE;
    TotalOfOne(tds, INF_SCORE);
  }

  /** Judged to the end: WA and no score. */
  lemma ReferenceSays()
    ensures ReferenceVerdict(WithoutSkipping(SUBMITTED), AllWrong()) == WA
    ensures ReferenceTotals(WithoutSkipping(SUBMITTED), AllWrong()).score == 0
  {
    var ora := AllWrong();
    MarkedCompiles(SUBMITTED, {}, NoScore, AllCompiles(SUBMITTED));
    CompilesIgnoreSwitch(SUBMITTED, ora);
    AloneIgnoresSwitch(SUBMITTED, ora);
    MarkedFinal(SUBMITTED, {}, NoScore, 0);
    MarkedFinal(SUBMITTED, {}, NoScore, 1);
    var alone := Alone(SUBMITTED, ora);
    WorstIgnoresSwitch(SUBMITTED, alone, 2);
    assert alone[0] == Final(SUBMITTED, ora, 0) && alone[1] == Final(SUBMITTED, ora, 1);
    hide Alone, LifecycleInv.CompileVerdict, TotalScore, AllWrong, Final;
    assert WorstVerdict(SUBMITTED, alone, 1) == WorstVerdict(SUBMITTED, alone, 0) == AC;
    assert GroupScore(SUBMITTED, alone, 0, 1) == GroupScore(SUBMITTED, alone, 0, 0) == INF_SCORE;
    TotalOfOne(alone, 0);
    GroupScoreIgnoresSwitch(SUBMITTED, alone, 0, 2);
    SameGroupsSameSum(SUBMITTED, alone, WithoutSkipping(SUBMITTED), alone, 1);
  }

  /** So says every run with one worker, and there are such runs. */
  lemma OneWorkerAcceptsIt(ws: seq<World.World>, acts: seq<World.Action>)
    requires Judges(ws, acts, AllWrong(), SUBMITTED, TdNumbering(SUBMITTED))
    ensures var report := ReportIn(ws[|acts|], SUBMITTED);
            report.OverallReport? && report.verdict == AC && report.score == 100
  {
    NumberedInOrder(SUBMITTED);
    OneWorkerSays();
    ReportedSerially(ws, acts, AllWrong(), SUBMITTED, IN_ORDER);
  }

  lemma CanBeJudged()
    ensures ValidSub(SUBMITTED) && Numbered(SUBMITTED, TdNumbering(SUBMITTED))
  {
    hide Numbered, TdNumbering;
    TdNumberingNumbers(SUBMITTED);
  }

  lemma AcceptedThoughWrong() returns (ws: seq<World.World>, acts: seq<World.Action>)
    ensures Judges(ws, acts, AllWrong(), SUBMITTED, TdNumbering(SUBMITTED))
    ensures var report := ReportIn(ws[|acts|], SUBMITTED);
            report.OverallReport? && report.verdict == AC && report.score == 100
    ensures ReferenceVerdict(WithoutSkipping(SUBMITTED), AllWrong()) == WA
    ensures ReferenceTotals(WithoutSkipping(SUBMITTED), AllWrong()).score == 0
  {
    hide AllWrong, Judges, ReferenceVerdict, ReferenceTotals, TdNumbering, ReportIn;
    CanBeJudged();
    ws, acts := JudgedByOne(SUBMITTED, TdNumbering(SUBMITTED), AllWrong());
    OneWorkerAcceptsIt(ws, acts);
    ReferenceSays();
  }
}
