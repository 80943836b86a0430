/** Group skipping with one worker: exactly which submissions it serves right, whatever their outcomes. */
module SerialSkipping {
  import opened Types
  import opened TestdataRun
  import opened Totals
  import Lifecycle
  import opened LifecycleInv
  import opened Outcomes
  import opened GroupSkip
  import opened Serial

  /* ---- the conditions, to be read off testdata and their numbers ---- */

  /** Testdata e is in group h and judged before c. */
  predicate EarlierIn(sub: Submission, nm: Numbering, c: nat, h: nat, e: nat)
    requires |nm.order| == |sub.testdata| && c < |sub.testdata|
  {
    InGroup(sub, e, h) && nm.order[e] < nm.order[c]
  }

  /** Ignored testdata alone cannot have testdata c given up. */
  ghost predicate Reached(sub: Submission, nm: Numbering, c: nat)
    requires |nm.order| == |sub.testdata| && c < |sub.testdata|
  {
    || sub.testdata[c].groups == []
    || exists h :: InGroup(sub, c, h) && forall e :: EarlierIn(sub, nm, c, h, e) ==> Counted(sub, e)
  }

  /** Every counted testdata is reached. A judge of type SKIP accepts nothing; then one is enough. */
  ghost predicate SerialAcceptanceKept(sub: Submission, nm: Numbering)
    requires |nm.order| == |sub.testdata|
  {
    sub.skipGroup ==>
      if sub.specjudge.SKIP? then (exists c :: Counted(sub, c)) ==> exists c :: Counted(sub, c) && Reached(sub, nm, c)
      else forall c :: Counted(sub, c) ==> Reached(sub, nm, c)
  }

  /** Testdata c can be given up only after a counted member of group g failed. */
  ghost predicate ReachedIn(sub: Submission, nm: Numbering, g: nat, c: nat)
    requires |nm.order| == |sub.testdata| && c < |sub.testdata|
  {
    exists h :: InGroup(sub, c, h) && forall e :: EarlierIn(sub, nm, c, h, e) ==> Counted(sub, e) && InGroup(sub, e, g)
  }

  ghost predicate SerialScoreKept(sub: Submission, nm: Numbering, g: nat)
    requires |nm.order| == |sub.testdata|
  {
    sub.skipGroup ==> forall c :: Counted(sub, c) && InGroup(sub, c, g) ==> ReachedIn(sub, nm, g, c)
  }

  /** Testdata c opens one of its groups, so it is never given up before it was judged. */
  ghost predicate AlwaysReached(sub: Submission, nm: Numbering, c: nat)
    requires |nm.order| == |sub.testdata| && c < |sub.testdata|
  {
    exists h :: InGroup(sub, c, h) && forall e :: !EarlierIn(sub, nm, c, h, e)
  }

  ghost predicate PartialScoreKept(sub: Submission, nm: Numbering, g: nat)
    requires |nm.order| == |sub.testdata|
  {
    sub.skipGroup ==> forall c :: Counted(sub, c) && InGroup(sub, c, g) ==> AlwaysReached(sub, nm, c)
  }

  /* ---- lost groups ---- */

  function Final(sub: Submission, ora: Oracle, i: nat): TdResult
    requires sub.stages >= 1 && i < |sub.testdata|
  {
    Chain(sub, ora, i, ChainLen(sub))
  }

  /** Testdata e is judged, fails, and gives up its groups. */
  ghost predicate GivesUp(sub: Submission, ora: Oracle, nm: Numbering, e: nat)
    requires sub.stages >= 1 && Numbered(sub, nm)
  {
    e < |sub.testdata| && !Skipped(sub, ora, nm, e) && Lifecycle.Cancels(sub, Final(sub, ora, e).verdict)
  }

  lemma {:induction false} LostHasCulprit(sub: Submission, ora: Oracle, nm: Numbering, k: nat, g: nat) returns (e: nat)
    requires sub.stages >= 1 && Numbered(sub, nm) && k <= |sub.testdata| && g in Lost(sub, ora, nm, k)
    ensures InGroup(sub, e, g) && nm.order[e] < k && GivesUp(sub, ora, nm, e)
  {
    var i := nm.inv[k - 1];
    LostStep(sub, ora, nm, i, g);
    if g in Lost(sub, ora, nm, k - 1) { e := LostHasCulprit(sub, ora, nm, k - 1, g); } else { e := i; }
  }

  lemma {:induction false} LostStays(sub: Submission, ora: Oracle, nm: Numbering, j: nat, k: nat)
    requires sub.stages >= 1 && Numbered(sub, nm) && j <= k <= |sub.testdata|
    ensures Lost(sub, ora, nm, j) <= Lost(sub, ora, nm, k)
    decreases k
  {
    if j < k { LostStays(sub, ora, nm, j, k - 1); }
  }

  /** A testdata that is not accepted leaves all of its groups lost, judged or skipped. */
  lemma FailureLoses(sub: Submission, ora: Oracle, nm: Numbering, e: nat, h: nat, k: nat)
    requires sub.stages >= 1 && Numbered(sub, nm) && sub.skipGroup && InGroup(sub, e, h)
    requires nm.order[e] < k <= |sub.testdata| && Final(sub, ora, e).verdict != AC
    ensures h in Lost(sub, ora, nm, k)
  {
    FinalHasVerdict(sub, ora, e);
    assert Skipped(sub, ora, nm, e) ==> h in Lost(sub, ora, nm, nm.order[e]);
    assert Lifecycle.Cancels(sub, Final(sub, ora, e).verdict);
    hide Chain, Skipped, Lost, Lifecycle.Cancels;
    LostStep(sub, ora, nm, e, h);
    LostStays(sub, ora, nm, nm.order[e] + 1, k);
  }

  /** If in each group of c an earlier testdata is not accepted, c is skipped. */
  lemma FailuresSkip(sub: Submission, ora: Oracle, nm: Numbering, c: nat)
    requires sub.stages >= 1 && Numbered(sub, nm) && sub.skipGroup && c < |sub.testdata| && sub.testdata[c].groups != []
    requires forall h :: InGroup(sub, c, h) ==>
               exists e :: EarlierIn(sub, nm, c, h, e) && Final(sub, ora, e).verdict != AC
    ensures Skipped(sub, ora, nm, c)
  {
    forall h | h in sub.testdata[c].groups ensures h in Lost(sub, ora, nm, nm.order[c]) {
      assert InGroup(sub, c, h);
      var e :| EarlierIn(sub, nm, c, h, e) && Final(sub, ora, e).verdict != AC;
      FailureLoses(sub, ora, nm, e, h, nm.order[c]);
    }
  }

  /** A skipped testdata has in each of its groups an earlier one that gave it up. */
  lemma SkippedHasCulprit(sub: Submission, ora: Oracle, nm: Numbering, c: nat, h: nat) returns (e: nat)
    requires sub.stages >= 1 && Numbered(sub, nm) && InGroup(sub, c, h) && Skipped(sub, ora, nm, c)
    ensures EarlierIn(sub, nm, c, h, e) && GivesUp(sub, ora, nm, e)
  {
    e := LostHasCulprit(sub, ora, nm, nm.order[c], h);
  }

  lemma NothingSkipped(sub: Submission, ora: Oracle, nm: Numbering, c: nat)
    requires sub.stages >= 1 && Numbered(sub, nm) && c < |sub.testdata| && Skipped(sub, ora, nm, c)
    ensures sub.skipGroup && sub.testdata[c].groups != []
  {
    var h := sub.testdata[c].groups[0];
    var e := SkippedHasCulprit(sub, ora, nm, c, h);
  }

  /* ---- acceptance ---- */

  lemma AcceptedIff(sub: Submission, tds: seq<TdResult>)
    requires |tds| <= |sub.testdata|
    ensures WorstVerdict(sub, tds, |tds|) == AC <==>
            forall i :: 0 <= i < |tds| && Counted(sub, i) ==> Code(tds[i].verdict) <= Code(AC)
  {
    WorstVerdictIsMax(sub, tds, |tds|);
    CodeInjectiveAC(WorstVerdict(sub, tds, |tds|));
  }

  lemma SerialResultAt(sub: Submission, ora: Oracle, nm: Numbering, i: nat)
    requires sub.stages >= 1 && Numbered(sub, nm) && i < |sub.testdata|
    ensures var tds := SerialResults(sub, ora, nm);
            && |tds| <= |sub.testdata| && (!Skipped(sub, ora, nm, i) ==> i < |tds|)
            && (i < |tds| ==> tds[i] == if Skipped(sub, ora, nm, i) then NO_RESULT else Final(sub, ora, i))
  {
  }

  /** Counted testdata i was judged and not accepted. */
  ghost predicate Rejected(sub: Submission, ora: Oracle, nm: Numbering, i: nat)
    requires sub.stages >= 1 && Numbered(sub, nm)
  {
    Counted(sub, i) && !Skipped(sub, ora, nm, i) && Final(sub, ora, i).verdict != AC
  }

  lemma SerialAcceptedIff(sub: Submission, ora: Oracle, nm: Numbering)
    requires sub.stages >= 1 && Numbered(sub, nm) && CompileVerdict(sub, ora, AllCompiles(sub)) == NUL
    ensures SerialVerdict(sub, ora, nm) == AC <==> forall i :: !Rejected(sub, ora, nm, i)
  {
    SerialLengthBound(sub, ora, nm);
    hide SerialResults, Skipped, CompileVerdict;
    var tds := SerialResults(sub, ora, nm);
    AcceptedIff(sub, tds);
    forall i: nat | Counted(sub, i)
      ensures Rejected(sub, ora, nm, i) <==> i < |tds| && Code(tds[i].verdict) > Code(AC)
    {
      SerialResultAt(sub, ora, nm, i);
      FinalHasVerdict(sub, ora, i);
      CodeInjectiveAC(Final(sub, ora, i).verdict);
    }
  }

  lemma SerialLengthBound(sub: Submission, ora: Oracle, nm: Numbering)
    requires sub.stages >= 1 && Numbered(sub, nm)
    ensures |SerialResults(sub, ora, nm)| <= |sub.testdata|
  {
  }

  lemma ReferenceAcceptedIff(sub: Submission, ora: Oracle)
    requires sub.stages >= 1 && CompileVerdict(sub, ora, AllCompiles(sub)) == NUL
    ensures ReferenceVerdict(WithoutSkipping(sub), ora) == AC <==>
            forall i :: Counted(sub, i) ==> Final(sub, ora, i).verdict == AC
  {
    CompilesIgnoreSwitch(sub, ora);
    AloneIgnoresSwitch(sub, ora);
    var alone := Alone(sub, ora);
    WorstIgnoresSwitch(sub, alone, |alone|);
    AcceptedIff(sub, alone);
    forall i: nat | Counted(sub, i) ensures Code(alone[i].verdict) <= Code(AC) <==> Final(sub, ora, i).verdict == AC {
      FinalHasVerdict(sub, ora, i);
      CodeInjectiveAC(alone[i].verdict);
    }
  }

  /** If nothing counted is rejected, a testdata that is reached is judged. */
  lemma ReachedIsJudged(sub: Submission, ora: Oracle, nm: Numbering, c: nat)
    requires sub.stages >= 1 && Numbered(sub, nm) && c < |sub.testdata| && Reached(sub, nm, c)
    requires forall i :: !Rejected(sub, ora, nm, i)
    ensures !Skipped(sub, ora, nm, c)
  {
    if Skipped(sub, ora, nm, c) {
      NothingSkipped(sub, ora, nm, c);
      var h :| InGroup(sub, c, h) && forall e :: EarlierIn(sub, nm, c, h, e) ==> Counted(sub, e);
      var e := SkippedHasCulprit(sub, ora, nm, c, h);
      assert Rejected(sub, ora, nm, e);
    }
  }

  /** A judge of type SKIP accepts nothing: its scoring task is finalized with an empty result. */
  lemma {:induction false} SkipAcceptsNothing(sub: Submission, ora: Oracle, i: nat, p: nat)
    requires sub.stages >= 1 && i < |sub.testdata| && p <= ChainLen(sub) && sub.specjudge.SKIP?
    ensures Chain(sub, ora, i, p).verdict != AC
  {
    if p > 0 {
      SkipAcceptsNothing(sub, ora, i, p - 1);
      SkipStep(sub, ora, ChainTask(sub, i, p - 1), Chain(sub, ora, i, p - 1));
    }
  }

  lemma SkipStep(sub: Submission, ora: Oracle, t: Task, r: TdResult)
    requires (t.Execute? || t.Scoring?) && t.td < |sub.testdata| && sub.specjudge.SKIP? && r.verdict != AC
    ensures TdStep(sub, ora, t, r).verdict != AC
  {
  }

  lemma AcceptanceSuffices(sub: Submission, ora: Oracle, nm: Numbering)
    requires sub.stages >= 1 && Numbered(sub, nm) && SerialAcceptanceKept(sub, nm)
    ensures SerialVerdict(sub, ora, nm) == AC <==> ReferenceVerdict(WithoutSkipping(sub), ora) == AC
  {
    if CompileVerdict(sub, ora, AllCompiles(sub)) == NUL {
      SerialAcceptedIff(sub, ora, nm);
      ReferenceAcceptedIff(sub, ora);
      if forall i :: !Rejected(sub, ora, nm, i) { AllAccepted(sub, ora, nm); }
    } else {
      CompilesIgnoreSwitch(sub, ora);
      CompileVerdictIsSevere(sub, ora, AllCompiles(sub));
    }
  }

  lemma AllAccepted(sub: Submission, ora: Oracle, nm: Numbering)
    requires sub.stages >= 1 && Numbered(sub, nm) && SerialAcceptanceKept(sub, nm)
    requires forall i :: !Rejected(sub, ora, nm, i)
    ensures forall i :: Counted(sub, i) ==> Final(sub, ora, i).verdict == AC
  {
    forall c | Counted(sub, c) ensures Final(sub, ora, c).verdict == AC {
      assert !Rejected(sub, ora, nm, c);
      if Skipped(sub, ora, nm, c) {
        NothingSkipped(sub, ora, nm, c);
        if sub.specjudge.SKIP? {
          var d :| Counted(sub, d) && Reached(sub, nm, d);
          ReachedIsJudged(sub, ora, nm, d);
          SkipAcceptsNothing(sub, ora, d, ChainLen(sub));
          assert Rejected(sub, ora, nm, d);
        } else {
          ReachedIsJudged(sub, ora, nm, c);
        }
      }
    }
  }

  /* ---- outcomes that show the conditions are needed ---- */

  /** Everything compiles and runs within the limits (with zero usage, unless a limit is negative);
      the judge accepts the testdata in `good` and no other, and gives `score` where it may. */
  function Marked(sub: Submission, good: set<nat>, score: nat -> Score): Oracle {
    (id: int, t: Task, r: TdResult) => MarkedOutcome(sub, good, score, t)
  }

  function MarkedOutcome(sub: Submission, good: set<nat>, score: nat -> Score, t: Task): Outcome {
    match t
    case Execute(i, j) =>
      if i < |sub.testdata| then
        EMPTY_OUTCOME.(utime := if j == 0 then Min(0, sub.testdata[i].time) else 0,
                       hiwaterVm := Min(0, sub.testdata[i].vss), maxrss := Min(0, sub.testdata[i].rss))
      else EMPTY_OUTCOME
    case Scoring(i, _) =>
      EMPTY_OUTCOME.(siCode := EXITED, siStatus := if sub.specjudge.SPECJUDGE_KATTIS? then 42 else 0,
                     judge := JudgeReport(i in good, if i in good then AC else WA, score(i), 0, 0, 0))
    case _ => EMPTY_OUTCOME
  }

  /** Before its first scoring a testdata is clean; from then on it has its final result. */
  ghost predicate MarkedAt(sub: Submission, good: set<nat>, score: nat -> Score, i: nat, p: nat, r: TdResult)
    requires sub.stages >= 1 && i < |sub.testdata| && p <= ChainLen(sub)
  {
    var lim := sub.testdata[i];
    if p == 0 then r == NO_RESULT
    else if p <= (if sub.judgeBetweenStages then 1 else sub.stages) then
      r.verdict.NUL? && !r.skipStage && r.time == Min(0, lim.time) && r.vss == Min(0, lim.vss)
        && r.rss == Min(0, lim.rss)
    else
      && r.verdict == (if i in good then AC else WA)
      && r.score == MarkedScore(sub, good, score, i)
      && (r.skipStage || p == ChainLen(sub))
  }

  function MarkedScore(sub: Submission, good: set<nat>, score: nat -> Score, i: nat): int {
    if sub.specjudge.NORMAL? then if i in good then FULL_SCORE else 0 else score(i)
  }

  lemma {:induction false} MarkedChain(sub: Submission, good: set<nat>, score: nat -> Score, i: nat, p: nat)
    requires sub.stages >= 1 && i < |sub.testdata| && p <= ChainLen(sub) && !sub.specjudge.SKIP?
    ensures MarkedAt(sub, good, score, i, p, Chain(sub, Marked(sub, good, score), i, p))
  {
    if p > 0 {
      var ora := Marked(sub, good, score);
      MarkedChain(sub, good, score, i, p - 1);
      LastTask(sub, i, p - 1);
      FirstTask(sub, i, p - 1);
      MarkedStep(sub, good, score, i, p - 1, Chain(sub, ora, i, p - 1));
    }
  }

  lemma MarkedStep(sub: Submission, good: set<nat>, score: nat -> Score, i: nat, p: nat, r: TdResult)
    requires sub.stages >= 1 && i < |sub.testdata| && p < ChainLen(sub) && !sub.specjudge.SKIP?
    requires MarkedAt(sub, good, score, i, p, r)
    ensures MarkedAt(sub, good, score, i, p + 1, TdStep(sub, Marked(sub, good, score), ChainTask(sub, i, p), r))
  {
    LastTask(sub, i, p);
    FirstTask(sub, i, p);
  }

  lemma MarkedFinal(sub: Submission, good: set<nat>, score: nat -> Score, i: nat)
    requires sub.stages >= 1 && i < |sub.testdata| && !sub.specjudge.SKIP?
    ensures Final(sub, Marked(sub, good, score), i).verdict == if i in good then AC else WA
    ensures Final(sub, Marked(sub, good, score), i).score == MarkedScore(sub, good, score, i)
  {
    MarkedChain(sub, good, score, i, ChainLen(sub));
  }

  lemma MarkedCompiles(sub: Submission, good: set<nat>, score: nat -> Score, ran: set<Task>)
    ensures CompileVerdict(sub, Marked(sub, good, score), ran) == NUL
  {
  }

  /** Outcomes that differ only at a skipped testdata leave the same results. */
  lemma {:induction false} SameLost(sub: Submission, a: Oracle, b: Oracle, nm: Numbering, c: nat, k: nat)
    requires sub.stages >= 1 && Numbered(sub, nm) && k <= |sub.testdata| && c < |sub.testdata| && Skipped(sub, a, nm, c)
    requires forall i: nat :: i < |sub.testdata| && i != c ==> Final(sub, a, i) == Final(sub, b, i)
    ensures Lost(sub, a, nm, k) == Lost(sub, b, nm, k)
  {
    if k > 0 {
      SameLost(sub, a, b, nm, c, k - 1);
      var i := nm.inv[k - 1];
      assert i != c ==> Final(sub, a, i) == Final(sub, b, i);
    }
  }

  lemma SameSkips(sub: Submission, a: Oracle, b: Oracle, nm: Numbering, c: nat, i: nat)
    requires sub.stages >= 1 && Numbered(sub, nm) && c < |sub.testdata| && Skipped(sub, a, nm, c) && i < |sub.testdata|
    requires forall j: nat :: j < |sub.testdata| && j != c ==> Final(sub, a, j) == Final(sub, b, j)
    ensures Skipped(sub, a, nm, i) == Skipped(sub, b, nm, i)
  {
    SameLost(sub, a, b, nm, c, nm.order[i]);
  }

  lemma {:induction false} SameLength(sub: Submission, a: Oracle, b: Oracle, nm: Numbering, m: nat)
    requires sub.stages >= 1 && Numbered(sub, nm) && m <= |sub.testdata|
    requires forall i: nat :: i < |sub.testdata| ==> Skipped(sub, a, nm, i) == Skipped(sub, b, nm, i)
    ensures SerialLength(sub, a, nm, m) == SerialLength(sub, b, nm, m)
  {
    if m > 0 { SameLength(sub, a, b, nm, m - 1); }
  }

  lemma SameSerialResults(sub: Submission, a: Oracle, b: Oracle, nm: Numbering, c: nat)
    requires sub.stages >= 1 && Numbered(sub, nm) && c < |sub.testdata| && Skipped(sub, a, nm, c)
    requires forall i: nat :: i < |sub.testdata| && i != c ==> Final(sub, a, i) == Final(sub, b, i)
    ensures SerialResults(sub, a, nm) == SerialResults(sub, b, nm)
  {
    forall i: nat | i < |sub.testdata| ensures Skipped(sub, a, nm, i) == Skipped(sub, b, nm, i) {
      SameSkips(sub, a, b, nm, c, i);
    }
    SameLength(sub, a, b, nm, |sub.testdata|);
    SerialLengthBound(sub, a, nm);
    assert |SerialResults(sub, a, nm)| == |SerialResults(sub, b, nm)|;
    forall i: nat | i < |SerialResults(sub, a, nm)|
      ensures SerialResults(sub, a, nm)[i] == SerialResults(sub, b, nm)[i]
    {
      hide Skipped, SerialResults;
      SerialResultAt(sub, a, nm, i);
      SerialResultAt(sub, b, nm, i);
      assert i != c ==> Final(sub, a, i) == Final(sub, b, i);
    }
  }

  /** Each group of c has an earlier testdata that is not in `good`. */
  ghost predicate CanBeGivenUp(sub: Submission, nm: Numbering, good: set<nat>, c: nat)
    requires |nm.order| == |sub.testdata| && c < |sub.testdata|
  {
    && sub.skipGroup && sub.testdata[c].groups != []
    && forall h :: InGroup(sub, c, h) ==> exists e :: EarlierIn(sub, nm, c, h, e) && e !in good
  }

  lemma MarkedSkips(sub: Submission, nm: Numbering, good: set<nat>, score: nat -> Score, c: nat)
    requires sub.stages >= 1 && Numbered(sub, nm) && !sub.specjudge.SKIP? && c < |sub.testdata|
    requires CanBeGivenUp(sub, nm, good, c)
    ensures Skipped(sub, Marked(sub, good, score), nm, c)
  {
    var ora := Marked(sub, good, score);
    forall h | InGroup(sub, c, h) ensures exists e :: EarlierIn(sub, nm, c, h, e) && Final(sub, ora, e).verdict != AC {
      var e :| EarlierIn(sub, nm, c, h, e) && e !in good;
      MarkedFinal(sub, good, score, e);
    }
    FailuresSkip(sub, ora, nm, c);
  }

  lemma {:induction false} SameMarkedChain(sub: Submission, good: set<nat>, good': set<nat>, score: nat -> Score,
                                           score': nat -> Score, i: nat, p: nat)
    requires sub.stages >= 1 && i < |sub.testdata| && p <= ChainLen(sub)
    requires (i in good <==> i in good') && score(i) == score'(i)
    ensures Chain(sub, Marked(sub, good, score), i, p) == Chain(sub, Marked(sub, good', score'), i, p)
  {
    if p > 0 {
      SameMarkedChain(sub, good, good', score, score', i, p - 1);
      var t := ChainTask(sub, i, p - 1);
      assert MarkedOutcome(sub, good, score, t) == MarkedOutcome(sub, good', score', t);
    }
  }

  /** Accepting a skipped testdata or not, and whatever its score, the results are the same. */
  lemma MarkedTwice(sub: Submission, nm: Numbering, good: set<nat>, good': set<nat>, score: nat -> Score,
                    score': nat -> Score, c: nat)
    requires sub.stages >= 1 && Numbered(sub, nm) && !sub.specjudge.SKIP? && c < |sub.testdata|
    requires CanBeGivenUp(sub, nm, good, c)
    requires forall i: nat :: i != c ==> (i in good <==> i in good') && score(i) == score'(i)
    ensures SerialResults(sub, Marked(sub, good, score), nm) == SerialResults(sub, Marked(sub, good', score'), nm)
  {
    forall i: nat | i < |sub.testdata| && i != c
      ensures Final(sub, Marked(sub, good, score), i) == Final(sub, Marked(sub, good', score'), i)
    {
      SameMarkedChain(sub, good, good', score, score', i, ChainLen(sub));
    }
    MarkedSkips(sub, nm, good, score, c);
    SameSerialResults(sub, Marked(sub, good, score), Marked(sub, good', score'), nm, c);
  }

  function AllCounted(sub: Submission): set<nat> { set i: nat | i < |sub.testdata| && Counted(sub, i) }

  function NoScore(i: nat): Score { 0 }

  lemma NotReached(sub: Submission, nm: Numbering, c: nat)
    requires |nm.order| == |sub.testdata| && c < |sub.testdata| && !Reached(sub, nm, c) && sub.skipGroup
    ensures CanBeGivenUp(sub, nm, AllCounted(sub), c)
  {
    forall h | InGroup(sub, c, h) ensures exists e :: EarlierIn(sub, nm, c, h, e) && e !in AllCounted(sub) {
      var e :| EarlierIn(sub, nm, c, h, e) && !Counted(sub, e);
      assert e !in AllCounted(sub);
    }
  }

  /** Where a counted testdata is not reached, some outcome is reported wrong. */
  lemma AcceptanceFails(sub: Submission, nm: Numbering) returns (ora: Oracle)
    requires sub.stages >= 1 && Numbered(sub, nm) && !SerialAcceptanceKept(sub, nm)
    ensures (SerialVerdict(sub, ora, nm) == AC) != (ReferenceVerdict(WithoutSkipping(sub), ora) == AC)
  {
    if sub.specjudge.SKIP? {
      ora := SkipFails(sub, nm);
    } else {
      var c: nat :| Counted(sub, c) && !Reached(sub, nm, c);
      NotReached(sub, nm, c);
      ora := OneOfTwoFails(sub, nm, c);
    }
  }

  /** All counted testdata are accepted, or all but c. */
  lemma AcceptedApart(sub: Submission, c: nat)
    requires sub.stages >= 1 && !sub.specjudge.SKIP? && Counted(sub, c)
    ensures var all := AllCounted(sub);
            && ReferenceVerdict(WithoutSkipping(sub), Marked(sub, all, NoScore)) == AC
            && ReferenceVerdict(WithoutSkipping(sub), Marked(sub, all - {c}, NoScore)) != AC
  {
    var all := AllCounted(sub);
    var most := all - {c};
    var a, b := Marked(sub, all, NoScore), Marked(sub, most, NoScore);
    MarkedCompiles(sub, all, NoScore, AllCompiles(sub));
    MarkedCompiles(sub, most, NoScore, AllCompiles(sub));
    ReferenceAcceptedIff(sub, a);
    ReferenceAcceptedIff(sub, b);
    MarkedFinal(sub, most, NoScore, c);
    forall i | Counted(sub, i) ensures Final(sub, a, i).verdict == AC { MarkedFinal(sub, all, NoScore, i); }
  }

  lemma OneOfTwoFails(sub: Submission, nm: Numbering, c: nat) returns (ora: Oracle)
    requires sub.stages >= 1 && Numbered(sub, nm) && !sub.specjudge.SKIP?
    requires Counted(sub, c) && CanBeGivenUp(sub, nm, AllCounted(sub), c)
    ensures (SerialVerdict(sub, ora, nm) == AC) != (ReferenceVerdict(WithoutSkipping(sub), ora) == AC)
  {
    var all := AllCounted(sub);
    var most := all - {c};
    var a, b := Marked(sub, all, NoScore), Marked(sub, most, NoScore);
    MarkedTwice(sub, nm, all, most, NoScore, NoScore, c);
    MarkedCompiles(sub, all, NoScore, AllCompiles(sub));
    MarkedCompiles(sub, most, NoScore, AllCompiles(sub));
    AcceptedApart(sub, c);
    hide Marked, CompileVerdict, SerialResults, ReferenceVerdict, WorstVerdict;
    ora := if SerialVerdict(sub, a, nm) == AC then b else a;
  }

  lemma SkipFails(sub: Submission, nm: Numbering) returns (ora: Oracle)
    requires sub.stages >= 1 && Numbered(sub, nm) && !SerialAcceptanceKept(sub, nm) && sub.specjudge.SKIP?
    ensures (SerialVerdict(sub, ora, nm) == AC) != (ReferenceVerdict(WithoutSkipping(sub), ora) == AC)
  {
    ora := Marked(sub, {}, NoScore);
    MarkedCompiles(sub, {}, NoScore, AllCompiles(sub));
    SerialAcceptedIff(sub, ora, nm);
    ReferenceAcceptedIff(sub, ora);
    var d :| Counted(sub, d);
    SkipAcceptsNothing(sub, ora, d, ChainLen(sub));
    forall c: nat ensures !Rejected(sub, ora, nm, c) {
      if Counted(sub, c) { UnreachedIsSkipped(sub, ora, nm, c); }
    }
  }

  lemma UnreachedIsSkipped(sub: Submission, ora: Oracle, nm: Numbering, c: nat)
    requires sub.stages >= 1 && Numbered(sub, nm) && sub.specjudge.SKIP? && sub.skipGroup
    requires c < |sub.testdata| && !Reached(sub, nm, c)
    ensures Skipped(sub, ora, nm, c)
  {
    forall h | InGroup(sub, c, h) ensures exists e :: EarlierIn(sub, nm, c, h, e) && Final(sub, ora, e).verdict != AC {
      var e :| EarlierIn(sub, nm, c, h, e) && !Counted(sub, e);
      SkipAcceptsNothing(sub, ora, e, ChainLen(sub));
    }
    FailuresSkip(sub, ora, nm, c);
  }

  /** Exactly which submissions one worker accepts rightly, whatever their outcomes. */
  lemma AcceptanceIff(sub: Submission, nm: Numbering)
    requires sub.stages >= 1 && Numbered(sub, nm)
    ensures SerialAcceptanceKept(sub, nm) <==>
            forall ora: Oracle :: SerialVerdict(sub, ora, nm) == AC <==>
              ReferenceVerdict(WithoutSkipping(sub), ora) == AC
  {
    if SerialAcceptanceKept(sub, nm) {
      forall ora: Oracle
        ensures SerialVerdict(sub, ora, nm) == AC <==> ReferenceVerdict(WithoutSkipping(sub), ora) == AC
      {
        AcceptanceSuffices(sub, ora, nm);
      }
    } else {
      var ora := AcceptanceFails(sub, nm);
    }
  }

  /* ---- scores of groups ---- */

  ghost function SerialGroupScore(sub: Submission, ora: Oracle, nm: Numbering, g: nat): int
    requires sub.stages >= 1 && Numbered(sub, nm)
  {
    EffectiveScore(sub, SerialResults(sub, ora, nm), g)
  }

  function ReferenceGroupScore(sub: Submission, ora: Oracle, g: nat): int
    requires sub.stages >= 1
  {
    EffectiveScore(sub, Alone(sub, ora), g)
  }

  lemma SerialBounded(sub: Submission, ora: Oracle, nm: Numbering)
    requires sub.stages >= 1 && Numbered(sub, nm)
    ensures ScoresBounded(SerialResults(sub, ora, nm))
  {
    var tds := SerialResults(sub, ora, nm);
    forall i: nat | i < |tds| ensures -MAX_SCORE <= tds[i].score <= MAX_SCORE {
      SerialResultAt(sub, ora, nm, i);
      RuntimeOnly(sub, ora, i, ChainLen(sub));
    }
  }

  /** If every counted member of a group is judged, the group keeps its score. */
  lemma JudgedGroupKeepsScore(sub: Submission, ora: Oracle, nm: Numbering, g: nat)
    requires sub.stages >= 1 && Numbered(sub, nm)
    requires forall c :: Counted(sub, c) && InGroup(sub, c, g) ==> !Skipped(sub, ora, nm, c)
    ensures SerialGroupScore(sub, ora, nm, g) == ReferenceGroupScore(sub, ora, g)
  {
    var tds, alone := SerialResults(sub, ora, nm), Alone(sub, ora);
    SerialBounded(sub, ora, nm);
    AloneBounded(sub, ora);
    hide SerialResults, Skipped;
    forall i: nat | i < |sub.testdata| && Counts(sub, i, g) ensures i < |tds| && tds[i] == alone[i] {
      assert Counted(sub, i) && InGroup(sub, i, g);
      SerialResultAt(sub, ora, nm, i);
    }
    SerialLengthBound(sub, ora, nm);
    MembersAgree(sub, tds, alone, g);
  }

  /** With 0/100 scoring a rejected member makes the score of its group zero on both sides. */
  lemma RejectedGroupIsZero(sub: Submission, ora: Oracle, nm: Numbering, g: nat, i: nat)
    requires sub.stages >= 1 && Numbered(sub, nm) && ZeroOrFull(sub, ora)
    requires Rejected(sub, ora, nm, i) && InGroup(sub, i, g)
    ensures SerialGroupScore(sub, ora, nm, g) == ReferenceGroupScore(sub, ora, g) == 0
  {
    var tds, alone := SerialResults(sub, ora, nm), Alone(sub, ora);
    SerialLengthBound(sub, ora, nm);
    hide SerialResults, Skipped;
    forall j: nat | j < |sub.testdata|
      ensures 0 <= alone[j].score <= FULL_SCORE && (j < |tds| ==> 0 <= tds[j].score <= FULL_SCORE)
    {
      ZeroOrFullChain(sub, ora, j, ChainLen(sub));
      SerialResultAt(sub, ora, nm, j);
    }
    ZeroOrFullChain(sub, ora, i, ChainLen(sub));
    SerialResultAt(sub, ora, nm, i);
    assert Counts(sub, i, g);
    ZeroMember(sub, tds, g, i);
    ZeroMember(sub, alone, g, i);
  }

  lemma ZeroMember(sub: Submission, tds: seq<TdResult>, g: nat, i: nat)
    requires |tds| <= |sub.testdata| && i < |tds| && Counts(sub, i, g) && tds[i].score == 0
    requires forall j :: 0 <= j < |tds| ==> 0 <= tds[j].score <= FULL_SCORE
    ensures EffectiveScore(sub, tds, g) == 0
  {
    GroupScoreIsMin(sub, tds, g, |tds|);
    assert HasMember(sub, g, |tds|);
  }

  lemma ScoreSuffices(sub: Submission, ora: Oracle, nm: Numbering, g: nat)
    requires sub.stages >= 1 && Numbered(sub, nm) && SerialScoreKept(sub, nm, g) && ZeroOrFull(sub, ora)
    ensures SerialGroupScore(sub, ora, nm, g) == ReferenceGroupScore(sub, ora, g)
  {
    if i: nat :| Rejected(sub, ora, nm, i) && InGroup(sub, i, g) {
      RejectedGroupIsZero(sub, ora, nm, g, i);
    } else {
      forall c | Counted(sub, c) && InGroup(sub, c, g) ensures !Skipped(sub, ora, nm, c) {
        MemberIsJudged(sub, ora, nm, g, c);
      }
      JudgedGroupKeepsScore(sub, ora, nm, g);
    }
  }

  lemma MemberIsJudged(sub: Submission, ora: Oracle, nm: Numbering, g: nat, c: nat)
    requires sub.stages >= 1 && Numbered(sub, nm) && SerialScoreKept(sub, nm, g) && Counted(sub, c)
    requires InGroup(sub, c, g)
    requires forall i: nat :: !(Rejected(sub, ora, nm, i) && InGroup(sub, i, g))
    ensures !Skipped(sub, ora, nm, c)
  {
    if Skipped(sub, ora, nm, c) {
      NothingSkipped(sub, ora, nm, c);
      assert ReachedIn(sub, nm, g, c);
      var h :| InGroup(sub, c, h) && forall e :: EarlierIn(sub, nm, c, h, e) ==> Counted(sub, e) && InGroup(sub, e, g);
      var e := SkippedHasCulprit(sub, ora, nm, c, h);
      assert Rejected(sub, ora, nm, e) && InGroup(sub, e, g);
    }
  }

  lemma PartialScoreSuffices(sub: Submission, ora: Oracle, nm: Numbering, g: nat)
    requires sub.stages >= 1 && Numbered(sub, nm) && PartialScoreKept(sub, nm, g)
    ensures SerialGroupScore(sub, ora, nm, g) == ReferenceGroupScore(sub, ora, g)
  {
    forall c | Counted(sub, c) && InGroup(sub, c, g) ensures !Skipped(sub, ora, nm, c) {
      if Skipped(sub, ora, nm, c) {
        NothingSkipped(sub, ora, nm, c);
        assert AlwaysReached(sub, nm, c);
        var h :| InGroup(sub, c, h) && forall e :: !EarlierIn(sub, nm, c, h, e);
        var e := SkippedHasCulprit(sub, ora, nm, c, h);
      }
    }
    JudgedGroupKeepsScore(sub, ora, nm, g);
  }

  /* ---- and the conditions are needed ---- */

  function Hundred(good: set<nat>): nat -> Score { i => if i in good then FULL_SCORE else 0 }

  /** The counted members of group g. */
  function MembersOf(sub: Submission, g: nat): set<nat> {
    set i: nat | i < |sub.testdata| && Counted(sub, i) && InGroup(sub, i, g)
  }

  lemma ReferenceIsScore(sub: Submission, good: set<nat>, score: nat -> Score, g: nat, c: nat, x: int)
    requires sub.stages >= 1 && !sub.specjudge.SKIP? && Counted(sub, c) && InGroup(sub, c, g)
    requires MarkedScore(sub, good, score, c) == x
    requires forall i: nat :: i in MembersOf(sub, g) ==> MarkedScore(sub, good, score, i) >= x
    requires -MAX_SCORE <= x <= MAX_SCORE
    ensures ReferenceGroupScore(sub, Marked(sub, good, score), g) == x
  {
    var ora := Marked(sub, good, score);
    var alone := Alone(sub, ora);
    AloneBounded(sub, ora);
    GroupScoreIsMin(sub, alone, g, |alone|);
    MarkedFinal(sub, good, score, c);
    assert Counts(sub, c, g) && HasMember(sub, g, |alone|);
    forall i: nat | i < |alone| && Counts(sub, i, g) ensures alone[i].score >= x {
      MarkedFinal(sub, good, score, i);
      assert i in MembersOf(sub, g);
    }
  }

  /** Two outcomes that differ only in the score of a testdata given up: one score must be wrong. */
  lemma OneScoreFails(sub: Submission, nm: Numbering, good: set<nat>, good': set<nat>, score: nat -> Score,
                      score': nat -> Score, g: nat, c: nat, x: int, y: int)
    returns (ora: Oracle)
    requires sub.stages >= 1 && Numbered(sub, nm) && !sub.specjudge.SKIP? && Counted(sub, c) && InGroup(sub, c, g)
    requires CanBeGivenUp(sub, nm, good, c) && x != y
    requires forall i: nat :: i != c ==> (i in good <==> i in good') && score(i) == score'(i)
    requires ReferenceGroupScore(sub, Marked(sub, good, score), g) == x
    requires ReferenceGroupScore(sub, Marked(sub, good', score'), g) == y
    ensures ora == Marked(sub, good, score) || ora == Marked(sub, good', score')
    ensures CompileVerdict(sub, ora, AllCompiles(sub)) == NUL
    ensures SerialGroupScore(sub, ora, nm, g) != ReferenceGroupScore(sub, ora, g)
  {
    var a, b := Marked(sub, good, score), Marked(sub, good', score');
    MarkedTwice(sub, nm, good, good', score, score', c);
    MarkedCompiles(sub, good, score, AllCompiles(sub));
    MarkedCompiles(sub, good', score', AllCompiles(sub));
    ora := if SerialGroupScore(sub, a, nm, g) == x then b else a;
  }

  lemma HundredIsZeroOrFull(sub: Submission, good: set<nat>)
    ensures ZeroOrFull(sub, Marked(sub, good, Hundred(good)))
  {
  }

  /** A member of group g that others can have given up while all of group g are accepted. */
  lemma LosableMember(sub: Submission, nm: Numbering, g: nat) returns (c: nat)
    requires sub.stages >= 1 && Numbered(sub, nm) && !SerialScoreKept(sub, nm, g)
    ensures Counted(sub, c) && InGroup(sub, c, g) && CanBeGivenUp(sub, nm, MembersOf(sub, g), c)
  {
    c :| Counted(sub, c) && InGroup(sub, c, g) && !ReachedIn(sub, nm, g, c);
    var all := MembersOf(sub, g);
    forall h | InGroup(sub, c, h) ensures exists e :: EarlierIn(sub, nm, c, h, e) && e !in all {
      var e :| EarlierIn(sub, nm, c, h, e) && !(Counted(sub, e) && InGroup(sub, e, g));
    }
    assert g in sub.testdata[c].groups;
  }

  lemma ScoreFails(sub: Submission, nm: Numbering, g: nat) returns (ora: Oracle)
    requires sub.stages >= 1 && Numbered(sub, nm) && !sub.specjudge.SKIP? && !SerialScoreKept(sub, nm, g)
    ensures CompileVerdict(sub, ora, AllCompiles(sub)) == NUL
    ensures ZeroOrFull(sub, ora) && SerialGroupScore(sub, ora, nm, g) != ReferenceGroupScore(sub, ora, g)
  {
    var c := LosableMember(sub, nm, g);
    var all := MembersOf(sub, g);
    var most := all - {c};
    HundredIsZeroOrFull(sub, all);
    HundredIsZeroOrFull(sub, most);
    hide ZeroOrFull, Marked, EarlierIn, ReachedIn, CompileVerdict, SerialGroupScore, ReferenceGroupScore;
    ReferenceIsScore(sub, all, Hundred(all), g, c, FULL_SCORE);
    ReferenceIsScore(sub, most, Hundred(most), g, c, 0);
    ora := OneScoreFails(sub, nm, all, most, Hundred(all), Hundred(most), g, c, FULL_SCORE, 0);
  }

  function AllButOne(c: nat, x: Score): nat -> Score { i => if i == c then x else FULL_SCORE }

  /** A member of group g that is given up when nothing is accepted. */
  lemma UnopenedMember(sub: Submission, nm: Numbering, g: nat) returns (c: nat)
    requires sub.stages >= 1 && Numbered(sub, nm) && !PartialScoreKept(sub, nm, g)
    ensures Counted(sub, c) && InGroup(sub, c, g) && CanBeGivenUp(sub, nm, {}, c)
  {
    c :| Counted(sub, c) && InGroup(sub, c, g) && !AlwaysReached(sub, nm, c);
    forall h | InGroup(sub, c, h) ensures exists e :: EarlierIn(sub, nm, c, h, e) && e !in {} {
      var e :| EarlierIn(sub, nm, c, h, e);
      assert e !in {};
    }
    assert g in sub.testdata[c].groups;
  }

  lemma PartialScoreFails(sub: Submission, nm: Numbering, g: nat) returns (ora: Oracle)
    requires sub.stages >= 1 && Numbered(sub, nm) && !sub.specjudge.SKIP? && !sub.specjudge.NORMAL?
    requires !PartialScoreKept(sub, nm, g)
    ensures CompileVerdict(sub, ora, AllCompiles(sub)) == NUL
    ensures SerialGroupScore(sub, ora, nm, g) != ReferenceGroupScore(sub, ora, g)
  {
    var c := UnopenedMember(sub, nm, g);
    ReferenceIsScore(sub, {}, AllButOne(c, 0), g, c, 0);
    ReferenceIsScore(sub, {}, AllButOne(c, FULL_SCORE), g, c, FULL_SCORE);
    ora := OneScoreFails(sub, nm, {}, {}, AllButOne(c, 0), AllButOne(c, FULL_SCORE), g, c, 0, FULL_SCORE);
  }

  /** Exactly which groups one worker scores rightly, whatever the outcomes: with 0/100 scoring, and with
      the partial scores of a special judge. */
  lemma ScoreIff(sub: Submission, nm: Numbering, g: nat)
    requires sub.stages >= 1 && Numbered(sub, nm) && !sub.specjudge.SKIP?
    ensures SerialScoreKept(sub, nm, g) <==>
            forall ora: Oracle :: ZeroOrFull(sub, ora) ==>
              SerialGroupScore(sub, ora, nm, g) == ReferenceGroupScore(sub, ora, g)
    ensures !sub.specjudge.NORMAL? ==>
            (PartialScoreKept(sub, nm, g) <==>
             forall ora: Oracle :: SerialGroupScore(sub, ora, nm, g) == ReferenceGroupScore(sub, ora, g))
  {
    if SerialScoreKept(sub, nm, g) {
      forall ora: Oracle | ZeroOrFull(sub, ora)
        ensures SerialGroupScore(sub, ora, nm, g) == ReferenceGroupScore(sub, ora, g)
      {
        ScoreSuffices(sub, ora, nm, g);
      }
    } else {
      var ora := ScoreFails(sub, nm, g);
    }
    if PartialScoreKept(sub, nm, g) {
      forall ora: Oracle ensures SerialGroupScore(sub, ora, nm, g) == ReferenceGroupScore(sub, ora, g) {
        PartialScoreSuffices(sub, ora, nm, g);
      }
    } else if !sub.specjudge.NORMAL? {
      var ora := PartialScoreFails(sub, nm, g);
    }
  }

  lemma GroupIsKept(sub: Submission, ora: Oracle, nm: Numbering, g: nat)
    requires sub.stages >= 1 && Numbered(sub, nm)
    requires (SerialScoreKept(sub, nm, g) && ZeroOrFull(sub, ora)) || PartialScoreKept(sub, nm, g)
    ensures SerialGroupScore(sub, ora, nm, g) == ReferenceGroupScore(sub, ora, g)
  {
    hide SerialScoreKept, ZeroOrFull, PartialScoreKept, SerialGroupScore, ReferenceGroupScore;
    if PartialScoreKept(sub, nm, g) { PartialScoreSuffices(sub, ora, nm, g); } else { ScoreSuffices(sub, ora, nm, g); }
  }

  lemma SameSums(sub: Submission, ora: Oracle, nm: Numbering)
    requires sub.stages >= 1 && Numbered(sub, nm)
    requires forall g :: 0 <= g < |sub.groupScore| && sub.groupScore[g] != 0 ==>
               (SerialScoreKept(sub, nm, g) && ZeroOrFull(sub, ora)) || PartialScoreKept(sub, nm, g)
    ensures |SerialResults(sub, ora, nm)| <= |sub.testdata|
    ensures WeightedSum(sub, SerialResults(sub, ora, nm), |sub.groupScore|) ==
            WeightedSum(WithoutSkipping(sub), Alone(sub, ora), |sub.groupScore|)
  {
    hide SerialResults, Alone, PartialScoreKept, SerialScoreKept, ZeroOrFull, GroupScore, Numbered;
    SerialLengthBound(sub, ora, nm);
    var tds, alone := SerialResults(sub, ora, nm), Alone(sub, ora);
    AloneLength(sub, ora);
    forall g | 0 <= g < |sub.groupScore| && sub.groupScore[g] != 0
      ensures EffectiveScore(sub, tds, g) == EffectiveScore(WithoutSkipping(sub), alone, g)
    {
      GroupIsKept(sub, ora, nm, g);
      GroupScoreIgnoresSwitch(sub, alone, g, |alone|);
    }
    SameGroupsSameSum(sub, tds, WithoutSkipping(sub), alone, |sub.groupScore|);
  }

  lemma AloneLength(sub: Submission, ora: Oracle)
    requires sub.stages >= 1
    ensures |Alone(sub, ora)| == |sub.testdata|
  {
  }

  /** The total follows: right if every group that has a weight is. */
  lemma TotalSuffices(sub: Submission, ora: Oracle, nm: Numbering)
    requires sub.stages >= 1 && Numbered(sub, nm)
    requires forall g :: 0 <= g < |sub.groupScore| && sub.groupScore[g] != 0 ==>
               (SerialScoreKept(sub, nm, g) && ZeroOrFull(sub, ora)) || PartialScoreKept(sub, nm, g)
    ensures SerialTotals(sub, ora, nm).score == ReferenceTotals(WithoutSkipping(sub), ora).score
  {
    hide SerialResults, Alone, PartialScoreKept, SerialScoreKept, ZeroOrFull, CompileVerdict, WeightedSum;
    CompilesIgnoreSwitch(sub, ora);
    AloneIgnoresSwitch(sub, ora);
    AloneLength(sub, ora);
    SameSums(sub, ora, nm);
  }
}
