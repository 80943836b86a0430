/** Runs with one worker and group skipping: exactly which submissions they serve right. */
module OneWorker {
  import opened Types
  import opened TestdataRun
  import Totals
  import LifecycleInv
  import opened Outcomes
  import GroupSkip
  import opened Serial
  import Closing
  import opened World
  import Finishing
  import Arrivals
  import Draining
  import SerialRuns
  import opened SerialSkipping
  import opened ReportedTotals

  /** A run with one worker in which `sub`, numbered `nm`, is finished and not superseded. */
  ghost predicate Judges(ws: seq<World>, acts: seq<Action>, ora: Oracle, sub: Submission, nm: Numbering) {
    IsRun(ws, acts, ora, 1) && JudgedIn(ws[|acts|], sub, nm)
  }

  ghost predicate JudgedIn(w: World, sub: Submission, nm: Numbering) {
    var id := sub.internalId;
    && id in w.closed && w.closed[id].j.sub == sub && !w.closed[id].cancelled
    && id in w.numbering && w.numbering[id] == nm
  }

  /** Its overall report, the last thing in its log. */
  function ReportIn(w: World, sub: Submission): Report
    requires sub.internalId in w.closed
  {
    var log := w.closed[sub.internalId].h.log;
    if log == [] then OverallReport(NUL, 0, 0, 0) else log[|log| - 1]
  }

  lemma ReportedSerially(ws: seq<World>, acts: seq<Action>, ora: Oracle, sub: Submission, nm: Numbering)
    requires Judges(ws, acts, ora, sub, nm) && !sub.customSummary
    ensures sub.stages >= 1 && Numbered(sub, nm) && ReportIn(ws[|acts|], sub) == SerialRuns.SerialReport(sub, ora, nm)
  {
    SerialRuns.SerialDeterminism(ws, acts, ora, sub.internalId);
  }

  /** Nobody but `sub` arrives, and it comes first. */
  ghost predicate OnlyArrival(acts: seq<Action>, sub: Submission, nm: Numbering) {
    && |acts| > 0 && acts[0] == Action.Arrive(sub, nm)
    && forall m :: 1 <= m < |acts| ==> !acts[m].Arrive?
  }

  lemma JudgedIfAlone(ws: seq<World>, acts: seq<Action>, ora: Oracle, kmax: nat, sub: Submission, nm: Numbering)
    requires IsRun(ws, acts, ora, kmax) && OnlyArrival(acts, sub, nm) && ws[|acts|].live == map[]
    ensures JudgedIn(ws[|acts|], sub, nm)
  {
    Finishing.EveryArrivalIsJudged(ws, acts, ora, kmax, 0);
    Arrivals.NumberStays(ws, acts, ora, kmax, 0, |acts|);
    if LaterPush(ws[|acts|].pushes, sub.internalId, sub.submissionId) {
      var m := Arrivals.SupersededBy(ws, acts, ora, kmax, 0);
    }
    RunKeeps(ws, acts, ora, kmax, |acts|);
    Closing.ReportedOnce(ws[|acts|].closed[sub.internalId], ora);
  }

  lemma ArrivesFirst(sub: Submission, nm: Numbering, ora: Oracle, kmax: nat) returns (w: World)
    requires ValidSub(sub) && Numbered(sub, nm)
    ensures CanStep(EMPTY, kmax, Action.Arrive(sub, nm)) && w == Step(EMPTY, ora, kmax, Action.Arrive(sub, nm))
    ensures WInv(w, ora)
  {
    var a := Action.Arrive(sub, nm);
    w := Step(EMPTY, ora, kmax, a);
    EmptyIsGood(ora);
    hide CanStep, Step, WInv;
    StepWInv(EMPTY, ora, kmax, a);
  }

  /** With nothing else to do, whatever the outcomes, there is an eager run that puts off `last`. */
  lemma JudgedByItself(sub: Submission, nm: Numbering, ora: Oracle, kmax: nat, last: Key)
    returns (ws: seq<World>, acts: seq<Action>)
    requires ValidSub(sub) && Numbered(sub, nm) && kmax >= 1
    ensures IsRun(ws, acts, ora, kmax) && JudgedIn(ws[|acts|], sub, nm)
    ensures OnlyArrival(acts, sub, nm) && Draining.EagerAll(ws, acts, kmax, last)
  {
    hide CanStep, Step, WInv, JudgedIn, Draining.EagerAll;
    var a := Action.Arrive(sub, nm);
    var w1 := ArrivesFirst(sub, nm, ora, kmax);
    var ws1, acts1 := Draining.Drains(w1, ora, kmax, last);
    Draining.LeadsBack(ws1, acts1, ora, kmax, EMPTY, a, w1, ws1[|acts1|]);
    Draining.EagerBack(ws1, acts1, kmax, last, EMPTY, a);
    ws, acts := [EMPTY] + ws1, [a] + acts1;
    assert forall m :: 1 <= m < |acts| ==> acts[m] == acts1[m - 1];
    JudgedIfAlone(ws, acts, ora, kmax, sub, nm);
  }

  lemma JudgedByOne(sub: Submission, nm: Numbering, ora: Oracle) returns (ws: seq<World>, acts: seq<Action>)
    requires ValidSub(sub) && Numbered(sub, nm)
    ensures Judges(ws, acts, ora, sub, nm)
  {
    ws, acts := JudgedByItself(sub, nm, ora, 1, Key(sub.internalId, Summary));
  }

  lemma EmptyIsGood(ora: Oracle)
    ensures WInv(EMPTY, ora)
  {
  }

  ghost predicate AcceptedRightly(ws: seq<World>, acts: seq<Action>, ora: Oracle, sub: Submission)
  {
    && |ws| == |acts| + 1 && sub.internalId in ws[|acts|].closed && sub.stages >= 1
    && var report := ReportIn(ws[|acts|], sub);
       report.OverallReport? && (report.verdict == AC <==> ReferenceVerdict(GroupSkip.WithoutSkipping(sub), ora) == AC)
  }

  /** In every run with one worker, whatever the outcomes and whatever else is judged, the report accepts
      what judging everything would - if and only if the condition on the testdata and their numbers holds. */
  lemma OneWorkerAcceptsIff(sub: Submission, nm: Numbering)
    requires ValidSub(sub) && Numbered(sub, nm) && !sub.customSummary
    ensures SerialAcceptanceKept(sub, nm) <==>
            forall ws, acts, ora :: Judges(ws, acts, ora, sub, nm) ==>
              AcceptedRightly(ws, acts, ora, sub)
  {
    if SerialAcceptanceKept(sub, nm) {
      forall ws, acts, ora | Judges(ws, acts, ora, sub, nm)
        ensures AcceptedRightly(ws, acts, ora, sub)
      {
        ReportedSerially(ws, acts, ora, sub, nm);
        AcceptanceSuffices(sub, ora, nm);
      }
    } else {
      var ora := AcceptanceFails(sub, nm);
      var ws, acts := JudgedByOne(sub, nm, ora);
      ReportedSerially(ws, acts, ora, sub, nm);
      assert !AcceptedRightly(ws, acts, ora, sub);
    }
  }

  /* ---- scores ---- */

  /** What a compiled submission ends with is what is left when the testdata are judged in order. */
  lemma EndsSerially(ws: seq<World>, acts: seq<Action>, ora: Oracle, sub: Submission, nm: Numbering)
    requires Judges(ws, acts, ora, sub, nm)
    ensures sub.stages >= 1 && Numbered(sub, nm)
    ensures LifecycleInv.CompileVerdict(sub, ora, AllCompiles(sub)).NUL? ==>
              ws[|acts|].closed[sub.internalId].j.tds == SerialResults(sub, ora, nm)
  {
    SerialRuns.SerialRunKeeps(ws, acts, ora, |acts|);
    var l := ws[|acts|].closed[sub.internalId];
    var l0 :| SerialInv(l0, ora, nm) && Closing.FinishedBy(l0, l, ora);
    Closing.FinishedFacts(l0, l, ora);
    CompileVerdictAtEnd(l0, ora);
    if LifecycleInv.CompileVerdict(sub, ora, AllCompiles(sub)).NUL? { SerialResultsAtEnd(l0, ora, nm); }
  }

  /** Group g of a submission that compiled ends with the score it has when every testdata is judged. */
  ghost predicate ScoredRightly(ws: seq<World>, acts: seq<Action>, ora: Oracle, sub: Submission, g: nat)
  {
    && |ws| == |acts| + 1 && sub.internalId in ws[|acts|].closed && sub.stages >= 1
    && var tds := ws[|acts|].closed[sub.internalId].j.tds;
       LifecycleInv.CompileVerdict(sub, ora, AllCompiles(sub)).NUL? ==>
         |tds| <= |sub.testdata| && Totals.EffectiveScore(sub, tds, g) == Totals.EffectiveScore(sub, Alone(sub, ora), g)
  }

  lemma RightIfSerially(ws: seq<World>, acts: seq<Action>, ora: Oracle, sub: Submission, nm: Numbering, g: nat)
    requires Judges(ws, acts, ora, sub, nm)
    ensures sub.stages >= 1 && Numbered(sub, nm)
    ensures ScoredRightly(ws, acts, ora, sub, g) <==>
            (LifecycleInv.CompileVerdict(sub, ora, AllCompiles(sub)).NUL? ==>
               SerialGroupScore(sub, ora, nm, g) == ReferenceGroupScore(sub, ora, g))
  {
    EndsSerially(ws, acts, ora, sub, nm);
    SerialLengthBound(sub, ora, nm);
  }

  /** In every run with one worker and 0/100 outcomes a group keeps its score, if and only if no member can be
      given up before a counted member of the group failed. */
  lemma OneWorkerScoresIff(sub: Submission, nm: Numbering, g: nat)
    requires ValidSub(sub) && Numbered(sub, nm) && !sub.specjudge.SKIP?
    ensures SerialScoreKept(sub, nm, g) <==>
            forall ws, acts, ora :: Judges(ws, acts, ora, sub, nm) && ZeroOrFull(sub, ora) ==>
              ScoredRightly(ws, acts, ora, sub, g)
  {
    hide Judges, SerialScoreKept, ZeroOrFull, ScoredRightly, SerialGroupScore, ReferenceGroupScore,
         LifecycleInv.CompileVerdict;
    if SerialScoreKept(sub, nm, g) {
      forall ws, acts, ora | Judges(ws, acts, ora, sub, nm) && ZeroOrFull(sub, ora)
        ensures ScoredRightly(ws, acts, ora, sub, g)
      {
        RightIfSerially(ws, acts, ora, sub, nm, g);
        ScoreSuffices(sub, ora, nm, g);
      }
    } else {
      var ora := ScoreFails(sub, nm, g);
      var ws, acts := JudgedByOne(sub, nm, ora);
      RightIfSerially(ws, acts, ora, sub, nm, g);
    }
  }

  /** The same for a special judge that gives any score: if and only if every member opens one of its groups. */
  lemma OneWorkerPartialScoresIff(sub: Submission, nm: Numbering, g: nat)
    requires ValidSub(sub) && Numbered(sub, nm) && !sub.specjudge.SKIP? && !sub.specjudge.NORMAL?
    ensures PartialScoreKept(sub, nm, g) <==>
            forall ws, acts, ora :: Judges(ws, acts, ora, sub, nm) ==>
              ScoredRightly(ws, acts, ora, sub, g)
  {
    hide Judges, PartialScoreKept, ScoredRightly, SerialGroupScore, ReferenceGroupScore, LifecycleInv.CompileVerdict;
    if PartialScoreKept(sub, nm, g) {
      forall ws, acts, ora | Judges(ws, acts, ora, sub, nm)
        ensures ScoredRightly(ws, acts, ora, sub, g)
      {
        RightIfSerially(ws, acts, ora, sub, nm, g);
        PartialScoreSuffices(sub, ora, nm, g);
      }
    } else {
      var ora := PartialScoreFails(sub, nm, g);
      var ws, acts := JudgedByOne(sub, nm, ora);
      RightIfSerially(ws, acts, ora, sub, nm, g);
    }
  }

  /* ---- the reported total ---- */

  ghost predicate TotalledRightly(ws: seq<World>, acts: seq<Action>, ora: Oracle, sub: Submission) {
    && |ws| == |acts| + 1 && sub.internalId in ws[|acts|].closed && sub.stages >= 1
    && var report := ReportIn(ws[|acts|], sub);
       report.OverallReport? && report.score == ReferenceTotal(sub, ora)
  }

  lemma TotalledIfSerially(ws: seq<World>, acts: seq<Action>, ora: Oracle, sub: Submission, nm: Numbering)
    requires Judges(ws, acts, ora, sub, nm) && !sub.customSummary
    ensures sub.stages >= 1 && Numbered(sub, nm)
    ensures TotalledRightly(ws, acts, ora, sub) <==> SerialTotals(sub, ora, nm).score == ReferenceTotal(sub, ora)
  {
    ReportedSerially(ws, acts, ora, sub, nm);
    hide IsRun, SerialTotals, ReferenceTotal, SerialVerdict;
  }

  /** The reported total is right wherever all groups that have a weight are, whatever the weights. */
  lemma OneWorkerTotal(ws: seq<World>, acts: seq<Action>, ora: Oracle, sub: Submission, nm: Numbering)
    requires Judges(ws, acts, ora, sub, nm) && !sub.customSummary && Numbered(sub, nm) && sub.stages >= 1
    requires forall g :: Weighs(sub, g) ==>
               (SerialScoreKept(sub, nm, g) && ZeroOrFull(sub, ora)) || PartialScoreKept(sub, nm, g)
    ensures TotalledRightly(ws, acts, ora, sub)
  {
    TotalledIfSerially(ws, acts, ora, sub, nm);
    hide Judges, TotalledRightly, SerialScoreKept, PartialScoreKept, ZeroOrFull;
    TotalSuffices(sub, ora, nm);
  }

  /** In every run with one worker and 0/100 outcomes the reported total is that of judging everything, if and
      only if every group that has a weight keeps its score. */
  lemma OneWorkerTotalIff(sub: Submission, nm: Numbering)
    requires ValidSub(sub) && Numbered(sub, nm) && !sub.customSummary && !sub.specjudge.SKIP? && Addable(sub)
    ensures SerialTotalKept(sub, nm) <==>
            forall ws, acts, ora :: Judges(ws, acts, ora, sub, nm) && ZeroOrFull(sub, ora) ==>
              TotalledRightly(ws, acts, ora, sub)
  {
    hide Judges, TotalledRightly, SerialScoreKept, ZeroOrFull, Addable, SerialTotals, ReferenceTotal;
    if SerialTotalKept(sub, nm) {
      forall ws, acts, ora | Judges(ws, acts, ora, sub, nm) && ZeroOrFull(sub, ora)
        ensures TotalledRightly(ws, acts, ora, sub)
      {
        OneWorkerTotal(ws, acts, ora, sub, nm);
      }
    } else {
      var ora := TotalFails(sub, nm);
      var ws, acts := JudgedByOne(sub, nm, ora);
      TotalledIfSerially(ws, acts, ora, sub, nm);
    }
  }

  /** The same for a special judge that gives any score. */
  lemma OneWorkerPartialTotalIff(sub: Submission, nm: Numbering)
    requires ValidSub(sub) && Numbered(sub, nm) && !sub.customSummary && Addable(sub)
    requires !sub.specjudge.SKIP? && !sub.specjudge.NORMAL?
    ensures PartialTotalKept(sub, nm) <==>
            forall ws, acts, ora :: Judges(ws, acts, ora, sub, nm) ==> TotalledRightly(ws, acts, ora, sub)
  {
    hide Judges, TotalledRightly, PartialScoreKept, Addable, SerialTotals, ReferenceTotal;
    if PartialTotalKept(sub, nm) {
      forall ws, acts, ora | Judges(ws, acts, ora, sub, nm) ensures TotalledRightly(ws, acts, ora, sub) {
        OneWorkerTotal(ws, acts, ora, sub, nm);
      }
    } else {
      var ora := PartialTotalFails(sub, nm);
      var ws, acts := JudgedByOne(sub, nm, ora);
      TotalledIfSerially(ws, acts, ora, sub, nm);
    }
  }
}
