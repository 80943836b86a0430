/** Group skipping with two workers or more: exactly which submissions it serves right in every run, whatever
    the order of the testdata. */
module ManyWorkers {
  import opened Types
  import opened TestdataRun
  import LifecycleInv
  import opened Outcomes
  import opened GroupSkip
  import opened Serial
  import Closing
  import opened World
  import opened Draining
  import opened SerialSkipping
  import opened ReportedTotals
  import opened OneWorker
  import Overtaking

  /** A run with `kmax` workers in which `sub`, numbered `nm`, is finished and not superseded. */
  ghost predicate JudgesWith(ws: seq<World>, acts: seq<Action>, ora: Oracle, kmax: nat, sub: Submission,
                             nm: Numbering) {
    IsRun(ws, acts, ora, kmax) && JudgedIn(ws[|acts|], sub, nm)
  }

  /** The run never waits while something can be started, like the work loop. */
  ghost predicate JudgesEagerly(ws: seq<World>, acts: seq<Action>, ora: Oracle, kmax: nat, sub: Submission,
                                nm: Numbering) {
    && JudgesWith(ws, acts, ora, kmax, sub, nm)
    && forall m :: 0 <= m < |acts| && acts[m].Return? ==> Waits(ws[m], kmax)
  }

  /** Two outcomes that an eager run cannot tell apart. */
  lemma Untold(sub: Submission, nm: Numbering, kmax: nat, good: set<nat>, good': set<nat>, score: nat -> Score,
               score': nat -> Score, c: nat)
    returns (ws: seq<World>, acts: seq<Action>)
    requires ValidSub(sub) && Numbered(sub, nm) && kmax >= 2 && !sub.specjudge.SKIP?
    requires c < |sub.testdata| && Overtaking.CanBeOvertaken(sub, good, c)
    requires forall i: nat :: i != c ==> (i in good <==> i in good') && score(i) == score'(i)
    ensures JudgesEagerly(ws, acts, Marked(sub, good, score), kmax, sub, nm)
    ensures JudgesEagerly(ws, acts, Marked(sub, good', score'), kmax, sub, nm)
  {
    ws, acts := Overtaking.Overtakes(sub, nm, kmax, good, good', score, score', c);
    hide IsRun, JudgedIn, Overtaking.CanBeOvertaken, Waits;
    forall m | 0 <= m < |acts| && acts[m].Return? ensures Waits(ws[m], kmax) {
      assert Eager(ws[m], kmax, Key(sub.internalId, Execute(c, 0)), acts[m]);
    }
  }

  /* ---- acceptance ---- */

  lemma AcceptsWronglyOnce(sub: Submission, nm: Numbering, kmax: nat)
    returns (ws: seq<World>, acts: seq<Action>, ora: Oracle)
    requires ValidSub(sub) && Numbered(sub, nm) && kmax >= 2 && sub.skipGroup && !sub.specjudge.SKIP?
    requires !AcceptanceKept(sub)
    ensures JudgesEagerly(ws, acts, ora, kmax, sub, nm) && !AcceptedRightly(ws, acts, ora, sub)
  {
    var c: nat :| Counted(sub, c) && sub.testdata[c].groups != [] &&
                  forall h :: InGroup(sub, c, h) ==> !OnlyCounted(sub, h);
    var all := AllCounted(sub);
    forall h | InGroup(sub, c, h) ensures exists e :: InGroup(sub, e, h) && e != c && e !in all {
      var e :| InGroup(sub, e, h) && !Counted(sub, e);
    }
    ws, acts := Untold(sub, nm, kmax, all, all - {c}, NoScore, NoScore, c);
    AcceptedApart(sub, c);
    hide JudgesEagerly, ReferenceVerdict, Marked;
    var a, b := Marked(sub, all, NoScore), Marked(sub, all - {c}, NoScore);
    ora := if AcceptedRightly(ws, acts, a, sub) then b else a;
  }

  /** Acceptance is right in every run and for all outcomes, if and only if no counted testdata can be given up
      on the account of ignored ones alone; and so it is in every run that is eager. */
  lemma AcceptsIff(sub: Submission, nm: Numbering, kmax: nat)
    requires ValidSub(sub) && Numbered(sub, nm) && kmax >= 2
    requires sub.skipGroup && !sub.customSummary && !sub.specjudge.SKIP?
    ensures AcceptanceKept(sub) <==>
            forall ws, acts, ora :: JudgesWith(ws, acts, ora, kmax, sub, nm) ==> AcceptedRightly(ws, acts, ora, sub)
    ensures AcceptanceKept(sub) <==>
            forall ws, acts, ora :: JudgesEagerly(ws, acts, ora, kmax, sub, nm) ==> AcceptedRightly(ws, acts, ora, sub)
  {
    if AcceptanceKept(sub) {
      forall ws, acts, ora | JudgesWith(ws, acts, ora, kmax, sub, nm) ensures AcceptedRightly(ws, acts, ora, sub) {
        SkippingIsSafe(ws, acts, ora, kmax, sub.internalId);
      }
    } else {
      var ws, acts, ora := AcceptsWronglyOnce(sub, nm, kmax);
    }
  }

  /* ---- scores of groups ---- */

  lemma KeptIsScoredRightly(ws: seq<World>, acts: seq<Action>, ora: Oracle, kmax: nat, sub: Submission, nm: Numbering,
                            g: nat)
    requires JudgesWith(ws, acts, ora, kmax, sub, nm) && GroupKept(sub, ora, g)
    ensures ScoredRightly(ws, acts, ora, sub, g)
  {
    RunKeeps(ws, acts, ora, kmax, |acts|);
    var l := ws[|acts|].closed[sub.internalId];
    var l0 :| Closing.FinishedBy(l0, l, ora);
    Closing.FinishedFacts(l0, l, ora);
    CompileVerdictAtEnd(l0, ora);
    if LifecycleInv.CompileVerdict(sub, ora, AllCompiles(sub)).NUL? { Closing.KeptGroupIsRight(l, ora, g); }
  }

  /** All of group g are accepted, or all but one. */
  lemma ScoreUntold(sub: Submission, nm: Numbering, kmax: nat, g: nat)
    returns (ws: seq<World>, acts: seq<Action>, c: nat)
    requires ValidSub(sub) && Numbered(sub, nm) && kmax >= 2 && sub.skipGroup && !sub.specjudge.SKIP?
    requires !ScoreKept(sub, g)
    ensures Counted(sub, c) && InGroup(sub, c, g)
    ensures var all := MembersOf(sub, g);
            && JudgesEagerly(ws, acts, Marked(sub, all, Hundred(all)), kmax, sub, nm)
            && JudgesEagerly(ws, acts, Marked(sub, all - {c}, Hundred(all - {c})), kmax, sub, nm)
  {
    c :| Counted(sub, c) && InGroup(sub, c, g) && forall h :: InGroup(sub, c, h) ==> !OnlyCountedIn(sub, g, h);
    var all := MembersOf(sub, g);
    assert g in sub.testdata[c].groups;
    forall h | InGroup(sub, c, h) ensures exists e :: InGroup(sub, e, h) && e != c && e !in all {
      var e :| InGroup(sub, e, h) && !(Counted(sub, e) && InGroup(sub, e, g));
    }
    ws, acts := Untold(sub, nm, kmax, all, all - {c}, Hundred(all), Hundred(all - {c}), c);
  }

  /** Nothing is accepted, and all have the full score, or all but one. */
  lemma PartialScoreUntold(sub: Submission, nm: Numbering, kmax: nat, g: nat)
    returns (ws: seq<World>, acts: seq<Action>, c: nat)
    requires ValidSub(sub) && Numbered(sub, nm) && kmax >= 2 && sub.skipGroup && !sub.specjudge.SKIP?
    requires !OwnGroups(sub, g)
    ensures Counted(sub, c) && InGroup(sub, c, g)
    ensures JudgesEagerly(ws, acts, Marked(sub, {}, AllButOne(c, 0)), kmax, sub, nm)
    ensures JudgesEagerly(ws, acts, Marked(sub, {}, AllButOne(c, FULL_SCORE)), kmax, sub, nm)
  {
    c :| Counted(sub, c) && InGroup(sub, c, g) && forall h :: InGroup(sub, c, h) ==> !OwnGroup(sub, c, h);
    assert g in sub.testdata[c].groups;
    forall h | InGroup(sub, c, h) ensures exists e :: InGroup(sub, e, h) && e != c && e !in {} {
      var e :| InGroup(sub, e, h) && e != c;
      assert e !in {};
    }
    ws, acts := Untold(sub, nm, kmax, {}, {}, AllButOne(c, 0), AllButOne(c, FULL_SCORE), c);
  }

  /** One end cannot have the right score for two outcomes that score a group differently. */
  lemma NotBothScored(ws: seq<World>, acts: seq<Action>, sub: Submission, good: set<nat>, good': set<nat>,
                      score: nat -> Score, score': nat -> Score, g: nat)
    requires sub.stages >= 1
    requires ReferenceGroupScore(sub, Marked(sub, good, score), g) !=
             ReferenceGroupScore(sub, Marked(sub, good', score'), g)
    ensures !ScoredRightly(ws, acts, Marked(sub, good, score), sub, g) ||
            !ScoredRightly(ws, acts, Marked(sub, good', score'), sub, g)
  {
    MarkedCompiles(sub, good, score, AllCompiles(sub));
    MarkedCompiles(sub, good', score', AllCompiles(sub));
    hide Marked, LifecycleInv.CompileVerdict;
  }

  lemma ScoresWronglyOnce(sub: Submission, nm: Numbering, kmax: nat, g: nat)
    returns (ws: seq<World>, acts: seq<Action>, ora: Oracle)
    requires ValidSub(sub) && Numbered(sub, nm) && kmax >= 2 && sub.skipGroup && !sub.specjudge.SKIP?
    requires !ScoreKept(sub, g)
    ensures JudgesEagerly(ws, acts, ora, kmax, sub, nm) && ZeroOrFull(sub, ora) && !ScoredRightly(ws, acts, ora, sub, g)
  {
    hide JudgesEagerly, ScoreKept, Marked, ZeroOrFull, ReferenceGroupScore, ReferenceTotal, ScoredRightly;
    var c;
    ws, acts, c := ScoreUntold(sub, nm, kmax, g);
    var all := MembersOf(sub, g);
    var most := all - {c};
    HundredApart(sub, g, c);
    HundredIsZeroOrFull(sub, all);
    HundredIsZeroOrFull(sub, most);
    NotBothScored(ws, acts, sub, all, most, Hundred(all), Hundred(most), g);
    var a, b := Marked(sub, all, Hundred(all)), Marked(sub, most, Hundred(most));
    ora := if ScoredRightly(ws, acts, a, sub, g) then b else a;
  }

  lemma PartialScoresWronglyOnce(sub: Submission, nm: Numbering, kmax: nat, g: nat)
    returns (ws: seq<World>, acts: seq<Action>, ora: Oracle)
    requires ValidSub(sub) && Numbered(sub, nm) && kmax >= 2 && sub.skipGroup
    requires !sub.specjudge.SKIP? && !sub.specjudge.NORMAL? && !OwnGroups(sub, g)
    ensures JudgesEagerly(ws, acts, ora, kmax, sub, nm) && !ScoredRightly(ws, acts, ora, sub, g)
  {
    hide JudgesEagerly, OwnGroups, Marked, ReferenceGroupScore, ReferenceTotal, ScoredRightly;
    var c;
    ws, acts, c := PartialScoreUntold(sub, nm, kmax, g);
    PartialApart(sub, g, c);
    NotBothScored(ws, acts, sub, {}, {}, AllButOne(c, 0), AllButOne(c, FULL_SCORE), g);
    var a, b := Marked(sub, {}, AllButOne(c, 0)), Marked(sub, {}, AllButOne(c, FULL_SCORE));
    ora := if ScoredRightly(ws, acts, a, sub, g) then b else a;
  }

  /** The score of group g is right in every run with 0/100 outcomes, if and only if the group can lose no
      counted testdata without a failure of its own. */
  lemma ScoresIff(sub: Submission, nm: Numbering, kmax: nat, g: nat)
    requires ValidSub(sub) && Numbered(sub, nm) && kmax >= 2 && sub.skipGroup && !sub.specjudge.SKIP?
    ensures ScoreKept(sub, g) <==>
            forall ws, acts, ora :: JudgesWith(ws, acts, ora, kmax, sub, nm) && ZeroOrFull(sub, ora) ==>
              ScoredRightly(ws, acts, ora, sub, g)
    ensures ScoreKept(sub, g) <==>
            forall ws, acts, ora :: JudgesEagerly(ws, acts, ora, kmax, sub, nm) && ZeroOrFull(sub, ora) ==>
              ScoredRightly(ws, acts, ora, sub, g)
  {
    hide IsRun, JudgedIn, Waits, ScoreKept, ZeroOrFull, ScoredRightly;
    if ScoreKept(sub, g) {
      forall ws, acts, ora | JudgesWith(ws, acts, ora, kmax, sub, nm) && ZeroOrFull(sub, ora)
        ensures ScoredRightly(ws, acts, ora, sub, g)
      {
        KeptIsScoredRightly(ws, acts, ora, kmax, sub, nm, g);
      }
    } else {
      var ws, acts, ora := ScoresWronglyOnce(sub, nm, kmax, g);
    }
  }

  /** With any outcomes of a special judge it is if and only if the group can lose no counted testdata. */
  lemma PartialScoresIff(sub: Submission, nm: Numbering, kmax: nat, g: nat)
    requires ValidSub(sub) && Numbered(sub, nm) && kmax >= 2 && sub.skipGroup
    requires !sub.specjudge.SKIP? && !sub.specjudge.NORMAL?
    ensures OwnGroups(sub, g) <==>
            forall ws, acts, ora :: JudgesWith(ws, acts, ora, kmax, sub, nm) ==> ScoredRightly(ws, acts, ora, sub, g)
    ensures OwnGroups(sub, g) <==>
            forall ws, acts, ora :: JudgesEagerly(ws, acts, ora, kmax, sub, nm) ==> ScoredRightly(ws, acts, ora, sub, g)
  {
    hide IsRun, JudgedIn, Waits, OwnGroups, ScoredRightly;
    if OwnGroups(sub, g) {
      forall ws, acts, ora | JudgesWith(ws, acts, ora, kmax, sub, nm) ensures ScoredRightly(ws, acts, ora, sub, g) {
        KeptIsScoredRightly(ws, acts, ora, kmax, sub, nm, g);
      }
    } else {
      var ws, acts, ora := PartialScoresWronglyOnce(sub, nm, kmax, g);
    }
  }

  /* ---- the reported total ---- */

  /** Every group with a weight keeps its score: with 0/100 outcomes, and with any outcomes of a special judge. */
  ghost predicate TotalKept(sub: Submission) { forall g :: Weighs(sub, g) ==> ScoreKept(sub, g) }

  ghost predicate OwnTotal(sub: Submission) { forall g :: Weighs(sub, g) ==> OwnGroups(sub, g) }

  lemma KeptIsTotalledRightly(ws: seq<World>, acts: seq<Action>, ora: Oracle, kmax: nat, sub: Submission, nm: Numbering)
    requires JudgesWith(ws, acts, ora, kmax, sub, nm) && !sub.customSummary
    requires (TotalKept(sub) && ZeroOrFull(sub, ora)) || OwnTotal(sub)
    ensures TotalledRightly(ws, acts, ora, sub)
  {
    SkippingIsSafe(ws, acts, ora, kmax, sub.internalId);
    hide IsRun, ScoreKept, OwnGroups, ZeroOrFull, ReferenceTotals, ReferenceVerdict;
    assert forall g :: 0 <= g < |sub.groupScore| && sub.groupScore[g] != 0 ==> Weighs(sub, g);
  }

  lemma TotalsWronglyOnce(sub: Submission, nm: Numbering, kmax: nat)
    returns (ws: seq<World>, acts: seq<Action>, ora: Oracle)
    requires ValidSub(sub) && Numbered(sub, nm) && kmax >= 2 && sub.skipGroup && !sub.specjudge.SKIP?
    requires Addable(sub) && !TotalKept(sub)
    ensures JudgesEagerly(ws, acts, ora, kmax, sub, nm) && ZeroOrFull(sub, ora) && !TotalledRightly(ws, acts, ora, sub)
  {
    hide JudgesEagerly, ScoreKept, Marked, ZeroOrFull, ReferenceGroupScore, ReferenceTotal, Addable, Weighs;
    var g: nat :| Weighs(sub, g) && !ScoreKept(sub, g);
    var c;
    ws, acts, c := ScoreUntold(sub, nm, kmax, g);
    var all := MembersOf(sub, g);
    var most := all - {c};
    HundredApart(sub, g, c);
    HundredIsZeroOrFull(sub, all);
    HundredIsZeroOrFull(sub, most);
    var a, b := Marked(sub, all, Hundred(all)), Marked(sub, most, Hundred(most));
    ora := if TotalledRightly(ws, acts, a, sub) then b else a;
  }

  lemma PartialTotalsWronglyOnce(sub: Submission, nm: Numbering, kmax: nat)
    returns (ws: seq<World>, acts: seq<Action>, ora: Oracle)
    requires ValidSub(sub) && Numbered(sub, nm) && kmax >= 2 && sub.skipGroup
    requires !sub.specjudge.SKIP? && !sub.specjudge.NORMAL? && Addable(sub) && !OwnTotal(sub)
    ensures JudgesEagerly(ws, acts, ora, kmax, sub, nm) && !TotalledRightly(ws, acts, ora, sub)
  {
    hide JudgesEagerly, OwnGroups, Marked, ReferenceGroupScore, ReferenceTotal, Addable, Weighs;
    var g: nat :| Weighs(sub, g) && !OwnGroups(sub, g);
    var c;
    ws, acts, c := PartialScoreUntold(sub, nm, kmax, g);
    PartialApart(sub, g, c);
    var a, b := Marked(sub, {}, AllButOne(c, 0)), Marked(sub, {}, AllButOne(c, FULL_SCORE));
    ora := if TotalledRightly(ws, acts, a, sub) then b else a;
  }

  /** The reported total is that of judging everything in every run with 0/100 outcomes, if and only if no group
      with a weight can lose a counted testdata without a failure of its own. */
  lemma TotalsIff(sub: Submission, nm: Numbering, kmax: nat)
    requires ValidSub(sub) && Numbered(sub, nm) && kmax >= 2 && Addable(sub)
    requires sub.skipGroup && !sub.customSummary && !sub.specjudge.SKIP?
    ensures TotalKept(sub) <==>
            forall ws, acts, ora :: JudgesWith(ws, acts, ora, kmax, sub, nm) && ZeroOrFull(sub, ora) ==>
              TotalledRightly(ws, acts, ora, sub)
    ensures TotalKept(sub) <==>
            forall ws, acts, ora :: JudgesEagerly(ws, acts, ora, kmax, sub, nm) && ZeroOrFull(sub, ora) ==>
              TotalledRightly(ws, acts, ora, sub)
  {
    hide IsRun, JudgedIn, Waits, TotalKept, ZeroOrFull, TotalledRightly, Addable;
    if TotalKept(sub) {
      forall ws, acts, ora | JudgesWith(ws, acts, ora, kmax, sub, nm) && ZeroOrFull(sub, ora)
        ensures TotalledRightly(ws, acts, ora, sub)
      {
        KeptIsTotalledRightly(ws, acts, ora, kmax, sub, nm);
      }
    } else {
      var ws, acts, ora := TotalsWronglyOnce(sub, nm, kmax);
    }
  }

  /** With any outcomes of a special judge it is if and only if no group with a weight can lose a counted
      testdata. */
  lemma PartialTotalsIff(sub: Submission, nm: Numbering, kmax: nat)
    requires ValidSub(sub) && Numbered(sub, nm) && kmax >= 2 && Addable(sub)
    requires sub.skipGroup && !sub.customSummary && !sub.specjudge.SKIP? && !sub.specjudge.NORMAL?
    ensures OwnTotal(sub) <==>
            forall ws, acts, ora :: JudgesWith(ws, acts, ora, kmax, sub, nm) ==> TotalledRightly(ws, acts, ora, sub)
    ensures OwnTotal(sub) <==>
            forall ws, acts, ora :: JudgesEagerly(ws, acts, ora, kmax, sub, nm) ==> TotalledRightly(ws, acts, ora, sub)
  {
    hide IsRun, JudgedIn, Waits, OwnTotal, TotalledRightly, Addable;
    if OwnTotal(sub) {
      forall ws, acts, ora | JudgesWith(ws, acts, ora, kmax, sub, nm) ensures TotalledRightly(ws, acts, ora, sub) {
        KeptIsTotalledRightly(ws, acts, ora, kmax, sub, nm);
      }
    } else {
      var ws, acts, ora := PartialTotalsWronglyOnce(sub, nm, kmax);
    }
  }
}
