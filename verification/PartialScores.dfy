/** Two runs with two workers that end the same submission, with the same outcomes, with different totals:
    group skipping and partial scores do not go together. */
module PartialScores {
  import opened Types
  import TestdataRun
  import opened TaskGraph
  import opened Totals
  import opened Lifecycle
  import LifecycleInv
  import Outcomes
  import opened Serial
  import opened World
  import SerialSkipping
  import opened OneWorker
  import opened IgnoredTestdata

  /** Two testdata in one group, both counted, and a special judge. */
  const SCORED := SUBMITTED.(specjudge := SPECJUDGE_NEW, testdata := [COUNTED, COUNTED])

  const CU := Compile(USERPROG)
  const CS := Compile(SPECJUDGE)
  const EA := Execute(0, 0)
  const EB := Execute(1, 0)
  const SA := Scoring(0, 0)
  const SB := Scoring(1, 0)

  function Points(i: nat): Score { if i == 0 then 50_000_000 else 30_000_000 }

  /** Everything compiles and runs; the judge says WA twice, with 50 and with 30 points. */
  function Partly(): Oracle { SerialSkipping.Marked(SCORED, {}, Points) }

  /** Before and after it is scored. */
  const UNSCORED := NO_RESULT
  function Scored(i: nat): TdResult { TdResult(0, 0, 0, Points(i), WA, false) }

  /** What each task waits for. */
  predicate Free(left: set<Task>, t: Task) {
    && t in left
    && (t == EA || t == EB ==> CU !in left)
    && (t == SA ==> EA !in left && CS !in left)
    && (t == SB ==> EB !in left && CS !in left)
    && (t == Summary ==> SA !in left && SB !in left)
  }

  const ALL := {CU, CS, EA, EB, SA, SB, Summary}

  lemma TasksOfScored()
    ensures forall t :: IsTask(SCORED, t) <==> t in ALL
    ensures forall a, b :: Edge(SCORED, a, b) <==>
              (a == CU && (b == EA || b == EB)) || (a == CS && (b == SA || b == SB)) ||
              (a == EA && b == SA) || (a == EB && b == SB) || ((a == SA || a == SB) && b == Summary)
  {
    assert FirstStage(SCORED, false, 0) == 0;
    assert FirstStage(SCORED, true, 0) == FirstStage(SCORED, true, 1) == 1;
    forall t ensures IsTask(SCORED, t) <==> t in ALL {
      match t case Compile(c) => match c { case _ => } case _ =>
    }
  }

  lemma FreeIsUnblocked(left: set<Task>, t: Task)
    requires left <= ALL
    ensures Unblocked(SCORED, left, t) <==> Free(left, t)
  {
    TasksOfScored();
    if t in left && !Unblocked(SCORED, left, t) {
      var a :| a in left && Edge(SCORED, a, t);
    }
    if Free(left, t) {
      assert forall a :: a in left ==> !Edge(SCORED, a, t);
    }
  }

  /* ---- the states of both runs ---- */

  /** The judge has nothing but this submission, and this is what can be seen of it. */
  ghost predicate Looks(w: World, left: set<Task>, running: set<Task>, tds: seq<TdResult>, cgroups: set<nat>) {
    && WInv(w, Partly()) && w.live.Keys == {1} && w.closed == map[] && w.numbering == map[1 := IN_ORDER]
    && var l := w.live[1];
       && l.j == Judged.Judged(SCORED, tds, NUL, NO_TOTALS)
       && l.left == left && l.running == running && l.cgroups == cgroups && !l.cancelled
  }

  lemma FewRun(w: World, running: set<Task>, x: Task)
    requires w.live.Keys == {1} && w.live[1].running == running && running <= {x}
    ensures |RunningKeys(w)| < 2
  {
    var keys := RunningKeys(w);
    assert forall k :: k in keys ==> k == Key(1, x);
    assert keys == {} || keys == {Key(1, x)};
  }

  /** The next task to be taken, while at most `x` is running. */
  lemma CanTake(w: World, left: set<Task>, running: set<Task>, tds: seq<TdResult>, cgroups: set<nat>, t: Task, x: Task)
    requires Looks(w, left, running, tds, cgroups) && left <= ALL && running <= {x}
    requires Free(left, t) && t !in running
    requires forall u :: Free(left, u) && u !in running ==> OrderOf(IN_ORDER, t) <= OrderOf(IN_ORDER, u)
    ensures CanStep(w, 2, Take(Key(1, t)))
  {
    FewRun(w, running, x);
    assert LiveOk(w, Partly(), 1);
    FreeIsUnblocked(left, t);
    forall k | CanStart(w, k) ensures !Less(w, Key(1, t), k) {
      FreeIsUnblocked(left, k.task);
    }
  }

  lemma StaysGood(w: World, a: Action)
    requires WInv(w, Partly()) && CanStep(w, 2, a)
    ensures WInv(Step(w, Partly(), 2, a), Partly())
  {
    StepWInv(w, Partly(), 2, a);
  }

  /** A task is started: a compilation, or a task of a testdata that is neither scored nor given up. */
  lemma Starts(w: World, left: set<Task>, running: set<Task>, tds: seq<TdResult>, cgroups: set<nat>, t: Task)
    requires Looks(w, left, running, tds, cgroups) && CanStep(w, 2, Take(Key(1, t))) && t in ALL && !t.Summary?
    requires t.Compile? || (cgroups == {} && (t.Scoring? ==> Td(tds, t.td) == UNSCORED))
    ensures Looks(Step(w, Partly(), 2, Take(Key(1, t))), left, running + {t}, tds, cgroups)
  {
    StaysGood(w, Take(Key(1, t)));
    StartIs(w.live[1], t);
    hide WInv, Dispatch, Sized, IsTop, Partly;
    StepStores(w, Key(1, t));
    StoredLooks(w, Dispatch(w.live[1], t), left, running + {t}, tds, cgroups);
  }

  lemma StartIs(l: Live, t: Task)
    requires Sized(l) && t in l.left && l.j.sub == SCORED && !l.cancelled && l.j.verdict == NUL && t in ALL
    requires !t.Summary?
    requires t.Compile? || (l.cgroups == {} && (t.Scoring? ==> Td(l.j.tds, t.td) == UNSCORED))
    ensures Dispatch(l, t) == l.(running := l.running + {t})
  {
    TasksOfScored();
    assert !IsCancelled(false, {}, [0]) by { assert 0 in [0]; }
    assert SetupStarts(l, t);
  }

  /** The submission is stored, and looks so. */
  lemma StoredLooks(w: World, l: Live, left: set<Task>, running: set<Task>, tds: seq<TdResult>, cgroups: set<nat>)
    requires w.live.Keys == {1} && w.closed == map[] && w.numbering == map[1 := IN_ORDER]
    requires l.j == Judged.Judged(SCORED, tds, NUL, NO_TOTALS) && Summary in left && !l.cancelled
    requires l.left == left && l.running == running && l.cgroups == cgroups && WInv(Store(w, 1, l), Partly())
    ensures Looks(Store(w, 1, l), left, running, tds, cgroups)
  {
    hide WInv, Partly;
  }

  lemma StepStores(w: World, k: Key)
    requires k.sid in w.live && Sized(w.live[k.sid]) && k.task in w.live[k.sid].left
    ensures CanStep(w, 2, Return(k)) ==>
              Step(w, Partly(), 2, Return(k)) == Store(w, k.sid, Complete(w.live[k.sid], Partly(), k.task))
    ensures CanStep(w, 2, Take(k)) ==>
              Step(w, Partly(), 2, Take(k)) == Store(w, k.sid, Dispatch(w.live[k.sid], k.task))
  {
    hide Complete, Dispatch, Store, Partly;
  }

  lemma CompleteCompile(l: Live, t: Task)
    requires Sized(l) && t in l.left && l.j.sub == SCORED && t.Compile? && l.j.verdict == NUL
    ensures var l' := Complete(l, Partly(), t);
            && l'.j == l.j && l'.cgroups == l.cgroups && l'.left == l.left - {t} && l'.running == l.running - {t}
            && l'.cancelled == l.cancelled
  {
  }

  lemma CompileReturns(w: World, left: set<Task>, running: set<Task>, tds: seq<TdResult>, cgroups: set<nat>, t: Task)
    requires Looks(w, left, running, tds, cgroups) && t in running && Summary in left && t.Compile?
    ensures CanStep(w, 2, Return(Key(1, t)))
    ensures Looks(Step(w, Partly(), 2, Return(Key(1, t))), left - {t}, running - {t}, tds, cgroups)
  {
    var k := Key(1, t);
    ReturnKeeps(w, Partly(), k);
    CompleteCompile(w.live[1], t);
    hide WInv, Complete, Sized, Partly;
    StepStores(w, k);
    StoredLooks(w, Complete(w.live[1], Partly(), t), left - {t}, running - {t}, tds, cgroups);
  }

  lemma CompleteExecute(l: Live, i: nat)
    requires Sized(l) && Execute(i, 0) in l.left && l.j.sub == SCORED && i < 2 && i == |l.j.tds|
    ensures var l' := Complete(l, Partly(), Execute(i, 0));
            && l'.j == l.j.(tds := l.j.tds + [UNSCORED]) && l'.cgroups == l.cgroups
            && l'.left == l.left - {Execute(i, 0)} && l'.running == l.running - {Execute(i, 0)}
            && l'.cancelled == l.cancelled
  {
    assert TestdataRun.ExecResult(SCORED, i, 0, OutcomeOf(l, Partly(), Execute(i, 0)), NO_RESULT) == UNSCORED;
    hide TestdataRun.ExecResult, Partly;
    assert Grow(l.j.tds, i + 1)[i := UNSCORED] == l.j.tds + [UNSCORED];
  }

  lemma ExecuteReturns(w: World, left: set<Task>, running: set<Task>, tds: seq<TdResult>, cgroups: set<nat>, i: nat)
    requires Looks(w, left, running, tds, cgroups) && Execute(i, 0) in running && Summary in left
    requires i < 2 && i == |tds|
    ensures var k := Key(1, Execute(i, 0));
            CanStep(w, 2, Return(k))
            && Looks(Step(w, Partly(), 2, Return(k)), left - {k.task}, running - {k.task}, tds + [UNSCORED], cgroups)
  {
    var k := Key(1, Execute(i, 0));
    ReturnKeeps(w, Partly(), k);
    CompleteExecute(w.live[1], i);
    hide WInv, Complete, Sized, Partly;
    StepStores(w, k);
    StoredLooks(w, Complete(w.live[1], Partly(), k.task), left - {k.task}, running - {k.task}, tds + [UNSCORED],
      cgroups);
  }

  lemma ScoreOf(i: nat, r: TdResult)
    requires i < 2 && r == UNSCORED
    ensures TestdataRun.ScoreResult(SCORED, 0, false, Partly()(1, Scoring(i, 0), r), r) == Scored(i)
    ensures Cancels(SCORED, Scored(i).verdict) && GroupsOf(SCORED, i) == {0}
  {
  }

  lemma CompleteScoring(l: Live, i: nat)
    requires Sized(l) && Scoring(i, 0) in l.left && l.j.sub == SCORED && i < 2 && i < |l.j.tds|
    requires l.j.tds[i] == UNSCORED
    ensures var l' := Complete(l, Partly(), Scoring(i, 0));
            && l'.j == l.j.(tds := l.j.tds[i := Scored(i)]) && l'.cgroups == l.cgroups + {0}
            && l'.left == l.left - {Scoring(i, 0)} && l'.running == l.running - {Scoring(i, 0)}
            && l'.cancelled == l.cancelled
  {
    ScoreOf(i, l.j.tds[i]);
    hide TestdataRun.ScoreResult, Partly, Cancels, GroupsOf, TestdataRun.ScoringReport, Scored;
  }

  lemma ScoringReturns(w: World, left: set<Task>, running: set<Task>, tds: seq<TdResult>, cgroups: set<nat>, i: nat)
    requires Looks(w, left, running, tds, cgroups) && Scoring(i, 0) in running && Summary in left
    requires i < 2 && i < |tds| && tds[i] == UNSCORED
    ensures var k := Key(1, Scoring(i, 0));
            CanStep(w, 2, Return(k))
            && Looks(Step(w, Partly(), 2, Return(k)), left - {k.task}, running - {k.task}, tds[i := Scored(i)],
              cgroups + {0})
  {
    var k := Key(1, Scoring(i, 0));
    ReturnKeeps(w, Partly(), k);
    CompleteScoring(w.live[1], i);
    hide WInv, Complete, Sized, Partly, Scored;
    StepStores(w, k);
    StoredLooks(w, Complete(w.live[1], Partly(), k.task), left - {k.task}, running - {k.task}, tds[i := Scored(i)],
                cgroups + {0});
  }

  lemma DropIt(l: Live)
    requires Sized(l) && SB in l.left && l.j.sub == SCORED && l.cgroups == {0}
    ensures var l' := Dispatch(l, SB);
            && l'.j == l.j && l'.cgroups == l.cgroups && l'.left == l.left - {SB} && l'.running == l.running - {SB}
            && l'.cancelled == l.cancelled
  {
    TasksOfScored();
    assert Dropped(l, SB);
  }

  /** The group was given up: the second testdata is not scored any more. */
  lemma SecondIsDropped(w: World, left: set<Task>, tds: seq<TdResult>)
    requires Looks(w, left, {}, tds, {0}) && CanStep(w, 2, Take(Key(1, SB))) && Summary in left
    ensures Looks(Step(w, Partly(), 2, Take(Key(1, SB))), left - {SB}, {}, tds, {0})
  {
    StaysGood(w, Take(Key(1, SB)));
    DropIt(w.live[1]);
    hide WInv, Dispatch, Sized, IsTop, Partly;
    StepStores(w, Key(1, SB));
    StoredLooks(w, Dispatch(w.live[1], SB), left - {SB}, {}, tds, {0});
  }

  /* ---- the two runs ---- */

  datatype Run = Run(ws: seq<World>, acts: seq<Action>)

  /** The run ends in a state that looks so. */
  ghost predicate Reaches(r: Run, left: set<Task>, running: set<Task>, tds: seq<TdResult>, cgroups: set<nat>) {
    && |r.ws| == |r.acts| + 1 && IsRun(r.ws, r.acts, Partly(), 2)
    && Looks(r.ws[|r.acts|], left, running, tds, cgroups)
  }

  function Longer(r: Run, a: Action, w: World): Run { Run(r.ws + [w], r.acts + [a]) }

  lemma GoesFurther(r: Run, a: Action)
    requires |r.ws| == |r.acts| + 1 && IsRun(r.ws, r.acts, Partly(), 2) && CanStep(r.ws[|r.acts|], 2, a)
    ensures IsRun(Longer(r, a, Step(r.ws[|r.acts|], Partly(), 2, a)).ws, r.acts + [a], Partly(), 2)
  {
    hide CanStep, Step, Partly;
    LeadsOn(r.ws, r.acts, Partly(), 2, EMPTY, r.ws[|r.acts|], a, Step(r.ws[|r.acts|], Partly(), 2, a));
  }

  lemma CanComeIn()
    ensures CanStep(EMPTY, 2, Action.Arrive(SCORED, IN_ORDER)) && SCORED.stages >= 1
  {
    assert ValidSub(SCORED);
    hide ValidSub, TdNumbering, Numbered;
    NumberedInOrder(SCORED);
    TdNumberingNumbers(SCORED);
  }

  lemma ArrivedLooks()
    ensures SCORED.stages >= 1 && Looks(Push(EMPTY, SCORED, IN_ORDER), ALL, {}, [], {})
  {
    CanComeIn();
    AllAreTasks();
    hide Partly, AllTasks, CanStep, TdNumbering;
    var a := Action.Arrive(SCORED, IN_ORDER);
    assert WInv(Push(EMPTY, SCORED, IN_ORDER), Partly()) by {
      EmptyIsGood(Partly());
      StaysGood(EMPTY, a);
      ArriveIs(EMPTY, a);
      hide *;
    }
    hide WInv;
  }

  lemma ArriveIs(w: World, a: Action)
    requires CanStep(w, 2, a) && a.Arrive?
    ensures a.sub.stages >= 1 && Step(w, Partly(), 2, a) == Push(w, a.sub, a.nm)
  {
  }

  lemma AllAreTasks()
    ensures AllTasks(SCORED) == ALL
  {
    AllTasksAreTasks(SCORED);
    TasksOfScored();
    hide AllTasks, IsTask;
  }

  lemma Arrival() returns (r: Run)
    ensures Reaches(r, ALL, {}, [], {})
  {
    var a := Action.Arrive(SCORED, IN_ORDER);
    var w := Push(EMPTY, SCORED, IN_ORDER);
    CanComeIn();
    ArrivedLooks();
    ArriveIs(EMPTY, a);
    hide CanStep, Step, Push, Partly, Looks;
    r := Run([EMPTY, w], [a]);
  }

  /** A worker takes the next task; at most `x` is running. */
  lemma Take1(r: Run, left: set<Task>, running: set<Task>, tds: seq<TdResult>, cgroups: set<nat>, t: Task, x: Task)
    returns (r': Run)
    requires Reaches(r, left, running, tds, cgroups) && left <= ALL && running <= {x}
    requires Free(left, t) && t !in running && !t.Summary?
    requires forall u :: Free(left, u) && u !in running ==> OrderOf(IN_ORDER, t) <= OrderOf(IN_ORDER, u)
    requires t.Compile? || (cgroups == {} && (t.Scoring? ==> Td(tds, t.td) == UNSCORED))
    ensures Reaches(r', left, running + {t}, tds, cgroups)
  {
    hide Looks, CanStep, Step, Partly, IsRun;
    var w, a := r.ws[|r.acts|], Take(Key(1, t));
    CanTake(w, left, running, tds, cgroups, t, x);
    Starts(w, left, running, tds, cgroups, t);
    GoesFurther(r, a);
    r' := Longer(r, a, Step(w, Partly(), 2, a));
  }

  lemma Return1(r: Run, left: set<Task>, running: set<Task>, tds: seq<TdResult>, cgroups: set<nat>, t: Task)
    returns (r': Run)
    requires Reaches(r, left, running, tds, cgroups) && t in running && Summary in left && t in ALL && !t.Summary?
    requires match t
             case Compile(_) => true
             case Execute(i, _) => i == |tds|
             case Scoring(i, _) => i < |tds| && tds[i] == UNSCORED
             case Summary => false
    ensures Reaches(r', left - {t}, running - {t},
                    match t
                    case Compile(_) => tds
                    case Execute(_, _) => tds + [UNSCORED]
                    case Scoring(i, _) => tds[i := Scored(i)]
                    case Summary => tds,
                    if t.Scoring? then cgroups + {0} else cgroups)
  {
    hide Looks, CanStep, Step, Partly, IsRun;
    var w, a := r.ws[|r.acts|], Return(Key(1, t));
    match t {
      case Compile(_) => CompileReturns(w, left, running, tds, cgroups, t);
      case Execute(i, _) => ExecuteReturns(w, left, running, tds, cgroups, i);
      case Scoring(i, _) => ScoringReturns(w, left, running, tds, cgroups, i);
    }
    GoesFurther(r, a);
    r' := Longer(r, a, Step(w, Partly(), 2, a));
  }

  /** Both programs are compiled and run; the first testdata is being scored. */
  lemma BothReady() returns (r: Run)
    ensures Reaches(r, {EB, SA, SB, Summary}, {EB, SA}, [UNSCORED], {})
  {
    hide Reaches;
    r := Arrival();
    r := Take1(r, ALL, {}, [], {}, CU, CU);
    assert {} + {CU} == {CU};
    r := Take1(r, ALL, {CU}, [], {}, CS, CU);
    r := Return1(r, ALL, {CU} + {CS}, [], {}, CU);
    var left := {CS, EA, EB, SA, SB, Summary};
    assert ALL - {CU} == left && {CU} + {CS} - {CU} == {CS};
    r := Take1(r, left, {CS}, [], {}, EA, CS);
    r := Return1(r, left, {CS} + {EA}, [], {}, CS);
    var left1 := {EA, EB, SA, SB, Summary};
    assert left - {CS} == left1 && {CS} + {EA} - {CS} == {EA};
    r := Take1(r, left1, {EA}, [], {}, EB, EA);
    r := Return1(r, left1, {EA} + {EB}, [], {}, EA);
    var left2 := {EB, SA, SB, Summary};
    assert left1 - {EA} == left2 && {EA} + {EB} - {EA} == {EB} && [] + [UNSCORED] == [UNSCORED];
    r := Take1(r, left2, {EB}, [UNSCORED], {}, SA, EB);
    assert {EB} + {SA} == {EB, SA};
  }

  /** The first testdata is scored before the second has run: the second is dropped. */
  lemma FirstFailsFirst() returns (r: Run)
    ensures Reaches(r, {Summary}, {}, [Scored(0), UNSCORED], {0})
  {
    hide Reaches;
    r := BothReady();
    r := Return1(r, {EB, SA, SB, Summary}, {EB, SA}, [UNSCORED], {}, SA);
    assert {EB, SA, SB, Summary} - {SA} == {EB, SB, Summary} && {EB, SA} - {SA} == {EB} && {} + {0} == {0};
    assert [UNSCORED][0 := Scored(0)] == [Scored(0)];
    r := Return1(r, {EB, SB, Summary}, {EB}, [Scored(0)], {0}, EB);
    assert {EB, SB, Summary} - {EB} == {SB, Summary} && {EB} - {EB} == {};
    assert [Scored(0)] + [UNSCORED] == [Scored(0), UNSCORED];
    r := DropSecond(r, [Scored(0), UNSCORED]);
  }

  lemma DropSecond(r: Run, tds: seq<TdResult>) returns (r': Run)
    requires Reaches(r, {SB, Summary}, {}, tds, {0})
    ensures Reaches(r', {Summary}, {}, tds, {0})
  {
    hide Looks, CanStep, Step, Partly, IsRun;
    var w, a := r.ws[|r.acts|], Take(Key(1, SB));
    CanTake(w, {SB, Summary}, {}, tds, {0}, SB, SB);
    SecondIsDropped(w, {SB, Summary}, tds);
    assert {SB, Summary} - {SB} == {Summary};
    GoesFurther(r, a);
    r' := Longer(r, a, Step(w, Partly(), 2, a));
  }

  /** The second testdata has run and is being scored before the first one returns. */
  lemma SecondIsQuick() returns (r: Run)
    ensures Reaches(r, {Summary}, {}, [Scored(0), Scored(1)], {0})
  {
    hide Reaches;
    r := BothReady();
    r := Return1(r, {EB, SA, SB, Summary}, {EB, SA}, [UNSCORED], {}, EB);
    assert {EB, SA, SB, Summary} - {EB} == {SA, SB, Summary} && {EB, SA} - {EB} == {SA};
    var both := [UNSCORED, UNSCORED];
    assert [UNSCORED] + [UNSCORED] == both;
    r := Take1(r, {SA, SB, Summary}, {SA}, both, {}, SB, SA);
    r := Return1(r, {SA, SB, Summary}, {SA} + {SB}, both, {}, SA);
    assert {SA, SB, Summary} - {SA} == {SB, Summary} && {SA} + {SB} - {SA} == {SB} && {} + {0} == {0};
    assert both[0 := Scored(0)] == [Scored(0), UNSCORED];
    r := Return1(r, {SB, Summary}, {SB}, [Scored(0), UNSCORED], {0}, SB);
    assert {SB, Summary} - {SB} == {Summary} && {SB} - {SB} == {} && {0} + {0} == {0};
    assert [Scored(0), UNSCORED][1 := Scored(1)] == [Scored(0), Scored(1)];
  }

  lemma Ends(r: Run, tds: seq<TdResult>) returns (r': Run)
    requires Reaches(r, {Summary}, {}, tds, {0}) && |tds| == 2
    ensures Concluded(r', tds)
  {
    hide Looks, CanStep, Step, Partly, IsRun;
    var w, a := r.ws[|r.acts|], Take(Key(1, Summary));
    CanTake(w, {Summary}, {}, tds, {0}, Summary, SB);
    SummaryReports(w, tds);
    GoesFurther(r, a);
    r' := Longer(r, a, Step(w, Partly(), 2, a));
  }

  /** The submission is finished, not superseded, with the total of these results as its score. */
  ghost predicate Concluded(r: Run, tds: seq<TdResult>) {
    && |r.ws| == |r.acts| + 1 && IsRun(r.ws, r.acts, Partly(), 2) && |tds| == 2
    && JudgedIn(r.ws[|r.acts|], SCORED, IN_ORDER)
    && var report := ReportIn(r.ws[|r.acts|], SCORED);
       report.OverallReport? && report.score == TotalScore(SCORED, tds)
  }

  lemma SummaryReports(w: World, tds: seq<TdResult>)
    requires Looks(w, {Summary}, {}, tds, {0}) && |tds| == 2 && CanStep(w, 2, Take(Key(1, Summary)))
    ensures var w' := Step(w, Partly(), 2, Take(Key(1, Summary)));
            JudgedIn(w', SCORED, IN_ORDER)
            && var report := ReportIn(w', SCORED); report.OverallReport? && report.score == TotalScore(SCORED, tds)
  {
    assert LiveOk(w, Partly(), 1);
    DispatchSummary(w.live[1], tds);
    hide WInv, Dispatch, Sized, IsTop, Partly, TotalScore;
  }

  lemma DispatchSummary(l: Live, tds: seq<TdResult>)
    requires LifecycleInv.Inv(l, Partly()) && l.j == Judged(SCORED, tds, NUL, NO_TOTALS) && l.left == {Summary}
    requires !l.cancelled
    requires |tds| == 2
    ensures Sized(l)
    ensures var l' := Dispatch(l, Summary);
            l'.j.sub == SCORED && l'.left == {} && !l'.cancelled && |l'.h.log| > 0
            && var report := l'.h.log[|l'.h.log| - 1]; report.OverallReport? && report.score == TotalScore(SCORED, tds)
  {
    Outcomes.RuntimeResults(l, Partly());
    Outcomes.RuntimeWorst(SCORED, tds, 2);
    hide Partly, TotalScore, WorstVerdict;
  }

  lemma TotalOfTwo(a: TdResult, b: TdResult)
    requires -MAX_SCORE <= a.score <= MAX_SCORE && -MAX_SCORE <= b.score <= MAX_SCORE
    ensures TotalScore(SCORED, [a, b]) == Clamp(RoundDiv(Min(a.score, b.score) * 100, 100_000_000))
  {
    var tds := [a, b];
    assert GroupScore(SCORED, tds, 0, 1) == Min(GroupScore(SCORED, tds, 0, 0), a.score) == a.score;
    assert GroupScore(SCORED, tds, 0, 2) == Min(a.score, b.score);
    assert WeightedSum(SCORED, tds, 1) == WeightedSum(SCORED, tds, 0) + EffectiveScore(SCORED, tds, 0) * 100;
    TotalIsRoundedSum(SCORED, tds);
  }

  /** Two workers, the same submission and outcomes, and two totals: nothing, and 30 points. */
  lemma TotalsDiffer() returns (a: Run, b: Run)
    ensures IsRun(a.ws, a.acts, Partly(), 2) && IsRun(b.ws, b.acts, Partly(), 2)
    ensures var w, w' := a.ws[|a.acts|], b.ws[|b.acts|];
            && JudgedIn(w, SCORED, IN_ORDER) && JudgedIn(w', SCORED, IN_ORDER)
            && ReportIn(w, SCORED).OverallReport? && ReportIn(w, SCORED).score == 0
            && ReportIn(w', SCORED).OverallReport? && ReportIn(w', SCORED).score == 30
  {
    a := FirstFailsFirst();
    b := SecondIsQuick();
    hide Reaches, IsRun, TotalScore, Partly, JudgedIn;
    a := Ends(a, [Scored(0), UNSCORED]);
    b := Ends(b, [Scored(0), Scored(1)]);
    TotalOfTwo(Scored(0), UNSCORED);
    TotalOfTwo(Scored(0), Scored(1));
  }
}
