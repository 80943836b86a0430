/** A run in which two uncancelled submissions with one external id are live together: the internal
    id of a finished submission is the external id of another one. */
module Collision {
  import opened Types
  import opened TaskGraph
  import Totals
  import opened Lifecycle
  import LifecycleInv
  import Serial
  import opened World
  import Resubmission

  /** Internal id 1, external id 2, no testdata; then 2 and 3, at a higher priority; then 3 and 2. */
  const FIRST := Submission(1, 2, 0, NORMAL, false, 1, {}, false, false, false, false, [], [], false, false)
  const SECOND := FIRST.(internalId := 2, submissionId := 3, priority := 1)
  const THIRD := FIRST.(internalId := 3)

  const NUMBERS := Serial.Numbering([], [])

  function Fine(id: int, t: Task, r: TdResult): Outcome { EMPTY_OUTCOME }

  const COMPILE := Compile(USERPROG)

  predicate Tiny(sub: Submission) {
    && sub.testdata == [] && sub.stages == 1 && sub.problemProgStages == {} && sub.specjudge == NORMAL
    && !sub.customSummary && sub.groupScore == []
  }

  lemma TinyTasks(sub: Submission)
    requires Tiny(sub)
    ensures AllTasks(sub) == {COMPILE, Summary} && ValidSub(sub) && Edge(sub, COMPILE, Summary)
    ensures forall t :: IsTask(sub, t) <==> t == COMPILE || t == Summary
  {
    AllTasksAreTasks(sub);
    assert FirstStage(sub, false, 0) == 0 && FirstStage(sub, true, 0) == FirstStage(sub, true, 1) == 1;
    forall t ensures t in AllTasks(sub) <==> t == COMPILE || t == Summary {
      assert t in AllTasks(sub) <==> IsTask(sub, t);
    }
  }

  /** Before, while and after the program is compiled. */
  function Waiting(sub: Submission): Live {
    Live(Judged(sub, [], NUL, Totals.NO_TOTALS), {COMPILE, Summary}, {}, false, {}, History([], [], {}, []))
  }

  function Compiling(sub: Submission): Live { Waiting(sub).(running := {COMPILE}) }

  function Compiled(sub: Submission): Live {
    Waiting(sub).(left := {Summary}, h := History([], [], {COMPILE}, []))
  }

  lemma ArrivedIsWaiting(sub: Submission)
    requires Tiny(sub)
    ensures Arrived(sub) == Waiting(sub) && Sized(Waiting(sub))
  {
    TinyTasks(sub);
    assert seq(|sub.testdata|, _ => 0) == [];
  }

  lemma CanStartTiny(sub: Submission)
    requires Tiny(sub)
    ensures forall t :: LifecycleInv.Startable(Waiting(sub), t) <==> t == COMPILE
    ensures forall t :: LifecycleInv.Startable(Compiled(sub), t) <==> t == Summary
    ensures Sized(Compiling(sub)) && Sized(Compiled(sub))
  {
    TinyTasks(sub);
    forall a, b | Edge(sub, a, b) ensures a == COMPILE && b == Summary { assert IsTask(sub, a) && IsTask(sub, b); }
  }

  lemma TinySteps(sub: Submission)
    requires Tiny(sub)
    ensures Sized(Waiting(sub)) && Sized(Compiling(sub)) && Sized(Compiled(sub))
    ensures Dispatch(Waiting(sub), COMPILE) == Compiling(sub)
    ensures Complete(Compiling(sub), Fine, COMPILE) == Compiled(sub)
    ensures Dispatch(Compiled(sub), Summary).left == {}
  {
    TinyTasks(sub);
    CanStartTiny(sub);
    ArrivedIsWaiting(sub);
    assert {COMPILE} - {COMPILE} == {} && {COMPILE, Summary} - {COMPILE} == {Summary};
  }

  /* ---- the judge along the run ---- */

  function Two(second: Live): World {
    EMPTY.(live := map[1 := Waiting(FIRST), 2 := second], numbering := map[1 := NUMBERS, 2 := NUMBERS],
           idMap := map[2 := 1, 3 := 2], pushes := [(1, 2), (2, 3)])
  }

  function Late(first: Live, closed: map<int, Live>): World {
    EMPTY.(live := map[1 := first], closed := closed, numbering := map[1 := NUMBERS, 2 := NUMBERS],
           idMap := map[3 := 2], pushes := [(1, 2), (2, 3)])
  }

  const ONE := EMPTY.(live := map[1 := Waiting(FIRST)], numbering := map[1 := NUMBERS], idMap := map[2 := 1],
                      pushes := [(1, 2)])

  function Done(): Live
    requires Sized(Compiled(SECOND))
  {
    Dispatch(Compiled(SECOND), Summary)
  }

  lemma ArriveStep(w: World, sub: Submission)
    requires Tiny(sub) && sub.internalId !in w.live && sub.internalId !in w.closed
    ensures CanStep(w, 1, Arrive(sub, NUMBERS)) && Step(w, Fine, 1, Arrive(sub, NUMBERS)) == Push(w, sub, NUMBERS)
  {
    TinyTasks(sub);
  }

  lemma TwoArrive()
    ensures Push(EMPTY, FIRST, NUMBERS) == ONE && Push(ONE, SECOND, NUMBERS) == Two(Waiting(SECOND))
  {
    ArrivedIsWaiting(FIRST);
    ArrivedIsWaiting(SECOND);
    hide Arrived;
    assert Push(EMPTY, FIRST, NUMBERS).live == ONE.live;
    assert Push(ONE, SECOND, NUMBERS).live == Two(Waiting(SECOND)).live;
  }

  /** The second submission goes first: its priority is higher. */
  lemma TopOfTwo(second: Live, t: Task)
    requires second.j.sub == SECOND && second.running == {}
             && (forall u :: LifecycleInv.Startable(second, u) <==> u == t)
    ensures IsTop(Two(second), Key(2, t)) && |RunningKeys(Two(second))| < 1
  {
    CanStartTiny(FIRST);
    var w := Two(second);
    assert RunningKeys(w) == {};
    forall k | CanStart(w, k) ensures !Less(w, Key(2, t), k) {
      assert k.sid == 1 || (k.sid == 2 && k.task == t);
    }
  }

  lemma TakeCompile()
    ensures CanStep(Two(Waiting(SECOND)), 1, Take(Key(2, COMPILE)))
    ensures Step(Two(Waiting(SECOND)), Fine, 1, Take(Key(2, COMPILE))) == Two(Compiling(SECOND))
  {
    CanStartTiny(SECOND);
    TinySteps(SECOND);
    TopOfTwo(Waiting(SECOND), COMPILE);
    hide Dispatch, IsTop, Sized;
    assert Two(Waiting(SECOND)).live[2 := Compiling(SECOND)] == Two(Compiling(SECOND)).live;
  }

  lemma ReturnCompile()
    ensures CanStep(Two(Compiling(SECOND)), 1, Return(Key(2, COMPILE)))
    ensures Step(Two(Compiling(SECOND)), Fine, 1, Return(Key(2, COMPILE))) == Two(Compiled(SECOND))
  {
    TinySteps(SECOND);
    var w := Two(Compiling(SECOND));
    assert 2 in w.live && COMPILE in w.live[2].running;
    hide Complete, Sized;
    assert w.live[2 := Compiled(SECOND)] == Two(Compiled(SECOND)).live;
  }

  lemma TakeSummary()
    ensures Sized(Compiled(SECOND)) && CanStep(Two(Compiled(SECOND)), 1, Take(Key(2, Summary)))
    ensures Step(Two(Compiled(SECOND)), Fine, 1, Take(Key(2, Summary))) == Late(Waiting(FIRST), map[2 := Done()])
  {
    CanStartTiny(SECOND);
    TinySteps(SECOND);
    TopOfTwo(Compiled(SECOND), Summary);
    hide Dispatch, IsTop, Sized;
    assert Two(Compiled(SECOND)).live - {2} == Late(Waiting(FIRST), map[2 := Done()]).live;
    assert Two(Compiled(SECOND)).idMap - {2} == Late(Waiting(FIRST), map[2 := Done()]).idMap;
  }

  /** Now the first submission is compiled; the worker waits, and others may push. */
  lemma TakeFirst(closed: map<int, Live>)
    ensures CanStep(Late(Waiting(FIRST), closed), 1, Take(Key(1, COMPILE)))
    ensures Step(Late(Waiting(FIRST), closed), Fine, 1, Take(Key(1, COMPILE))) == Late(Compiling(FIRST), closed)
  {
    CanStartTiny(FIRST);
    TinySteps(FIRST);
    var w := Late(Waiting(FIRST), closed);
    assert RunningKeys(w) == {};
    forall k | CanStart(w, k) ensures k == Key(1, COMPILE) {}
    hide Dispatch, Sized;
    assert w.live[1 := Compiling(FIRST)] == Late(Compiling(FIRST), closed).live;
  }

  /** The first submission is not cancelled when the third, with the same external id, comes in. */
  lemma BothLive(closed: map<int, Live>)
    requires 3 !in closed
    ensures !Resubmission.Unique(Push(Late(Compiling(FIRST), closed), THIRD, NUMBERS))
  {
    ArrivedIsWaiting(THIRD);
    hide Arrived;
    var w := Push(Late(Compiling(FIRST), closed), THIRD, NUMBERS);
    assert 1 in w.live && 3 in w.live && w.live[1] == Compiling(FIRST) && w.live[3] == Waiting(THIRD);
    assert Resubmission.Rivals(w.live[1], w.live[3]);
  }

  /** Uniqueness fails in a run of the judge, with one worker and programs that compile. The third submission
      comes while the worker waits for the first one to be compiled. */
  lemma UniquenessCanFail() returns (ws: seq<World>, acts: seq<Action>)
    ensures IsRun(ws, acts, Fine, 1) && !Resubmission.Unique(ws[|acts|])
  {
    hide CanStep, Step, Push, Resubmission.Unique;
    TwoArrive();
    ArriveStep(EMPTY, FIRST);
    ArriveStep(ONE, SECOND);
    TakeCompile();
    ReturnCompile();
    TakeSummary();
    var closed := map[2 := Done()];
    TakeFirst(closed);
    var late := Late(Compiling(FIRST), closed);
    ArriveStep(late, THIRD);
    BothLive(closed);
    ws := [EMPTY, ONE, Two(Waiting(SECOND)), Two(Compiling(SECOND)), Two(Compiled(SECOND)),
           Late(Waiting(FIRST), closed), late, Push(late, THIRD, NUMBERS)];
    acts := [Arrive(FIRST, NUMBERS), Arrive(SECOND, NUMBERS), Take(Key(2, COMPILE)), Return(Key(2, COMPILE)),
             Take(Key(2, Summary)), Take(Key(1, COMPILE)), Arrive(THIRD, NUMBERS)];
    forall i | 0 <= i < 7 ensures CanStep(ws[i], 1, acts[i]) && ws[i + 1] == Step(ws[i], Fine, 1, acts[i]) {
      if i == 0 {} else if i == 1 {} else if i == 2 {} else if i == 3 {} else if i == 4 {} else if i == 5 {} else {}
    }
  }
}
