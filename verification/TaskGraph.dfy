/** The dependency graph of one submission, stated by what each edge means. The queue
    code that builds it (with in-degrees and edge lists) is compared with this. */
module TaskGraph {
  import opened Types
  import opened TestdataRun

  /** The first stage that runs the problem program (or, with `problem` false, the user program);
      `sub.stages` if there is none. */
  function FirstStage(sub: Submission, problem: bool, from: nat): (j: nat)
    requires from <= sub.stages
    ensures from <= j <= sub.stages
    ensures j < sub.stages ==> ((j in sub.problemProgStages) <==> problem)
    ensures forall k :: from <= k < j ==> !((k in sub.problemProgStages) <==> problem)
    decreases sub.stages - from
  {
    if from == sub.stages || ((from in sub.problemProgStages) <==> problem) then from
    else FirstStage(sub, problem, from + 1)
  }

  predicate IsTask(sub: Submission, t: Task)
    requires sub.stages >= 1
  {
    match t
    case Compile(USERPROG) => FirstStage(sub, false, 0) < sub.stages
    case Compile(PROBPROG) => FirstStage(sub, true, 0) < sub.stages
    case Compile(SPECJUDGE) => !sub.specjudge.NORMAL?
    case Compile(SUMMARY) => sub.customSummary
    case Execute(i, j) => i < |sub.testdata| && j < sub.stages
    case Scoring(i, j) =>
      i < |sub.testdata| && j < sub.stages && (sub.judgeBetweenStages || j == sub.stages - 1)
    case Summary => true
  }

  /** `b` waits for `a`. */
  predicate Edge(sub: Submission, a: Task, b: Task)
    requires sub.stages >= 1
  {
    IsTask(sub, a) && IsTask(sub, b) &&
    match a
    case Compile(c) =>
      (match b
       case Execute(_, j) =>
         (c.USERPROG? && j == FirstStage(sub, false, 0)) || (c.PROBPROG? && j == FirstStage(sub, true, 0))
       case Scoring(_, j) => c.SPECJUDGE? && (sub.judgeBetweenStages ==> j == 0)
       case Summary => c.SUMMARY? || sub.testdata == []
       case Compile(_) => false)
    case Execute(i, j) =>
      (match b
       case Execute(i', j') => !sub.judgeBetweenStages && i' == i && j' == j + 1
       case Scoring(i', j') => i' == i && j' == j
       case _ => false)
    case Scoring(i, j) =>
      (match b
       case Execute(i', j') => sub.judgeBetweenStages && i' == i && j' == j + 1
       case Summary => j == sub.stages - 1
       case _ => false)
    case Summary => false
  }

  /* ---- what each task waits for ---- */

  ghost predicate IsFirstOfKind(sub: Submission, j: nat, problem: bool) {
    && j < sub.stages && ((j in sub.problemProgStages) <==> problem)
    && forall k :: 0 <= k < j ==> !((k in sub.problemProgStages) <==> problem)
  }

  /** The tasks of a submission: programs are compiled if some stage runs them, judge and summary program if there is
      one; every stage of every testdata is run, and scored if it is the last or judging is between stages. */
  ghost predicate Needed(sub: Submission, t: Task) {
    match t
    case Compile(USERPROG) => exists j: nat :: IsFirstOfKind(sub, j, false)
    case Compile(PROBPROG) => exists j: nat :: IsFirstOfKind(sub, j, true)
    case Compile(SPECJUDGE) => sub.specjudge != NORMAL
    case Compile(SUMMARY) => sub.customSummary
    case Execute(i, j) => i < |sub.testdata| && j < sub.stages
    case Scoring(i, j) =>
      i < |sub.testdata| && j < sub.stages && (j + 1 < sub.stages ==> sub.judgeBetweenStages)
    case Summary => true
  }

  /** A compilation waits for nothing. A run waits for what comes before it in its own testdata, and for the
      compilation of its program if it is the first to use it. A scoring waits for its run, and the first one for
      the judge. The summary waits for the last scorings and the summary program, and without testdata for every
      compilation. */
  ghost predicate WaitsFor(sub: Submission, b: Task, a: Task) {
    match b
    case Compile(_) => false
    case Execute(i, j) =>
      || (j > 0 && a == if sub.judgeBetweenStages then Scoring(i, j - 1) else Execute(i, j - 1))
      || (a == Compile(USERPROG) && IsFirstOfKind(sub, j, false))
      || (a == Compile(PROBPROG) && IsFirstOfKind(sub, j, true))
    case Scoring(i, j) =>
      a == Execute(i, j) || (a == Compile(SPECJUDGE) && (j == 0 || !sub.judgeBetweenStages))
    case Summary =>
      (a.Scoring? && a.stage + 1 == sub.stages) || a == Compile(SUMMARY) || (a.Compile? && |sub.testdata| == 0)
  }

  lemma FirstStageIs(sub: Submission, problem: bool, j: nat)
    requires sub.stages >= 1
    ensures IsFirstOfKind(sub, j, problem) <==> j == FirstStage(sub, problem, 0) < sub.stages
  {
  }

  lemma TasksAreNeeded(sub: Submission, t: Task)
    requires sub.stages >= 1
    ensures IsTask(sub, t) <==> Needed(sub, t)
  {
    FirstStageIs(sub, false, FirstStage(sub, false, 0));
    FirstStageIs(sub, true, FirstStage(sub, true, 0));
    forall j: nat, problem | IsFirstOfKind(sub, j, problem) ensures FirstStage(sub, problem, 0) < sub.stages {
      FirstStageIs(sub, problem, j);
    }
  }

  lemma EdgesAreWaits(sub: Submission, a: Task, b: Task)
    requires sub.stages >= 1 && IsTask(sub, a) && IsTask(sub, b)
    ensures Edge(sub, a, b) <==> WaitsFor(sub, b, a)
  {
    if b.Execute? {
      FirstStageIs(sub, false, b.stage);
      FirstStageIs(sub, true, b.stage);
    }
  }

  /** Position of an execute or scoring task in the chain of its testdata. */
  function PosOf(sub: Submission, t: Task): nat
    requires t.Execute? || t.Scoring?
  {
    if sub.judgeBetweenStages then 2 * t.stage + (if t.Scoring? then 1 else 0)
    else t.stage + (if t.Scoring? then 1 else 0)
  }

  lemma PosOfTask(sub: Submission, t: Task)
    requires sub.stages >= 1 && IsTask(sub, t) && (t.Execute? || t.Scoring?)
    ensures PosOf(sub, t) < ChainLen(sub) && ChainTask(sub, t.td, PosOf(sub, t)) == t
  {
  }

  lemma TaskAtPos(sub: Submission, i: nat, p: nat)
    requires sub.stages >= 1 && i < |sub.testdata| && p < ChainLen(sub)
    ensures IsTask(sub, ChainTask(sub, i, p)) && PosOf(sub, ChainTask(sub, i, p)) == p
  {
  }

  lemma ChainEdges(sub: Submission, i: nat, p: nat)
    requires sub.stages >= 1 && i < |sub.testdata| && p < ChainLen(sub)
    ensures p + 1 < ChainLen(sub) ==> Edge(sub, ChainTask(sub, i, p), ChainTask(sub, i, p + 1))
    ensures p + 1 == ChainLen(sub) ==> Edge(sub, ChainTask(sub, i, p), Summary)
  {
  }

  /** A topological rank: the graph has no cycles. */
  function Rank(sub: Submission, t: Task): nat
    requires sub.stages >= 1
  {
    match t
    case Compile(_) => 0
    case Execute(_, _) => 1 + PosOf(sub, t)
    case Scoring(_, _) => 1 + PosOf(sub, t)
    case Summary => 1 + ChainLen(sub)
  }

  lemma EdgeRaisesRank(sub: Submission, a: Task, b: Task)
    requires sub.stages >= 1 && Edge(sub, a, b)
    ensures Rank(sub, a) < Rank(sub, b)
  {
    if a.Execute? || a.Scoring? { PosOfTask(sub, a); }
  }

  /** A task that waits for `t`, for every task but the summary. */
  function SomeSuccessor(sub: Submission, t: Task): (s: Task)
    requires sub.stages >= 1 && IsTask(sub, t) && !t.Summary?
    ensures Edge(sub, t, s)
  {
    match t
    case Compile(c) =>
      if c.SUMMARY? || sub.testdata == [] then Summary
      else if c.USERPROG? then Execute(0, FirstStage(sub, false, 0))
      else if c.PROBPROG? then Execute(0, FirstStage(sub, true, 0))
      else Scoring(0, if sub.judgeBetweenStages then 0 else sub.stages - 1)
    case Execute(i, j) => if sub.judgeBetweenStages || j == sub.stages - 1 then Scoring(i, j) else Execute(i, j + 1)
    case Scoring(i, j) => if j == sub.stages - 1 then Summary else Execute(i, j + 1)
  }

  /** What is left of the graph: whoever waits for a remaining task remains. */
  ghost predicate UpClosed(sub: Submission, left: set<Task>)
    requires sub.stages >= 1
  {
    && (forall t :: t in left ==> IsTask(sub, t))
    && (forall a, b :: a in left && Edge(sub, a, b) ==> b in left)
  }

  ghost predicate Unblocked(sub: Submission, left: set<Task>, t: Task)
    requires sub.stages >= 1
  {
    t in left && forall a :: a in left ==> !Edge(sub, a, t)
  }

  lemma RemoveKeepsClosed(sub: Submission, left: set<Task>, t: Task)
    requires sub.stages >= 1 && UpClosed(sub, left) && Unblocked(sub, left, t)
    ensures UpClosed(sub, left - {t})
  {
  }

  /** The summary is unblocked only when it is the last remaining task. */
  lemma {:induction false} SummaryIsLast(sub: Submission, left: set<Task>, t: Task)
    requires sub.stages >= 1 && UpClosed(sub, left) && Unblocked(sub, left, Summary)
    requires t in left
    ensures t == Summary
    decreases 1 + ChainLen(sub) - Rank(sub, t)
  {
    if t != Summary {
      var s := SomeSuccessor(sub, t);
      EdgeRaisesRank(sub, t, s);
      RankBound(sub, s);
      SummaryIsLast(sub, left, s);
    }
  }

  lemma RankBound(sub: Submission, t: Task)
    requires sub.stages >= 1 && IsTask(sub, t)
    ensures Rank(sub, t) <= 1 + ChainLen(sub)
  {
    if t.Execute? || t.Scoring? { PosOfTask(sub, t); }
  }

  /** While anything is left, something is unblocked. */
  lemma {:induction false} SomeUnblocked(sub: Submission, left: set<Task>, t: Task) returns (u: Task)
    requires sub.stages >= 1 && UpClosed(sub, left) && t in left
    ensures Unblocked(sub, left, u)
    decreases Rank(sub, t)
  {
    if a :| a in left && Edge(sub, a, t) {
      EdgeRaisesRank(sub, a, t);
      u := SomeUnblocked(sub, left, a);
    } else {
      u := t;
    }
  }

  /** Which compilation the program of a stage comes from. */
  function ProgramOf(sub: Submission, stage: nat): CompileSubtask {
    if stage in sub.problemProgStages then PROBPROG else USERPROG
  }

  /** An unblocked execute task has its program compiled: that compilation is gone. */
  lemma ProgramIsCompiled(sub: Submission, left: set<Task>, i: nat, j: nat)
    requires ValidSub(sub) && UpClosed(sub, left) && Unblocked(sub, left, Execute(i, j))
    requires forall k :: 0 <= k < j ==> Execute(i, k) !in left
    ensures IsTask(sub, Compile(ProgramOf(sub, j))) && Compile(ProgramOf(sub, j)) !in left
  {
    var c := Compile(ProgramOf(sub, j));
    var first := FirstStage(sub, c.which.PROBPROG?, 0);
    assert Edge(sub, c, Execute(i, first));
  }

  /** Likewise for the judge of an unblocked scoring task. */
  lemma JudgeIsCompiled(sub: Submission, left: set<Task>, i: nat, j: nat)
    requires ValidSub(sub) && UpClosed(sub, left) && Unblocked(sub, left, Scoring(i, j))
    requires !sub.specjudge.NORMAL?
    requires sub.judgeBetweenStages && j > 0 ==> Scoring(i, 0) !in left
    ensures Compile(SPECJUDGE) !in left
  {
    assert Edge(sub, Compile(SPECJUDGE), Scoring(i, if sub.judgeBetweenStages then 0 else j));
  }
}
