/** Over whole runs: who is taken, what every step does to the submission it concerns, and why a testdata or a
    submission ends with the verdict it has. */
module Verdicts {
  import opened Types
  import opened TestdataRun
  import opened TaskGraph
  import Totals
  import opened Lifecycle
  import opened LifecycleInv
  import opened Causes
  import opened Effects
  import opened Acceptance
  import opened Outcomes
  import opened Closing
  import opened World
  import opened Finishing

  /* ---- who is taken ---- */

  /** What the queue compares last: compilations and the summary come before testdata with a number above zero. */
  function NumberOf(order: seq<nat>, t: Task): nat
    requires t.Execute? || t.Scoring? ==> t.td < |order|
  {
    match t
    case Execute(i, _) => order[i]
    case Scoring(i, _) => order[i]
    case _ => 0
  }

  /** In every run, whoever is taken waits for nothing and has the highest priority of those that wait for nothing,
      is of the oldest submission among these, and of the testdata judged first among these. */
  lemma TakenFirst(ws: seq<World>, acts: seq<Action>, ora: Oracle, kmax: nat, m: nat, id: int, t: Task)
    requires IsRun(ws, acts, ora, kmax) && m < |acts| && acts[m].Take?
    requires CanStart(ws[m], Key(id, t))
    ensures acts[m].key.sid in ws[m].live && id in ws[m].numbering
    ensures var w, sid, taken := ws[m], acts[m].key.sid, acts[m].key.task;
            var mine, other := w.live[sid].j.sub, w.live[id].j.sub;
            && other.priority <= mine.priority
            && (other.priority == mine.priority ==> sid <= id)
            && (id == sid ==>
                  var order := w.numbering[id].order;
                  && (taken.Execute? || taken.Scoring? ==> taken.td < |order|)
                  && (t.Execute? || t.Scoring? ==> t.td < |order|)
                  && NumberOf(order, taken) <= NumberOf(order, t))
  {
    TakenIsReady(ws, acts, ora, kmax, m);
    RunKeeps(ws, acts, ora, kmax, m);
    var w, k := ws[m], acts[m].key;
    assert CanStep(w, kmax, Take(k));
    assert LiveOk(w, ora, id) && LiveOk(w, ora, k.sid);
    assert IsTask(w.live[id].j.sub, t);
  }

  /* ---- what a step does ---- */

  lemma ResultAtHand(l: Live, ora: Oracle, t: Task)
    requires Inv(l, ora) && Unblocked(l.j.sub, l.left, t)
    ensures HasResult(l, t) && (t.Scoring? && t in l.running ==> t.td < |l.j.tds|)
  {
    assert IsTask(l.j.sub, t);
    if t.Execute? || t.Scoring? {
      HeadFacts(l, ora, t);
      NotDroppedNotFrozen(l, ora, t);
      DroppedMeans(l, t);
      FirstTask(l.j.sub, t.td, l.h.pos[t.td]);
    }
  }

  /** Nobody but submission `id` is changed by a step. */
  ghost predicate OthersStay(w: World, w': World, id: int) {
    forall x :: KnownAt(w, x) && x != id ==> KnownAt(w', x) && RecordOf(w', x) == RecordOf(w, x)
  }

  lemma StoreRecord(w: World, sid: int, l: Live)
    requires sid in w.live && w.live.Keys !! w.closed.Keys
    ensures KnownAt(Store(w, sid, l), sid) && RecordOf(Store(w, sid, l), sid) == l
    ensures OthersStay(w, Store(w, sid, l), sid)
  {
  }

  /** In every run, taking a task changes the record of its submission as the fields say, and no other record. */
  lemma TakeInRun(ws: seq<World>, acts: seq<Action>, ora: Oracle, kmax: nat, m: nat)
    requires IsRun(ws, acts, ora, kmax) && m < |acts| && acts[m].Take?
    ensures var k := acts[m].key;
            && k.sid in ws[m].live && KnownAt(ws[m + 1], k.sid) && OthersStay(ws[m], ws[m + 1], k.sid)
            && var l := ws[m].live[k.sid];
               && l.j.sub.stages >= 1 && IsTask(l.j.sub, k.task) && HasResult(l, k.task)
               && IsTaken(l, k.task, RecordOf(ws[m + 1], k.sid))
  {
    TakenIsReady(ws, acts, ora, kmax, m);
    RunKeeps(ws, acts, ora, kmax, m);
    var w, k := ws[m], acts[m].key;
    var l := w.live[k.sid];
    assert CanStep(w, kmax, acts[m]) && ws[m + 1] == Step(w, ora, kmax, acts[m]);
    hide IsTaken, Dispatch, Inv;
    ResultAtHand(l, ora, k.task);
    TakeMeans(l, k.task);
    StoreRecord(w, k.sid, Dispatch(l, k.task));
  }

  /** In every run, so does the end of a process, whatever its outcome. */
  lemma ReturnInRun(ws: seq<World>, acts: seq<Action>, ora: Oracle, kmax: nat, m: nat)
    requires IsRun(ws, acts, ora, kmax) && m < |acts| && acts[m].Return?
    ensures var k := acts[m].key;
            && k.sid in ws[m].live && KnownAt(ws[m + 1], k.sid) && OthersStay(ws[m], ws[m + 1], k.sid)
            && var l := ws[m].live[k.sid];
               && HasResult(l, k.task) && (k.task.Scoring? ==> k.task.td < |l.j.tds|)
               && IsCompleted(l, k.task, OutcomeOf(l, ora, k.task), RecordOf(ws[m + 1], k.sid))
  {
    RunKeeps(ws, acts, ora, kmax, m);
    var w, k := ws[m], acts[m].key;
    assert CanStep(w, kmax, acts[m]) && ws[m + 1] == Step(w, ora, kmax, acts[m]);
    var l := w.live[k.sid];
    assert LiveOk(w, ora, k.sid);
    assert Unblocked(l.j.sub, l.left, k.task);
    hide IsCompleted, Complete, Inv;
    ResultAtHand(l, ora, k.task);
    CompleteMeans(l, ora, k.task);
    StoreRecord(w, k.sid, Complete(l, ora, k.task));
  }

  /* ---- why a submission does not compile ---- */

  /** How a compiler ended. */
  function CompilerRun(sub: Submission, ora: Oracle, c: CompileSubtask): Outcome {
    ora(sub.internalId, Compile(c), NO_RESULT)
  }

  ghost predicate AllCompile(sub: Submission, ora: Oracle)
    requires sub.stages >= 1
  {
    forall c :: IsTask(sub, Compile(c)) ==> CompilerSucceeded(CompilerRun(sub, ora, c))
  }

  /** `v` is the most severe of what the compilers of the submission are to blame for. */
  ghost predicate IsCompileError(sub: Submission, ora: Oracle, v: Verdict)
    requires sub.stages >= 1
  {
    && (exists c :: IsTask(sub, Compile(c)) && CompilerLeaves(c, CompilerRun(sub, ora, c), v))
    && forall c, w :: IsTask(sub, Compile(c)) && CompilerLeaves(c, CompilerRun(sub, ora, c), w) ==> !Worse(v, w)
  }

  lemma CompilerIsIn(sub: Submission, ora: Oracle, c: CompileSubtask)
    requires sub.stages >= 1
    ensures Compile(c) in AllCompiles(sub) <==> IsTask(sub, Compile(c))
    ensures IsTask(sub, Compile(c)) ==>
              CompilerLeaves(c, CompilerRun(sub, ora, c), CompileVerdictOne(sub, ora, AllCompiles(sub), c))
    ensures !IsTask(sub, Compile(c)) ==> CompileVerdictOne(sub, ora, AllCompiles(sub), c) == NUL
    ensures Code(CompileVerdictOne(sub, ora, AllCompiles(sub), c)) <=
            Code(CompileVerdict(sub, ora, AllCompiles(sub)))
  {
    CompileOutcomeIs(c, CompilerRun(sub, ora, c), CompileOutcome(c, CompilerRun(sub, ora, c)));
    CodeOfCompileVerdict(sub, ora, AllCompiles(sub));
  }

  lemma CompileErrorIs(sub: Submission, ora: Oracle)
    requires sub.stages >= 1
    ensures var v := CompileVerdict(sub, ora, AllCompiles(sub));
            if AllCompile(sub, ora) then v == NUL else v != NUL && IsCompileError(sub, ora, v)
  {
    var v := CompileVerdict(sub, ora, AllCompiles(sub));
    hide Worse, IsTask, AllCompiles, CompileVerdictOne;
    forall c ensures Code(CompileVerdictOne(sub, ora, AllCompiles(sub), c)) <= Code(v) { CompilerIsIn(sub, ora, c); }
    forall c, w | IsTask(sub, Compile(c)) && CompilerLeaves(c, CompilerRun(sub, ora, c), w) ensures !Worse(v, w) {
      CompilerIsIn(sub, ora, c);
      CompileOutcomeIs(c, CompilerRun(sub, ora, c), w);
      CompileOutcomeIs(c, CompilerRun(sub, ora, c), CompileVerdictOne(sub, ora, AllCompiles(sub), c));
      CodeRanks(v, w);
    }
  }

  lemma ClosedCompileError(l: Live, ora: Oracle)
    requires Closed(l, ora) && !l.cancelled && !l.j.sub.customSummary
    ensures l.j.sub.stages >= 1 && |l.h.log| > 0 && l.h.log[|l.h.log| - 1].OverallReport?
    ensures var sub, v, last := l.j.sub, CompileVerdict(l.j.sub, ora, AllCompiles(l.j.sub)), l.h.log[|l.h.log| - 1];
            if v == NUL then Code(last.verdict) < Code(CE)
            else last == OverallReport(v, 0, 0, 0) && Code(v) >= Code(CE)
  {
    var l0 :| FinishedBy(l0, l, ora);
    FinishedFacts(l0, l, ora);
    CompileVerdictAtEnd(l0, ora);
    CompileVerdictIsSevere(l.j.sub, ora, l0.h.ran);
    RuntimeResults(l0, ora);
    RuntimeWorst(l0.j.sub, l0.j.tds, |l0.j.tds|);
    hide CompileVerdict, AllCompiles;
    assert l0.j.verdict == CompileVerdict(l.j.sub, ora, AllCompiles(l.j.sub));
    assert l0.j.totals == Totals.NO_TOTALS;
    assert l.j.verdict == SummaryVerdict(l0.j);
  }

  /** In every run (no summary program, not superseded): if every compiler succeeded the report says less than CE.
      Otherwise it is the most severe verdict that a compiler is to blame for, at least CE, with nothing else. */
  lemma CompileErrorsAreReported(ws: seq<World>, acts: seq<Action>, ora: Oracle, kmax: nat, id: int)
    requires IsRun(ws, acts, ora, kmax) && id in ws[|acts|].closed
    requires var l := ws[|acts|].closed[id]; !l.cancelled && !l.j.sub.customSummary
    ensures var l := ws[|acts|].closed[id];
            && l.j.sub.stages >= 1 && |l.h.log| > 0
            && var sub, last := l.j.sub, l.h.log[|l.h.log| - 1];
               && last.OverallReport?
               && (AllCompile(sub, ora) <==> Worse(last.verdict, CE))
               && (!AllCompile(sub, ora) ==>
                     IsCompileError(sub, ora, last.verdict) && last == OverallReport(last.verdict, 0, 0, 0))
  {
    RunKeeps(ws, acts, ora, kmax, |acts|);
    var l := ws[|acts|].closed[id];
    hide Worse, AllCompile, IsCompileError, WInv, IsRun;
    assert Closed(l, ora);
    hide Closed;
    ClosedCompileError(l, ora);
    CompileErrorIs(l.j.sub, ora);
    CodeRanks(l.h.log[|l.h.log| - 1].verdict, CE);
  }

  /** In particular a program whose compiler exits with a status other than zero is reported with CE or worse,
      and so is one that leaves no program behind. */
  lemma BrokenProgramIsReported(ws: seq<World>, acts: seq<Action>, ora: Oracle, kmax: nat, id: int)
    requires IsRun(ws, acts, ora, kmax) && id in ws[|acts|].closed
    requires var l := ws[|acts|].closed[id];
             && !l.cancelled && !l.j.sub.customSummary
             && l.j.sub.stages >= 1 && IsTask(l.j.sub, Compile(USERPROG))
    requires var o := CompilerRun(ws[|acts|].closed[id].j.sub, ora, USERPROG); o.siStatus != 0 || !o.outputRegular
    ensures var l := ws[|acts|].closed[id];
            |l.h.log| > 0 && var last := l.h.log[|l.h.log| - 1]; last.OverallReport? && !Worse(last.verdict, CE)
  {
    CompileErrorsAreReported(ws, acts, ora, kmax, id);
    assert !CompilerSucceeded(CompilerRun(ws[|acts|].closed[id].j.sub, ora, USERPROG));
  }

  /* ---- why a testdata is accepted ---- */

  /** Judged by the default judge in a run to the end, everything compiled, not superseded, without skipping. */
  ghost predicate JudgedByDefault(ws: seq<World>, acts: seq<Action>, ora: Oracle, kmax: nat, id: int, i: nat) {
    && IsRun(ws, acts, ora, kmax) && id in ws[|acts|].closed
    && var l := ws[|acts|].closed[id];
       && !l.cancelled && !l.j.sub.skipGroup && l.j.sub.specjudge == NORMAL && i < |l.j.sub.testdata|
       && l.j.sub.stages >= 1 && AllCompile(l.j.sub, ora)
  }

  lemma DefaultIsPlain(ws: seq<World>, acts: seq<Action>, ora: Oracle, kmax: nat, id: int, i: nat)
    requires JudgedByDefault(ws, acts, ora, kmax, id, i)
    ensures JudgedPlainly(ws, acts, ora, kmax, id, i)
  {
    RunKeeps(ws, acts, ora, kmax, |acts|);
    var l := ws[|acts|].closed[id];
    var l0 :| FinishedBy(l0, l, ora);
    FinishedFacts(l0, l, ora);
    hide IsRun, FinishedBy;
    CompileVerdictAtEnd(l0, ora) by { assert FinishedBy(l0, l, ora); }
    CompileErrorIs(l.j.sub, ora);
  }

  /** In every run the default judge accepts a testdata if and only if it finds the output right, and every stage
      before it exited with status 0, neither stopped nor signalled, within the limits - or the judge is to be
      asked about programs that ended badly, too. */
  lemma AcceptedExactly(ws: seq<World>, acts: seq<Action>, ora: Oracle, kmax: nat, id: int, i: nat)
    requires JudgedByDefault(ws, acts, ora, kmax, id, i)
    ensures var l := ws[|acts|].closed[id];
            var n := JudgedAfter(l.j.sub);
            && i < |l.j.tds| && n <= ChainLen(l.j.sub)
            && (l.j.tds[i].verdict == AC <==>
                  FoundRight(l.j.sub, ora, i) &&
                  (l.j.sub.judgeAbnormallyTerminated || StagesClean(l.j.sub, ora, i, n)))
  {
    DefaultIsPlain(ws, acts, ora, kmax, id, i);
    RunKeeps(ws, acts, ora, kmax, |acts|);
    var l := ws[|acts|].closed[id];
    EndsAlone(l, ora);
    hide StagesClean, FoundRight;
    AcceptedIff(l.j.sub, ora, i);
  }

  /** In every run, if an accepted testdata is judged only when its program ended well, all stages that were
      started ended well. */
  lemma AcceptedRanClean(ws: seq<World>, acts: seq<Action>, ora: Oracle, kmax: nat, id: int, i: nat, j: nat)
    requires JudgedByDefault(ws, acts, ora, kmax, id, i)
    requires var l := ws[|acts|].closed[id];
             i < |l.j.tds| && l.j.tds[i].verdict == AC && !l.j.sub.judgeAbnormallyTerminated
    ensures var l := ws[|acts|].closed[id];
            && JudgedAfter(l.j.sub) <= ChainLen(l.j.sub)
            && (Execute(i, j) in l.h.ran <==> j < JudgedAfter(l.j.sub))
            && (Execute(i, j) in l.h.ran ==>
                  var o := RunOf(l.j.sub, ora, i, j);
                  o.timekill == 0 && o.oomkill <= 0 && !o.siCode.KILLED? && !o.siCode.DUMPED? && o.siStatus == 0)
  {
    AcceptedExactly(ws, acts, ora, kmax, id, i);
    DefaultIsPlain(ws, acts, ora, kmax, id, i);
    RunKeeps(ws, acts, ora, kmax, |acts|);
    var l := ws[|acts|].closed[id];
    assert Closed(l, ora);
    StartedInRun(l, ora, i, j);
    if j < JudgedAfter(l.j.sub) { assert RanClean(l.j.sub, ora, i, j); }
  }

  lemma StartedInRun(l: Live, ora: Oracle, i: nat, j: nat)
    requires Closed(l, ora) && !l.cancelled && !l.j.sub.skipGroup && CompileVerdict(l.j.sub, ora, l.h.ran).NUL?
    requires l.j.sub.stages >= 1 && i < |l.j.sub.testdata| && l.j.sub.specjudge == NORMAL
    requires JudgedAfter(l.j.sub) <= ChainLen(l.j.sub) && StagesClean(l.j.sub, ora, i, JudgedAfter(l.j.sub))
    ensures Execute(i, j) in l.h.ran <==> j < JudgedAfter(l.j.sub)
  {
    var l0 :| FinishedBy(l0, l, ora);
    FinishedFacts(l0, l, ora);
    FinishedRan(l0, l, ora, Execute(i, j));
    hide FinishedBy, Inv, ChainTask, StartsAt, StagesClean, IsTask;
    if j < l.j.sub.stages {
      PosOfTask(l.j.sub, Execute(i, j)) by { assert IsTask(l.j.sub, Execute(i, j)); }
      RanWhereStarted(l0, ora, i, PosOf(l.j.sub, Execute(i, j)));
      AcceptedStarts(l.j.sub, ora, i, PosOf(l.j.sub, Execute(i, j)));
    }
  }

  lemma FinishedRan(l0: Live, l: Live, ora: Oracle, t: Task)
    requires FinishedBy(l0, l, ora)
    ensures t != Summary ==> (t in l.h.ran <==> t in l0.h.ran)
    ensures l0.j.sub.stages >= 1 && (t in l0.h.ran ==> IsTask(l0.j.sub, t))
  {
  }

  lemma RanWhereStarted(l: Live, ora: Oracle, i: nat, p: nat)
    requires Inv(l, ora) && Unblocked(l.j.sub, l.left, Summary) && !l.cancelled && !l.j.sub.skipGroup
    requires CompileVerdict(l.j.sub, ora, l.h.ran) == NUL && i < |l.j.sub.testdata| && p < ChainLen(l.j.sub)
    ensures ChainTask(l.j.sub, i, p) in l.h.ran <==> StartsAt(l.j.sub, ora, i, p)
  {
    ResultsAtEnd(l, ora);
    assert RanOk(l.j.sub, ora, l.h.ran, i, l.h.eff[i]);
  }
}
