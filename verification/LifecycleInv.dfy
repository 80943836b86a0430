/** What every schedule keeps true of a submission until its summary is finalized. */
module LifecycleInv {
  import opened Types
  import opened TestdataRun
  import opened TaskGraph
  import Totals
  import opened Lifecycle

  /* ---- the invariant ---- */

  ghost predicate ChainLeft(sub: Submission, left: set<Task>, i: nat, k: nat)
    requires sub.stages >= 1
  {
    k <= ChainLen(sub) &&
    forall p :: 0 <= p < ChainLen(sub) ==> (ChainTask(sub, i, p) in left <==> k <= p)
  }

  ghost predicate Shape(sub: Submission, left: set<Task>, running: set<Task>, pos: seq<nat>) {
    && ValidSub(sub)
    && UpClosed(sub, left)
    && Summary in left
    && |pos| == |sub.testdata|
    && (forall i :: 0 <= i < |pos| ==> ChainLeft(sub, left, i, pos[i]))
    && (forall t :: t in running ==> Unblocked(sub, left, t))
  }

  predicate HeadRunning(sub: Submission, running: set<Task>, i: nat, k: nat)
    requires sub.stages >= 1
  {
    k < ChainLen(sub) && ChainTask(sub, i, k) in running
  }

  /** The result of testdata i is that of its first `eff` tasks run alone; it lags behind the
      graph only once the testdata has been dropped. */
  ghost predicate ResultOk(sub: Submission, ora: Oracle, tds: seq<TdResult>, running: set<Task>,
                           i: nat, pos: nat, eff: nat, frozen: bool)
    requires sub.stages >= 1 && i < |sub.testdata| && pos <= ChainLen(sub)
  {
    && eff <= pos
    && Td(tds, i) == Chain(sub, ora, i, eff)
    && (eff > 0 ==> i < |tds|)
    && (!frozen || HeadRunning(sub, running, i, pos) ==> eff == pos)
    && (HeadRunning(sub, running, i, pos) ==> StartsAt(sub, ora, i, pos))
  }

  function CompileVerdictOne(sub: Submission, ora: Oracle, ran: set<Task>, c: CompileSubtask): Verdict {
    if Compile(c) in ran then CompileOutcome(c, ora(sub.internalId, Compile(c), NO_RESULT)) else NUL
  }

  /** The worst compilation so far; NUL if all of them succeeded. */
  function CompileVerdict(sub: Submission, ora: Oracle, ran: set<Task>): Verdict {
    MaxVerdict(
      MaxVerdict(CompileVerdictOne(sub, ora, ran, USERPROG), CompileVerdictOne(sub, ora, ran, PROBPROG)),
      MaxVerdict(CompileVerdictOne(sub, ora, ran, SPECJUDGE), CompileVerdictOne(sub, ora, ran, SUMMARY)))
  }

  predicate Frozen(l: Live, ora: Oracle, i: nat)
    requires i < |l.j.sub.testdata|
  {
    || !CompileVerdict(l.j.sub, ora, l.h.ran).NUL?
    || IsCancelled(l.cancelled, l.cgroups, l.j.sub.testdata[i].groups)
  }

  ghost predicate Results(l: Live, ora: Oracle)
    requires Shape(l.j.sub, l.left, l.running, l.h.pos)
  {
    && |l.h.eff| == |l.h.pos|
    && |l.j.tds| <= |l.j.sub.testdata|
    && forall i :: 0 <= i < |l.h.pos| ==>
         ResultOk(l.j.sub, ora, l.j.tds, l.running, i, l.h.pos[i], l.h.eff[i], Frozen(l, ora, i))
  }

  ghost predicate Compiles(l: Live, ora: Oracle)
    requires Shape(l.j.sub, l.left, l.running, l.h.pos) && |l.j.tds| <= |l.j.sub.testdata|
  {
    && (forall c :: IsTask(l.j.sub, Compile(c)) && Compile(c) !in l.left && Compile(c) !in l.h.ran ==> l.cancelled)
    && (forall t :: t in l.h.ran ==> IsTask(l.j.sub, t) && t !in l.left)
    && var v := CompileVerdict(l.j.sub, ora, l.h.ran);
       if Summary in l.running then
         l.j.sub.customSummary && l.j.verdict == SummaryVerdict(l.j.(verdict := v)) && !l.j.verdict.JCE?
       else l.j.verdict == v
  }

  /** A task of a chain really ran exactly when the chain, judged alone, starts it. */
  ghost predicate RanOk(sub: Submission, ora: Oracle, ran: set<Task>, i: nat, eff: nat)
    requires sub.stages >= 1 && i < |sub.testdata|
  {
    forall p :: 0 <= p < ChainLen(sub) ==>
      (ChainTask(sub, i, p) in ran <==> p < eff && StartsAt(sub, ora, i, p))
  }

  /** Testdata i ended with a verdict that gives up its groups. */
  ghost predicate Spoils(sub: Submission, ora: Oracle, i: nat, eff: nat)
    requires sub.stages >= 1 && i < |sub.testdata| && eff <= ChainLen(sub)
  {
    Settled(sub, ora, i, eff) && Cancels(sub, Chain(sub, ora, i, eff).verdict)
  }

  ghost predicate EffOk(sub: Submission, eff: seq<nat>) {
    && sub.stages >= 1
    && |eff| == |sub.testdata|
    && forall i :: 0 <= i < |eff| ==> eff[i] <= ChainLen(sub)
  }

  /** Exactly the groups of the testdata that spoiled them are given up. */
  ghost predicate GroupsOk(sub: Submission, ora: Oracle, cgroups: set<nat>, eff: seq<nat>)
    requires EffOk(sub, eff)
  {
    && (forall g :: g in cgroups ==>
      exists i :: 0 <= i < |eff| && g in sub.testdata[i].groups && Spoils(sub, ora, i, eff[i]))
    && (forall i :: 0 <= i < |eff| && Spoils(sub, ora, i, eff[i]) ==> GroupsOf(sub, i) <= cgroups)
  }

  function TdReports(log: seq<Report>, i: nat): seq<Report> {
    if log == [] then []
    else
      var r := log[|log| - 1];
      TdReports(log[..|log| - 1], i) + if r.TdReport? && r.td == i then [r] else []
  }

  ghost predicate LogOk(sub: Submission, ora: Oracle, log: seq<Report>, eff: seq<nat>, cancelled: bool)
    requires EffOk(sub, eff)
  {
    && (forall k :: 0 <= k < |log| ==> log[k].TdReport?)
    && (!cancelled ==> forall i :: 0 <= i < |eff| ==> TdReports(log, i) == ReportsOf(sub, ora, i, eff[i]))
  }

  ghost predicate Inv(l: Live, ora: Oracle) {
    && Shape(l.j.sub, l.left, l.running, l.h.pos)
    && l.j.totals == Totals.NO_TOTALS
    && Results(l, ora)
    && Compiles(l, ora)
    && EffOk(l.j.sub, l.h.eff)
    && (forall i :: 0 <= i < |l.h.eff| ==> RanOk(l.j.sub, ora, l.h.ran, i, l.h.eff[i]))
    && GroupsOk(l.j.sub, ora, l.cgroups, l.h.eff)
    && LogOk(l.j.sub, ora, l.h.log, l.h.eff, l.cancelled)
  }

  /** What a worker may take: nothing it waits for remains and nobody else runs it. */
  ghost predicate Startable(l: Live, t: Task)
    requires l.j.sub.stages >= 1
  {
    Unblocked(l.j.sub, l.left, t) && t !in l.running
  }

  /* ---- arrival ---- */

  lemma ArrivedInv(sub: Submission, ora: Oracle)
    requires ValidSub(sub)
    ensures Inv(Arrived(sub), ora)
  {
    AllTasksAreTasks(sub);
    forall i, p | 0 <= i < |sub.testdata| && 0 <= p < ChainLen(sub) ensures IsTask(sub, ChainTask(sub, i, p)) {
      TaskAtPos(sub, i, p);
    }
  }

  /* ---- the graph ---- */

  lemma UnblockedIsHead(sub: Submission, left: set<Task>, t: Task, k: nat)
    requires sub.stages >= 1 && UpClosed(sub, left) && Unblocked(sub, left, t)
    requires (t.Execute? || t.Scoring?) && ChainLeft(sub, left, t.td, k)
    ensures k < ChainLen(sub) && t == ChainTask(sub, t.td, k)
  {
    PosOfTask(sub, t);
    var p := PosOf(sub, t);
    if k < p {
      ChainEdges(sub, t.td, p - 1);
    }
  }

  lemma ChainLeftGone(sub: Submission, left: set<Task>, t: Task, i: nat, k: nat)
    requires sub.stages >= 1 && i < |sub.testdata| && ChainLeft(sub, left, i, k)
    requires t.Compile? || (t.Execute? || t.Scoring?)
    requires (t.Execute? || t.Scoring?) && t.td == i ==> k < ChainLen(sub) && t == ChainTask(sub, i, k)
    ensures ChainLeft(sub, left - {t}, i, if (t.Execute? || t.Scoring?) && t.td == i then k + 1 else k)
  {
    forall p | 0 <= p < ChainLen(sub)
      ensures ChainTask(sub, i, p) == t <==> (t.Execute? || t.Scoring?) && t.td == i && p == k
    {
      TaskAtPos(sub, i, p);
      if k < ChainLen(sub) { TaskAtPos(sub, i, k); }
    }
  }

  lemma ShapeGone(sub: Submission, left: set<Task>, running: set<Task>, pos: seq<nat>, t: Task, pos': seq<nat>)
    requires Shape(sub, left, running, pos) && Unblocked(sub, left, t) && !t.Summary?
    requires pos' == if t.Compile? then pos else pos[t.td := pos[t.td] + 1]
    ensures Shape(sub, left - {t}, running - {t}, pos')
  {
    RemoveKeepsClosed(sub, left, t);
    if !t.Compile? { UnblockedIsHead(sub, left, t, pos[t.td]); }
    forall i | 0 <= i < |pos| ensures ChainLeft(sub, left - {t}, i, pos'[i]) {
      ChainLeftGone(sub, left, t, i, pos[i]);
    }
  }

  /* ---- a chain task that takes effect ---- */

  /** The one way a chain task changes a submission, whether it was skipped by its own
      testdata or run to completion. */
  ghost predicate IsAdvance(l: Live, l': Live, ora: Oracle, t: Task)
    requires Sized(l) && IsTask(l.j.sub, t) && (t.Execute? || t.Scoring?)
  {
    var sub := l.j.sub;
    var i := t.td;
    var r := Td(l.j.tds, i);
    var r' := TdStep(sub, ora, t, r);
    var plan := PlanOf(sub, t, r);
    && l'.j.sub == sub && l'.j.verdict == l.j.verdict && l'.j.totals == l.j.totals
    && i < |l'.j.tds| <= |sub.testdata| && Td(l'.j.tds, i) == r'
    && (forall k: nat :: k != i ==> Td(l'.j.tds, k) == Td(l.j.tds, k))
    && (|l'.j.tds| == |l.j.tds| || (|l.j.tds| < |l'.j.tds| && |l'.j.tds| == i + 1))
    && l'.left == l.left - {t} && l'.running == l.running - {t} && l'.cancelled == l.cancelled
    && l'.cgroups ==
      (if t.Scoring? && !plan.Leave? && Cancels(sub, r'.verdict) then l.cgroups + GroupsOf(sub, i) else l.cgroups)
    && l'.h.pos == l.h.pos[i := l.h.pos[i] + 1]
    && l'.h.eff == l.h.eff[i := l.h.eff[i] + 1]
    && l'.h.ran == (if plan.Start? then l.h.ran + {t} else l.h.ran)
    && l'.h.log == (if l.cancelled then l.h.log else l.h.log + ReportStep(sub, t, r, r'))
  }

  /** The state of a chain task about to take effect. */
  lemma HeadFacts(l: Live, ora: Oracle, t: Task)
    requires Inv(l, ora) && Unblocked(l.j.sub, l.left, t) && (t.Execute? || t.Scoring?)
    ensures IsTask(l.j.sub, t) && t.td < |l.h.pos|
    ensures var k := l.h.pos[t.td];
            && k < ChainLen(l.j.sub) && t == ChainTask(l.j.sub, t.td, k)
            && (t in l.running ==> l.h.eff[t.td] == k && StartsAt(l.j.sub, ora, t.td, k))
            && (!Frozen(l, ora, t.td) ==> l.h.eff[t.td] == k)
            && Td(l.j.tds, t.td) == Chain(l.j.sub, ora, t.td, l.h.eff[t.td])
            && (l.h.eff[t.td] > 0 ==> t.td < |l.j.tds|)
  {
    assert IsTask(l.j.sub, t);
    UnblockedIsHead(l.j.sub, l.left, t, l.h.pos[t.td]);
    assert ResultOk(l.j.sub, ora, l.j.tds, l.running, t.td, l.h.pos[t.td], l.h.eff[t.td], Frozen(l, ora, t.td));
  }

  lemma ExecuteComputes(l: Live, ora: Oracle, t: Task)
    requires Sized(l) && t in l.left && t.Execute?
    requires PlanOf(l.j.sub, t, Td(l.j.tds, t.td)).Start?
    ensures IsTask(l.j.sub, t) && IsAdvance(l, Complete(l, ora, t), ora, t)
  {
    var grown := Grow(l.j.tds, t.td + 1);
    assert grown[t.td] == Td(l.j.tds, t.td);
  }

  lemma ScoringComputes(l: Live, ora: Oracle, t: Task)
    requires Sized(l) && t in l.left && t.Scoring? && t.td < |l.j.tds|
    requires PlanOf(l.j.sub, t, Td(l.j.tds, t.td)).Start?
    ensures IsTask(l.j.sub, t) && IsAdvance(l, Complete(l, ora, t), ora, t)
  {
  }

  lemma SkipComputes(l: Live, ora: Oracle, t: Task)
    requires Sized(l) && t in l.left && (t.Execute? || t.Scoring?) && t.td < |l.j.tds|
    requires IsTask(l.j.sub, t) && !SetupStarts(l, t) && !Dropped(l, t)
    requires t !in l.running
    ensures IsAdvance(l, Dispatch(l, t), ora, t)
  {
  }

  lemma CompleteIsAdvance(l: Live, ora: Oracle, t: Task)
    requires Inv(l, ora) && t in l.running && (t.Execute? || t.Scoring?)
    ensures Sized(l) && IsTask(l.j.sub, t) && IsAdvance(l, Complete(l, ora, t), ora, t)
    ensures l.h.eff[t.td] == l.h.pos[t.td]
  {
    HeadFacts(l, ora, t);
    FirstTask(l.j.sub, t.td, l.h.pos[t.td]);
    if t.Execute? { ExecuteComputes(l, ora, t); } else { ScoringComputes(l, ora, t); }
  }

  lemma SkipIsAdvance(l: Live, ora: Oracle, t: Task)
    requires Inv(l, ora) && Startable(l, t) && (t.Execute? || t.Scoring?) && l.j.sub.stages >= 1
    requires IsTask(l.j.sub, t) && !SetupStarts(l, t) && !Dropped(l, t)
    ensures Sized(l) && IsAdvance(l, Dispatch(l, t), ora, t)
    ensures l.h.eff[t.td] == l.h.pos[t.td]
  {
    NotDroppedNotFrozen(l, ora, t);
    HeadFacts(l, ora, t);
    FirstTask(l.j.sub, t.td, l.h.pos[t.td]);
    SkipComputes(l, ora, t);
  }

  /** The submission-wide checks look at the stored verdict; before the summary that is the
      verdict of the compilations. */
  lemma NotDroppedNotFrozen(l: Live, ora: Oracle, t: Task)
    requires Inv(l, ora) && t in l.left && (t.Execute? || t.Scoring?)
    ensures IsTask(l.j.sub, t) && Summary !in l.running
    ensures Dropped(l, t) <==> Frozen(l, ora, t.td)
  {
    if Summary in l.running { SummaryIsLast(l.j.sub, l.left, t); }
  }

  /** The task at position `k` of its chain, every earlier one having taken effect. */
  ghost predicate AtHead(l: Live, ora: Oracle, t: Task, k: nat) {
    && Sized(l) && EffOk(l.j.sub, l.h.eff)
    && (t.Execute? || t.Scoring?) && IsTask(l.j.sub, t)
    && k < ChainLen(l.j.sub) && t == ChainTask(l.j.sub, t.td, k)
    && l.h.eff[t.td] == l.h.pos[t.td] == k
    && Td(l.j.tds, t.td) == Chain(l.j.sub, ora, t.td, k)
  }

  lemma AdvanceShape(l: Live, l': Live, ora: Oracle, t: Task)
    requires Inv(l, ora) && Unblocked(l.j.sub, l.left, t) && (t.Execute? || t.Scoring?)
    requires IsTask(l.j.sub, t) && IsAdvance(l, l', ora, t)
    ensures Shape(l'.j.sub, l'.left, l'.running, l'.h.pos)
  {
    ShapeGone(l.j.sub, l.left, l.running, l.h.pos, t, l'.h.pos);
  }

  lemma SameCompileVerdict(sub: Submission, ora: Oracle, ran: set<Task>, ran': set<Task>, t: Task)
    requires !t.Compile? && (ran' == ran || ran' == ran + {t})
    ensures CompileVerdict(sub, ora, ran') == CompileVerdict(sub, ora, ran)
  {
    hide CompileOutcome, MaxVerdict;
    assert forall c :: CompileVerdictOne(sub, ora, ran', c) == CompileVerdictOne(sub, ora, ran, c);
  }

  lemma AdvanceCompileVerdict(l: Live, l': Live, ora: Oracle, t: Task)
    requires Sized(l) && IsTask(l.j.sub, t) && (t.Execute? || t.Scoring?) && IsAdvance(l, l', ora, t)
    ensures CompileVerdict(l'.j.sub, ora, l'.h.ran) == CompileVerdict(l.j.sub, ora, l.h.ran)
  {
    hide CompileVerdict, TdStep, PlanOf, ReportStep, UpClosed, ValidSub;
    SameCompileVerdict(l.j.sub, ora, l.h.ran, l'.h.ran, t);
  }

  lemma HeadAfterAdvance(l: Live, ora: Oracle, t: Task)
    requires Inv(l, ora) && Unblocked(l.j.sub, l.left, t) && (t.Execute? || t.Scoring?)
    requires IsTask(l.j.sub, t)
    ensures !HeadRunning(l.j.sub, l.running, t.td, l.h.pos[t.td] + 1)
  {
    var sub, k := l.j.sub, l.h.pos[t.td];
    HeadFacts(l, ora, t);
    if HeadRunning(sub, l.running, t.td, k + 1) {
      ChainEdges(sub, t.td, k);
    }
  }

  lemma FrozenStays(l: Live, l': Live, ora: Oracle, t: Task, i: nat)
    requires Sized(l) && IsTask(l.j.sub, t) && (t.Execute? || t.Scoring?) && IsAdvance(l, l', ora, t)
    requires i < |l.j.sub.testdata|
    ensures Frozen(l, ora, i) ==> Frozen(l', ora, i)
  {
    AdvanceCompileVerdict(l, l', ora, t);
  }

  lemma AdvanceResults(l: Live, l': Live, ora: Oracle, t: Task)
    requires Inv(l, ora) && Unblocked(l.j.sub, l.left, t) && (t.Execute? || t.Scoring?)
    requires IsTask(l.j.sub, t) && IsAdvance(l, l', ora, t) && l.h.eff[t.td] == l.h.pos[t.td]
    ensures Shape(l'.j.sub, l'.left, l'.running, l'.h.pos)
    ensures Results(l', ora)
  {
    AdvanceShape(l, l', ora, t);
    forall i | 0 <= i < |l'.h.pos|
      ensures ResultOk(l.j.sub, ora, l'.j.tds, l'.running, i, l'.h.pos[i], l'.h.eff[i], Frozen(l', ora, i))
    {
      AdvanceResult(l, l', ora, t, i);
    }
  }

  lemma AdvanceResult(l: Live, l': Live, ora: Oracle, t: Task, i: nat)
    requires Inv(l, ora) && Unblocked(l.j.sub, l.left, t) && (t.Execute? || t.Scoring?)
    requires IsTask(l.j.sub, t) && IsAdvance(l, l', ora, t) && l.h.eff[t.td] == l.h.pos[t.td]
    requires i < |l.j.sub.testdata| && l'.h.pos[i] <= ChainLen(l.j.sub)
    ensures ResultOk(l.j.sub, ora, l'.j.tds, l'.running, i, l'.h.pos[i], l'.h.eff[i], Frozen(l', ora, i))
  {
    hide GroupsOk, LogOk, RanOk, CompileVerdict, ReportStep;
    if i == t.td {
      HeadFacts(l, ora, t);
      HeadAfterAdvance(l, ora, t);
      var k := l.h.pos[i];
      assert !HeadRunning(l.j.sub, l'.running, i, k + 1);
      assert Chain(l.j.sub, ora, i, k + 1) == TdStep(l.j.sub, ora, t, Chain(l.j.sub, ora, i, k));
    } else {
      assert ResultOk(l.j.sub, ora, l.j.tds, l.running, i, l.h.pos[i], l.h.eff[i], Frozen(l, ora, i));
      FrozenStays(l, l', ora, t, i);
      assert HeadRunning(l.j.sub, l'.running, i, l'.h.pos[i]) ==> HeadRunning(l.j.sub, l.running, i, l.h.pos[i]);
    }
  }

  lemma AdvanceRan(l: Live, l': Live, ora: Oracle, t: Task, k: nat, i: nat)
    requires AtHead(l, ora, t, k) && IsAdvance(l, l', ora, t)
    requires i < |l.h.eff| && RanOk(l.j.sub, ora, l.h.ran, i, l.h.eff[i])
    ensures RanOk(l'.j.sub, ora, l'.h.ran, i, l'.h.eff[i])
  {
    var sub := l.j.sub;
    forall p | 0 <= p < ChainLen(sub)
      ensures ChainTask(sub, i, p) in l'.h.ran <==> p < l'.h.eff[i] && StartsAt(sub, ora, i, p)
    {
      ChainTaskInjective(sub, i, p, t.td, k);
    }
  }

  lemma ChainTaskInjective(sub: Submission, i: nat, p: nat, i': nat, p': nat)
    requires sub.stages >= 1 && i < |sub.testdata| && i' < |sub.testdata|
    requires p < ChainLen(sub) && p' < ChainLen(sub)
    ensures ChainTask(sub, i, p) == ChainTask(sub, i', p') <==> i == i' && p == p'
  {
    TaskAtPos(sub, i, p);
    TaskAtPos(sub, i', p');
  }

  lemma SettledStaysSettled(sub: Submission, ora: Oracle, i: nat, p: nat)
    requires sub.stages >= 1 && i < |sub.testdata| && p < ChainLen(sub) && Settled(sub, ora, i, p)
    ensures Settled(sub, ora, i, p + 1) && Chain(sub, ora, i, p + 1) == Chain(sub, ora, i, p)
  {
    SkipStageIsFinal(sub, ora, i, p, p + 1);
  }

  /** A chain step spoils its groups exactly when it adds them to the given-up groups,
      unless they had been added before. */
  lemma SpoilStep(sub: Submission, ora: Oracle, i: nat, p: nat)
    requires sub.stages >= 1 && i < |sub.testdata| && p < ChainLen(sub)
    ensures var t := ChainTask(sub, i, p);
            var r, r' := Chain(sub, ora, i, p), Chain(sub, ora, i, p + 1);
            var adds := t.Scoring? && !PlanOf(sub, t, r).Leave? && Cancels(sub, r'.verdict);
            (adds ==> Spoils(sub, ora, i, p + 1)) &&
            (Spoils(sub, ora, i, p + 1) ==> adds || Spoils(sub, ora, i, p)) &&
            (Spoils(sub, ora, i, p) ==> Spoils(sub, ora, i, p + 1))
  {
    LastTask(sub, i, p);
    if Settled(sub, ora, i, p) { SettledStaysSettled(sub, ora, i, p); }
  }

  lemma AdvanceGroups(l: Live, l': Live, ora: Oracle, t: Task, k: nat)
    requires AtHead(l, ora, t, k) && IsAdvance(l, l', ora, t)
    requires GroupsOk(l.j.sub, ora, l.cgroups, l.h.eff)
    ensures EffOk(l'.j.sub, l'.h.eff) && GroupsOk(l'.j.sub, ora, l'.cgroups, l'.h.eff)
  {
    hide TdStep, PlanOf, ReportStep, UpClosed, ValidSub, CompileVerdict;
    var sub := l.j.sub;
    SpoilStep(sub, ora, t.td, k);
    forall g | g in l'.cgroups
      ensures exists i :: 0 <= i < |l'.h.eff| && g in sub.testdata[i].groups && Spoils(sub, ora, i, l'.h.eff[i])
    {
      if g in l.cgroups {
        var i :| 0 <= i < |l.h.eff| && g in sub.testdata[i].groups && Spoils(sub, ora, i, l.h.eff[i]);
        assert Spoils(sub, ora, i, l'.h.eff[i]);
      } else {
        assert g in sub.testdata[t.td].groups && Spoils(sub, ora, t.td, l'.h.eff[t.td]);
      }
    }
    forall i | 0 <= i < |l'.h.eff| && Spoils(sub, ora, i, l'.h.eff[i]) ensures GroupsOf(sub, i) <= l'.cgroups {
      if i != t.td { assert Spoils(sub, ora, i, l.h.eff[i]); }
    }
  }

  lemma TdReportsAppend(log: seq<Report>, more: seq<Report>, i: nat)
    requires |more| <= 1
    ensures TdReports(log + more, i) ==
            TdReports(log, i) + if |more| == 1 && more[0].TdReport? && more[0].td == i then more else []
  {
    if |more| == 1 {
      var all := log + more;
      assert all[..|all| - 1] == log;
    } else {
      assert log + more == log;
    }
  }

  lemma AdvanceLogOne(sub: Submission, ora: Oracle, log: seq<Report>, t: Task, k: nat, i: nat, more: seq<Report>)
    requires sub.stages >= 1 && i < |sub.testdata| && (t.Execute? || t.Scoring?) && t.td < |sub.testdata|
    requires k < ChainLen(sub) && ReportsOf(sub, ora, t.td, k + 1) == ReportsOf(sub, ora, t.td, k) + more
    requires |more| <= 1 && (|more| == 1 ==> more[0].TdReport? && more[0].td == t.td)
    ensures i != t.td ==> TdReports(log + more, i) == TdReports(log, i)
    ensures i == t.td && TdReports(log, i) == ReportsOf(sub, ora, i, k) ==>
              TdReports(log + more, i) == ReportsOf(sub, ora, i, k + 1)
  {
    TdReportsAppend(log, more, i);
    assert TdReports(log, i) + [] == TdReports(log, i);
  }

  lemma AdvanceLog(l: Live, l': Live, ora: Oracle, t: Task, k: nat)
    requires AtHead(l, ora, t, k) && IsAdvance(l, l', ora, t)
    requires LogOk(l.j.sub, ora, l.h.log, l.h.eff, l.cancelled)
    ensures EffOk(l'.j.sub, l'.h.eff) && LogOk(l'.j.sub, ora, l'.h.log, l'.h.eff, l'.cancelled)
  {
    var sub := l.j.sub;
    if !l.cancelled {
      var more := ReportStep(sub, t, Chain(sub, ora, t.td, k), Chain(sub, ora, t.td, k + 1));
      forall i | 0 <= i < |l'.h.eff| ensures TdReports(l'.h.log, i) == ReportsOf(sub, ora, i, l'.h.eff[i]) {
        AdvanceLogOne(sub, ora, l.h.log, t, k, i, more);
        assert TdReports(l.h.log, i) == ReportsOf(sub, ora, i, l.h.eff[i]);
      }
    }
  }

  lemma AdvanceCompiles(l: Live, l': Live, ora: Oracle, t: Task)
    requires Inv(l, ora) && Unblocked(l.j.sub, l.left, t) && (t.Execute? || t.Scoring?)
    requires IsTask(l.j.sub, t) && IsAdvance(l, l', ora, t)
    ensures Shape(l'.j.sub, l'.left, l'.running, l'.h.pos) && Compiles(l', ora)
  {
    AdvanceShape(l, l', ora, t);
    AdvanceCompileVerdict(l, l', ora, t);
    NotDroppedNotFrozen(l, ora, t);
  }

  lemma AdvanceInv(l: Live, l': Live, ora: Oracle, t: Task)
    requires Inv(l, ora) && Unblocked(l.j.sub, l.left, t) && (t.Execute? || t.Scoring?)
    requires IsTask(l.j.sub, t) && IsAdvance(l, l', ora, t) && l.h.eff[t.td] == l.h.pos[t.td]
    ensures Inv(l', ora)
  {
    var k := l.h.pos[t.td];
    AdvanceResults(l, l', ora, t);
    AdvanceCompiles(l, l', ora, t);
    HeadFacts(l, ora, t);
    AdvanceGroups(l, l', ora, t, k);
    AdvanceLog(l, l', ora, t, k);
    forall i | 0 <= i < |l'.h.eff| ensures RanOk(l'.j.sub, ora, l'.h.ran, i, l'.h.eff[i]) {
      AdvanceRan(l, l', ora, t, k, i);
    }
  }

  /* ---- the other moves ---- */

  lemma ResultStays(sub: Submission, ora: Oracle, tds: seq<TdResult>, running: set<Task>, running': set<Task>,
                    i: nat, pos: nat, eff: nat, frozen: bool, frozen': bool)
    requires sub.stages >= 1 && i < |sub.testdata| && pos <= ChainLen(sub)
    requires ResultOk(sub, ora, tds, running, i, pos, eff, frozen)
    requires frozen ==> frozen'
    requires HeadRunning(sub, running', i, pos) ==>
               HeadRunning(sub, running, i, pos) || (!frozen && StartsAt(sub, ora, i, pos))
    ensures ResultOk(sub, ora, tds, running', i, pos, eff, frozen')
  {
  }

  /** The parts of the invariant that only look at the history. */
  lemma RestStays(l: Live, l': Live, ora: Oracle)
    requires Inv(l, ora)
    requires l'.j.sub == l.j.sub && l'.j.totals == l.j.totals && l'.cgroups == l.cgroups && l'.cancelled == l.cancelled
    requires l'.h.eff == l.h.eff && l'.h.ran == l.h.ran && l'.h.log == l.h.log
    requires Shape(l'.j.sub, l'.left, l'.running, l'.h.pos) && Results(l', ora) && Compiles(l', ora)
    ensures Inv(l', ora)
  {
  }

  /** Moves that touch neither results nor positions. */
  lemma ResultsStay(l: Live, l': Live, ora: Oracle)
    requires Shape(l.j.sub, l.left, l.running, l.h.pos) && Results(l, ora)
    requires Shape(l'.j.sub, l'.left, l'.running, l'.h.pos)
    requires l'.j.sub == l.j.sub && l'.j.tds == l.j.tds && l'.h.pos == l.h.pos && l'.h.eff == l.h.eff
    requires l'.cgroups == l.cgroups && (l.cancelled ==> l'.cancelled)
    requires !CompileVerdict(l.j.sub, ora, l.h.ran).NUL? ==> !CompileVerdict(l.j.sub, ora, l'.h.ran).NUL?
    requires forall i: nat :: i < |l.h.pos| && HeadRunning(l.j.sub, l'.running, i, l.h.pos[i]) ==>
               HeadRunning(l.j.sub, l.running, i, l.h.pos[i]) ||
               (!Frozen(l, ora, i) && StartsAt(l.j.sub, ora, i, l.h.pos[i]))
    ensures Results(l', ora)
  {
    forall i | 0 <= i < |l'.h.pos|
      ensures ResultOk(l.j.sub, ora, l'.j.tds, l'.running, i, l'.h.pos[i], l'.h.eff[i], Frozen(l', ora, i))
    {
      ResultStays(l.j.sub, ora, l.j.tds, l.running, l'.running, i, l.h.pos[i], l.h.eff[i],
                  Frozen(l, ora, i), Frozen(l', ora, i));
    }
  }

  lemma StartInv(l: Live, ora: Oracle, t: Task)
    requires Inv(l, ora) && Startable(l, t) && !t.Summary? && IsTask(l.j.sub, t)
    requires SetupStarts(l, t)
    ensures Sized(l) && Inv(Dispatch(l, t), ora)
  {
    var l' := Dispatch(l, t);
    assert l' == l.(running := l.running + {t});
    if !t.Compile? {
      HeadFacts(l, ora, t);
      NotDroppedNotFrozen(l, ora, t);
    }
    ResultsStay(l, l', ora);
  }

  ghost predicate IsDrop(l: Live, l': Live, t: Task)
    requires t.Execute? || t.Scoring?
  {
    t.td < |l.h.pos| && l' == l.(left := l.left - {t}, h := l.h.(pos := l.h.pos[t.td := l.h.pos[t.td] + 1]))
  }

  lemma DropResults(l: Live, l': Live, ora: Oracle, t: Task)
    requires Shape(l.j.sub, l.left, l.running, l.h.pos) && Results(l, ora)
    requires (t.Execute? || t.Scoring?) && IsDrop(l, l', t) && Frozen(l, ora, t.td)
    requires !HeadRunning(l.j.sub, l.running, t.td, l.h.pos[t.td] + 1)
    requires Shape(l'.j.sub, l'.left, l'.running, l'.h.pos)
    ensures Results(l', ora)
  {
    forall i | 0 <= i < |l'.h.pos|
      ensures ResultOk(l.j.sub, ora, l'.j.tds, l'.running, i, l'.h.pos[i], l'.h.eff[i], Frozen(l', ora, i))
    {
      assert ResultOk(l.j.sub, ora, l.j.tds, l.running, i, l.h.pos[i], l.h.eff[i], Frozen(l, ora, i));
    }
  }

  lemma DropIs(l: Live, t: Task)
    requires Sized(l) && t in l.left && (t.Execute? || t.Scoring?) && IsTask(l.j.sub, t)
    requires Dropped(l, t) && t !in l.running
    ensures IsDrop(l, Dispatch(l, t), t)
  {
    assert l.running - {t} == l.running;
  }

  /** A task dropped because the submission failed or was cancelled leaves no other trace. */
  lemma DropInv(l: Live, ora: Oracle, t: Task)
    requires Inv(l, ora) && Startable(l, t) && (t.Execute? || t.Scoring?) && IsTask(l.j.sub, t)
    requires Dropped(l, t)
    ensures Sized(l) && Inv(Dispatch(l, t), ora)
  {
    DropIs(l, t);
    DropKeeps(l, Dispatch(l, t), ora, t);
  }

  lemma DropKeeps(l: Live, l': Live, ora: Oracle, t: Task)
    requires Inv(l, ora) && Startable(l, t) && (t.Execute? || t.Scoring?) && IsTask(l.j.sub, t)
    requires Dropped(l, t) && IsDrop(l, l', t)
    ensures Inv(l', ora)
  {
    hide GroupsOk, LogOk, RanOk, ResultOk, CompileVerdict;
    ShapeGone(l.j.sub, l.left, l.running, l.h.pos, t, l'.h.pos);
    assert l.running - {t} == l.running;
    NotDroppedNotFrozen(l, ora, t);
    HeadAfterAdvance(l, ora, t);
    DropResults(l, l', ora, t);
    DropCompiles(l, l', ora, t);
    RestStays(l, l', ora);
  }

  lemma DropCompiles(l: Live, l': Live, ora: Oracle, t: Task)
    requires Shape(l.j.sub, l.left, l.running, l.h.pos) && |l.j.tds| <= |l.j.sub.testdata| && Compiles(l, ora)
    requires (t.Execute? || t.Scoring?) && IsDrop(l, l', t) && Summary !in l.running
    requires Shape(l'.j.sub, l'.left, l'.running, l'.h.pos)
    ensures Compiles(l', ora)
  {
  }

  lemma CompileVerdictGrows(sub: Submission, ora: Oracle, ran: set<Task>, c: CompileSubtask)
    requires Compile(c) !in ran
    ensures var v := CompileOutcome(c, ora(sub.internalId, Compile(c), NO_RESULT));
            CompileVerdict(sub, ora, ran + {Compile(c)}) == MaxVerdict(CompileVerdict(sub, ora, ran), v)
  {
    var v := CompileOutcome(c, ora(sub.internalId, Compile(c), NO_RESULT));
    var ran' := ran + {Compile(c)};
    assert CompileVerdictOne(sub, ora, ran, c) == NUL && CompileVerdictOne(sub, ora, ran', c) == v;
    assert forall d :: d != c ==> CompileVerdictOne(sub, ora, ran', d) == CompileVerdictOne(sub, ora, ran, d);
    CodeOfCompileVerdict(sub, ora, ran);
    CodeOfCompileVerdict(sub, ora, ran');
    CodeOfMax(CompileVerdict(sub, ora, ran), v);
    CodeInjective(CompileVerdict(sub, ora, ran'), MaxVerdict(CompileVerdict(sub, ora, ran), v));
  }

  lemma CodeInjective(a: Verdict, b: Verdict)
    requires Code(a) == Code(b)
    ensures a == b
  {
  }

  lemma CodeOfMax(a: Verdict, b: Verdict)
    ensures Code(MaxVerdict(a, b)) == Max(Code(a), Code(b))
  {
  }

  lemma CodeOfCompileVerdict(sub: Submission, ora: Oracle, ran: set<Task>)
    ensures Code(CompileVerdict(sub, ora, ran)) ==
            Max(Max(Code(CompileVerdictOne(sub, ora, ran, USERPROG)), Code(CompileVerdictOne(sub, ora, ran, PROBPROG))),
                Max(Code(CompileVerdictOne(sub, ora, ran, SPECJUDGE)), Code(CompileVerdictOne(sub, ora, ran, SUMMARY))))
  {
  }

  ghost predicate IsCompileDone(l: Live, l': Live, ora: Oracle, t: Task) {
    && t.Compile?
    && l' == l.(left := l.left - {t}, running := l.running - {t}, j := l.j.(verdict := l'.j.verdict),
                h := l.h.(ran := l.h.ran + {t}))
    && l'.j.verdict == MaxVerdict(l.j.verdict, CompileOutcome(t.which, ora(l.j.sub.internalId, t, NO_RESULT)))
  }

  lemma CompileDoneIs(l: Live, ora: Oracle, t: Task)
    requires Sized(l) && t in l.left && t.Compile?
    ensures IsCompileDone(l, Complete(l, ora, t), ora, t)
  {
    var v := CompileOutcome(t.which, ora(l.j.sub.internalId, t, NO_RESULT));
    CodeOfMax(l.j.verdict, v);
    if v.JE? { CodeInjective(MaxVerdict(l.j.verdict, v), JE); }
    if v.NUL? { CodeInjective(MaxVerdict(l.j.verdict, v), l.j.verdict); }
  }

  lemma CompileDoneInv(l: Live, ora: Oracle, t: Task)
    requires Inv(l, ora) && t in l.running && t.Compile?
    ensures Sized(l) && t in l.left && Inv(Complete(l, ora, t), ora)
  {
    CompileDoneIs(l, ora, t);
    CompileDoneKeeps(l, Complete(l, ora, t), ora, t);
  }

  lemma CompileDoneKeeps(l: Live, l': Live, ora: Oracle, t: Task)
    requires Inv(l, ora) && t in l.running && IsCompileDone(l, l', ora, t)
    ensures Inv(l', ora)
  {
    var sub := l.j.sub;
    ShapeGone(sub, l.left, l.running, l.h.pos, t, l'.h.pos);
    CompileVerdictGrows(sub, ora, l.h.ran, t.which);
    if Summary in l.running { SummaryIsLast(sub, l.left, t); }
    var v, v' := CompileVerdict(sub, ora, l.h.ran), CompileVerdict(sub, ora, l'.h.ran);
    assert !v.NUL? ==> !v'.NUL?;
    ResultsStay(l, l', ora);
    forall i | 0 <= i < |l'.h.pos| ensures RanOk(sub, ora, l'.h.ran, i, l'.h.eff[i]) {
      assert RanOk(sub, ora, l.h.ran, i, l.h.eff[i]);
    }
  }

  lemma CompileSkipInv(l: Live, ora: Oracle, t: Task)
    requires Inv(l, ora) && Startable(l, t) && t.Compile? && l.cancelled
    ensures Sized(l) && Inv(Dispatch(l, t), ora)
  {
    var sub := l.j.sub;
    var l' := Dispatch(l, t);
    ShapeGone(sub, l.left, l.running, l.h.pos, t, l'.h.pos);
    if Summary in l.running { SummaryIsLast(sub, l.left, t); }
    ResultsStay(l, l', ora);
  }

  lemma SummaryStartInv(l: Live, ora: Oracle)
    requires Inv(l, ora) && Startable(l, Summary) && SetupStarts(l, Summary)
    ensures Sized(l) && Inv(Dispatch(l, Summary), ora)
  {
    var l' := Dispatch(l, Summary);
    ResultsStay(l, l', ora);
  }

  lemma CancelInv(l: Live, ora: Oracle)
    requires Inv(l, ora)
    ensures Inv(Cancel(l), ora)
  {
    var l' := Cancel(l);
    ResultsStay(l, l', ora);
  }

  /** Dispatching anything but the summary keeps the invariant. */
  lemma DispatchInv(l: Live, ora: Oracle, t: Task)
    requires Inv(l, ora) && Startable(l, t) && (t.Summary? ==> SetupStarts(l, t))
    ensures Sized(l) && Inv(Dispatch(l, t), ora)
  {
    assert IsTask(l.j.sub, t);
    if t.Summary? {
      SummaryStartInv(l, ora);
    } else if SetupStarts(l, t) {
      StartInv(l, ora, t);
    } else if t.Compile? {
      CompileSkipInv(l, ora, t);
    } else if Dropped(l, t) {
      DropInv(l, ora, t);
    } else {
      SkipIsAdvance(l, ora, t);
      AdvanceInv(l, Dispatch(l, t), ora, t);
    }
  }

  /** So does completing it, with whatever outcome. */
  lemma CompleteInv(l: Live, ora: Oracle, t: Task)
    requires Inv(l, ora) && t in l.running && !t.Summary?
    ensures Sized(l) && t in l.left && Inv(Complete(l, ora, t), ora)
  {
    if t.Compile? {
      CompileDoneInv(l, ora, t);
    } else {
      CompleteIsAdvance(l, ora, t);
      AdvanceInv(l, Complete(l, ora, t), ora, t);
    }
  }
}
