/** One submission from its arrival to its summary: the guarded transitions that the
    Setup and Finalize functions make, and the invariants every schedule keeps. */
module Lifecycle {
  import opened Types
  import opened TestdataRun
  import opened TaskGraph
  import opened Totals

  /** SubmissionAndResult. */
  datatype Judged = Judged(sub: Submission, tds: seq<TdResult>, verdict: Verdict, totals: Totals)

  /** History of a submission; nothing the judge decides depends on it.
      `pos[i]` counts the tasks of testdata i that are gone, `eff[i]` those that were not
      dropped because the submission had failed or was cancelled; `ran` holds the tasks
      that were really run; `log` is what the reporter received. */
  datatype History = History(pos: seq<nat>, eff: seq<nat>, ran: set<Task>, log: seq<Report>)

  datatype Live = Live(j: Judged, left: set<Task>, running: set<Task>,
                       cancelled: bool, cgroups: set<nat>, h: History)

  function AllTasks(sub: Submission): set<Task>
    requires sub.stages >= 1
  {
    (set c | c in {USERPROG, SPECJUDGE, SUMMARY, PROBPROG} && IsTask(sub, Compile(c)) :: Compile(c)) +
    (set i: nat, p: nat | i < |sub.testdata| && p < ChainLen(sub) :: ChainTask(sub, i, p)) +
    {Summary}
  }

  lemma AllTasksAreTasks(sub: Submission)
    requires sub.stages >= 1
    ensures forall t :: t in AllTasks(sub) <==> IsTask(sub, t)
  {
    forall t | IsTask(sub, t) && (t.Execute? || t.Scoring?) ensures t in AllTasks(sub) {
      PosOfTask(sub, t);
    }
    forall i: nat, p: nat | i < |sub.testdata| && p < ChainLen(sub) ensures IsTask(sub, ChainTask(sub, i, p)) {
      TaskAtPos(sub, i, p);
    }
  }

  function Arrived(sub: Submission): Live
    requires sub.stages >= 1
  {
    var zeros := seq(|sub.testdata|, _ => 0);
    Live(Judged(sub, [], NUL, NO_TOTALS), AllTasks(sub), {}, false, {}, History(zeros, zeros, {}, []))
  }

  /* ---- the transitions ---- */

  ghost predicate Sized(l: Live) {
    && ValidSub(l.j.sub)
    && |l.j.tds| <= |l.j.sub.testdata|
    && |l.h.pos| == |l.h.eff| == |l.j.sub.testdata|
    && UpClosed(l.j.sub, l.left)
  }

  function Td(tds: seq<TdResult>, i: nat): TdResult {
    if i < |tds| then tds[i] else NO_RESULT
  }

  function Put(tds: seq<TdResult>, i: nat, r: TdResult): seq<TdResult> {
    if i < |tds| then tds[i := r] else tds
  }

  /** td_results.resize */
  function Grow(tds: seq<TdResult>, n: nat): seq<TdResult> {
    if |tds| < n then tds + seq(n - |tds|, _ => NO_RESULT) else tds
  }

  function GroupsOf(sub: Submission, i: nat): set<nat>
    requires i < |sub.testdata|
  {
    set g | g in sub.testdata[i].groups
  }

  predicate IsCancelled(cancelled: bool, cgroups: set<nat>, groups: seq<nat>) {
    cancelled || (groups != [] && forall g :: g in groups ==> g in cgroups)
  }

  predicate Cancels(sub: Submission, v: Verdict) {
    sub.skipGroup && !v.NUL? && !v.AC?
  }

  /** FinalizeCompile: NUL for a successful compilation. */
  function CompileOutcome(c: CompileSubtask, o: Outcome): Verdict {
    if o.timekill == -1 then JE
    else if o.timekill != 0 || o.oomkill > 0 || o.siStatus != 0 || !o.outputRegular then
      if !c.USERPROG? then JCE
      else if o.timekill != 0 || o.oomkill > 0 then CLE
      else CE
    else NUL
  }

  function AfterCompile(l: Live, c: CompileSubtask, o: Outcome): Live {
    var v := CompileOutcome(c, o);
    l.(j := l.j.(verdict := if v.JE? then JE else if v.NUL? then l.j.verdict else MaxVerdict(l.j.verdict, v)))
  }

  function AfterExecute(l: Live, t: Task, o: Outcome): Live
    requires t.Execute? && t.td < |l.j.sub.testdata|
  {
    var tds := Grow(l.j.tds, t.td + 1);
    l.(j := l.j.(tds := tds[t.td := ExecResult(l.j.sub, t.td, t.stage, o, tds[t.td])]))
  }

  function AfterScoring(l: Live, t: Task, skipped: bool, o: Outcome): Live
    requires t.Scoring? && t.td < |l.j.sub.testdata|
  {
    var sub := l.j.sub;
    var r := ScoreResult(sub, t.stage, skipped, o, Td(l.j.tds, t.td));
    l.(j := l.j.(tds := Put(l.j.tds, t.td, r)),
       cgroups := if Cancels(sub, r.verdict) then l.cgroups + GroupsOf(sub, t.td) else l.cgroups,
       h := l.h.(log := if l.cancelled then l.h.log else l.h.log + ScoringReport(sub, t, r)))
  }

  function SummaryVerdict(j: Judged): Verdict
    requires |j.tds| <= |j.sub.testdata|
  {
    if j.verdict.NUL? then WorstVerdict(j.sub, j.tds, |j.tds|) else j.verdict
  }

  /** What the summary program makes of the default outcome. */
  function ReadSummary(o: Outcome, v: Verdict, totals: Totals): (Verdict, Totals) {
    if !o.outputRegular || o.siStatus != 0 || !o.summary.parsed then (JRE, Totals(totals.score, 0, 0))
    else
      var s := o.summary;
      var v' := if s.verdict.Some? then s.verdict.value else v;
      (if v'.NUL? then WA else v',
       Totals(if s.score.Some? then s.score.value else totals.score,
              if s.time.Some? then s.time.value else totals.time,
              if s.memory.Some? then s.memory.value else totals.memory))
  }

  function AfterSummary(l: Live, skipped: bool, o: Outcome): Live
    requires |l.j.tds| <= |l.j.sub.testdata|
  {
    var default_ := DefaultTotals(l.j.sub, l.j.tds, l.j.verdict, l.j.totals);
    var (v, totals) := if skipped then (l.j.verdict, default_) else ReadSummary(o, l.j.verdict, default_);
    l.(j := l.j.(verdict := v, totals := totals),
       h := l.h.(log := if l.cancelled then l.h.log
                        else l.h.log + [OverallReport(v, totals.score, totals.time, totals.memory)]))
  }

  /** The submission-wide checks that open every Setup function. */
  predicate Dropped(l: Live, t: Task)
    requires IsTask'(l, t)
  {
    match t
    case Compile(_) => l.cancelled
    case Execute(i, _) => !l.j.verdict.NUL? || IsCancelled(l.cancelled, l.cgroups, l.j.sub.testdata[i].groups)
    case Scoring(i, _) => !l.j.verdict.NUL? || IsCancelled(l.cancelled, l.cgroups, l.j.sub.testdata[i].groups)
    case Summary => false
  }

  predicate IsTask'(l: Live, t: Task) { l.j.sub.stages >= 1 && IsTask(l.j.sub, t) }

  /** What Setup returns: whether a process is started. */
  predicate SetupStarts(l: Live, t: Task)
    requires IsTask'(l, t) && |l.j.tds| <= |l.j.sub.testdata|
  {
    match t
    case Compile(_) => !Dropped(l, t)
    case Execute(i, _) => !Dropped(l, t) && PlanOf(l.j.sub, t, Td(l.j.tds, i)).Start?
    case Scoring(i, _) => !Dropped(l, t) && PlanOf(l.j.sub, t, Td(l.j.tds, i)).Start?
    case Summary => l.j.sub.customSummary && !SummaryVerdict(l.j).JCE?
  }

  /** The state Setup leaves. */
  function AfterSetup(l: Live, t: Task): Live
    requires IsTask'(l, t) && |l.j.tds| <= |l.j.sub.testdata|
  {
    if t.Summary? then l.(j := l.j.(verdict := SummaryVerdict(l.j)))
    else if t.Scoring? && !Dropped(l, t) then
      match PlanOf(l.j.sub, t, Td(l.j.tds, t.td))
      case ScoreNow(skipped) => AfterScoring(l, t, skipped, EMPTY_OUTCOME)
      case _ => l
    else l
  }

  /** The task leaves the graph. */
  function Gone(l: Live, t: Task, effective: bool, ran: bool): Live
    requires Sized(l) && IsTask(l.j.sub, t)
  {
    var h := l.h.(ran := if ran then l.h.ran + {t} else l.h.ran);
    var h' := if t.Execute? || t.Scoring? then
                h.(pos := h.pos[t.td := h.pos[t.td] + 1],
                   eff := if effective then h.eff[t.td := h.eff[t.td] + 1] else h.eff)
              else h;
    l.(left := l.left - {t}, running := l.running - {t}, h := h')
  }

  /** DispatchTask: start the task, or skip it and finalize at once. */
  function Dispatch(l: Live, t: Task): Live
    requires Sized(l) && t in l.left
  {
    var s := AfterSetup(l, t);
    if SetupStarts(l, t) then s.(running := s.running + {t})
    else Gone(if t.Summary? then AfterSummary(s, true, EMPTY_OUTCOME) else s, t, !Dropped(l, t), false)
  }

  /** What the finished process of a task is finalized with. */
  function OutcomeOf(l: Live, ora: Oracle, t: Task): Outcome {
    ora(l.j.sub.internalId, t, if t.Execute? || t.Scoring? then Td(l.j.tds, t.td) else NO_RESULT)
  }

  function Finalize(l: Live, t: Task, o: Outcome): Live
    requires Sized(l) && t in l.left
  {
    match t
    case Compile(c) => AfterCompile(l, c, o)
    case Execute(_, _) => AfterExecute(l, t, o)
    case Scoring(_, _) => AfterScoring(l, t, false, o)
    case Summary => AfterSummary(l, false, o)
  }

  /** FinalizeTask of a task that was run. */
  function Complete(l: Live, ora: Oracle, t: Task): Live
    requires Sized(l) && t in l.left
  {
    Gone(Finalize(l, t, OutcomeOf(l, ora, t)), t, true, true)
  }

  /** A newer submission with the same external id has arrived. */
  function Cancel(l: Live): Live { l.(cancelled := true) }
}
