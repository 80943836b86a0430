/** Why a verdict is given. What one finished process means is said here of the fields of its outcome,
    verdict by verdict, and the functions that the judge computes with are proved to agree. */
module Causes {
  import opened Types
  import opened TestdataRun
  import Lifecycle
  import LifecycleInv

  /* ---- severities ---- */

  /** Every verdict, from the mildest to the most severe. */
  const SEVERITIES := [NUL, AC, WA, TLE, MLE, OLE, RE, SIG, JRE, EE, CE, CLE, JCE, JE]

  ghost predicate Worse(a: Verdict, b: Verdict) {
    exists p, q :: 0 <= p < q < |SEVERITIES| && SEVERITIES[p] == a && SEVERITIES[q] == b
  }

  lemma SeverityAt(v: Verdict)
    ensures 0 <= Code(v) < |SEVERITIES| && SEVERITIES[Code(v)] == v
    ensures forall k :: 0 <= k < |SEVERITIES| && SEVERITIES[k] == v ==> k == Code(v)
  {
    match v
    case NUL => assert SEVERITIES[0] == NUL;
    case AC => assert SEVERITIES[1] == AC;
    case WA => assert SEVERITIES[2] == WA;
    case TLE => assert SEVERITIES[3] == TLE;
    case MLE => assert SEVERITIES[4] == MLE;
    case OLE => assert SEVERITIES[5] == OLE;
    case RE => assert SEVERITIES[6] == RE;
    case SIG => assert SEVERITIES[7] == SIG;
    case JRE => assert SEVERITIES[8] == JRE;
    case EE => assert SEVERITIES[9] == EE;
    case CE => assert SEVERITIES[10] == CE;
    case CLE => assert SEVERITIES[11] == CLE;
    case JCE => assert SEVERITIES[12] == JCE;
    case JE => assert SEVERITIES[13] == JE;
  }

  /** The numbers of the verdicts rank them by severity. */
  lemma CodeRanks(a: Verdict, b: Verdict)
    ensures Code(a) < Code(b) <==> Worse(a, b)
  {
    SeverityAt(a);
    SeverityAt(b);
    if Code(a) < Code(b) { assert SEVERITIES[Code(a)] == a && SEVERITIES[Code(b)] == b; }
  }

  /* ---- compiling ---- */

  predicate CompilerSucceeded(o: Outcome) {
    o.timekill == 0 && o.oomkill <= 0 && o.siStatus == 0 && o.outputRegular
  }

  /** It was killed for its time or its memory, or could not be started. */
  predicate Stopped(o: Outcome) { o.timekill != 0 || o.oomkill > 0 }

  /** The verdict a finished compiler is to blame for. */
  predicate CompilerLeaves(c: CompileSubtask, o: Outcome, v: Verdict) {
    match v
    case NUL => CompilerSucceeded(o)
    case CE => c.USERPROG? && !Stopped(o) && (o.siStatus != 0 || !o.outputRegular)
    case CLE => c.USERPROG? && Stopped(o) && o.timekill != -1
    case JCE => !c.USERPROG? && !CompilerSucceeded(o) && o.timekill != -1
    case JE => o.timekill == -1
    case _ => false
  }

  lemma CompileOutcomeIs(c: CompileSubtask, o: Outcome, v: Verdict)
    ensures Lifecycle.CompileOutcome(c, o) == v <==> CompilerLeaves(c, o, v)
  {
  }

  /** The verdict of a submission before and after one of its compilations: it never gets milder. */
  ghost predicate CompiledTo(c: CompileSubtask, o: Outcome, before: Verdict, after: Verdict) {
    && (CompilerSucceeded(o) ==> after == before)
    && (o.timekill == -1 ==> after == JE)
    && (exists v :: CompilerLeaves(c, o, v) && !Worse(after, v) && (after == v || after == before))
    && !Worse(after, before)
  }

  lemma CompileMeans(l: Lifecycle.Live, c: CompileSubtask, o: Outcome)
    ensures CompiledTo(c, o, l.j.verdict, Lifecycle.AfterCompile(l, c, o).j.verdict)
    ensures Lifecycle.AfterCompile(l, c, o) == l.(j := l.j.(verdict := Lifecycle.AfterCompile(l, c, o).j.verdict))
  {
    var v, after := Lifecycle.CompileOutcome(c, o), Lifecycle.AfterCompile(l, c, o).j.verdict;
    CompileOutcomeIs(c, o, v);
    CodeRanks(after, v);
    CodeRanks(after, l.j.verdict);
  }

  /** Nothing else agrees with that. */
  lemma CompiledToOne(c: CompileSubtask, o: Outcome, before: Verdict, a: Verdict, b: Verdict)
    requires CompiledTo(c, o, before, a) && CompiledTo(c, o, before, b)
    ensures a == b
  {
    hide Worse, CompilerLeaves, Lifecycle.CompileOutcome, CompilerSucceeded;
    var v :| CompilerLeaves(c, o, v) && !Worse(a, v) && (a == v || a == before);
    var w :| CompilerLeaves(c, o, w) && !Worse(b, w) && (b == w || b == before);
    CompileOutcomeIs(c, o, v);
    CompileOutcomeIs(c, o, w);
    OneWorst(v, before, a, b);
  }

  lemma OneWorst(v: Verdict, w: Verdict, a: Verdict, b: Verdict)
    requires a in {v, w} && !Worse(a, v) && !Worse(a, w)
    requires b in {v, w} && !Worse(b, v) && !Worse(b, w)
    ensures a == b
  {
    hide Worse;
    CodeRanks(a, b);
    CodeRanks(b, a);
    LifecycleInv.CodeInjective(a, b);
  }

  /* ---- running the program ---- */

  predicate Signalled(o: Outcome) { o.siCode.KILLED? || o.siCode.DUMPED? }

  predicate WroteTooMuch(sub: Submission, o: Outcome) {
    Signalled(o) && (o.siStatus == SIGXFSZ || (sub.sandboxStrict && o.siStatus == SIGPIPE))
  }

  /** More than the limits of the testdata, of which zero means no limit. */
  predicate TooBig(lim: Testdata, vss: int, rss: int) {
    (lim.vss != 0 && vss > lim.vss) || (lim.rss != 0 && rss > lim.rss)
  }

  /** It stopped by itself with status 0, within the memory limits. */
  predicate EndedWell(lim: Testdata, o: Outcome, vss: int, rss: int) {
    !Stopped(o) && !Signalled(o) && o.siStatus == 0 && !TooBig(lim, vss, rss)
  }

  /** When a run of the program leaves verdict `v`. `vss` and `rss` are the largest so far, `time` is
      the sum so far. */
  predicate RunLeaves(sub: Submission, lim: Testdata, o: Outcome, vss: int, rss: int, time: int, v: Verdict) {
    match v
    case NUL => EndedWell(lim, o, vss, rss) && time <= lim.time
    case EE => o.timekill == -1
    case MLE => o.timekill != -1 &&
      (o.oomkill > 0 || (!Stopped(o) && TooBig(lim, vss, rss) && !WroteTooMuch(sub, o)))
    case TLE => o.timekill != -1 && o.oomkill <= 0 &&
      (o.timekill != 0 || (EndedWell(lim, o, vss, rss) && time > lim.time))
    case OLE => !Stopped(o) && WroteTooMuch(sub, o)
    case SIG => !Stopped(o) && Signalled(o) && !WroteTooMuch(sub, o) && !TooBig(lim, vss, rss)
    case RE => !Stopped(o) && !Signalled(o) && o.siStatus != 0 && !TooBig(lim, vss, rss)
    case _ => false
  }

  lemma ExecVerdictIs(sub: Submission, lim: Testdata, o: Outcome, vss: int, rss: int, time: int, v: Verdict)
    ensures ExecVerdict(sub, lim, o, vss, rss, time) == v <==> RunLeaves(sub, lim, o, vss, rss, time, v)
  {
  }

  /** The result of testdata `i` before and after a run of its stage `stage`. The first stage starts
      afresh; later ones add their time and keep the larger memory. */
  ghost predicate Executed(sub: Submission, i: nat, stage: nat, o: Outcome, r: TdResult, r': TdResult)
    requires i < |sub.testdata|
  {
    && (if stage == 0 then r'.vss == o.hiwaterVm && r'.rss == o.maxrss && r'.time == o.utime + o.stime && r'.score == 0
        else
          && r.vss <= r'.vss && o.hiwaterVm <= r'.vss && r'.vss in {r.vss, o.hiwaterVm}
          && r.rss <= r'.rss && o.maxrss <= r'.rss && r'.rss in {r.rss, o.maxrss}
          && r'.time - r.time == o.utime + o.stime && r'.score == r.score)
    && RunLeaves(sub, sub.testdata[i], o, r'.vss, r'.rss, r'.time, r'.verdict)
    && r'.skipStage == r.skipStage
  }

  lemma ExecuteMeans(sub: Submission, i: nat, stage: nat, o: Outcome, r: TdResult)
    requires i < |sub.testdata|
    ensures Executed(sub, i, stage, o, r, ExecResult(sub, i, stage, o, r))
  {
    var r' := ExecResult(sub, i, stage, o, r);
    ExecVerdictIs(sub, sub.testdata[i], o, r'.vss, r'.rss, r'.time, r'.verdict);
  }

  lemma ExecutedToOne(sub: Submission, i: nat, stage: nat, o: Outcome, r: TdResult, a: TdResult, b: TdResult)
    requires i < |sub.testdata| && Executed(sub, i, stage, o, r, a) && Executed(sub, i, stage, o, r, b)
    ensures a == b
  {
    ExecVerdictIs(sub, sub.testdata[i], o, a.vss, a.rss, a.time, a.verdict);
    ExecVerdictIs(sub, sub.testdata[i], o, b.vss, b.rss, b.time, b.verdict);
  }

  /* ---- judging the output ---- */

  /** A judge run succeeded: it exited by itself, left a regular file, and its exit status is one that
      its kind of judge may return. */
  predicate JudgeSucceeded(kind: SpecjudgeType, o: Outcome) {
    o.outputRegular && o.siCode.EXITED? &&
    match kind
    case SPECJUDGE_POLYGON => o.siStatus != 3
    case SPECJUDGE_KATTIS => o.siStatus == 42 || o.siStatus == 43
    case _ => o.siStatus == 0
  }

  /** The verdict after scoring, before NUL is replaced at the last stage. */
  predicate JudgeLeaves(sub: Submission, skipped: bool, o: Outcome, before: Verdict, v: Verdict) {
    if skipped then v == before
    else if !JudgeSucceeded(sub.specjudge, o) then
      if before != NUL then v == before
      else if sub.specjudgeReAsWa then v == WA
      else v == JRE
    else if sub.specjudge == NORMAL then v == WA || v == AC
    else v == o.judge.verdict
  }

  /** The judge was run and heard. */
  predicate Heard(sub: Submission, skipped: bool, o: Outcome) {
    !skipped && JudgeSucceeded(sub.specjudge, o)
  }

  /** The result of a testdata before and after its scoring. Only a special judge that succeeded sets the time,
      the memory and a partial score. At the last stage a verdict is given in any case; before it, a verdict
      ends the testdata. */
  ghost predicate Scored(sub: Submission, stage: nat, skipped: bool, o: Outcome, r: TdResult, r': TdResult) {
    var last := stage + 1 == sub.stages;
    var special := Heard(sub, skipped, o) && sub.specjudge != NORMAL;
    && (exists v :: JudgeLeaves(sub, skipped, o, r.verdict, v) && r'.verdict == if v == NUL && last then WA else v)
    && (Heard(sub, skipped, o) && sub.specjudge == NORMAL ==> (r'.verdict == AC <==> o.judge.accepted))
    && r'.score == (if special then o.judge.score
                    else if Heard(sub, skipped, o) && o.judge.accepted then FULL_SCORE else 0)
    && (r'.vss, r'.rss, r'.time) == (if special then (o.judge.vss, o.judge.rss, o.judge.time)
                                     else (r.vss, r.rss, r.time))
    && (r'.skipStage <==> r.skipStage || (!last && r'.verdict != NUL))
  }

  lemma ScoringMeans(sub: Submission, stage: nat, skipped: bool, o: Outcome, r: TdResult)
    ensures Scored(sub, stage, skipped, o, r, ScoreResult(sub, stage, skipped, o, r))
  {
    var v := if skipped then r.verdict else JudgeResult(sub, o, r.(score := 0)).verdict;
    assert JudgeLeaves(sub, skipped, o, r.verdict, v);
  }

  lemma ScoredToOne(sub: Submission, stage: nat, skipped: bool, o: Outcome, r: TdResult, a: TdResult, b: TdResult)
    requires Scored(sub, stage, skipped, o, r, a) && Scored(sub, stage, skipped, o, r, b)
    ensures a == b
  {
  }

  /** A failed judge run at the last stage of a clean testdata: JRE, or WA exactly with specjudge_re_as_wa.
      A testdata that already had a verdict keeps it. */
  lemma FailedJudge(sub: Submission, stage: nat, o: Outcome, r: TdResult)
    requires !JudgeSucceeded(sub.specjudge, o)
    ensures var r' := ScoreResult(sub, stage, false, o, r);
            && r'.verdict == (if r.verdict != NUL then r.verdict else if sub.specjudgeReAsWa then WA else JRE)
            && r' == r.(verdict := r'.verdict, score := 0, skipStage := r.skipStage || stage + 1 != sub.stages)
  {
    ScoringMeans(sub, stage, false, o, r);
  }
}
