/** The values the judge passes around: verdicts, tasks, submissions and results.
    Integers are unbounded; sizes and times are in the units of the source
    (KiB, microseconds, scores in millionths of a percent). */
module Types {

  /** Listed in increasing severity: the overall verdict is the largest one. */
  datatype Verdict = NUL | AC | WA | TLE | MLE | OLE | RE | SIG | JRE | EE | CE | CLE | JCE | JE

  function Code(v: Verdict): nat {
    match v
    case NUL => 0 case AC => 1 case WA => 2 case TLE => 3 case MLE => 4 case OLE => 5 case RE => 6
    case SIG => 7 case JRE => 8 case EE => 9 case CE => 10 case CLE => 11 case JCE => 12 case JE => 13
  }

  function MaxVerdict(a: Verdict, b: Verdict): Verdict {
    if Code(a) < Code(b) then b else a
  }

  function Max(a: int, b: int): int { if a < b then b else a }

  function Min(a: int, b: int): int { if b < a then b else a }

  const MAX_SCORE := 1_000_000_000_000
  const FULL_SCORE := 100_000_000

  /** What a judge program can report: never a compilation verdict. */
  type RuntimeVerdict = v: Verdict | Code(v) < Code(CE) witness NUL

  /** What NormalizeScore can return. */
  type Score = s: int | -MAX_SCORE <= s <= MAX_SCORE witness 0

  datatype SpecjudgeType = NORMAL | SPECJUDGE_OLD | SPECJUDGE_NEW | SPECJUDGE_POLYGON | SPECJUDGE_KATTIS | SKIP

  datatype CompileSubtask = USERPROG | SPECJUDGE | SUMMARY | PROBPROG

  datatype Task =
    | Compile(which: CompileSubtask)
    | Execute(td: nat, stage: nat)
    | Scoring(td: nat, stage: nat)
    | Summary

  /** One test case: limits (zero means none for vss and rss) and the groups it belongs to. */
  datatype Testdata = Testdata(vss: int, rss: int, time: int, ignoreVerdict: bool, groups: seq<nat>)

  datatype Submission = Submission(
    internalId: int,
    submissionId: int,
    priority: int,
    specjudge: SpecjudgeType,
    customSummary: bool,
    stages: int,
    problemProgStages: set<int>,
    judgeBetweenStages: bool,
    judgeAbnormallyTerminated: bool,
    specjudgeReAsWa: bool,
    sandboxStrict: bool,
    testdata: seq<Testdata>,
    groupScore: seq<int>,
    skipGroup: bool,
    reportIntermediateStage: bool)

  /** What the rest of the source guarantees about a submission once it is queued. */
  ghost predicate ValidSub(sub: Submission) {
    && 1 <= sub.stages <= 32
    && (forall j :: j in sub.problemProgStages ==> 0 <= j < sub.stages)
    && (forall i, g :: 0 <= i < |sub.testdata| && g in sub.testdata[i].groups ==> g < |sub.groupScore|)
  }

  datatype TdResult = TdResult(vss: int, rss: int, time: int, score: int, verdict: Verdict, skipStage: bool)

  const NO_RESULT := TdResult(0, 0, 0, 0, NUL, false)

  datatype SiCode = OTHER | EXITED | KILLED | DUMPED

  const SIGPIPE := 13
  const SIGXFSZ := 25

  datatype Option<T> = None | Some(value: T)

  /** The part of a testdata result a special judge may rewrite. For the default
      judge only `accepted` is used: it prints nothing but a verdict. */
  datatype JudgeReport = JudgeReport(accepted: bool, verdict: RuntimeVerdict, score: Score, time: int, vss: int,
                                     rss: int)

  datatype SummaryReport = SummaryReport(parsed: bool, verdict: Option<Verdict>, score: Option<Score>,
                                         time: Option<int>, memory: Option<int>)

  /** Everything one run of the sandbox leaves behind: the process result, whether the
      expected output is a regular file, and what the judge program wrote. */
  datatype Outcome = Outcome(timekill: int, oomkill: int, siCode: SiCode, siStatus: int,
                             utime: int, stime: int, hiwaterVm: int, maxrss: int,
                             outputRegular: bool, judge: JudgeReport, summary: SummaryReport)

  /** The zero-initialised result that a task which was never started is finalized with. */
  const EMPTY_OUTCOME := Outcome(0, 0, OTHER, 0, 0, 0, 0, 0, true,
                                 JudgeReport(false, NUL, 0, 0, 0, 0), SummaryReport(false, None, None, None, None))

  /** The environment: how each task of each submission turns out, given the state of
      the testdata it works on. A task completes at most once, so quantifying over all
      oracles quantifies over all possible outcomes. */
  type Oracle = (int, Task, TdResult) -> Outcome

  /** What the reporter callbacks of a submission receive. */
  datatype Report =
    | TdReport(td: nat, stage: nat, result: TdResult)
    | OverallReport(verdict: Verdict, score: int, time: int, memory: int)
}
