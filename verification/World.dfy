/** The judge as a whole: many submissions, up to `kmax` running tasks, new submissions at any
    time. A run is any sequence of the steps the work loop and the pushing threads can make. */
module World {
  import opened Types
  import TestdataRun
  import TaskGraph
  import Totals
  import opened Lifecycle
  import opened LifecycleInv
  import Outcomes
  import opened GroupSkip
  import opened Serial
  import opened Closing

  /** A task of a submission. */
  datatype Key = Key(sid: int, task: Task)

  /** `numbering` holds the task orders of the entries. `closed` and `pushes` are history:
      finished submissions, and (internal, external) ids in order of arrival. */
  datatype World = World(live: map<int, Live>, closed: map<int, Live>, numbering: map<int, Numbering>,
                         idMap: map<int, int>, pushes: seq<(int, int)>)

  const EMPTY := World(map[], map[], map[], map[], [])

  /* ---- steps ---- */

  /** submission_id_map names the submission now superseded, which may be long finished. */
  function Superseded(w: World, ext: int): map<int, Live> {
    if ext in w.idMap && w.idMap[ext] in w.live then w.live[w.idMap[ext] := Cancel(w.live[w.idMap[ext]])] else w.live
  }

  function Push(w: World, sub: Submission, nm: Numbering): World
    requires sub.stages >= 1
  {
    World(Superseded(w, sub.submissionId)[sub.internalId := Arrived(sub)], w.closed, w.numbering[sub.internalId := nm],
          w.idMap[sub.submissionId := sub.internalId], w.pushes + [(sub.internalId, sub.submissionId)])
  }

  /** A submission with no task left is erased. The id map is erased by INTERNAL id. */
  function Store(w: World, id: int, l: Live): World {
    if l.left == {} then World(w.live - {id}, w.closed[id := l], w.numbering, w.idMap - {id}, w.pushes)
    else w.(live := w.live[id := l])
  }

  function DispatchKey(w: World, k: Key): World
    requires k.sid in w.live && Sized(w.live[k.sid]) && k.task in w.live[k.sid].left
  {
    Store(w, k.sid, Dispatch(w.live[k.sid], k.task))
  }

  function CompleteKey(w: World, ora: Oracle, k: Key): World
    requires k.sid in w.live && Sized(w.live[k.sid]) && k.task in w.live[k.sid].left
  {
    Store(w, k.sid, Complete(w.live[k.sid], ora, k.task))
  }

  function RunningKeys(w: World): set<Key> {
    set id, t | id in w.live && t in w.live[id].running :: Key(id, t)
  }

  ghost predicate CanStart(w: World, k: Key) {
    k.sid in w.live && k.sid in w.numbering && w.live[k.sid].j.sub.stages >= 1 && Startable(w.live[k.sid], k.task)
  }

  /** TaskEntry::operator<: by priority, then older submission, then smaller task order. */
  predicate Less(w: World, a: Key, b: Key)
    requires a.sid in w.live && b.sid in w.live && a.sid in w.numbering && b.sid in w.numbering
  {
    var sa, sb := w.live[a.sid].j.sub, w.live[b.sid].j.sub;
    var oa, ob := OrderOf(w.numbering[a.sid], a.task), OrderOf(w.numbering[b.sid], b.task);
    || sa.priority < sb.priority
    || (sa.priority == sb.priority && (b.sid < a.sid || (a.sid == b.sid && ob < oa)))
  }

  ghost predicate IsTop(w: World, k: Key) {
    CanStart(w, k) && forall k' :: CanStart(w, k') ==> !Less(w, k, k')
  }

  datatype Action = Arrive(sub: Submission, nm: Numbering) | Take(key: Key) | Return(key: Key)

  ghost predicate CanStep(w: World, kmax: nat, a: Action) {
    match a
    case Arrive(sub, nm) => ValidSub(sub) && Numbered(sub, nm) && sub.internalId !in w.live
      && sub.internalId !in w.closed
    case Take(k) => |RunningKeys(w)| < kmax && IsTop(w, k) && Sized(w.live[k.sid])
    case Return(k) => k in RunningKeys(w) && Sized(w.live[k.sid]) && k.task in w.live[k.sid].left
  }

  ghost function Step(w: World, ora: Oracle, kmax: nat, a: Action): World
    requires CanStep(w, kmax, a)
  {
    match a
    case Arrive(sub, nm) => Push(w, sub, nm)
    case Take(k) => DispatchKey(w, k)
    case Return(k) => CompleteKey(w, ora, k)
  }

  /** A run starts with an empty judge. */
  ghost predicate IsRun(ws: seq<World>, acts: seq<Action>, ora: Oracle, kmax: nat) {
    IsPath(ws, acts, ora, kmax) && ws[0] == EMPTY
  }

  ghost predicate IsPath(ws: seq<World>, acts: seq<Action>, ora: Oracle, kmax: nat) {
    && |ws| == |acts| + 1
    && forall i :: 0 <= i < |acts| ==> CanStep(ws[i], kmax, acts[i]) && ws[i + 1] == Step(ws[i], ora, kmax, acts[i])
  }

  /* ---- the invariant ---- */

  ghost predicate LaterPush(pushes: seq<(int, int)>, id: int, ext: int) {
    exists a, b :: 0 <= a < b < |pushes| && pushes[a] == (id, ext) && pushes[b].1 == ext
  }

  ghost predicate WInv(w: World, ora: Oracle) {
    && w.live.Keys !! w.closed.Keys
    && (forall id :: id in w.live ==> LiveOk(w, ora, id))
    && (forall id :: id in w.closed ==> Closed(w.closed[id], ora) && w.closed[id].j.sub.internalId == id)
  }

  ghost predicate LiveOk(w: World, ora: Oracle, id: int)
    requires id in w.live
  {
    && Inv(w.live[id], ora) && w.live[id].j.sub.internalId == id
    && id in w.numbering && Numbered(w.live[id].j.sub, w.numbering[id])
  }

  /** Submission `l` did arrive, and if it is cancelled a later arrival is the reason. */
  ghost predicate PushedOk(pushes: seq<(int, int)>, id: int, l: Live) {
    && (id, l.j.sub.submissionId) in pushes
    && (l.cancelled ==> LaterPush(pushes, id, l.j.sub.submissionId))
  }

  ghost predicate DistinctIds(pushes: seq<(int, int)>) {
    forall a, b :: 0 <= a < b < |pushes| ==> pushes[a].0 != pushes[b].0
  }

  /** The history of arrivals agrees with the maps, and nobody is cancelled without reason. */
  ghost predicate PushInv(w: World) {
    && (forall k :: 0 <= k < |w.pushes| ==> w.pushes[k].0 in w.live || w.pushes[k].0 in w.closed)
    && (forall id :: id in w.live ==> PushedOk(w.pushes, id, w.live[id]))
    && (forall id :: id in w.closed ==> PushedOk(w.pushes, id, w.closed[id]))
    && (forall ext :: ext in w.idMap ==> (w.idMap[ext], ext) in w.pushes)
    && DistinctIds(w.pushes)
  }

  lemma ArriveKeeps(w: World, ora: Oracle, sub: Submission, nm: Numbering)
    requires WInv(w, ora) && ValidSub(sub) && Numbered(sub, nm) && sub.internalId !in w.live
    requires sub.internalId !in w.closed
    ensures WInv(Push(w, sub, nm), ora)
  {
    var w' := Push(w, sub, nm);
    ArrivedInv(sub, ora);
    forall id | id in w'.live ensures LiveOk(w', ora, id) {
      if id != sub.internalId {
        assert LiveOk(w, ora, id);
        CancelInv(w.live[id], ora);
      }
    }
  }

  lemma StepWInv(w: World, ora: Oracle, kmax: nat, a: Action)
    requires WInv(w, ora) && CanStep(w, kmax, a)
    ensures WInv(Step(w, ora, kmax, a), ora)
  {
    match a
    case Arrive(sub, nm) => ArriveKeeps(w, ora, sub, nm);
    case Take(k) => TakeKeeps(w, ora, k);
    case Return(k) => ReturnKeeps(w, ora, k);
  }

  lemma StoreWInv(w: World, ora: Oracle, id: int, l: Live)
    requires WInv(w, ora) && id in w.live && l.j.sub.internalId == id
    requires if l.left == {} then Closed(l, ora) else Inv(l, ora)
    requires l.j.sub == w.live[id].j.sub
    ensures WInv(Store(w, id, l), ora)
  {
    var w' := Store(w, id, l);
    assert LiveOk(w, ora, id);
    forall x | x in w'.live ensures LiveOk(w', ora, x) {
      if x != id { assert LiveOk(w, ora, x); }
    }
  }

  lemma TakeKeeps(w: World, ora: Oracle, k: Key)
    requires WInv(w, ora) && CanStart(w, k)
    ensures Sized(w.live[k.sid]) && WInv(DispatchKey(w, k), ora)
  {
    var l := w.live[k.sid];
    assert LiveOk(w, ora, k.sid);
    if k.task.Summary? && !SetupStarts(l, Summary) {
      assert FinishedBy(l, Dispatch(l, Summary), ora);
      FinishedFacts(l, Dispatch(l, Summary), ora);
    } else {
      DispatchInv(l, ora, k.task);
      DispatchKeepsSub(l, k.task);
    }
    StoreWInv(w, ora, k.sid, Dispatch(l, k.task));
  }

  lemma DispatchKeepsSub(l: Live, t: Task)
    requires Sized(l) && t in l.left
    ensures Dispatch(l, t).j.sub == l.j.sub && Dispatch(l, t).cancelled == l.cancelled
  {
  }

  lemma CompleteKeepsSub(l: Live, ora: Oracle, t: Task)
    requires Sized(l) && t in l.left
    ensures Complete(l, ora, t).j.sub == l.j.sub && Complete(l, ora, t).cancelled == l.cancelled
  {
  }

  lemma ReturnKeeps(w: World, ora: Oracle, k: Key)
    requires WInv(w, ora) && k in RunningKeys(w)
    ensures Sized(w.live[k.sid]) && k.task in w.live[k.sid].left && WInv(CompleteKey(w, ora, k), ora)
  {
    var l := w.live[k.sid];
    assert LiveOk(w, ora, k.sid);
    assert TaskGraph.Unblocked(l.j.sub, l.left, k.task);
    CompleteKeepsSub(l, ora, k.task);
    if k.task.Summary? {
      assert FinishedBy(l, Complete(l, ora, Summary), ora);
      FinishedFacts(l, Complete(l, ora, Summary), ora);
    } else {
      CompleteInv(l, ora, k.task);
    }
    StoreWInv(w, ora, k.sid, Complete(l, ora, k.task));
  }

  lemma {:induction false} RunKeeps(ws: seq<World>, acts: seq<Action>, ora: Oracle, kmax: nat, i: nat)
    requires IsRun(ws, acts, ora, kmax) && i < |ws|
    ensures WInv(ws[i], ora)
  {
    if i > 0 {
      RunKeeps(ws, acts, ora, kmax, i - 1);
      StepWInv(ws[i - 1], ora, kmax, acts[i - 1]);
    }
  }

  /* ---- arrivals and cancellation ---- */

  lemma PushedStays(pushes: seq<(int, int)>, p: (int, int), id: int, l: Live)
    requires PushedOk(pushes, id, l)
    ensures PushedOk(pushes + [p], id, l)
    ensures p.1 == l.j.sub.submissionId ==> PushedOk(pushes + [p], id, Cancel(l))
  {
    var more, ext := pushes + [p], l.j.sub.submissionId;
    var k :| 0 <= k < |pushes| && pushes[k] == (id, ext);
    assert more[k] == (id, ext) && more[|pushes|] == p;
    if LaterPush(pushes, id, ext) {
      var a, b :| 0 <= a < b < |pushes| && pushes[a] == (id, ext) && pushes[b].1 == ext;
      assert more[a] == (id, ext) && more[b].1 == ext;
    }
  }

  lemma StorePushInv(w: World, id: int, l: Live)
    requires PushInv(w) && id in w.live
    requires l.j.sub == w.live[id].j.sub && l.cancelled == w.live[id].cancelled
    ensures PushInv(Store(w, id, l))
  {
    assert PushedOk(w.pushes, id, l);
  }

  lemma SameIdSamePush(pushes: seq<(int, int)>, id: int, x: int, y: int)
    requires DistinctIds(pushes) && (id, x) in pushes && (id, y) in pushes
    ensures x == y
  {
    var a :| 0 <= a < |pushes| && pushes[a] == (id, x);
    var b :| 0 <= b < |pushes| && pushes[b] == (id, y);
  }

  lemma ArrivePushInv(w: World, sub: Submission, nm: Numbering)
    requires PushInv(w) && sub.stages >= 1 && sub.internalId !in w.live && sub.internalId !in w.closed
    ensures PushInv(Push(w, sub, nm))
  {
    var w' := Push(w, sub, nm);
    var p := (sub.internalId, sub.submissionId);
    assert w'.pushes[|w.pushes|] == p;
    forall q | q in w.pushes ensures q in w'.pushes {
      var k :| 0 <= k < |w.pushes| && w.pushes[k] == q;
      assert w'.pushes[k] == q;
    }
    forall id | id in w'.live ensures PushedOk(w'.pushes, id, w'.live[id]) {
      if id != sub.internalId {
        assert PushedOk(w.pushes, id, w.live[id]);
        PushedStays(w.pushes, p, id, w.live[id]);
        if w'.live[id] != w.live[id] {
          SameIdSamePush(w.pushes, id, w.live[id].j.sub.submissionId, sub.submissionId);
        }
      }
    }
    forall id | id in w'.closed ensures PushedOk(w'.pushes, id, w'.closed[id]) {
      PushedStays(w.pushes, p, id, w.closed[id]);
    }
  }

  lemma {:induction false} RunKeepsPushes(ws: seq<World>, acts: seq<Action>, ora: Oracle, kmax: nat, i: nat)
    requires IsRun(ws, acts, ora, kmax) && i < |ws|
    ensures PushInv(ws[i])
  {
    if i > 0 {
      RunKeeps(ws, acts, ora, kmax, i - 1);
      RunKeepsPushes(ws, acts, ora, kmax, i - 1);
      var w := ws[i - 1];
      match acts[i - 1]
      case Arrive(sub, nm) => ArrivePushInv(w, sub, nm);
      case Take(k) =>
        DispatchKeepsSub(w.live[k.sid], k.task);
        StorePushInv(w, k.sid, Dispatch(w.live[k.sid], k.task));
      case Return(k) =>
        CompleteKeepsSub(w.live[k.sid], ora, k.task);
        StorePushInv(w, k.sid, Complete(w.live[k.sid], ora, k.task));
    }
  }

  /* ---- whole-run results ---- */

  /** Schedule independence: a submission that is not cancelled, skips no groups and has no summary
      program gets the same overall report in every run, with every number of workers and beside
      any other submissions. */
  lemma ScheduleIndependence(ws: seq<World>, acts: seq<Action>, kmax: nat,
                             ws': seq<World>, acts': seq<Action>, kmax': nat, ora: Oracle, id: int)
    requires IsRun(ws, acts, ora, kmax) && IsRun(ws', acts', ora, kmax')
    requires var w, w' := ws[|acts|], ws'[|acts'|];
             id in w.closed && id in w'.closed && w.closed[id].j.sub == w'.closed[id].j.sub
             && !w.closed[id].cancelled && !w'.closed[id].cancelled
             && !w.closed[id].j.sub.skipGroup && !w.closed[id].j.sub.customSummary
    ensures var l, l' := ws[|acts|].closed[id], ws'[|acts'|].closed[id];
            && |l.h.log| > 0 && |l'.h.log| > 0
            && l.h.log[|l.h.log| - 1] == l'.h.log[|l'.h.log| - 1]
            && l.h.log[|l.h.log| - 1].OverallReport?
  {
    RunKeeps(ws, acts, ora, kmax, |acts|);
    RunKeeps(ws', acts', ora, kmax', |acts'|);
    ReportIsReference(ws[|acts|].closed[id], ora);
    ReportIsReference(ws'[|acts'|].closed[id], ora);
  }

  lemma OnceIn(w: World, ora: Oracle, id: int)
    requires WInv(w, ora) && PushInv(w) && id in w.closed
    ensures var l := w.closed[id];
            var n := OverallReports(l.h.log);
            && (n == 1 || (n == 0 && LaterPush(w.pushes, id, l.j.sub.submissionId)))
            && (n == 1 ==>
              |l.h.log| > 0 && var last := l.h.log[|l.h.log| - 1]; last.OverallReport? && !last.verdict.NUL?)
  {
    hide OverallReports, Closed, LiveOk, LaterPush;
    assert PushedOk(w.pushes, id, w.closed[id]);
    ReportedOnce(w.closed[id], ora);
  }

  /** Exactly-once outcome: a finished submission has emitted exactly one overall report, with a
      verdict, or none, and none only if a later push carried the same external id. */
  lemma ExactlyOnce(ws: seq<World>, acts: seq<Action>, ora: Oracle, kmax: nat, id: int)
    requires IsRun(ws, acts, ora, kmax) && id in ws[|acts|].closed
    ensures var w := ws[|acts|];
            var l := w.closed[id];
            var n := OverallReports(l.h.log);
            && (n == 1 || (n == 0 && LaterPush(w.pushes, id, l.j.sub.submissionId)))
            && (n == 1 ==>
              |l.h.log| > 0 && var last := l.h.log[|l.h.log| - 1]; last.OverallReport? && !last.verdict.NUL?)
  {
    RunKeeps(ws, acts, ora, kmax, |acts|);
    RunKeepsPushes(ws, acts, ora, kmax, |acts|);
    hide *;
    OnceIn(ws[|acts|], ora, id);
  }

  /** Group skipping in every run: acceptance is that of judging everything if ignored testdata alone
      cannot have a counted one given up, and so is the score if no group that has a weight loses a counted testdata
      without a failure of its own (with 0/100 scoring), or none at all (with any scoring). */
  lemma SkippingIsSafe(ws: seq<World>, acts: seq<Action>, ora: Oracle, kmax: nat, id: int)
    requires IsRun(ws, acts, ora, kmax) && id in ws[|acts|].closed
    requires !ws[|acts|].closed[id].cancelled && !ws[|acts|].closed[id].j.sub.customSummary
    ensures var l := ws[|acts|].closed[id];
            && |l.h.log| > 0 && l.j.sub.stages >= 1
            && var last, reference := l.h.log[|l.h.log| - 1], ReferenceReport(WithoutSkipping(l.j.sub), ora);
               && last.OverallReport?
               && (AcceptanceKept(l.j.sub) ==> (last.verdict == AC <==> reference.verdict == AC))
               && (GroupsKept(l.j.sub, ora) ==> last.score == reference.score)
  {
    RunKeeps(ws, acts, ora, kmax, |acts|);
    ReportWithSkipping(ws[|acts|].closed[id], ora);
  }

  /** Without ignored testdata group skipping is safe: with 0/100 scoring every run has the acceptance and the
      total of judging everything. */
  lemma SkippingIsSafeIfAllCount(ws: seq<World>, acts: seq<Action>, ora: Oracle, kmax: nat, id: int)
    requires IsRun(ws, acts, ora, kmax) && id in ws[|acts|].closed
    requires var l := ws[|acts|].closed[id];
             && !l.cancelled && !l.j.sub.customSummary
             && forall i :: 0 <= i < |l.j.sub.testdata| ==> !l.j.sub.testdata[i].ignoreVerdict
    ensures var l := ws[|acts|].closed[id];
            && |l.h.log| > 0 && l.j.sub.stages >= 1
            && var last, reference := l.h.log[|l.h.log| - 1], ReferenceReport(WithoutSkipping(l.j.sub), ora);
               && last.OverallReport? && (last.verdict == AC <==> reference.verdict == AC)
               && (TestdataRun.ZeroOrFull(l.j.sub, ora) ==> last.score == reference.score)
  {
    SkippingIsSafe(ws, acts, ora, kmax, id);
    hide IsRun, AcceptanceKept, ScoreKept, OwnGroups, TestdataRun.ZeroOrFull, ReferenceReport;
    NoneIgnored(ws[|acts|].closed[id].j.sub);
  }

  /** Whatever the scores: in every run a group that was not given up has its reference score. */
  lemma KeptGroupsKeepScores(ws: seq<World>, acts: seq<Action>, ora: Oracle, kmax: nat, id: int, g: nat)
    requires IsRun(ws, acts, ora, kmax) && id in ws[|acts|].closed
    requires var l := ws[|acts|].closed[id];
             !l.cancelled && CompileVerdict(l.j.sub, ora, l.h.ran).NUL? && g !in l.cgroups
    ensures var l := ws[|acts|].closed[id];
            && l.j.sub.stages >= 1 && |l.j.tds| <= |l.j.sub.testdata|
            && Totals.EffectiveScore(l.j.sub, l.j.tds, g) ==
              Totals.EffectiveScore(l.j.sub, Outcomes.Alone(l.j.sub, ora), g)
  {
    RunKeeps(ws, acts, ora, kmax, |acts|);
    GroupKeepsScore(ws[|acts|].closed[id], ora, g);
  }

  /** No deadlock: while a submission is in the judge, something is running or can be started. */
  lemma NoDeadlock(w: World, ora: Oracle, id: int) returns (k: Key)
    requires WInv(w, ora) && id in w.live
    ensures k.sid == id && (k in RunningKeys(w) || CanStart(w, k))
  {
    assert LiveOk(w, ora, id);
    var l := w.live[id];
    var t := TaskGraph.SomeUnblocked(l.j.sub, l.left, Summary);
    k := Key(id, t);
  }

  /** A task that is waiting or running, in the state of submission `id`. */
  function LeftOf(w: World, id: int): set<Task> {
    if id in w.live then w.live[id].left else {}
  }

  ghost predicate KnownAt(w: World, id: int) { id in w.live || id in w.closed }

  lemma StoreLeft(w: World, sid: int, l: Live, id: int)
    requires sid in w.live && KnownAt(w, id)
    ensures KnownAt(Store(w, sid, l), id)
    ensures LeftOf(Store(w, sid, l), id) == if id == sid then l.left else LeftOf(w, id)
  {
  }

  lemma MoveLeft(l: Live, ora: Oracle, t: Task)
    requires Sized(l) && t in l.left
    ensures Dispatch(l, t).left == l.left || Dispatch(l, t).left == l.left - {t}
    ensures Complete(l, ora, t).left == l.left - {t}
  {
  }

  ghost predicate LosesOne(w: World, id: int, left: set<Task>, t: Task) {
    && t in LeftOf(w, id) && left == LeftOf(w, id) - {t}
    && id in w.live && w.live[id].j.sub.stages >= 1 && TaskGraph.Unblocked(w.live[id].j.sub, w.live[id].left, t)
  }

  ghost predicate LosesSome(w: World, id: int, left: set<Task>) { exists t :: LosesOne(w, id, left, t) }

  /** Each step removes at most one task, one that waits for nothing; nothing comes back. */
  lemma StepRemovesOne(w: World, ora: Oracle, kmax: nat, a: Action, id: int)
    requires WInv(w, ora) && CanStep(w, kmax, a) && KnownAt(w, id)
    ensures KnownAt(Step(w, ora, kmax, a), id)
    ensures var left := LeftOf(Step(w, ora, kmax, a), id);
            left == LeftOf(w, id) || LosesSome(w, id, left)
  {
    match a
    case Arrive(sub, nm) =>
    case Take(k) =>
      var l := w.live[k.sid];
      StoreLeft(w, k.sid, Dispatch(l, k.task), id);
      MoveLeft(l, ora, k.task);
      if k.sid == id && Dispatch(l, k.task).left != l.left {
        assert LosesOne(w, id, l.left - {k.task}, k.task);
      }
    case Return(k) =>
      var l := w.live[k.sid];
      assert LiveOk(w, ora, k.sid);
      StoreLeft(w, k.sid, Complete(l, ora, k.task), id);
      MoveLeft(l, ora, k.task);
      if k.sid == id {
        assert LosesOne(w, id, l.left - {k.task}, k.task);
      }
  }

  lemma {:induction false} StaysKnown(ws: seq<World>, acts: seq<Action>, ora: Oracle, kmax: nat, id: int, i: nat,
                                      j: nat)
    requires IsRun(ws, acts, ora, kmax) && i <= j < |ws| && KnownAt(ws[i], id)
    ensures KnownAt(ws[j], id)
    decreases j
  {
    hide CanStep, Step, WInv;
    if i < j {
      StaysKnown(ws, acts, ora, kmax, id, i, j - 1);
      RunKeeps(ws, acts, ora, kmax, j - 1);
      StepRemovesOne(ws[j - 1], ora, kmax, acts[j - 1], id);
    }
  }

  /* ---- paths ---- */

  /** The path leads from `w` to `w'`. */
  ghost predicate Leads(ws: seq<World>, acts: seq<Action>, ora: Oracle, kmax: nat, w: World, w': World) {
    IsPath(ws, acts, ora, kmax) && ws[0] == w && ws[|acts|] == w'
  }

  lemma LeadsNowhere(ora: Oracle, kmax: nat, w: World)
    ensures Leads([w], [], ora, kmax, w, w)
  {
  }

  lemma LeadsOn(ws: seq<World>, acts: seq<Action>, ora: Oracle, kmax: nat, w: World, w1: World, a: Action, w2: World)
    requires Leads(ws, acts, ora, kmax, w, w1) && CanStep(w1, kmax, a) && w2 == Step(w1, ora, kmax, a)
    ensures Leads(ws + [w2], acts + [a], ora, kmax, w, w2)
  {
    hide CanStep, Step;
  }

  /** Only an arrival makes an id known. */
  lemma StepKeepsFresh(w: World, ora: Oracle, kmax: nat, a: Action, id: int)
    requires CanStep(w, kmax, a) && !KnownAt(w, id) && (a.Arrive? ==> a.sub.internalId != id)
    ensures !KnownAt(Step(w, ora, kmax, a), id)
  {
    hide Dispatch, Complete;
  }

  /** Along any path from a good state the state stays good and nobody is forgotten. */
  lemma {:induction false} PathKeeps(ws: seq<World>, acts: seq<Action>, ora: Oracle, kmax: nat, id: int, i: nat)
    requires IsPath(ws, acts, ora, kmax) && WInv(ws[0], ora) && KnownAt(ws[0], id) && i < |ws|
    ensures WInv(ws[i], ora) && KnownAt(ws[i], id)
  {
    hide CanStep, Step, WInv, KnownAt;
    if i > 0 {
      PathKeeps(ws, acts, ora, kmax, id, i - 1);
      StepWInv(ws[i - 1], ora, kmax, acts[i - 1]);
      StepRemovesOne(ws[i - 1], ora, kmax, acts[i - 1], id);
    }
  }

  /** One step of a run, as submission `id` sees it. */
  lemma StepAt(ws: seq<World>, acts: seq<Action>, ora: Oracle, kmax: nat, id: int, i: nat, m: nat) returns (w: World)
    requires IsRun(ws, acts, ora, kmax) && i <= m < |acts| && KnownAt(ws[i], id)
    ensures w == ws[m]
    ensures LeftOf(ws[m + 1], id) == LeftOf(w, id) || LosesSome(w, id, LeftOf(ws[m + 1], id))
  {
    w := ws[m];
    StaysKnown(ws, acts, ora, kmax, id, i, m);
    RunKeeps(ws, acts, ora, kmax, m);
    StepRemovesOne(w, ora, kmax, acts[m], id);
  }

  /** How the remaining tasks of a submission develop: each step keeps them or loses one. */
  ghost predicate Shrinks(ws: seq<World>, id: int, i: nat) {
    forall m :: i <= m < |ws| - 1 ==> ShrinksAt(ws, id, m)
  }

  ghost predicate ShrinksAt(ws: seq<World>, id: int, m: nat)
    requires m + 1 < |ws|
  {
    var left, left' := LeftOf(ws[m], id), LeftOf(ws[m + 1], id);
    left' == left || exists t :: t in left && left' == left - {t}
  }

  lemma RunShrinks(ws: seq<World>, acts: seq<Action>, ora: Oracle, kmax: nat, id: int, i: nat)
    requires IsRun(ws, acts, ora, kmax) && i < |ws| && KnownAt(ws[i], id)
    ensures Shrinks(ws, id, i)
  {
    hide KnownAt, LeftOf, CanStep, Step;
    forall m | i <= m < |ws| - 1 ensures ShrinksAt(ws, id, m) {
      var w := StepAt(ws, acts, ora, kmax, id, i, m);
      if LeftOf(ws[m + 1], id) != LeftOf(w, id) {
        var u :| LosesOne(w, id, LeftOf(ws[m + 1], id), u);
      }
    }
  }

  lemma {:induction false} ShrinksTo(ws: seq<World>, id: int, i: nat, m: nat, n: nat)
    requires Shrinks(ws, id, i) && i <= m <= n < |ws|
    ensures LeftOf(ws[n], id) <= LeftOf(ws[m], id)
    decreases n
  {
    if m < n {
      ShrinksTo(ws, id, i, m, n - 1);
      assert ShrinksAt(ws, id, n - 1);
    }
  }

  lemma {:induction false} LostAtOneStep(ws: seq<World>, id: int, t: Task, i: nat, j: nat) returns (m: nat)
    requires Shrinks(ws, id, i) && i < j < |ws| && t in LeftOf(ws[i], id) && t !in LeftOf(ws[j], id)
    ensures i <= m < j && t in LeftOf(ws[m], id) && LeftOf(ws[m + 1], id) == LeftOf(ws[m], id) - {t}
    ensures forall n :: i <= n <= m ==> t in LeftOf(ws[n], id)
    ensures forall n :: m < n < |ws| ==> t !in LeftOf(ws[n], id)
  {
    if t in LeftOf(ws[j - 1], id) {
      m := j - 1;
      assert ShrinksAt(ws, id, m);
      forall n | i <= n <= m ensures t in LeftOf(ws[n], id) { ShrinksTo(ws, id, i, n, m); }
      forall n | m < n < |ws| ensures t !in LeftOf(ws[n], id) { ShrinksTo(ws, id, i, m + 1, n); }
    } else {
      m := LostAtOneStep(ws, id, t, i, j - 1);
    }
  }

  /** Finalized exactly once, after everything it waits for: a task that was there at step i and
      is gone at step j left in exactly one step in between, and then waited for nothing. */
  lemma LeavesOnce(ws: seq<World>, acts: seq<Action>, ora: Oracle, kmax: nat, id: int, t: Task, i: nat, j: nat)
    returns (m: nat)
    requires IsRun(ws, acts, ora, kmax) && i <= j < |ws| && KnownAt(ws[i], id)
    requires t in LeftOf(ws[i], id) && t !in LeftOf(ws[j], id)
    ensures i <= m < j && LosesOne(ws[m], id, LeftOf(ws[m + 1], id), t)
    ensures forall n :: i <= n <= m ==> t in LeftOf(ws[n], id)
    ensures forall n :: m < n < |ws| ==> t !in LeftOf(ws[n], id)
  {
    RunShrinks(ws, acts, ora, kmax, id, i);
    m := LostAtOneStep(ws, id, t, i, j);
    var w := StepAt(ws, acts, ora, kmax, id, i, m);
    var u :| LosesOne(w, id, LeftOf(ws[m + 1], id), u);
  }
}
