/** Arrivals along a run: what is recorded of them stays, and only they are recorded. */
module Arrivals {
  import opened Types
  import Lifecycle
  import opened World

  lemma StepKeepsNumber(w: World, ora: Oracle, kmax: nat, a: Action, id: int)
    requires CanStep(w, kmax, a) && KnownAt(w, id) && id in w.numbering
    ensures var w' := Step(w, ora, kmax, a); id in w'.numbering && w'.numbering[id] == w.numbering[id]
  {
    hide Lifecycle.Dispatch, Lifecycle.Complete;
  }

  /** The numbering of a submission is the one it arrived with. */
  lemma {:induction false} NumberStays(ws: seq<World>, acts: seq<Action>, ora: Oracle, kmax: nat, m: nat, j: nat)
    requires IsRun(ws, acts, ora, kmax) && m < j < |ws| && acts[m].Arrive?
    ensures var id := acts[m].sub.internalId; id in ws[j].numbering && ws[j].numbering[id] == acts[m].nm
    decreases j
  {
    var id := acts[m].sub.internalId;
    assert ws[m + 1] == Step(ws[m], ora, kmax, acts[m]);
    if m + 1 < j {
      NumberStays(ws, acts, ora, kmax, m, j - 1);
      StaysKnown(ws, acts, ora, kmax, id, m + 1, j - 1);
      hide Step, CanStep, KnownAt;
      StepKeepsNumber(ws[j - 1], ora, kmax, acts[j - 1], id);
    }
  }

  lemma StepPushes(w: World, ora: Oracle, kmax: nat, a: Action)
    requires CanStep(w, kmax, a)
    ensures Step(w, ora, kmax, a).pushes ==
            w.pushes + if a.Arrive? then [(a.sub.internalId, a.sub.submissionId)] else []
  {
    hide Lifecycle.Dispatch, Lifecycle.Complete;
    if !a.Arrive? { assert w.pushes + [] == w.pushes; }
  }

  lemma {:induction false} PushesStay(ws: seq<World>, acts: seq<Action>, ora: Oracle, kmax: nat, i: nat, j: nat)
    requires IsRun(ws, acts, ora, kmax) && i <= j < |ws|
    ensures ws[i].pushes <= ws[j].pushes
    decreases j
  {
    hide Step, CanStep;
    if i < j {
      PushesStay(ws, acts, ora, kmax, i, j - 1);
      StepPushes(ws[j - 1], ora, kmax, acts[j - 1]);
    }
  }

  /** A push that is recorded between two moments is an arrival between them. */
  lemma {:induction false} PushedBetween(ws: seq<World>, acts: seq<Action>, ora: Oracle, kmax: nat, i: nat, j: nat,
                                         b: nat)
    returns (m: nat)
    requires IsRun(ws, acts, ora, kmax) && i <= j < |ws| && |ws[i].pushes| <= b < |ws[j].pushes|
    ensures i <= m < j && acts[m].Arrive? && ws[j].pushes[b] == (acts[m].sub.internalId, acts[m].sub.submissionId)
    decreases j
  {
    hide Step, CanStep;
    StepPushes(ws[j - 1], ora, kmax, acts[j - 1]);
    if b < |ws[j - 1].pushes| { m := PushedBetween(ws, acts, ora, kmax, i, j - 1, b); } else { m := j - 1; }
  }

  /** A submission that is superseded in a run is followed by an arrival with its external id. */
  lemma SupersededBy(ws: seq<World>, acts: seq<Action>, ora: Oracle, kmax: nat, m: nat) returns (m': nat)
    requires IsRun(ws, acts, ora, kmax) && m < |acts| && acts[m].Arrive?
    requires LaterPush(ws[|acts|].pushes, acts[m].sub.internalId, acts[m].sub.submissionId)
    ensures m < m' < |acts| && acts[m'].Arrive? && acts[m'].sub.submissionId == acts[m].sub.submissionId
  {
    var id, ext := acts[m].sub.internalId, acts[m].sub.submissionId;
    var pushes := ws[|acts|].pushes;
    RunKeepsPushes(ws, acts, ora, kmax, |acts|);
    PushesStay(ws, acts, ora, kmax, m + 1, |acts|);
    StepPushes(ws[m], ora, kmax, acts[m]);
    var a, b :| 0 <= a < b < |pushes| && pushes[a] == (id, ext) && pushes[b].1 == ext;
    assert pushes[|ws[m].pushes|] == (id, ext);
    m' := PushedBetween(ws, acts, ora, kmax, m + 1, |acts|, b);
  }
}
