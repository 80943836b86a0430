/** A newer submission with the same external id cancels the older one - as long as the id map
    still knows the older one. */
module Resubmission {
  import opened Types
  import opened Lifecycle
  import Serial
  import opened World

  /** At most one submission of each external id is being judged for real. */
  ghost predicate Unique(w: World) {
    forall x, y :: x in w.live && y in w.live && Rivals(w.live[x], w.live[y]) ==> x == y
  }

  /** Two uncancelled submissions with the same external id. */
  predicate Rivals(a: Live, b: Live) {
    !a.cancelled && !b.cancelled && a.j.sub.submissionId == b.j.sub.submissionId
  }

  /** The id map leads to the live, uncancelled submission `id`. */
  ghost predicate Mapped(w: World, id: int)
    requires id in w.live
  {
    var ext := w.live[id].j.sub.submissionId;
    ext in w.idMap && w.idMap[ext] == id
  }

  lemma AfterPush(w: World, sub: Submission, nm: Serial.Numbering, id: int)
    requires PushInv(w) && sub.stages >= 1 && sub.internalId !in w.live && id in w.live
    ensures var w' := Push(w, sub, nm);
            && id in w'.live && w'.live[id].j == w.live[id].j
            && w'.live[id].cancelled == (w.live[id].cancelled ||
                                         (w.live[id].j.sub.submissionId == sub.submissionId && Mapped(w, id)))
  {
    var ext := sub.submissionId;
    if ext in w.idMap && w.idMap[ext] == id {
      assert PushedOk(w.pushes, id, w.live[id]);
      assert (w.idMap[ext], ext) in w.pushes;
      SameIdSamePush(w.pushes, id, w.live[id].j.sub.submissionId, ext);
    }
  }

  /** The id map leads to every live, uncancelled submission with the external id of `sub`. */
  ghost predicate RivalsMapped(w: World, sub: Submission) {
    forall id :: id in w.live && !w.live[id].cancelled && w.live[id].j.sub.submissionId == sub.submissionId ==>
      Mapped(w, id)
  }

  /** An arrival breaks uniqueness exactly when an uncancelled submission with that external id is live
      and the id map does not lead to it. */
  lemma ArrivalKeepsUniqueIff(w: World, sub: Submission, nm: Serial.Numbering)
    requires Unique(w) && sub.stages >= 1 && sub.internalId !in w.live
    requires PushInv(w)
    ensures Unique(Push(w, sub, nm)) <==> RivalsMapped(w, sub)
  {
    var w' := Push(w, sub, nm);
    var mine := sub.internalId;
    assert mine in w'.live && w'.live[mine] == Arrived(sub);
    if Unique(w') {
      forall id | id in w.live && !w.live[id].cancelled && w.live[id].j.sub.submissionId == sub.submissionId
        ensures Mapped(w, id)
      {
        AfterPush(w, sub, nm, id);
        assert Rivals(w'.live[id], w'.live[mine]) <==> !w'.live[id].cancelled;
      }
    }
    if RivalsMapped(w, sub) {
      forall x, y | x in w'.live && y in w'.live && Rivals(w'.live[x], w'.live[y]) ensures x == y {
        if x != mine { AfterPush(w, sub, nm, x); }
        if y != mine { AfterPush(w, sub, nm, y); }
        if x != mine && y != mine { assert Rivals(w.live[x], w.live[y]); }
      }
    }
  }

  lemma StoreKeepsUnique(w: World, id: int, l: Live)
    requires Unique(w) && id in w.live && l.j.sub == w.live[id].j.sub && l.cancelled == w.live[id].cancelled
    ensures Unique(Store(w, id, l))
  {
    var w' := Store(w, id, l);
    forall x, y | x in w'.live && y in w'.live && Rivals(w'.live[x], w'.live[y]) ensures x == y {
      assert Rivals(w.live[x], w.live[y]);
    }
  }

  ghost predicate ArrivesSafely(w: World, a: Action) { a.Arrive? ==> RivalsMapped(w, a.sub) }

  /** Only an arrival can break uniqueness. */
  lemma StepKeepsUniqueIff(w: World, ora: Oracle, kmax: nat, a: Action)
    requires Unique(w) && PushInv(w) && CanStep(w, kmax, a)
    ensures Unique(Step(w, ora, kmax, a)) <==> ArrivesSafely(w, a)
  {
    hide Unique, RivalsMapped;
    match a
    case Arrive(sub, nm) => ArrivalKeepsUniqueIff(w, sub, nm);
    case Take(k) =>
      DispatchKeepsSub(w.live[k.sid], k.task);
      StoreKeepsUnique(w, k.sid, Dispatch(w.live[k.sid], k.task));
    case Return(k) =>
      CompleteKeepsSub(w.live[k.sid], ora, k.task);
      StoreKeepsUnique(w, k.sid, Complete(w.live[k.sid], ora, k.task));
  }

  ghost predicate UniqueUpTo(ws: seq<World>, i: nat)
    requires i < |ws|
  {
    forall j :: 0 <= j <= i ==> Unique(ws[j])
  }

  /** At each arrival before moment i the id map led to every live, uncancelled rival. */
  ghost predicate SafeUpTo(ws: seq<World>, acts: seq<Action>, i: nat)
    requires i <= |acts| <= |ws|
  {
    forall j :: 0 <= j < i ==> ArrivesSafely(ws[j], acts[j])
  }

  lemma OneMoreMoment(ws: seq<World>, acts: seq<Action>, i: nat)
    requires 0 < i <= |acts| && i < |ws| && |acts| <= |ws|
    ensures UniqueUpTo(ws, i) <==> UniqueUpTo(ws, i - 1) && Unique(ws[i])
    ensures UniqueUpTo(ws, i - 1) ==> Unique(ws[i - 1])
    ensures SafeUpTo(ws, acts, i) <==> SafeUpTo(ws, acts, i - 1) && ArrivesSafely(ws[i - 1], acts[i - 1])
  {
    hide Unique, ArrivesSafely;
  }

  lemma EmptyIsUnique(ws: seq<World>, acts: seq<Action>)
    requires |acts| <= |ws| && ws != [] && ws[0] == EMPTY
    ensures UniqueUpTo(ws, 0) && SafeUpTo(ws, acts, 0)
  {
  }

  /** In every run, at most one submission per external id is live and uncancelled at every moment so far,
      if and only if at each arrival so far the id map led to every live, uncancelled rival. */
  lemma {:induction false} UniqueSoFarIff(ws: seq<World>, acts: seq<Action>, ora: Oracle, kmax: nat, i: nat)
    requires IsRun(ws, acts, ora, kmax) && i < |ws|
    ensures UniqueUpTo(ws, i) <==> SafeUpTo(ws, acts, i)
  {
    hide CanStep, Step, Unique, UniqueUpTo, SafeUpTo, PushInv, ArrivesSafely;
    if i == 0 {
      EmptyIsUnique(ws, acts);
    } else {
      UniqueSoFarIff(ws, acts, ora, kmax, i - 1);
      RunKeepsPushes(ws, acts, ora, kmax, i - 1);
      OneMoreMoment(ws, acts, i);
      if UniqueUpTo(ws, i - 1) { StepKeepsUniqueIff(ws[i - 1], ora, kmax, acts[i - 1]); }
    }
  }

  ghost predicate AllMapped(w: World) {
    forall id :: id in w.live && !w.live[id].cancelled ==> Mapped(w, id)
  }

  lemma AllMappedIsUnique(w: World)
    requires AllMapped(w)
    ensures Unique(w)
  {
    forall x, y | x in w.live && y in w.live && Rivals(w.live[x], w.live[y]) ensures x == y {
      assert Mapped(w, x) && Mapped(w, y);
    }
  }

  /** No internal id of the run is also an external id. */
  ghost predicate IdsApart(acts: seq<Action>) {
    forall a, b :: 0 <= a < |acts| && 0 <= b < |acts| && acts[a].Arrive? && acts[b].Arrive? ==>
      acts[a].sub.internalId != acts[b].sub.submissionId
  }

  /** Ids seen so far come from arrivals. */
  ghost predicate IdsFrom(w: World, acts: seq<Action>) {
    forall id :: id in w.live ==> ArrivedIn(acts, id, w.live[id].j.sub.submissionId)
  }

  ghost predicate ArrivedIn(acts: seq<Action>, id: int, ext: int) {
    exists a :: 0 <= a < |acts| && acts[a].Arrive? && acts[a].sub.internalId == id && acts[a].sub.submissionId == ext
  }

  lemma StoreMapped(w: World, acts: seq<Action>, id: int, l: Live)
    requires AllMapped(w) && IdsFrom(w, acts) && IdsApart(acts) && id in w.live
    requires l.j.sub == w.live[id].j.sub && l.cancelled == w.live[id].cancelled
    ensures AllMapped(Store(w, id, l)) && IdsFrom(Store(w, id, l), acts)
  {
    var w' := Store(w, id, l);
    forall x | x in w'.live && !w'.live[x].cancelled ensures Mapped(w', x) {
      assert Mapped(w, x);
      assert ArrivedIn(acts, id, w.live[id].j.sub.submissionId) && ArrivedIn(acts, x, w.live[x].j.sub.submissionId);
    }
  }

  lemma ArriveMapped(w: World, acts: seq<Action>, k: nat)
    requires AllMapped(w) && IdsFrom(w, acts) && k < |acts| && acts[k].Arrive? && acts[k].sub.stages >= 1
    requires acts[k].sub.internalId !in w.live
    ensures AllMapped(Push(w, acts[k].sub, acts[k].nm)) && IdsFrom(Push(w, acts[k].sub, acts[k].nm), acts)
  {
    var sub := acts[k].sub;
    var w' := Push(w, sub, acts[k].nm);
    forall x | x in w'.live && !w'.live[x].cancelled ensures Mapped(w', x) {
      if x != sub.internalId { assert Mapped(w, x); }
    }
    forall x | x in w'.live ensures ArrivedIn(acts, x, w'.live[x].j.sub.submissionId) {
      if x == sub.internalId {
        assert acts[k].sub.internalId == x;
      } else {
        assert ArrivedIn(acts, x, w.live[x].j.sub.submissionId);
      }
    }
  }

  lemma {:induction false} RunMapped(ws: seq<World>, acts: seq<Action>, ora: Oracle, kmax: nat, i: nat)
    requires IsRun(ws, acts, ora, kmax) && i < |ws| && IdsApart(acts)
    ensures AllMapped(ws[i]) && IdsFrom(ws[i], acts)
  {
    if i > 0 {
      RunMapped(ws, acts, ora, kmax, i - 1);
      var w := ws[i - 1];
      match acts[i - 1]
      case Arrive(sub, nm) => ArriveMapped(w, acts, i - 1);
      case Take(k) =>
        DispatchKeepsSub(w.live[k.sid], k.task);
        StoreMapped(w, acts, k.sid, Dispatch(w.live[k.sid], k.task));
      case Return(k) =>
        CompleteKeepsSub(w.live[k.sid], ora, k.task);
        StoreMapped(w, acts, k.sid, Complete(w.live[k.sid], ora, k.task));
    }
  }

  /** If internal and external ids never coincide, at most one submission per external id is
      live and uncancelled, at every moment of every run. */
  lemma UniqueInEveryRun(ws: seq<World>, acts: seq<Action>, ora: Oracle, kmax: nat, i: nat)
    requires IsRun(ws, acts, ora, kmax) && i < |ws| && IdsApart(acts)
    ensures Unique(ws[i])
  {
    RunMapped(ws, acts, ora, kmax, i);
    AllMappedIsUnique(ws[i]);
  }
}
