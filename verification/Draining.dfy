/** From every state of the judge some run goes on until nobody is left, also with a single worker. */
module Draining {
  import opened Types
  import opened Lifecycle
  import LifecycleInv
  import opened World

  function LeftKeys(w: World): set<Key> {
    set id, t | id in w.live && t in w.live[id].left :: Key(id, t)
  }

  /** A task none of the others in `keys` goes before. */
  lemma {:induction false} TopAmong(w: World, keys: set<Key>) returns (k: Key)
    requires exists x :: x in keys && CanStart(w, x)
    ensures k in keys && CanStart(w, k) && forall x :: x in keys && CanStart(w, x) ==> !Less(w, k, x)
  {
    hide LifecycleInv.Startable;
    var x: Key :| x in keys && CanStart(w, x);
    var rest := keys - {x};
    k := x;
    if exists y :: y in rest && CanStart(w, y) {
      var y := TopAmong(w, rest);
      k := if Less(w, x, y) then y else x;
    }
  }

  lemma TopExists(w: World, k0: Key) returns (k: Key)
    requires CanStart(w, k0)
    ensures IsTop(w, k)
  {
    assert k0 in LeftKeys(w);
    k := TopAmong(w, LeftKeys(w));
  }

  lemma LeadsBack(ws: seq<World>, acts: seq<Action>, ora: Oracle, kmax: nat, w: World, a: Action, w1: World, w2: World)
    requires CanStep(w, kmax, a) && w1 == Step(w, ora, kmax, a) && Leads(ws, acts, ora, kmax, w1, w2)
    ensures Leads([w] + ws, [a] + acts, ora, kmax, w, w2)
  {
    hide CanStep, Step;
    var ws', acts' := [w] + ws, [a] + acts;
    forall i | 0 <= i < |acts'|
      ensures CanStep(ws'[i], kmax, acts'[i]) && ws'[i + 1] == Step(ws'[i], ora, kmax, acts'[i])
    {
      if i > 0 { assert ws'[i] == ws[i - 1] && acts'[i] == acts[i - 1] && ws'[i + 1] == ws[i]; }
    }
  }

  /** One step nearer to the end. */
  ghost predicate Progress(w: World, w': World) {
    LeftKeys(w') < LeftKeys(w) ||
    (LeftKeys(w') == LeftKeys(w) && LeftKeys(w') - RunningKeys(w') < LeftKeys(w) - RunningKeys(w))
  }

  lemma TakeProgress(w: World, k: Key)
    requires CanStart(w, k) && Sized(w.live[k.sid]) && k.task in w.live[k.sid].left
    ensures Progress(w, DispatchKey(w, k))
  {
    var l := w.live[k.sid];
    var l', w' := Dispatch(l, k.task), DispatchKey(w, k);
    assert k in LeftKeys(w) && k !in RunningKeys(w);
    if SetupStarts(l, k.task) {
      assert l'.left == l.left && l'.running == l.running + {k.task};
      hide Dispatch, SetupStarts, Sized, LifecycleInv.Startable;
      assert forall x :: x in LeftKeys(w') <==> x in LeftKeys(w);
      assert k in RunningKeys(w');
      assert forall x :: x in RunningKeys(w) ==> x in RunningKeys(w');
    } else {
      assert l'.left == l.left - {k.task};
      hide Dispatch, SetupStarts, Sized, LifecycleInv.Startable;
      assert forall x :: x in LeftKeys(w') ==> x in LeftKeys(w);
      assert k !in LeftKeys(w');
    }
  }

  lemma ReturnProgress(w: World, ora: Oracle, k: Key)
    requires k in RunningKeys(w) && Sized(w.live[k.sid]) && k.task in w.live[k.sid].left
    ensures Progress(w, CompleteKey(w, ora, k))
  {
    var l := w.live[k.sid];
    var l', w' := Complete(l, ora, k.task), CompleteKey(w, ora, k);
    assert l'.left == l.left - {k.task};
    hide Complete, Sized;
    assert k in LeftKeys(w) && k !in LeftKeys(w');
    assert forall x :: x in LeftKeys(w') ==> x in LeftKeys(w);
  }

  /** A worker waits only when all are busy or nothing can be started: so does the work loop. */
  ghost predicate Waits(w: World, kmax: nat) { |RunningKeys(w)| >= kmax || forall k :: !CanStart(w, k) }

  /** What may be done next: take what is on top as long as that is possible; else wait, for `last` only if
      nothing else is running. */
  ghost predicate Eager(w: World, kmax: nat, last: Key, a: Action) {
    && (a.Return? ==> Waits(w, kmax))
    && (a == Return(last) ==> RunningKeys(w) == {last})
  }

  lemma NextMove(w: World, ora: Oracle, kmax: nat, last: Key, id: int) returns (a: Action)
    requires WInv(w, ora) && kmax >= 1 && id in w.live
    ensures !a.Arrive? && CanStep(w, kmax, a) && Eager(w, kmax, last, a) && Progress(w, Step(w, ora, kmax, a))
  {
    if |RunningKeys(w)| < kmax && exists k :: CanStart(w, k) {
      var k0: Key :| CanStart(w, k0);
      var k := TopExists(w, k0);
      TakeKeeps(w, ora, k);
      TakeProgress(w, k);
      a := Take(k);
    } else {
      var k := OneToWaitFor(w, ora, kmax, last, id);
      ReturnKeeps(w, ora, k);
      ReturnProgress(w, ora, k);
      a := Return(k);
    }
  }

  lemma OneToWaitFor(w: World, ora: Oracle, kmax: nat, last: Key, id: int) returns (k: Key)
    requires WInv(w, ora) && kmax >= 1 && id in w.live && Waits(w, kmax)
    ensures k in RunningKeys(w) && (k == last ==> RunningKeys(w) == {last})
  {
    hide WInv, CanStart, RunningKeys;
    var k0 := NoDeadlock(w, ora, id);
    if RunningKeys(w) - {last} != {} {
      k :| k in RunningKeys(w) - {last};
    } else {
      assert RunningKeys(w) != {} && RunningKeys(w) <= {last};
      k := last;
    }
  }

  ghost predicate EagerAll(ws: seq<World>, acts: seq<Action>, kmax: nat, last: Key) {
    |ws| == |acts| + 1 && forall m :: 0 <= m < |acts| ==> Eager(ws[m], kmax, last, acts[m])
  }

  lemma EagerBack(ws: seq<World>, acts: seq<Action>, kmax: nat, last: Key, w: World, a: Action)
    requires EagerAll(ws, acts, kmax, last) && Eager(w, kmax, last, a)
    ensures EagerAll([w] + ws, [a] + acts, kmax, last)
  {
    hide Eager;
    forall m | 0 <= m < |acts| + 1 ensures Eager(([w] + ws)[m], kmax, last, ([a] + acts)[m]) {
      if m > 0 { assert Eager(ws[m - 1], kmax, last, acts[m - 1]); }
    }
  }

  /** The judge can always finish what it has begun, eagerly, and with `last` as late as possible. */
  lemma {:induction false} Drains(w: World, ora: Oracle, kmax: nat, last: Key)
    returns (ws: seq<World>, acts: seq<Action>)
    requires WInv(w, ora) && kmax >= 1
    ensures |ws| == |acts| + 1 && Leads(ws, acts, ora, kmax, w, ws[|acts|]) && ws[|acts|].live == map[]
    ensures (forall m :: 0 <= m < |acts| ==> !acts[m].Arrive?) && EagerAll(ws, acts, kmax, last)
    decreases LeftKeys(w), LeftKeys(w) - RunningKeys(w)
  {
    hide WInv, CanStep, Step, LeftKeys, RunningKeys, Eager, EagerAll;
    if exists id: int :: id in w.live {
      var id: int :| id in w.live;
      var a := NextMove(w, ora, kmax, last, id);
      var w1 := Step(w, ora, kmax, a);
      StepWInv(w, ora, kmax, a);
      var ws1, acts1 := Drains(w1, ora, kmax, last);
      LeadsBack(ws1, acts1, ora, kmax, w, a, w1, ws1[|acts1|]);
      EagerBack(ws1, acts1, kmax, last, w, a);
      ws, acts := [w] + ws1, [a] + acts1;
    } else {
      assert forall id: int :: id !in w.live.Keys;
      assert w.live.Keys == {};
      ws, acts := [w], [];
      LeadsNowhere(ora, kmax, w);
      NothingToDo(w, kmax, last);
    }
  }

  lemma NothingToDo(w: World, kmax: nat, last: Key)
    ensures EagerAll([w], [], kmax, last)
  {
  }
}
