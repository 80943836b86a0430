/** Sandbox processes: user ids and pinned cpus are lent to running tasks; a finished task keeps
    its handle until its result is fetched. */
module TaskPool {
  import opened Types

  const UID_BASE := 50000
  const UID_POOL_SIZE := 100

  /* ---- lending ---- */

  ghost predicate DistinctSeq(xs: seq<nat>) { forall a, b :: 0 <= a < b < |xs| ==> xs[a] != xs[b] }

  ghost predicate Injective<T(!new)>(held: map<nat, T>) {
    forall f, g :: f in held && g in held && held[f] == held[g] ==> f == g
  }

  /** Every resource is either free or lent to exactly one handle. */
  ghost predicate Lends(all: set<nat>, free: seq<nat>, held: map<nat, nat>) {
    && DistinctSeq(free) && Injective(held)
    && (forall x :: x in all <==> (x in free || x in held.Values))
    && (forall x :: x in free ==> x !in held.Values)
  }

  lemma LendOne(all: set<nat>, free: seq<nat>, held: map<nat, nat>, h: nat)
    requires Lends(all, free, held) && free != [] && h !in held
    ensures Lends(all, free[..|free| - 1], held[h := free[|free| - 1]])
  {
    var n := |free| - 1;
    var free', held' := free[..n], held[h := free[n]];
    assert free == free' + [free[n]];
    forall f, g | f in held' && g in held' && held'[f] == held'[g] ensures f == g {
      assert f in held ==> held[f] in held.Values;
      assert g in held ==> held[g] in held.Values;
    }
    ValuesPlus(held, h, free[n]);
  }

  lemma ValuesPlus<T>(held: map<nat, T>, h: nat, x: T)
    requires h !in held
    ensures held[h := x].Values == held.Values + {x}
  {
    var held' := held[h := x];
    forall y ensures y in held'.Values <==> y in held.Values + {x} {
      if y in held.Values {
        var f :| f in held && held[f] == y;
        assert held'[f] == y;
      }
      if y == x { assert held'[h] == x; }
    }
  }

  lemma NotAmongOthers<T(!new)>(held: map<nat, T>, h: nat)
    requires Injective(held) && h in held
    ensures held[h] !in (held - {h}).Values
  {
    var others := held - {h};
    assert forall g :: g in others ==> others[g] != held[h];
  }

  lemma ReturnOne(all: set<nat>, free: seq<nat>, held: map<nat, nat>, h: nat)
    requires Lends(all, free, held) && h in held
    ensures Lends(all, free + [held[h]], held - {h})
  {
    var free', held' := free + [held[h]], held - {h};
    assert held == held'[h := held[h]];
    ValuesPlus(held', h, held[h]);
    assert held[h] in held.Values;
    assert forall x :: x in free' <==> x in free || x == held[h];
    NotAmongOthers(held, h);
  }

  lemma {:induction false} SizeOfSeqSet(xs: seq<nat>, s: set<nat>)
    requires DistinctSeq(xs) && forall x :: x in s <==> x in xs
    ensures |s| == |xs|
  {
    if xs == [] {
      assert s == {};
    } else {
      var n := |xs| - 1;
      assert xs == xs[..n] + [xs[n]];
      assert xs[n] !in xs[..n];
      SizeOfSeqSet(xs[..n], s - {xs[n]});
    }
  }

  lemma {:induction false} SizeOfValues<T(!new)>(held: map<nat, T>)
    requires Injective(held)
    ensures |held.Values| == |held|
    decreases |held|
  {
    if held.Keys == {} {
      assert held.Values == {} && |held.Keys| == 0;
    } else {
      var h :| h in held.Keys;
      var held' := held - {h};
      assert held == held'[h := held[h]];
      ValuesPlus(held', h, held[h]);
      NotAmongOthers(held, h);
      assert held'.Keys == held.Keys - {h};
      SizeOfValues(held');
    }
  }

  /** Nothing is lost: free plus lent makes the whole, so the pool is empty exactly when as many
      resources are lent as there are. */
  lemma LendsCount(all: set<nat>, free: seq<nat>, held: map<nat, nat>)
    requires Lends(all, free, held)
    ensures |free| + |held| == |all|
  {
    var s := set x | x in free;
    SizeOfSeqSet(free, s);
    SizeOfValues(held);
    assert all == s + held.Values && s !! held.Values;
  }

  /* ---- the pools ---- */

  /** No cpu (-1 in the source) for a task that is not pinned. */
  datatype Process = Process(uid: nat, cpu: Option<nat>)

  function Uids(running: map<nat, Process>): map<nat, nat> {
    map h | h in running :: running[h].uid
  }

  function Cpus(running: map<nat, Process>): map<nat, nat> {
    map h | h in running && running[h].cpu.Some? :: running[h].cpu.value
  }

  function UidRange(): (r: seq<nat>)
    ensures |r| == UID_POOL_SIZE && forall i :: 0 <= i < UID_POOL_SIZE ==> r[i] == i + UID_BASE
  {
    seq(UID_POOL_SIZE, i => i + UID_BASE)
  }

  function AsSet(xs: seq<nat>): set<nat> { set x | x in xs }

  lemma SameSize(running: map<nat, Process>)
    ensures |Uids(running)| == |running|
  {
    assert Uids(running).Keys == running.Keys;
  }

  lemma StartedMaps(running: map<nat, Process>, handle: nat, p: Process)
    requires handle !in running
    ensures var running' := running[handle := p];
            && Uids(running') == Uids(running)[handle := p.uid]
            && Cpus(running') == if p.cpu.None? then Cpus(running) else Cpus(running)[handle := p.cpu.value]
  {
  }

  lemma StoppedMaps(running: map<nat, Process>, handle: nat)
    ensures Uids(running - {handle}) == Uids(running) - {handle}
    ensures Cpus(running - {handle}) == Cpus(running) - {handle}
  {
  }

  function Merge(pipes: map<nat, Outcome>, finished: map<nat, Outcome>): map<nat, Outcome> { pipes + finished }

  lemma MergeStarted(pipes: map<nat, Outcome>, finished: map<nat, Outcome>, handle: nat, o: Outcome)
    requires handle !in finished
    ensures Merge(pipes[handle := o], finished) == Merge(pipes, finished)[handle := o]
  {
  }

  lemma MergeStopped(pipes: map<nat, Outcome>, finished: map<nat, Outcome>, handle: nat)
    requires handle in pipes && pipes.Keys !! finished.Keys
    ensures Merge(pipes - {handle}, finished[handle := pipes[handle]]) == Merge(pipes, finished)
  {
  }

  lemma MergeFetched(pipes: map<nat, Outcome>, finished: map<nat, Outcome>, handle: nat)
    requires handle in finished && pipes.Keys !! finished.Keys
    ensures handle in Merge(pipes, finished) && Merge(pipes, finished)[handle] == finished[handle]
    ensures Merge(pipes, finished - {handle}) == Merge(pipes, finished) - {handle}
  {
  }

  ghost predicate PoolsOk(pinned: set<nat>, uidPool: seq<nat>, cpuPool: seq<nat>, running: map<nat, Process>) {
    && Lends(AsSet(UidRange()), uidPool, Uids(running))
    && Lends(pinned, cpuPool, Cpus(running))
  }

  lemma RemoveOneMore<T>(m: map<nat, T>, done: set<nat>, k: nat)
    ensures m - done - {k} == m - (done + {k})
  {
  }

  class Pool {
    const pinned: set<nat>
    var uidPool: seq<nat>
    var cpuPool: seq<nat>
    var running: map<nat, Process>
    var finished: map<nat, Outcome>
    /** What the child of each running task will write to its pipe. */
    var pipes: map<nat, Outcome>

    ghost predicate Valid()
      reads this
    {
      && PoolsOk(pinned, uidPool, cpuPool, running)
      && running.Keys == pipes.Keys && running.Keys !! finished.Keys
    }

    /** The tasks whose result was not fetched yet, each with its result. */
    ghost function Pending(): map<nat, Outcome>
      reads this
    {
      Merge(pipes, finished)
    }

    /** InitPools */
    constructor (cpus: seq<nat>)
      requires DistinctSeq(cpus)
      ensures Valid() && Pending() == map[] && pinned == AsSet(cpus)
    {
      pinned := AsSet(cpus);
      uidPool, cpuPool := UidRange(), cpus;
      running, finished, pipes := map[], map[], map[];
      new;
      assert Uids(map[]).Values == {} && Cpus(map[]).Values == {};
    }

    /** The user id pool is empty exactly when all user ids are lent to running tasks. */
    lemma UidsLeft()
      requires Valid()
      ensures |uidPool| + |running| == UID_POOL_SIZE
    {
      LendsCount(AsSet(UidRange()), uidPool, Uids(running));
      SizeOfSeqSet(UidRange(), AsSet(UidRange()));
      SameSize(running);
    }

    lemma PendingSize()
      requires Valid()
      ensures |Pending()| == |running| + |finished|
    {
      assert Pending().Keys == running.Keys + finished.Keys;
      assert |Pending().Keys| == |running.Keys| + |finished.Keys|;
    }

    /** A descriptor that is not open; any would do. */
    method OpenHandle() returns (handle: nat)
      requires Valid()
      ensures handle !in Pending()
    {
      handle := 0;
      ghost var seen: set<nat> := {};
      while handle in running || handle in finished
        invariant seen <= Pending().Keys && forall h :: h in seen ==> h < handle
        decreases Pending().Keys - seen
      {
        assert handle in Pending().Keys;
        seen := seen + {handle};
        handle := handle + 1;
      }
    }

    /** No two running tasks share a user id or a pinned cpu, and no lent one is in the pool. */
    lemma NothingShared(g: nat, h: nat)
      requires Valid() && g in running && h in running && g != h
      ensures running[g].uid != running[h].uid && running[g].uid !in uidPool
      ensures running[g].cpu.Some? ==> running[g].cpu != running[h].cpu && running[g].cpu.value !in cpuPool
    {
      var uids, cpus := Uids(running), Cpus(running);
      assert uids[g] in uids.Values && uids[g] != uids[h];
      assert g in cpus ==> cpus[g] in cpus.Values && (h in cpus ==> cpus[g] != cpus[h]);
    }

    /** Takes the last user id and, if there is one, the last cpu. */
    method Lend(handle: nat) returns (p: Process)
      requires Valid() && handle !in running && |running| < UID_POOL_SIZE
      modifies `uidPool, `cpuPool
      ensures PoolsOk(pinned, uidPool, cpuPool, running[handle := p])
      ensures p.cpu.None? <==> old(cpuPool) == []
      ensures old(uidPool) == uidPool + [p.uid] && old(cpuPool) == cpuPool + if p.cpu.Some? then [p.cpu.value] else []
    {
      UidsLeft();
      LendOne(AsSet(UidRange()), uidPool, Uids(running), handle);
      var uid := uidPool[|uidPool| - 1];
      uidPool := uidPool[..|uidPool| - 1];
      var cpu := None;
      if cpuPool != [] {
        LendOne(pinned, cpuPool, Cpus(running), handle);
        cpu := Some(cpuPool[|cpuPool| - 1]);
        cpuPool := cpuPool[..|cpuPool| - 1];
      }
      p := Process(uid, cpu);
      StartedMaps(running, handle, p);
    }

    lemma NotPending(handle: nat)
      requires Valid() && handle !in Pending()
      ensures handle !in running && handle !in finished
      ensures running.Keys == pipes.Keys && running.Keys !! finished.Keys
    {
    }

    /** What a task needs is lent, and taken back if there is no child to use it. */
    method Fork(handle: nat, forked: bool) returns (res: Option<Process>)
      requires Valid() && handle !in running && |running| < UID_POOL_SIZE
      modifies `uidPool, `cpuPool
      ensures res.Some? == forked
      ensures res.Some? ==> PoolsOk(pinned, uidPool, cpuPool, running[handle := res.value])
      ensures res.Some? ==> (res.value.cpu.None? <==> old(cpuPool) == [])
      ensures res.None? ==> Valid() && uidPool == old(uidPool) && cpuPool == old(cpuPool)
    {
      hide PoolsOk;
      var p := Lend(handle);
      if forked { return Some(p); }
      TakeBack(p);
      return None;
    }

    /** The parent's side of a fork. */
    method Record(handle: nat, p: Process, outcome: Outcome)
      requires running.Keys == pipes.Keys && running.Keys !! finished.Keys && handle !in running && handle !in finished
      requires PoolsOk(pinned, uidPool, cpuPool, running[handle := p])
      modifies `running, `pipes
      ensures Valid() && Pending() == old(Pending())[handle := outcome] && running == old(running)[handle := p]
    {
      hide PoolsOk, Merge;
      MergeStarted(pipes, finished, handle, outcome);
      running := running[handle := p];
      pipes := pipes[handle := outcome];
    }

    method TakeBack(p: Process)
      modifies `uidPool, `cpuPool
      ensures uidPool == old(uidPool) + [p.uid]
      ensures cpuPool == old(cpuPool) + if p.cpu.Some? then [p.cpu.value] else []
    {
      uidPool := uidPool + [p.uid];
      if p.cpu.Some? { cpuPool := cpuPool + [p.cpu.value]; } else { assert cpuPool + [] == cpuPool; }
    }

    /** The pipe's read end `handle` is a file descriptor that is not open: neither running nor waiting to be
        fetched. `outcome` is what the child will write. None, and nothing changed, if the call of pipe() or
        that of fork() fails. */
    method RunTask(handle: nat, outcome: Outcome, piped: bool, forked: bool) returns (res: Option<nat>)
      requires Valid() && handle !in Pending() && |running| < UID_POOL_SIZE
      modifies this
      ensures Valid() && res == if piped && forked then Some(handle) else None
      ensures res.Some? ==> Pending() == old(Pending())[handle := outcome]
      ensures res.Some? ==> running.Keys == old(running.Keys) + {handle}
      ensures res.Some? ==> (running[handle].cpu.None? <==> old(cpuPool) == [])
      ensures res.None? ==> uidPool == old(uidPool) && cpuPool == old(cpuPool)
      ensures res.None? ==> running == old(running) && finished == old(finished) && pipes == old(pipes)
    {
      hide PoolsOk, Merge, Valid;
      NotPending(handle);
      if !piped { return None; }
      var p := Fork(handle, forked);
      if p.None? { return None; }
      Record(handle, p.value, outcome);
      return Some(handle);
    }

    /** Gives the user id and the cpu of a finished task back. */
    method GiveBack(handle: nat)
      requires Valid() && handle in running
      modifies `uidPool, `cpuPool
      ensures PoolsOk(pinned, uidPool, cpuPool, running - {handle})
    {
      var p := running[handle];
      ReturnOne(AsSet(UidRange()), uidPool, Uids(running), handle);
      uidPool := uidPool + [p.uid];
      if p.cpu.Some? {
        ReturnOne(pinned, cpuPool, Cpus(running), handle);
        cpuPool := cpuPool + [p.cpu.value];
      } else {
        assert Cpus(running) - {handle} == Cpus(running);
      }
      StoppedMaps(running, handle);
    }

    /** One readable handle: its result is read, its user id and cpu go back. */
    method Reap(handle: nat)
      requires Valid() && handle in running
      modifies this
      ensures Valid() && Pending() == old(Pending())
      ensures running == old(running) - {handle} && finished.Keys == old(finished.Keys) + {handle}
    {
      GiveBack(handle);
      MergeStopped(pipes, finished, handle);
      finished := finished[handle := pipes[handle]];
      running := running - {handle};
      pipes := pipes - {handle};
    }

    /** `selected` is what select() reports of the running handles: nothing if it fails or nothing runs, and
        then the result is false. The others are finished. */
    method Wait(selected: set<nat>) returns (ok: bool)
      requires Valid() && selected <= running.Keys
      modifies this
      ensures Valid() && Pending() == old(Pending())
      ensures ok == (selected != {})
      ensures running == old(running) - selected && finished.Keys == old(finished.Keys) + selected
    {
      hide PoolsOk, Merge, Valid, Pending;
      if running == map[] || selected == {} {
        assert selected == {} && running - selected == running;
        return false;
      }
      var rest := selected;
      ghost var done: set<nat> := {};
      assert running - {} == running;
      while rest != {}
        invariant Valid() && Pending() == old(Pending()) && done + rest == selected && rest <= running.Keys
        invariant running == old(running) - done && finished.Keys == old(finished.Keys) + done
      {
        var handle :| handle in rest;
        Reap(handle);
        RemoveOneMore(old(running), done, handle);
        rest, done := rest - {handle}, done + {handle};
      }
      return true;
    }

    /** Fetches a result, waiting for one if there is none; None stands for the handle -1. */
    method WaitAnyResult() returns (res: Option<(nat, Outcome)>)
      requires Valid()
      modifies this
      ensures Valid()
      ensures res.None? <==> old(Pending()) == map[]
      ensures res.None? ==> Pending() == map[]
      ensures res.Some? ==> var (h, o) := res.value;
                            && h in old(Pending()) && o == old(Pending())[h]
                            && Pending() == old(Pending()) - {h}
      ensures running.Keys <= old(running.Keys)
    {
      if running == map[] && finished == map[] { return None; }
      if finished == map[] {
        var some: nat :| some in running.Keys;
        var selected: set<nat> :| some in selected && selected <= running.Keys;
        var ok := Wait(selected);
        assert some in finished.Keys;
      }
      assert finished.Keys != {};
      var handle :| handle in finished.Keys;
      res := Some((handle, finished[handle]));
      MergeFetched(pipes, finished, handle);
      finished := finished - {handle};
    }
  }
}
