/** One worker: testdata are judged one after the other in td_order, and the result does not
    depend on the schedule even with group skipping and partial scores. */
module Serial {
  import opened Types
  import opened TestdataRun
  import opened TaskGraph
  import opened Totals
  import opened Lifecycle
  import opened LifecycleInv
  import Layering
  import opened Outcomes

  /** The number of each testdata and, the other way round, which one is judged k-th. The
      results below hold for every numbering; td_order is one. */
  datatype Numbering = Numbering(order: seq<nat>, inv: seq<nat>)

  ghost predicate Numbered(sub: Submission, nm: Numbering) {
    && |nm.order| == |nm.inv| == |sub.testdata|
    && (forall k :: 0 <= k < |nm.inv| ==> nm.inv[k] < |nm.order| && nm.order[nm.inv[k]] == k)
    && (forall i :: 0 <= i < |nm.order| ==> nm.order[i] < |nm.inv| && nm.inv[nm.order[i]] == i)
  }

  function TdNumbering(sub: Submission): Numbering { Numbering(Layering.TdOrder(sub), Layering.JudgingOrder(sub)) }

  lemma TdNumberingNumbers(sub: Submission)
    ensures Numbered(sub, TdNumbering(sub))
  {
    Layering.JudgingOrderIsLayered(sub);
    Layering.TdOrderNumbers(sub);
    var order, inv := Layering.TdOrder(sub), Layering.JudgingOrder(sub);
    forall i: nat | i < |sub.testdata| ensures order[i] < |sub.testdata| && inv[order[i]] == i {
      assert i in inv;
      var k :| 0 <= k < |inv| && inv[k] == i;
      assert order[inv[k]] == k;
    }
  }

  /** task_order of an entry. */
  function OrderOf(nm: Numbering, t: Task): nat {
    if (t.Execute? || t.Scoring?) && t.td < |nm.order| then nm.order[t.td] else 0
  }

  /** The worker takes a task of the smallest order among those it may take. */
  ghost predicate Top(l: Live, nm: Numbering, t: Task)
    requires l.j.sub.stages >= 1
  {
    Startable(l, t) && forall u :: Startable(l, u) ==> OrderOf(nm, t) <= OrderOf(nm, u)
  }

  /** The head of an unfinished chain, or a compilation it waits for, can be taken. */
  lemma HeadOrCompile(l: Live, ora: Oracle, i: nat) returns (u: Task)
    requires Inv(l, ora) && l.running == {} && i < |l.h.pos| && l.h.pos[i] < ChainLen(l.j.sub)
    ensures Startable(l, u) && (u.Compile? || ((u.Execute? || u.Scoring?) && u.td == i))
  {
    var sub, k := l.j.sub, l.h.pos[i];
    var head := ChainTask(sub, i, k);
    assert ChainLeft(sub, l.left, i, k);
    TaskAtPos(sub, i, k);
    if a :| a in l.left && Edge(sub, a, head) {
      if a.Compile? {
        u := a;
      } else {
        PosOfTask(sub, a);
        EdgeRaisesRank(sub, a, head);
        assert false;
      }
    } else {
      u := head;
    }
  }

  /** Serial order: when a task of a testdata is taken and nothing else runs, every testdata
      with a smaller number is finished. */
  lemma EarlierAreFinished(l: Live, ora: Oracle, nm: Numbering, t: Task, i: nat)
    requires Numbered(l.j.sub, nm) && Inv(l, ora) && l.running == {} && Top(l, nm, t) && (t.Execute? || t.Scoring?)
    requires i < |l.h.pos| && IsTask(l.j.sub, t) && nm.order[i] < nm.order[t.td]
    ensures l.h.pos[i] == ChainLen(l.j.sub)
  {
    assert ChainLeft(l.j.sub, l.left, i, l.h.pos[i]);
    if l.h.pos[i] < ChainLen(l.j.sub) {
      var u := HeadOrCompile(l, ora, i);
    }
  }

  /* ---- the reference for one worker ---- */

  /** The groups lost after the first `k` testdata in judging order. */
  ghost function Lost(sub: Submission, ora: Oracle, nm: Numbering, k: nat): set<nat>
    requires sub.stages >= 1 && Numbered(sub, nm) && k <= |sub.testdata|
  {
    if k == 0 then {}
    else
      var i := nm.inv[k - 1];
      var lost := Lost(sub, ora, nm, k - 1);
      if IsCancelled(false, lost, sub.testdata[i].groups) then lost
      else if Cancels(sub, Chain(sub, ora, i, ChainLen(sub)).verdict) then lost + GroupsOf(sub, i)
      else lost
  }

  /** Testdata i is skipped: all of its groups were lost to earlier testdata. */
  ghost predicate Skipped(sub: Submission, ora: Oracle, nm: Numbering, i: nat)
    requires sub.stages >= 1 && Numbered(sub, nm) && i < |sub.testdata|
  {
    IsCancelled(false, Lost(sub, ora, nm, nm.order[i]), sub.testdata[i].groups)
  }

  /** td_results ends with the last testdata that was judged. */
  ghost function SerialLength(sub: Submission, ora: Oracle, nm: Numbering, m: nat): (n: nat)
    requires sub.stages >= 1 && Numbered(sub, nm) && m <= |sub.testdata|
    ensures n <= m
    ensures n > 0 ==> !Skipped(sub, ora, nm, n - 1)
    ensures forall i :: n <= i < m ==> Skipped(sub, ora, nm, i)
  {
    if m == 0 || !Skipped(sub, ora, nm, m - 1) then m else SerialLength(sub, ora, nm, m - 1)
  }

  ghost function SerialResults(sub: Submission, ora: Oracle, nm: Numbering): seq<TdResult>
    requires sub.stages >= 1 && Numbered(sub, nm)
  {
    seq(SerialLength(sub, ora, nm, |sub.testdata|), i requires 0 <= i < |sub.testdata| =>
      if Skipped(sub, ora, nm, i) then NO_RESULT else Chain(sub, ora, i, ChainLen(sub)))
  }

  /* ---- the invariant of a run with one worker ---- */

  ghost predicate Touched(l: Live, i: nat)
    requires l.j.sub.stages >= 1 && i < |l.h.pos|
  {
    l.h.pos[i] > 0 || HeadRunning(l.j.sub, l.running, i, 0)
  }

  predicate Clean(l: Live, ora: Oracle) {
    !l.cancelled && CompileVerdict(l.j.sub, ora, l.h.ran).NUL?
  }

  ghost predicate Posed(l: Live, nm: Numbering) {
    && l.j.sub.stages >= 1 && Numbered(l.j.sub, nm)
    && |l.h.pos| == |l.h.eff| == |l.j.sub.testdata|
    && forall i :: 0 <= i < |l.h.eff| ==> l.h.eff[i] <= ChainLen(l.j.sub)
  }

  ghost predicate Status(l: Live, ora: Oracle, nm: Numbering, i: nat)
    requires Posed(l, nm) && i < |l.h.pos|
  {
    || !Touched(l, i)
    || (Skipped(l.j.sub, ora, nm, i) && l.h.eff[i] == 0 && !HeadRunning(l.j.sub, l.running, i, l.h.pos[i]))
    || (!Skipped(l.j.sub, ora, nm, i) && (l.h.eff[i] == l.h.pos[i] || Settled(l.j.sub, ora, i, l.h.eff[i])))
  }

  ghost predicate Statuses(l: Live, ora: Oracle, nm: Numbering)
    requires Posed(l, nm)
  {
    forall i :: 0 <= i < |l.h.pos| ==> Status(l, ora, nm, i)
  }

  ghost predicate FinishedBefore(l: Live, nm: Numbering, k: nat)
    requires Posed(l, nm)
  {
    forall i :: 0 <= i < |l.h.pos| && nm.order[i] < k ==> l.h.pos[i] == ChainLen(l.j.sub)
  }

  /** Once a testdata is touched, those with smaller numbers are finished. */
  ghost predicate InOrder(l: Live, nm: Numbering)
    requires Posed(l, nm)
  {
    forall i :: 0 <= i < |l.h.pos| && Touched(l, i) ==> FinishedBefore(l, nm, nm.order[i])
  }

  ghost predicate SerialInv(l: Live, ora: Oracle, nm: Numbering) {
    && Inv(l, ora)
    && Posed(l, nm)
    && InOrder(l, nm)
    && (|l.j.tds| > 0 ==> l.h.eff[|l.j.tds| - 1] > 0)
    && (Clean(l, ora) ==> Statuses(l, ora, nm))
  }

  lemma NotSettledAtStart(sub: Submission, ora: Oracle, i: nat)
    requires sub.stages >= 1 && i < |sub.testdata|
    ensures !Settled(sub, ora, i, 0)
  {
  }

  /** Testdata i, numbered below k, belongs to g and was judged without being accepted. */
  ghost predicate Culprit(l: Live, ora: Oracle, nm: Numbering, i: nat, k: nat, g: nat)
    requires Posed(l, nm)
  {
    i < |l.h.pos| && nm.order[i] < k && g in l.j.sub.testdata[i].groups && Spoils(l.j.sub, ora, i, l.h.eff[i])
  }

  lemma FinishedSpoils(l: Live, ora: Oracle, nm: Numbering, i: nat)
    requires Posed(l, nm) && i < |l.h.pos| && Status(l, ora, nm, i) && l.h.pos[i] == ChainLen(l.j.sub)
    ensures Spoils(l.j.sub, ora, i, l.h.eff[i]) <==>
            !Skipped(l.j.sub, ora, nm, i) && Cancels(l.j.sub, Chain(l.j.sub, ora, i, ChainLen(l.j.sub)).verdict)
    ensures if Skipped(l.j.sub, ora, nm, i) then l.h.eff[i] == 0 else Settled(l.j.sub, ora, i, l.h.eff[i])
  {
    NotSettledAtStart(l.j.sub, ora, i);
    if !Skipped(l.j.sub, ora, nm, i) && l.h.eff[i] < ChainLen(l.j.sub) {
      SkipStageIsFinal(l.j.sub, ora, i, l.h.eff[i], ChainLen(l.j.sub));
    }
  }

  lemma LostStep(sub: Submission, ora: Oracle, nm: Numbering, i: nat, g: nat)
    requires sub.stages >= 1 && Numbered(sub, nm) && i < |sub.testdata|
    ensures var k := nm.order[i];
            g in Lost(sub, ora, nm, k + 1) <==>
            (g in Lost(sub, ora, nm, k) ||
             (!Skipped(sub, ora, nm, i) && Cancels(sub, Chain(sub, ora, i, ChainLen(sub)).verdict)
               && g in sub.testdata[i].groups))
  {
  }

  ghost predicate HasCulprit(l: Live, ora: Oracle, nm: Numbering, k: nat, g: nat)
    requires Posed(l, nm)
  {
    exists i :: Culprit(l, ora, nm, i, k, g)
  }

  lemma CulpritStep(l: Live, ora: Oracle, nm: Numbering, i: nat, g: nat)
    requires Posed(l, nm) && i < |l.h.pos|
    ensures var k := nm.order[i];
            HasCulprit(l, ora, nm, k + 1, g) <==> HasCulprit(l, ora, nm, k, g) || Culprit(l, ora, nm, i, k + 1, g)
  {
    var k := nm.order[i];
    if HasCulprit(l, ora, nm, k + 1, g) {
      var i': nat :| Culprit(l, ora, nm, i', k + 1, g);
      assert nm.inv[nm.order[i']] == i';
      if i' != i { assert Culprit(l, ora, nm, i', k, g); }
    }
    if HasCulprit(l, ora, nm, k, g) {
      var i': nat :| Culprit(l, ora, nm, i', k, g);
      assert Culprit(l, ora, nm, i', k + 1, g);
    }
  }

  /** While the testdata before number k are finished, exactly the groups they spoiled are lost. */
  lemma {:induction false} LostAreSpoiled(l: Live, ora: Oracle, nm: Numbering, k: nat, g: nat)
    requires Posed(l, nm) && Statuses(l, ora, nm) && k <= |l.h.pos| && FinishedBefore(l, nm, k)
    ensures g in Lost(l.j.sub, ora, nm, k) <==> HasCulprit(l, ora, nm, k, g)
  {
    if k > 0 {
      var i := nm.inv[k - 1];
      assert FinishedBefore(l, nm, k - 1);
      LostAreSpoiled(l, ora, nm, k - 1, g);
      assert Status(l, ora, nm, i);
      FinishedSpoils(l, ora, nm, i);
      LostStep(l.j.sub, ora, nm, i, g);
      CulpritStep(l, ora, nm, i, g);
    }
  }

  /** A spoiled testdata other than i, which is up, comes before it. */
  lemma SpoiledComesBefore(l: Live, ora: Oracle, nm: Numbering, i: nat, i': nat, g: nat)
    requires Posed(l, nm) && InOrder(l, nm) && i < |l.h.pos| && l.h.pos[i] < ChainLen(l.j.sub)
    requires !Spoils(l.j.sub, ora, i, l.h.eff[i])
    requires i' < |l.h.eff| && l.h.eff[i'] <= l.h.pos[i']
    requires g in l.j.sub.testdata[i'].groups && Spoils(l.j.sub, ora, i', l.h.eff[i'])
    ensures Culprit(l, ora, nm, i', nm.order[i], g)
  {
    NotSettledAtStart(l.j.sub, ora, i');
    assert Touched(l, i');
    assert nm.inv[nm.order[i']] == i' && nm.inv[nm.order[i]] == i;
  }

  /** The groups given up when testdata i is up: those lost before it, as long as it has not
      spoiled its own. */
  lemma GivenUpAreLost(l: Live, ora: Oracle, nm: Numbering, i: nat)
    requires Posed(l, nm) && Statuses(l, ora, nm) && InOrder(l, nm) && i < |l.h.pos| && l.h.pos[i] < ChainLen(l.j.sub)
    requires FinishedBefore(l, nm, nm.order[i])
    requires EffOk(l.j.sub, l.h.eff) && GroupsOk(l.j.sub, ora, l.cgroups, l.h.eff)
    requires forall i' :: 0 <= i' < |l.h.pos| ==> l.h.eff[i'] <= l.h.pos[i']
    requires !Spoils(l.j.sub, ora, i, l.h.eff[i])
    ensures l.cgroups == Lost(l.j.sub, ora, nm, nm.order[i])
  {
    var sub, k := l.j.sub, nm.order[i];
    forall g ensures g in l.cgroups <==> g in Lost(sub, ora, nm, k) {
      LostAreSpoiled(l, ora, nm, k, g);
      if g in l.cgroups {
        var i' :| 0 <= i' < |l.h.eff| && g in sub.testdata[i'].groups && Spoils(sub, ora, i', l.h.eff[i']);
        SpoiledComesBefore(l, ora, nm, i, i', g);
      }
      if HasCulprit(l, ora, nm, k, g) {
        var i': nat :| Culprit(l, ora, nm, i', k, g);
        assert g in GroupsOf(sub, i');
      }
    }
  }

  /** Facts at the moment a chain task is taken. */
  lemma TakenFacts(l: Live, ora: Oracle, nm: Numbering, t: Task)
    requires SerialInv(l, ora, nm) && l.running == {} && Top(l, nm, t) && (t.Execute? || t.Scoring?)
    ensures IsTask(l.j.sub, t) && t.td < |l.h.pos| && l.h.pos[t.td] < ChainLen(l.j.sub)
    ensures t == ChainTask(l.j.sub, t.td, l.h.pos[t.td])
    ensures Dropped(l, t) <==> Frozen(l, ora, t.td)
    ensures FinishedBefore(l, nm, nm.order[t.td])
    ensures Clean(l, ora) && !Spoils(l.j.sub, ora, t.td, l.h.eff[t.td]) ==>
              (Dropped(l, t) <==> Skipped(l.j.sub, ora, nm, t.td))
  {
    HeadFacts(l, ora, t);
    NotDroppedNotFrozen(l, ora, t);
    forall i | 0 <= i < |l.h.pos| && nm.order[i] < nm.order[t.td] ensures l.h.pos[i] == ChainLen(l.j.sub) {
      EarlierAreFinished(l, ora, nm, t, i);
    }
    if Clean(l, ora) && !Spoils(l.j.sub, ora, t.td, l.h.eff[t.td]) {
      EffBelowPos(l, ora);
      GivenUpAreLost(l, ora, nm, t.td);
    }
  }

  lemma EffBelowPos(l: Live, ora: Oracle)
    requires Inv(l, ora)
    ensures forall i :: 0 <= i < |l.h.pos| ==> l.h.eff[i] <= l.h.pos[i]
  {
    forall i | 0 <= i < |l.h.pos| ensures l.h.eff[i] <= l.h.pos[i] {
      assert ResultOk(l.j.sub, ora, l.j.tds, l.running, i, l.h.pos[i], l.h.eff[i], Frozen(l, ora, i));
    }
  }

  /** With one worker a testdata is given up before its first stage exactly when every one of its
      groups (and it has some) contains an earlier testdata that was judged and not accepted. */
  lemma DroppedIffLost(l: Live, ora: Oracle, nm: Numbering, t: Task)
    requires SerialInv(l, ora, nm) && Clean(l, ora) && l.running == {} && Top(l, nm, t)
    requires t.Execute? && t.stage == 0
    ensures IsTask(l.j.sub, t)
    ensures Dropped(l, t) <==> Skipped(l.j.sub, ora, nm, t.td)
    ensures Dropped(l, t) <==>
            (l.j.sub.testdata[t.td].groups != [] &&
             forall g :: g in l.j.sub.testdata[t.td].groups ==>
               HasCulprit(l, ora, nm, nm.order[t.td], g))
  {
    TakenFacts(l, ora, nm, t);
    FirstTask(l.j.sub, t.td, l.h.pos[t.td]);
    EffBelowPos(l, ora);
    NotSettledAtStart(l.j.sub, ora, t.td);
    forall g | g in l.j.sub.testdata[t.td].groups
      ensures g in Lost(l.j.sub, ora, nm, nm.order[t.td]) <==>
              HasCulprit(l, ora, nm, nm.order[t.td], g)
    {
      LostAreSpoiled(l, ora, nm, nm.order[t.td], g);
    }
  }

  /* ---- the invariant is kept ---- */

  ghost predicate TailJudged(l: Live) {
    |l.j.tds| > 0 ==> |l.j.tds| <= |l.h.eff| && l.h.eff[|l.j.tds| - 1] > 0
  }

  /** A move of testdata `i` alone. */
  lemma SerialMove(l: Live, l': Live, ora: Oracle, nm: Numbering, i: nat)
    requires Posed(l, nm) && Posed(l', nm) && l'.j.sub == l.j.sub && i < |l.h.pos|
    requires forall x :: 0 <= x < |l.h.pos| && x != i ==> l'.h.pos[x] == l.h.pos[x] && l'.h.eff[x] == l.h.eff[x]
    requires forall x: nat, k: nat :: x != i && HeadRunning(l.j.sub, l'.running, x, k) ==>
             HeadRunning(l.j.sub, l.running, x, k)
    requires InOrder(l, nm) && FinishedBefore(l, nm, nm.order[i])
    requires l.h.pos[i] < ChainLen(l.j.sub)
    requires Clean(l', ora) ==> Statuses(l, ora, nm) && Status(l', ora, nm, i)
    ensures InOrder(l', nm)
    ensures Clean(l', ora) ==> Statuses(l', ora, nm)
  {
    forall x | 0 <= x < |l'.h.pos| && Touched(l', x) ensures FinishedBefore(l', nm, nm.order[x]) {
      if x != i { assert Touched(l, x); }
      assert FinishedBefore(l, nm, nm.order[x]);
    }
    if Clean(l', ora) {
      forall x | 0 <= x < |l'.h.pos| ensures Status(l', ora, nm, x) {
        if x != i { assert Status(l, ora, nm, x); }
      }
    }
  }

  lemma OtherHeads(sub: Submission, running: set<Task>, t: Task)
    requires sub.stages >= 1 && (t.Execute? || t.Scoring?)
    ensures forall x: nat, k: nat :: x != t.td && HeadRunning(sub, running + {t}, x, k) ==>
            HeadRunning(sub, running, x, k)
    ensures forall x: nat, k: nat :: HeadRunning(sub, running - {t}, x, k) ==> HeadRunning(sub, running, x, k)
  {
  }

  /** What taking a task of testdata `i` leads to, in a run that is still clean. */
  lemma TakenStatus(l: Live, ora: Oracle, nm: Numbering, t: Task)
    requires SerialInv(l, ora, nm) && l.running == {} && Top(l, nm, t) && (t.Execute? || t.Scoring?) && Clean(l, ora)
    ensures t.td < |l.h.pos| && IsTask(l.j.sub, t)
    ensures Dropped(l, t) ==> (Skipped(l.j.sub, ora, nm, t.td) && l.h.eff[t.td] == 0) ||
                              (!Skipped(l.j.sub, ora, nm, t.td) && Settled(l.j.sub, ora, t.td, l.h.eff[t.td]))
    ensures !Dropped(l, t) ==> l.h.eff[t.td] == l.h.pos[t.td] && !Skipped(l.j.sub, ora, nm, t.td)
  {
    var i := t.td;
    HeadFacts(l, ora, t);
    TakenFacts(l, ora, nm, t);
    EffBelowPos(l, ora);
    NotSettledAtStart(l.j.sub, ora, i);
    assert Status(l, ora, nm, i);
    if !Spoils(l.j.sub, ora, i, l.h.eff[i]) {
      assert Dropped(l, t) <==> Skipped(l.j.sub, ora, nm, i);
    }
  }

  lemma StartIs(l: Live, t: Task)
    requires Sized(l) && t in l.left && (t.Execute? || t.Scoring?) && IsTask(l.j.sub, t) && SetupStarts(l, t)
    ensures Dispatch(l, t) == l.(running := l.running + {t}) && !Dropped(l, t)
  {
  }

  lemma SerialStart(l: Live, ora: Oracle, nm: Numbering, t: Task)
    requires SerialInv(l, ora, nm) && l.running == {} && Top(l, nm, t) && (t.Execute? || t.Scoring?)
    requires IsTask(l.j.sub, t) && SetupStarts(l, t)
    ensures Sized(l) && SerialInv(Dispatch(l, t), ora, nm)
  {
    hide Shape, GroupsOk, LogOk, RanOk, ResultOk, Compiles, Statuses, InOrder, TailJudged, Skipped, Frozen, Spoils;
    SerialFacts(l, ora, nm);
    DispatchInv(l, ora, t);
    StartIs(l, t);
    hide Dispatch, SetupStarts, Dropped, Inv;
    TakenFacts(l, ora, nm, t);
    if Clean(l, ora) { TakenStatus(l, ora, nm, t); }
    SerialStarted(l, Dispatch(l, t), ora, nm, t);
  }

  lemma SerialStarted(l: Live, l': Live, ora: Oracle, nm: Numbering, t: Task)
    requires Posed(l, nm) && InOrder(l, nm) && TailJudged(l) && (Clean(l, ora) ==> Statuses(l, ora, nm))
    requires (t.Execute? || t.Scoring?) && t.td < |l.h.pos| && l.h.pos[t.td] < ChainLen(l.j.sub)
    requires l' == l.(running := l.running + {t}) && Inv(l', ora)
    requires FinishedBefore(l, nm, nm.order[t.td])
    requires Clean(l, ora) ==> l.h.eff[t.td] == l.h.pos[t.td] && !Skipped(l.j.sub, ora, nm, t.td)
    ensures SerialInv(l', ora, nm)
  {
    OtherHeads(l.j.sub, l.running, t);
    assert Posed(l', nm) && Clean(l', ora) == Clean(l, ora);
    assert Clean(l, ora) ==> Status(l', ora, nm, t.td);
    SerialMove(l, l', ora, nm, t.td);
    assert InOrder(l', nm);
  }

  lemma SerialDrop(l: Live, ora: Oracle, nm: Numbering, t: Task)
    requires SerialInv(l, ora, nm) && l.running == {} && Top(l, nm, t) && (t.Execute? || t.Scoring?)
    requires IsTask(l.j.sub, t) && Dropped(l, t)
    ensures Sized(l) && SerialInv(Dispatch(l, t), ora, nm)
  {
    hide Shape, GroupsOk, LogOk, RanOk, ResultOk, Compiles, Statuses, InOrder, TailJudged, Skipped, Frozen, Spoils;
    SerialFacts(l, ora, nm);
    DispatchInv(l, ora, t);
    DropIs(l, t);
    hide Dispatch, Dropped, Inv;
    TakenFacts(l, ora, nm, t);
    if Clean(l, ora) { TakenStatus(l, ora, nm, t); }
    SerialDropped(l, Dispatch(l, t), ora, nm, t);
  }

  lemma SerialDropped(l: Live, l': Live, ora: Oracle, nm: Numbering, t: Task)
    requires Posed(l, nm) && InOrder(l, nm) && TailJudged(l) && (Clean(l, ora) ==> Statuses(l, ora, nm))
    requires (t.Execute? || t.Scoring?) && t.td < |l.h.pos| && l.h.pos[t.td] < ChainLen(l.j.sub)
    requires IsDrop(l, l', t) && l.running == {} && Inv(l', ora)
    requires FinishedBefore(l, nm, nm.order[t.td])
    requires var sub, i := l.j.sub, t.td;
             Clean(l, ora) ==> (Skipped(sub, ora, nm, i) && l.h.eff[i] == 0) ||
                               (!Skipped(sub, ora, nm, i) && Settled(sub, ora, i, l.h.eff[i]))
    ensures SerialInv(l', ora, nm)
  {
    hide Inv, Settled;
    assert Posed(l', nm) && Clean(l', ora) == Clean(l, ora);
    assert Clean(l, ora) ==> Status(l', ora, nm, t.td);
    SerialMove(l, l', ora, nm, t.td);
    assert TailJudged(l');
  }

  lemma AdvanceTail(l: Live, l': Live, ora: Oracle, t: Task)
    requires Sized(l) && IsTask(l.j.sub, t) && (t.Execute? || t.Scoring?) && IsAdvance(l, l', ora, t) && TailJudged(l)
    ensures TailJudged(l')
  {
  }

  lemma SerialAdvance(l: Live, l': Live, ora: Oracle, nm: Numbering, t: Task)
    requires SerialInv(l, ora, nm) && Unblocked(l.j.sub, l.left, t) && (t.Execute? || t.Scoring?)
    requires IsTask(l.j.sub, t) && IsAdvance(l, l', ora, t) && l.h.eff[t.td] == l.h.pos[t.td]
    requires FinishedBefore(l, nm, nm.order[t.td])
    requires Clean(l, ora) ==> !Skipped(l.j.sub, ora, nm, t.td)
    ensures SerialInv(l', ora, nm)
  {
    AdvanceInv(l, l', ora, t);
    HeadFacts(l, ora, t);
    AdvanceTail(l, l', ora, t);
    AdvanceCompileVerdict(l, l', ora, t);
    OtherHeads(l.j.sub, l.running, t);
    SerialMove(l, l', ora, nm, t.td);
  }

  lemma SerialSkip(l: Live, ora: Oracle, nm: Numbering, t: Task)
    requires SerialInv(l, ora, nm) && l.running == {} && Top(l, nm, t) && (t.Execute? || t.Scoring?)
    requires IsTask(l.j.sub, t) && !SetupStarts(l, t) && !Dropped(l, t)
    ensures Sized(l) && SerialInv(Dispatch(l, t), ora, nm)
  {
    SkipIsAdvance(l, ora, t);
    TakenFacts(l, ora, nm, t);
    if Clean(l, ora) { TakenStatus(l, ora, nm, t); }
    SerialAdvance(l, Dispatch(l, t), ora, nm, t);
  }

  /** Moves that touch no testdata. */
  lemma SerialRest(l: Live, l': Live, ora: Oracle, nm: Numbering)
    requires SerialInv(l, ora, nm) && Inv(l', ora)
    requires l'.j.sub == l.j.sub && l'.j.tds == l.j.tds && l'.h.pos == l.h.pos && l'.h.eff == l.h.eff
    requires forall x: nat, k: nat :: HeadRunning(l.j.sub, l'.running, x, k) ==> HeadRunning(l.j.sub, l.running, x, k)
    requires Clean(l', ora) ==> Clean(l, ora)
    ensures SerialInv(l', ora, nm)
  {
    forall x | 0 <= x < |l'.h.pos| && Touched(l', x) ensures FinishedBefore(l', nm, nm.order[x]) {
      assert Touched(l, x);
      assert FinishedBefore(l, nm, nm.order[x]);
    }
    if Clean(l', ora) {
      forall x | 0 <= x < |l'.h.pos| ensures Status(l', ora, nm, x) { assert Status(l, ora, nm, x); }
    }
  }

  lemma SerialArrived(sub: Submission, ora: Oracle, nm: Numbering)
    requires ValidSub(sub) && Numbered(sub, nm)
    ensures SerialInv(Arrived(sub), ora, nm)
  {
    ArrivedInv(sub, ora);
  }

  /** With one worker, dispatching keeps the serial order. */
  lemma SerialDispatch(l: Live, ora: Oracle, nm: Numbering, t: Task)
    requires SerialInv(l, ora, nm) && l.running == {} && Top(l, nm, t) && (t.Summary? ==> SetupStarts(l, t))
    ensures Sized(l) && SerialInv(Dispatch(l, t), ora, nm)
  {
    assert IsTask(l.j.sub, t);
    if t.Execute? || t.Scoring? {
      if SetupStarts(l, t) { SerialStart(l, ora, nm, t); }
      else if Dropped(l, t) { SerialDrop(l, ora, nm, t); }
      else { SerialSkip(l, ora, nm, t); }
    } else {
      DispatchInv(l, ora, t);
      SerialRest(l, Dispatch(l, t), ora, nm);
    }
  }

  lemma SerialComplete(l: Live, ora: Oracle, nm: Numbering, t: Task)
    requires SerialInv(l, ora, nm) && t in l.running && !t.Summary?
    ensures Sized(l) && t in l.left && SerialInv(Complete(l, ora, t), ora, nm)
  {
    if t.Compile? {
      CompileDoneInv(l, ora, t);
      CompileDoneIs(l, ora, t);
      CompileVerdictGrows(l.j.sub, ora, l.h.ran, t.which);
      CodeOfMax(CompileVerdict(l.j.sub, ora, l.h.ran), CompileOutcome(t.which, ora(l.j.sub.internalId, t, NO_RESULT)));
      SerialRest(l, Complete(l, ora, t), ora, nm);
    } else {
      CompleteIsAdvance(l, ora, t);
      HeadFacts(l, ora, t);
      assert Touched(l, t.td);
      if Clean(l, ora) { assert Status(l, ora, nm, t.td); NotSettledAtStart(l.j.sub, ora, t.td); }
      SerialAdvance(l, Complete(l, ora, t), ora, nm, t);
    }
  }

  lemma SerialCancel(l: Live, ora: Oracle, nm: Numbering)
    requires SerialInv(l, ora, nm)
    ensures SerialInv(Cancel(l), ora, nm)
  {
    CancelInv(l, ora);
    SerialRest(l, Cancel(l), ora, nm);
  }

  /* ---- the result ---- */

  ghost function SerialVerdict(sub: Submission, ora: Oracle, nm: Numbering): Verdict
    requires sub.stages >= 1 && Numbered(sub, nm)
  {
    var v := CompileVerdict(sub, ora, AllCompiles(sub));
    var tds := SerialResults(sub, ora, nm);
    if !v.NUL? then v else WorstVerdict(sub, tds, |tds|)
  }

  ghost function SerialTotals(sub: Submission, ora: Oracle, nm: Numbering): Totals
    requires sub.stages >= 1 && Numbered(sub, nm)
  {
    var tds := SerialResults(sub, ora, nm);
    if CompileVerdict(sub, ora, AllCompiles(sub)).NUL? then
      Totals(TotalScore(sub, tds), TotalTime(sub, tds, |tds|), TotalMemory(sub, tds, |tds|))
    else NO_TOTALS
  }

  lemma SerialResultAtEnd(l: Live, ora: Oracle, nm: Numbering, i: nat)
    requires SerialInv(l, ora, nm) && Clean(l, ora) && i < |l.h.pos| && l.h.pos[i] == ChainLen(l.j.sub)
    ensures var skipped := Skipped(l.j.sub, ora, nm, i);
            && (l.h.eff[i] > 0 <==> !skipped)
            && (!skipped ==> i < |l.j.tds|)
            && Td(l.j.tds, i) == if skipped then NO_RESULT else Chain(l.j.sub, ora, i, ChainLen(l.j.sub))
  {
    var sub := l.j.sub;
    assert ResultOk(sub, ora, l.j.tds, l.running, i, l.h.pos[i], l.h.eff[i], Frozen(l, ora, i));
    assert Status(l, ora, nm, i);
    FinishedSpoils(l, ora, nm, i);
    NotSettledAtStart(sub, ora, i);
    if !Skipped(sub, ora, nm, i) && l.h.eff[i] < ChainLen(sub) {
      SkipStageIsFinal(sub, ora, i, l.h.eff[i], ChainLen(sub));
    }
  }

  lemma SerialFacts(l: Live, ora: Oracle, nm: Numbering)
    requires SerialInv(l, ora, nm)
    ensures l.j.sub.stages >= 1 && Numbered(l.j.sub, nm) && |l.h.pos| == |l.h.eff| == |l.j.sub.testdata|
    ensures Inv(l, ora) && |l.j.tds| <= |l.j.sub.testdata| && TailJudged(l)
    ensures |l.j.tds| > 0 ==> l.h.eff[|l.j.tds| - 1] > 0
  {
    hide InOrder, Statuses;
  }

  lemma LastIsJudged(l: Live, ora: Oracle, nm: Numbering)
    requires SerialInv(l, ora, nm) && Unblocked(l.j.sub, l.left, Summary) && Clean(l, ora)
    ensures l.j.sub.stages >= 1 && Numbered(l.j.sub, nm) && |l.j.tds| <= |l.j.sub.testdata|
    ensures |l.j.tds| > 0 ==> !Skipped(l.j.sub, ora, nm, |l.j.tds| - 1)
  {
    hide *;
    SerialFacts(l, ora, nm);
    SummaryFacts(l, ora);
    if |l.j.tds| > 0 { SerialResultAtEnd(l, ora, nm, |l.j.tds| - 1); }
  }

  lemma AllAreSerial(l: Live, ora: Oracle, nm: Numbering)
    requires SerialInv(l, ora, nm) && Unblocked(l.j.sub, l.left, Summary) && Clean(l, ora)
    requires l.j.sub.stages >= 1 && Numbered(l.j.sub, nm)
    ensures forall i: nat :: i < |l.j.sub.testdata| ==> IsSerialResult(l.j.sub, ora, nm, l.j.tds, i)
  {
    SummaryFacts(l, ora);
    assert |l.h.pos| == |l.j.sub.testdata|;
    hide SerialInv, Unblocked, Clean, Skipped, Numbered;
    forall i: nat | i < |l.j.sub.testdata| ensures IsSerialResult(l.j.sub, ora, nm, l.j.tds, i) {
      SerialResultAtEnd(l, ora, nm, i);
    }
  }

  lemma SerialResultsAtEnd(l: Live, ora: Oracle, nm: Numbering)
    requires SerialInv(l, ora, nm) && Unblocked(l.j.sub, l.left, Summary) && Clean(l, ora)
    ensures l.j.tds == SerialResults(l.j.sub, ora, nm)
  {
    hide SerialInv, Unblocked, Clean, IsSerialResult, Skipped, Numbered, SerialResults;
    LastIsJudged(l, ora, nm);
    AllAreSerial(l, ora, nm);
    ResultsAreSerial(l.j.sub, ora, nm, l.j.tds);
  }

  ghost predicate IsSerialResult(sub: Submission, ora: Oracle, nm: Numbering, tds: seq<TdResult>, i: nat)
    requires sub.stages >= 1 && Numbered(sub, nm) && i < |sub.testdata|
  {
    if Skipped(sub, ora, nm, i) then Td(tds, i) == NO_RESULT
    else i < |tds| && tds[i] == Chain(sub, ora, i, ChainLen(sub))
  }

  lemma ResultsAreSerial(sub: Submission, ora: Oracle, nm: Numbering, tds: seq<TdResult>)
    requires sub.stages >= 1 && Numbered(sub, nm) && |tds| <= |sub.testdata|
    requires |tds| > 0 ==> !Skipped(sub, ora, nm, |tds| - 1)
    requires forall i: nat :: i < |sub.testdata| ==> IsSerialResult(sub, ora, nm, tds, i)
    ensures tds == SerialResults(sub, ora, nm)
  {
    forall i: nat | i < |sub.testdata| && !Skipped(sub, ora, nm, i) ensures i < |tds| {
      assert IsSerialResult(sub, ora, nm, tds, i);
    }
    SerialLengthIs(sub, ora, nm, |tds|);
    forall i | 0 <= i < |tds| ensures tds[i] == SerialResults(sub, ora, nm)[i] {
      assert IsSerialResult(sub, ora, nm, tds, i);
    }
  }

  lemma SerialLengthIs(sub: Submission, ora: Oracle, nm: Numbering, n: nat)
    requires sub.stages >= 1 && Numbered(sub, nm) && n <= |sub.testdata|
    requires n > 0 ==> !Skipped(sub, ora, nm, n - 1)
    requires forall i: nat :: i < |sub.testdata| && !Skipped(sub, ora, nm, i) ==> i < n
    ensures SerialLength(sub, ora, nm, |sub.testdata|) == n
  {
  }

  /** With one worker the outcome is determined even with group skipping and partial scores:
      judge the testdata in order, skip those all of whose groups are lost. */
  lemma SerialSummary(l: Live, ora: Oracle, nm: Numbering)
    requires SerialInv(l, ora, nm) && Startable(l, Summary) && !l.cancelled && !l.j.sub.customSummary
    ensures Sized(l)
    ensures var t := SerialTotals(l.j.sub, ora, nm);
            Dispatch(l, Summary).h.log ==
            l.h.log + [OverallReport(SerialVerdict(l.j.sub, ora, nm), t.score, t.time, t.memory)]
  {
    SummaryFacts(l, ora);
    CompileVerdictAtEnd(l, ora);
    var v := CompileVerdict(l.j.sub, ora, l.h.ran);
    if v.NUL? {
      SerialResultsAtEnd(l, ora, nm);
      RuntimeResults(l, ora);
      RuntimeWorst(l.j.sub, l.j.tds, |l.j.tds|);
      hide InOrder, Statuses, SerialResults, Skipped, GroupsOk, LogOk, RanOk, ResultOk, EffOk, WorstVerdict, TotalScore;
    } else {
      CompileVerdictIsSevere(l.j.sub, ora, l.h.ran);
    }
  }
}
