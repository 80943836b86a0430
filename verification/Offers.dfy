/** What a round of the work loop did with the submissions that were pushed meanwhile. */
module Offers {
  import opened Types
  import Serial
  import opened World
  import opened Snapshot
  import opened SnapshotMoves

  /** A submission offered before action `at`: if it was accepted, that action is its arrival. */
  datatype Offer = Offer(at: nat, accepted: bool)

  datatype Trace = Trace(ws: seq<World>, acts: seq<Action>, offers: seq<Offer>)

  function ArrivalOf(submitted: Submission): Action {
    Action.Arrive(Clamped(submitted), Serial.TdNumbering(Clamped(submitted)))
  }

  /** Nothing was refused but for a full queue, nothing was taken in twice, out of order or unasked. */
  ghost predicate Answered(t: Trace, arrivals: seq<Submission>, maxQueue: nat) {
    && |t.ws| == |t.acts| + 1 && |t.offers| <= |arrivals|
    && (forall n :: 0 <= n < |t.offers| ==> AnsweredAt(t, arrivals, maxQueue, n))
    && (forall m: nat :: m < |t.acts| && t.acts[m].Arrive? ==> Offer(m, true) in t.offers)
  }

  ghost predicate AnsweredAt(t: Trace, arrivals: seq<Submission>, maxQueue: nat, n: nat)
    requires |t.ws| == |t.acts| + 1 && n < |t.offers| <= |arrivals|
  {
    var o := t.offers[n];
    && o.at <= |t.acts|
    && o.accepted == (maxQueue == 0 || |t.ws[o.at].live| < maxQueue)
    && (o.accepted ==> o.at < |t.acts| && t.acts[o.at] == ArrivalOf(arrivals[n]))
    && (n + 1 < |t.offers| ==> o.at <= t.offers[n + 1].at)
  }

  /** The trace leads from `w` to the variables `s`; the arrivals it has not answered may still come. */
  ghost predicate LeadsTo(t: Trace, ora: Oracle, kmax: nat, w: World, s: Snap, arrivals: seq<Submission>,
                          maxQueue: nat) {
    && s.hist.Keys == s.subs.Keys && Leads(t.ws, t.acts, ora, kmax, w, WorldOf(s))
    && Answered(t, arrivals, maxQueue) && CanArrive(s, arrivals[|t.offers|..])
  }

  function Extended(t: Trace, a: Action, w: World): Trace {
    t.(ws := t.ws + [w], acts := t.acts + [a])
  }

  lemma StartsEmpty(ora: Oracle, kmax: nat, s: Snap, arrivals: seq<Submission>, maxQueue: nat)
    requires s.hist.Keys == s.subs.Keys && CanArrive(s, arrivals)
    ensures LeadsTo(Trace([WorldOf(s)], [], []), ora, kmax, WorldOf(s), s, arrivals, maxQueue)
  {
    LeadsNowhere(ora, kmax, WorldOf(s));
    assert arrivals[0..] == arrivals;
  }

  lemma AnswersStay(t: Trace, a: Action, w: World, arrivals: seq<Submission>, maxQueue: nat)
    requires Answered(t, arrivals, maxQueue) && !a.Arrive?
    ensures Answered(Extended(t, a, w), arrivals, maxQueue)
  {
    forall n | 0 <= n < |t.offers| ensures AnsweredAt(Extended(t, a, w), arrivals, maxQueue, n) {
      assert AnsweredAt(t, arrivals, maxQueue, n);
    }
  }

  /** A task is taken or returned. */
  lemma GoesOn(t: Trace, ora: Oracle, kmax: nat, w: World, s: Snap, s': Snap, a: Action,
               arrivals: seq<Submission>, maxQueue: nat)
    requires LeadsTo(t, ora, kmax, w, s, arrivals, maxQueue) && s'.hist.Keys == s'.subs.Keys && !a.Arrive?
    requires CanStep(WorldOf(s), kmax, a) && WorldOf(s') == Step(WorldOf(s), ora, kmax, a)
    ensures LeadsTo(Extended(t, a, WorldOf(s')), ora, kmax, w, s', arrivals, maxQueue)
  {
    hide CanStep, Step, WorldOf, Leads, CanArrive;
    LeadsOn(t.ws, t.acts, ora, kmax, w, WorldOf(s), a, WorldOf(s'));
    AnswersStay(t, a, WorldOf(s'), arrivals, maxQueue);
    StepKeepsArrivals(s, s', ora, kmax, a, arrivals[|t.offers|..]);
  }

  lemma OneMoreAnswer(t: Trace, t': Trace, arrivals: seq<Submission>, maxQueue: nat, accepted: bool)
    requires Answered(t, arrivals, maxQueue) && |t.offers| < |arrivals|
    requires accepted == (maxQueue == 0 || |t.ws[|t.acts|].live| < maxQueue)
    requires t'.offers == t.offers + [Offer(|t.acts|, accepted)]
    requires if accepted then |t'.ws| == |t.ws| + 1 && t'.ws[..|t.ws|] == t.ws
                              && t'.acts == t.acts + [ArrivalOf(arrivals[|t.offers|])]
             else t'.ws == t.ws && t'.acts == t.acts
    ensures Answered(t', arrivals, maxQueue)
  {
    assert forall m: nat :: m < |t.ws| ==> t'.ws[m] == t.ws[m];
    assert forall m: nat :: m < |t.acts| ==> t'.acts[m] == t.acts[m];
    forall n | 0 <= n < |t'.offers| ensures AnsweredAt(t', arrivals, maxQueue, n) {
      if n < |t.offers| { assert AnsweredAt(t, arrivals, maxQueue, n); }
    }
    forall m: nat | m < |t'.acts| && t'.acts[m].Arrive? ensures Offer(m, true) in t'.offers {
      if m == |t.acts| { assert t'.offers[|t.offers|] == Offer(m, true); }
    }
  }

  lemma NextArrives(t: Trace, ora: Oracle, kmax: nat, w: World, s: Snap, arrivals: seq<Submission>, maxQueue: nat)
    requires LeadsTo(t, ora, kmax, w, s, arrivals, maxQueue) && |t.offers| < |arrivals|
    ensures var next := arrivals[|t.offers|]; Fresh(s, next.internalId) && ValidSub(Clamped(next))
  {
    FirstArrives(s, arrivals[|t.offers|..]);
  }

  /** The next submission is offered while the variables are `s`. */
  lemma OffersNext(t: Trace, ora: Oracle, kmax: nat, w: World, s: Snap, s': Snap, arrivals: seq<Submission>,
                   maxQueue: nat, accepted: bool)
    requires LeadsTo(t, ora, kmax, w, s, arrivals, maxQueue) && s'.hist.Keys == s'.subs.Keys && |t.offers| < |arrivals|
    requires accepted == (maxQueue == 0 || |s.subs| < maxQueue)
    requires var sub := Clamped(arrivals[|t.offers|]);
             if accepted then sub.stages >= 1 && WorldOf(s') == Push(WorldOf(s), sub, Serial.TdNumbering(sub))
               else s' == s
    ensures LeadsTo(AfterOffer(t, s, s', arrivals, accepted), ora, kmax, w, s', arrivals, maxQueue)
  {
    hide CanStep, Step, Push, Leads, CanArrive;
    var rest := arrivals[|t.offers|..];
    assert rest[0] == arrivals[|t.offers|] && rest[1..] == arrivals[|t.offers| + 1..];
    assert WorldOf(s).live.Keys == s.subs.Keys;
    assert |WorldOf(s).live| == |WorldOf(s).live.Keys| == |s.subs.Keys| == |s.subs|;
    FirstArrives(s, rest);
    var t' := AfterOffer(t, s, s', arrivals, accepted);
    assert Leads(t.ws, t.acts, ora, kmax, w, WorldOf(s)) && t.ws[|t.acts|] == WorldOf(s) by {
      PathEnd(t, ora, kmax, w, WorldOf(s));
    }
    if accepted {
      var a := ArrivalOf(rest[0]);
      FirstCanStep(s, kmax, rest);
      ArriveIsPush(WorldOf(s), ora, kmax, a);
      LeadsOn(t.ws, t.acts, ora, kmax, w, WorldOf(s), a, WorldOf(s'));
      StepKeepsArrivals(s, s', ora, kmax, a, rest[1..]);
    }
    OneMoreAnswer(t, t', arrivals, maxQueue, accepted);
  }

  lemma PathEnd(t: Trace, ora: Oracle, kmax: nat, w: World, w': World)
    requires Leads(t.ws, t.acts, ora, kmax, w, w')
    ensures |t.ws| == |t.acts| + 1 && t.ws[|t.acts|] == w'
  {
  }

  lemma ArriveIsPush(w: World, ora: Oracle, kmax: nat, a: Action)
    requires CanStep(w, kmax, a) && a.Arrive?
    ensures a.sub.stages >= 1 && Step(w, ora, kmax, a) == Push(w, a.sub, a.nm)
  {
  }

  ghost function AfterOffer(t: Trace, s: Snap, s': Snap, arrivals: seq<Submission>, accepted: bool): Trace
    requires |t.offers| < |arrivals| && s'.hist.Keys == s'.subs.Keys
  {
    var next := if accepted then Extended(t, ArrivalOf(arrivals[|t.offers|]), WorldOf(s')) else t;
    next.(offers := t.offers + [Offer(|t.acts|, accepted)])
  }
}
