/** A judge at work: what the submissions that are pushed into a new scheduler get reported. */
module Service {
  import opened Types
  import Serial
  import Closing
  import opened World
  import Finishing
  import Arrivals
  import SerialRuns
  import TaskPool
  import opened Snapshot
  import opened SnapshotMoves
  import opened Offers
  import Scheduler

  /** What was checked when the submissions were received. */
  ghost predicate Receivable(arrivals: seq<Submission>) {
    && (forall i :: 0 <= i < |arrivals| ==> ValidSub(Clamped(arrivals[i])))
    && (forall i, j :: 0 <= i < j < |arrivals| ==> arrivals[i].internalId != arrivals[j].internalId)
  }

  /** A later submission with the same external id was accepted. */
  ghost predicate Resubmitted(t: Trace, arrivals: seq<Submission>, n: nat)
    requires n < |t.offers| == |arrivals|
  {
    exists m :: n < m < |arrivals| && t.offers[m].accepted && arrivals[m].submissionId == arrivals[n].submissionId
  }

  /** Submission `sub` is finished and has been reported once. Judged without group skipping and summary
      program, the report is the reference report; with one worker it is the serial one, skipping or not. */
  ghost predicate Served(w: World, ora: Oracle, kmax: nat, sub: Submission) {
    && sub.stages >= 1 && sub.internalId in w.closed
    && var l := w.closed[sub.internalId];
       && l.j.sub == sub && Closing.OverallReports(l.h.log) == 1 && |l.h.log| > 0
       && var report := l.h.log[|l.h.log| - 1];
          && (!sub.customSummary && !sub.skipGroup ==> report == Closing.ReferenceReport(sub, ora))
          && (!sub.customSummary && kmax == 1 ==>
                Serial.Numbered(sub, Serial.TdNumbering(sub))
                  && report == SerialRuns.SerialReport(sub, ora, Serial.TdNumbering(sub)))
  }

  /** Submission `sub` is finished without a report. */
  ghost predicate Withdrawn(w: World, sub: Submission) {
    && sub.internalId in w.closed && w.closed[sub.internalId].j.sub == sub
    && Closing.OverallReports(w.closed[sub.internalId].h.log) == 0
  }

  ghost predicate IsService(t: Trace, ora: Oracle, kmax: nat, arrivals: seq<Submission>, maxQueue: nat) {
    && IsRun(t.ws, t.acts, ora, kmax) && t.ws[|t.acts|].live == map[]
    && Answered(t, arrivals, maxQueue) && |t.offers| == |arrivals|
  }

  /** Where submission n arrived. */
  lemma ArrivedAt(t: Trace, arrivals: seq<Submission>, maxQueue: nat, n: nat)
    requires Answered(t, arrivals, maxQueue) && n < |t.offers| && t.offers[n].accepted
    ensures t.offers[n].at < |t.acts| && t.acts[t.offers[n].at] == ArrivalOf(arrivals[n])
  {
    assert AnsweredAt(t, arrivals, maxQueue, n);
  }

  lemma {:induction false} OffersInOrder(t: Trace, arrivals: seq<Submission>, maxQueue: nat, m: nat, n: nat)
    requires Answered(t, arrivals, maxQueue) && m <= n < |t.offers|
    ensures t.offers[m].at <= t.offers[n].at
  {
    if m < n {
      OffersInOrder(t, arrivals, maxQueue, m, n - 1);
      assert AnsweredAt(t, arrivals, maxQueue, n - 1);
    }
  }

  lemma ReportIsSerial(ws: seq<World>, acts: seq<Action>, ora: Oracle, m: nat)
    requires IsRun(ws, acts, ora, 1) && m < |acts| && acts[m].Arrive? && acts[m].sub.internalId in ws[|acts|].closed
    requires var l := ws[|acts|].closed[acts[m].sub.internalId];
             l.j.sub == acts[m].sub && !l.cancelled && !l.j.sub.customSummary
    ensures var sub, nm := acts[m].sub, acts[m].nm;
            var l := ws[|acts|].closed[sub.internalId];
            && sub.stages >= 1 && Serial.Numbered(sub, nm)
            && |l.h.log| > 0 && l.h.log[|l.h.log| - 1] == SerialRuns.SerialReport(sub, ora, nm)
  {
    Arrivals.NumberStays(ws, acts, ora, 1, m, |acts|);
    SerialRuns.SerialDeterminism(ws, acts, ora, acts[m].sub.internalId);
  }

  lemma ReportedIsServed(ws: seq<World>, acts: seq<Action>, ora: Oracle, kmax: nat, m: nat, submitted: Submission)
    requires IsRun(ws, acts, ora, kmax) && m < |acts| && acts[m] == ArrivalOf(submitted) && ws[|acts|].live == map[]
    requires acts[m].sub.internalId in ws[|acts|].closed
    requires Closing.OverallReports(ws[|acts|].closed[acts[m].sub.internalId].h.log) == 1
    ensures Served(ws[|acts|], ora, kmax, acts[m].sub)
  {
    var sub, w := acts[m].sub, ws[|acts|];
    Finishing.EveryArrivalIsJudged(ws, acts, ora, kmax, m);
    RunKeeps(ws, acts, ora, kmax, |acts|);
    Closing.ReportedOnce(w.closed[sub.internalId], ora);
    if kmax == 1 && !sub.customSummary { ReportIsSerial(ws, acts, ora, m); }
  }

  /** Every submission that was accepted has been served, or withdrawn for a later one. */
  lemma AcceptedIsServed(t: Trace, ora: Oracle, kmax: nat, arrivals: seq<Submission>, maxQueue: nat, n: nat)
    requires IsService(t, ora, kmax, arrivals, maxQueue) && n < |arrivals| && t.offers[n].accepted
    ensures var w, sub := t.ws[|t.acts|], Clamped(arrivals[n]);
            Served(w, ora, kmax, sub) || (Withdrawn(w, sub) && Resubmitted(t, arrivals, n))
  {
    hide Served, Answered;
    ArrivedAt(t, arrivals, maxQueue, n);
    var m := t.offers[n].at;
    Finishing.EveryArrivalIsJudged(t.ws, t.acts, ora, kmax, m);
    if Closing.OverallReports(t.ws[|t.acts|].closed[arrivals[n].internalId].h.log) == 1 {
      ReportedIsServed(t.ws, t.acts, ora, kmax, m, arrivals[n]);
    } else {
      var m' := Arrivals.SupersededBy(t.ws, t.acts, ora, kmax, m);
      LaterOffer(t, arrivals, maxQueue, n, m');
    }
  }

  lemma LaterOffer(t: Trace, arrivals: seq<Submission>, maxQueue: nat, n: nat, m: nat)
    requires Answered(t, arrivals, maxQueue) && |t.offers| == |arrivals| && n < |arrivals|
    requires t.offers[n].at < m < |t.acts| && t.acts[m].Arrive?
    requires t.acts[m].sub.submissionId == arrivals[n].submissionId
    ensures Resubmitted(t, arrivals, n)
  {
    assert Offer(m, true) in t.offers;
    var k: nat :| k < |t.offers| && t.offers[k] == Offer(m, true);
    if k <= n { OffersInOrder(t, arrivals, maxQueue, k, n); }
    ArrivedAt(t, arrivals, maxQueue, k);
  }

  ghost predicate AllServed(t: Trace, ora: Oracle, kmax: nat, arrivals: seq<Submission>) {
    && |t.ws| == |t.acts| + 1 && |t.offers| == |arrivals|
    && forall n :: 0 <= n < |arrivals| && t.offers[n].accepted ==>
         var w, sub := t.ws[|t.acts|], Clamped(arrivals[n]);
         Served(w, ora, kmax, sub) || (Withdrawn(w, sub) && Resubmitted(t, arrivals, n))
  }

  /** A new scheduler serves all that come: whatever the number of workers, the outcomes and the times of
      arrival, every submission is answered, and each one that was accepted is finished with its report,
      unless it was withdrawn for a later one. */
  method Serve(ora: Oracle, kMax: nat, cpus: seq<nat>, arrivals: seq<Submission>, maxQueue: nat)
    returns (ghost t: Trace)
    requires 1 <= kMax <= TaskPool.UID_POOL_SIZE && TaskPool.DistinctSeq(cpus) && Receivable(arrivals)
    ensures IsService(t, ora, kMax, arrivals, maxQueue) && AllServed(t, ora, kMax, arrivals)
  {
    hide Core, QueueOk, LeadsTo, CanArrive, Receivable, WorldOf, IsService, AllServed, TaskPool.PoolsOk, TaskPool.Merge;
    var scheduler := new Scheduler.Scheduler(ora, kMax, cpus);
    AllAreFresh(scheduler.Now(), arrivals);
    t := scheduler.WorkLoop(arrivals, maxQueue);
    EndsEmpty(scheduler.Now(), t, ora, kMax, arrivals, maxQueue);
    ServiceServesAll(t, ora, kMax, arrivals, maxQueue);
  }

  lemma ServiceServesAll(t: Trace, ora: Oracle, kmax: nat, arrivals: seq<Submission>, maxQueue: nat)
    requires IsService(t, ora, kmax, arrivals, maxQueue)
    ensures AllServed(t, ora, kmax, arrivals)
  {
    forall n | 0 <= n < |arrivals| && t.offers[n].accepted
      ensures var w, sub := t.ws[|t.acts|], Clamped(arrivals[n]);
              Served(w, ora, kmax, sub) || (Withdrawn(w, sub) && Resubmitted(t, arrivals, n))
    {
      hide Served, Withdrawn, Resubmitted;
      AcceptedIsServed(t, ora, kmax, arrivals, maxQueue, n);
    }
  }

  lemma AllAreFresh(s: Snap, arrivals: seq<Submission>)
    requires s.hist.Keys == s.subs.Keys && WorldOf(s) == EMPTY && Receivable(arrivals)
    ensures CanArrive(s, arrivals)
  {
    assert WorldOf(s).live.Keys == s.subs.Keys;
  }

  lemma EndsEmpty(s: Snap, t: Trace, ora: Oracle, kmax: nat, arrivals: seq<Submission>, maxQueue: nat)
    requires LeadsTo(t, ora, kmax, EMPTY, s, arrivals, maxQueue) && s.subs == map[] && |t.offers| == |arrivals|
    ensures IsService(t, ora, kmax, arrivals, maxQueue)
  {
    hide CanStep, Step, Answered, CanArrive;
    assert WorldOf(s).live.Keys == {};
  }
}
