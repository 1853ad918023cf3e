/** What the calls of the job queue and their replies mean: which jobs there are, who may work on them, and when they are
    over. */
module JobLaws {
  import opened Options
  import opened JobQueue
  import opened JobRuns

  // ---------------------------------------------------------------- enqueueing

  /** The tenant is known and enabled. */
  predicate Admits(q: Queue, tenant: string) {
    tenant in q.tenants && q.tenants[tenant]
  }

  /** An accepted call adds exactly the job asked for, with the next ID; any other changes nothing. */
  lemma EnqueueAdds(q: Queue, tenant: string, typ: string, payload: string, availableAt: Time, now: Time, saved: bool)
    ensures var e := Event(Enqueue(tenant, typ, payload, availableAt), now, saved);
            && (ReplyTo(q, e) == Accepted <==> typ != "" && Admits(q, tenant) && saved)
            && (ReplyTo(q, e) == Invalid <==> typ == "" || !Admits(q, tenant))
            && (ReplyTo(q, e) != Accepted ==> Next(q, e) == q)
            && (ReplyTo(q, e) == Accepted ==>
                  && Next(q, e).tenants == q.tenants && Next(q, e).deliveries == q.deliveries
                  && Next(q, e).nextID == q.nextID + 1
                  && |Next(q, e).jobs| == |q.jobs| + 1 && Next(q, e).jobs[..|q.jobs|] == q.jobs
                  && IsNew(Next(q, e).jobs[|q.jobs|], q.nextID, tenant, typ, payload, availableAt, now))
  {}

  /** The same for a delivery that is not known yet; it is known then, as queued. */
  lemma DeliveryAdds(q: Queue, deliveryID: string, eventType: string, tenant: string, typ: string, payload: string,
                     availableAt: Time, now: Time, saved: bool)
    ensures var e := Event(EnqueueDelivery(deliveryID, eventType, tenant, typ, payload, availableAt), now, saved);
            && (ReplyTo(q, e) == Accepted <==>
                  deliveryID != "" && typ != "" && deliveryID !in q.deliveries && Admits(q, tenant) && saved)
            && (ReplyTo(q, e) == AlreadyDelivered <==> deliveryID != "" && typ != "" && deliveryID in q.deliveries)
            && (ReplyTo(q, e) == Invalid <==>
                  deliveryID == "" || typ == "" || (deliveryID !in q.deliveries && !Admits(q, tenant)))
            && (ReplyTo(q, e) != Accepted ==> Next(q, e) == q)
            && (ReplyTo(q, e) == Accepted ==>
                  && Next(q, e).tenants == q.tenants && Next(q, e).nextID == q.nextID + 1
                  && Next(q, e).deliveries == q.deliveries[deliveryID := Delivery(eventType, now, "queued", "")]
                  && |Next(q, e).jobs| == |q.jobs| + 1 && Next(q, e).jobs[..|q.jobs|] == q.jobs
                  && IsNew(Next(q, e).jobs[|q.jobs|], q.nextID, tenant, typ, payload, availableAt, now))
  {}

  predicate IsNew(j: Job, id: int, tenant: string, typ: string, payload: string, availableAt: Time, now: Time) {
    && j.id == id && j.tenant == tenant && j.typ == typ && j.payload == payload
    && j.status == Queued && j.attempts == 0 && j.lockedAt == 0 && j.lockedBy == "" && j.lastError == ""
    && j.availableAt == (if availableAt == 0 then now else availableAt) && j.createdAt == j.updatedAt == now
  }

  // ---------------------------------------------------------------- deliveries

  predicate SameJobs(q: Queue, r: Queue) {
    r.jobs == q.jobs && r.tenants == q.tenants && r.nextID == q.nextID
  }

  /** A new delivery is recorded as it is said; a known one is never recorded again. */
  lemma RecordMeans(q: Queue, deliveryID: string, eventType: string, status: string, error: string, now: Time, saved: bool)
    ensures var e := Event(RecordDelivery(deliveryID, eventType, status, error), now, saved);
            && (ReplyTo(q, e) == Accepted <==> deliveryID != "" && status != "" && deliveryID !in q.deliveries && saved)
            && (ReplyTo(q, e) == Invalid <==> deliveryID == "" || status == "")
            && (ReplyTo(q, e) == AlreadyDelivered <==> deliveryID != "" && status != "" && deliveryID in q.deliveries)
            && SameJobs(q, Next(q, e))
            && Next(q, e).deliveries == if ReplyTo(q, e) != Accepted then q.deliveries
                                        else q.deliveries[deliveryID := Delivery(eventType, now, status, Cut(error))]
  {}

  /** A delivery can be claimed when it is new, not done with, or worked on for too long, which is five minutes unless the
      caller says otherwise. */
  lemma ClaimMeans(q: Queue, deliveryID: string, eventType: string, staleAfter: int, now: Time, saved: bool)
    ensures var e := Event(ClaimDelivery(deliveryID, eventType, staleAfter), now, saved);
            var window := if staleAfter <= 0 then 300_000_000_000 else staleAfter;
            && (ReplyTo(q, e) == Accepted <==>
                  && deliveryID != "" && saved
                  && (deliveryID in q.deliveries ==>
                        var d := q.deliveries[deliveryID];
                        && d.status != "processed" && d.status != "queued" && d.status != "ignored"
                        && d.status != "invalid" && d.status != "unbound"
                        && (d.status == "processing" ==> d.receivedAt + window <= now)))
            && (ReplyTo(q, e) == Invalid <==> deliveryID == "") && (!saved ==> ReplyTo(q, e) != Accepted)
            && (saved && deliveryID != "" && ReplyTo(q, e) != Accepted ==> ReplyTo(q, e) == AlreadyDelivered)
            && SameJobs(q, Next(q, e))
            && Next(q, e).deliveries == if ReplyTo(q, e) != Accepted then q.deliveries
                                        else q.deliveries[deliveryID := Delivery(eventType, now, "processing", "")]
  {}

  /** Its state is what it was updated to. */
  lemma UpdateMeans(q: Queue, deliveryID: string, status: string, error: string, now: Time, saved: bool)
    ensures var e := Event(UpdateDelivery(deliveryID, status, error), now, saved);
            && SameJobs(q, Next(q, e)) && (ReplyTo(q, e) == Accepted <==> deliveryID !in q.deliveries || saved)
            && Next(q, e).deliveries == if deliveryID !in q.deliveries || !saved then q.deliveries
                                        else var d := q.deliveries[deliveryID];
                                             q.deliveries[deliveryID := Delivery(d.eventType, d.receivedAt, status, Cut(error))]
  {}

  /** The first four thousand characters. */
  function Cut(s: string): (r: string)
    ensures r <= s && |r| <= 4000 && (|s| <= 4000 ==> r == s) && (|s| > 4000 ==> |r| == 4000)
  {
    if |s| > 4000 then s[..4000] else s
  }

  // ---------------------------------------------------------------- what a job keeps

  /** What never changes of a job. */
  predicate SameTask(j: Job, k: Job) {
    && j.id == k.id && j.tenant == k.tenant && j.typ == k.typ && j.payload == k.payload && j.createdAt == k.createdAt
  }

  /** Through any run a job stays the task that it was, until it is dropped for good. */
  lemma {:induction false} TaskStays(r: Run, i: nat, k: nat, id: int)
    requires IsRun(r) && i <= k <= |r.events| && Lookup(r.states[i].jobs, id).Some?
    ensures Lookup(r.states[k].jobs, id).Some? ==>
              SameTask(Lookup(r.states[i].jobs, id).value, Lookup(r.states[k].jobs, id).value)
    ensures Lookup(r.states[k].jobs, id).None? ==> id < r.states[k].nextID
  {
    LookupHas(r.states[i].jobs, id);
    if i == k {
    } else {
      TaskStays(r, i, k - 1, id);
      RunMoves(r, k - 1, id);
      if Lookup(r.states[k - 1].jobs, id).Some? {
        KnownID(r, k - 1, id);
      }
    }
  }

  lemma KnownID(r: Run, k: nat, id: int)
    requires IsRun(r) && k <= |r.events| && Lookup(r.states[k].jobs, id).Some?
    ensures id < r.states[k].nextID
  {
    RunWellFormed(r, k);
    LookupHas(r.states[k].jobs, id);
  }

  // ---------------------------------------------------------------- claiming

  /** The worker that is answered with a claim has the job: running, locked at the time with its token, and with one
      attempt more. */
  lemma ClaimGivesJob(r: Run, p: nat, worker: string, random: string)
    requires IsRun(r) && p < |r.events| && r.events[p].op == Claim(worker, random) && r.replies[p].Claimed?
    ensures var id := r.replies[p].id;
            && r.replies[p].lease == worker + ":" + random
            && Lookup(r.states[p].jobs, id).Some? && Lookup(r.states[p + 1].jobs, id).Some?
            && var j, k := Lookup(r.states[p].jobs, id).value, Lookup(r.states[p + 1].jobs, id).value;
               && j.status == Queued && j.availableAt <= r.events[p].now && Admits(r.states[p], j.tenant)
               && SameTask(j, k) && k.status == Running && k.lockedBy == worker + ":" + random
               && k.lockedAt == k.updatedAt == r.events[p].now && k.attempts == j.attempts + 1 == r.replies[p].attempts
               && k.availableAt == j.availableAt && k.lastError == j.lastError
  {
    RunWellFormed(r, p);
    assert Stepped(r, p);
    var id := r.replies[p].id;
    ClaimChoosesSmallest(r.states[p], r.events[p], id);
    RunMoves(r, p, id);
    LookupHas(r.states[p].jobs, id);
  }

  /** The job waits for a worker. */
  predicate Waits(q: Queue, j: Job, now: Time) {
    j in q.jobs && j.status == Queued && j.availableAt <= now && Admits(q, j.tenant)
  }

  /** A claim without a worker's name is not valid; one with a name finds no job exactly when none waits; an error from
      persisting gives none. */
  lemma ClaimReplies(q: Queue, worker: string, random: string, now: Time, saved: bool)
    requires WellFormed(q)
    ensures var reply := ReplyTo(q, Event(Claim(worker, random), now, saved));
            && (reply == Invalid <==> worker == "")
            && (reply == NoJob <==> worker != "" && forall j :: j in q.jobs ==> !Waits(q, j, now))
            && (reply == NotSaved <==> worker != "" && !saved && exists j :: Waits(q, j, now))
            && (reply.Claimed? <==> worker != "" && saved && exists j :: Waits(q, j, now))
  {
    var i := Candidate(q, now, |q.jobs|);
    forall j ensures Waits(q, j, now) <==> j in q.jobs && Eligible(q, j, now) {}
    if i >= 0 {
      assert Waits(q, q.jobs[i], now);
    }
    forall j | Waits(q, j, now) ensures i >= 0 {
      var k :| 0 <= k < |q.jobs| && q.jobs[k] == j;
      assert Eligible(q, q.jobs[k], now);
    }
  }

  /** A worker with a name is answered with a waiting job, none of which has a smaller ID, whenever there is one. */
  lemma ClaimFinds(q: Queue, worker: string, random: string, now: Time, j: Job)
    requires WellFormed(q) && worker != "" && Waits(q, j, now)
    ensures var reply := ReplyTo(q, Event(Claim(worker, random), now, true));
            reply.Claimed? && reply.id <= j.id && exists k :: Waits(q, k, now) && k.id == reply.id
  {
    var e := Event(Claim(worker, random), now, true);
    ClaimChoosesSmallest(q, e, 0);
    assert Eligible(q, j, now);
    var k := Lookup(q.jobs, ReplyTo(q, e).id).value;
    LookupHas(q.jobs, ReplyTo(q, e).id);
    assert k in q.jobs && Waits(q, k, now);
  }

  // ---------------------------------------------------------------- keeping the lease

  /** Nothing ends the lease: it is not completed or failed with its token, the claim's clock is not undercut by a later
      renewal, and no stale jobs are put back that were locked later than that. */
  predicate Spares(e: Event, id: int, token: string, since: Time) {
    && !(e.op.Complete? && e.op.id == id && e.op.token == token)
    && !(e.op.Fail? && e.op.id == id && e.op.token == token)
    && (e.op.Renew? && e.op.id == id ==> e.now >= since)
    && (e.op.RequeueStale? ==> e.now - e.op.olderThan <= since)
  }

  ghost predicate LockedSince(q: Queue, id: int, token: string, since: Time) {
    HeldBy(q, id, token) && Lookup(q.jobs, id).value.lockedAt >= since
  }

  lemma LockStays(r: Run, k: nat, id: int, token: string, since: Time)
    requires IsRun(r) && k < |r.events| && LockedSince(r.states[k], id, token, since)
    requires Spares(r.events[k], id, token, since)
    ensures LockedSince(r.states[k + 1], id, token, since)
  {
    RunWellFormed(r, k);
    RunMoves(r, k, id);
    LookupHas(r.states[k].jobs, id);
  }

  /** Event p gives or renews the lease. */
  predicate Secures(r: Run, p: nat, id: int, token: string)
    requires |r.replies| == |r.events| && p < |r.events|
  {
    || (r.events[p].op.Claim? && r.replies[p].Claimed? && r.replies[p].id == id && r.replies[p].lease == token)
    || (r.events[p].op == Renew(id, token) && r.replies[p] == Accepted)
  }

  /** A job claimed or renewed at a time stays with its worker, who can complete it, until somebody finishes it with the
      token, or jobs locked before a later time are put back. */
  lemma {:induction false} LeaseLasts(r: Run, p: nat, k: nat, id: int, token: string)
    requires IsRun(r) && p < k <= |r.events| && Secures(r, p, id, token)
    requires forall n :: p < n < k ==> Spares(r.events[n], id, token, r.events[p].now)
    ensures LockedSince(r.states[k], id, token, r.events[p].now)
    ensures k < |r.events| && r.events[k].op == Complete(id, token) && r.events[k].saved ==> r.replies[k] == Accepted
  {
    if k == p + 1 {
      Secured(r, p, id, token);
    } else {
      LeaseLasts(r, p, k - 1, id, token);
      LockStays(r, k - 1, id, token, r.events[p].now);
    }
    if k < |r.events| && r.events[k].op == Complete(id, token) {
      assert Stepped(r, k);
      AcceptedIffHeld(r.states[k], r.events[k], token);
    }
  }

  lemma Secured(r: Run, p: nat, id: int, token: string)
    requires IsRun(r) && p < |r.events| && Secures(r, p, id, token)
    ensures LockedSince(r.states[p + 1], id, token, r.events[p].now)
  {
    if r.events[p].op.Claim? {
      ClaimGivesJob(r, p, r.events[p].op.worker, r.events[p].op.random);
      LookupHas(r.states[p + 1].jobs, id);
      assert |token| > 0;
    } else {
      RunWellFormed(r, p);
      assert Stepped(r, p);
      AcceptedIffHeld(r.states[p], r.events[p], token);
      var q := r.states[p];
      var i := Leased(q.jobs, id, token);
      UpdateJob(q.jobs, q.nextID, i, RenewedJob(q.jobs[i], r.events[p].now), id);
    }
  }

  /** A renewal locks the job anew and changes nothing else of it. */
  lemma RenewMeans(r: Run, p: nat, id: int, token: string)
    requires IsRun(r) && p < |r.events| && r.events[p].op == Renew(id, token) && r.replies[p] == Accepted
    ensures Lookup(r.states[p].jobs, id).Some?
    ensures Lookup(r.states[p + 1].jobs, id)
         == Some(Lookup(r.states[p].jobs, id).value.(lockedAt := r.events[p].now, updatedAt := r.events[p].now))
  {
    RunWellFormed(r, p);
    assert Stepped(r, p);
    AcceptedIffHeld(r.states[p], r.events[p], token);
    var q := r.states[p];
    var i := Leased(q.jobs, id, token);
    UpdateJob(q.jobs, q.nextID, i, RenewedJob(q.jobs[i], r.events[p].now), id);
  }

  /** A running job that was locked before the cut is put back, to be claimed again, and everything else stays. */
  lemma RequeueMeans(r: Run, k: nat, id: int)
    requires IsRun(r) && k < |r.events| && r.events[k].op.RequeueStale? && r.events[k].saved && r.events[k].op.olderThan > 0
    requires Lookup(r.states[k].jobs, id).Some?
    ensures r.replies[k] == Accepted
    ensures var j, after := Lookup(r.states[k].jobs, id).value, Lookup(r.states[k + 1].jobs, id);
            && after.Some? && SameTask(j, after.value) && after.value.attempts == j.attempts
            && after.value.availableAt == j.availableAt
            && if LockedBefore(j, r.events[k].now - r.events[k].op.olderThan)
               then && after.value.status == Queued && after.value.lockedBy == "" && after.value.lockedAt == 0
                    && after.value.updatedAt == r.events[k].now && after.value.lastError == j.lastError
               else after.value == j
  {
    RunRequeued(r, k, id);
    assert Stepped(r, k);
  }

  predicate LockedBefore(j: Job, cut: Time) {
    j.status == Running && j.lockedAt != 0 && j.lockedAt < cut
  }

  /** Without an age nothing is put back, and the call is not valid; an error from persisting puts nothing back, and comes
      only when there is something to put back. */
  lemma RequeueReplies(q: Queue, olderThan: int, now: Time, saved: bool)
    ensures var e := Event(RequeueStale(olderThan), now, saved);
            && (ReplyTo(q, e) == Invalid <==> olderThan <= 0) && (ReplyTo(q, e) != Accepted ==> Next(q, e) == q)
            && (ReplyTo(q, e) == NotSaved <==>
                  olderThan > 0 && !saved && exists i :: 0 <= i < |q.jobs| && LockedBefore(q.jobs[i], now - olderThan))
            && (olderThan > 0 && ReplyTo(q, e) != NotSaved ==> ReplyTo(q, e) == Accepted)
  {
    assert forall i :: 0 <= i < |q.jobs| ==> (LockedBefore(q.jobs[i], now - olderThan) <==> Stale(q.jobs[i], now - olderThan));
  }

  lemma RunRequeued(r: Run, k: nat, id: int)
    requires IsRun(r) && k < |r.events| && r.events[k].op.RequeueStale? && r.events[k].saved && r.events[k].op.olderThan > 0
    requires Lookup(r.states[k].jobs, id).Some?
    ensures var before, e := Lookup(r.states[k].jobs, id).value, r.events[k];
            Lookup(r.states[k + 1].jobs, id) == Some(RequeuedJob(before, e.now - e.op.olderThan, e.now))
  {
    RunWellFormed(r, k);
    assert Stepped(r, k);
    var q, e := r.states[k], r.events[k];
    RequeueNext(q, e);
    RequeueJobs(q.jobs, q.nextID, e.now - e.op.olderThan, e.now, id);
  }

  // ---------------------------------------------------------------- the end of a job

  /** Event p ends the job: it is completed, or fails at the eighth attempt or later. */
  predicate Ends(r: Run, p: nat, id: int)
    requires |r.replies| == |r.events| && p < |r.events|
  {
    && r.replies[p] == Accepted
    && (|| (r.events[p].op.Complete? && r.events[p].op.id == id)
        || (r.events[p].op.Fail? && r.events[p].op.id == id && r.events[p].op.attempts >= 8))
  }

  lemma EndsUse(r: Run, p: nat, id: int)
    requires IsRun(r) && p < |r.events| && Ends(r, p, id)
    ensures var before, after := Lookup(r.states[p].jobs, id), Lookup(r.states[p + 1].jobs, id);
            && before.Some? && after.Some? && SameTask(before.value, after.value)
            && after.value.attempts == before.value.attempts && after.value.lockedAt == 0 && after.value.lockedBy == ""
            && after.value.updatedAt == r.events[p].now
            && if r.events[p].op.Complete? then after.value.status == Done && after.value.lastError == before.value.lastError
               else after.value.status == Failed && after.value.lastError == Cut(r.events[p].op.error)
  {
    RunWellFormed(r, p);
    assert Stepped(r, p);
    var q, e := r.states[p], r.events[p];
    var i := Leased(q.jobs, id, e.op.token);
    var j := if e.op.Complete? then CompletedJob(q.jobs[i], e.now)
             else FailedJob(q.jobs[i], e.op.attempts, e.op.error, e.now);
    UpdateJob(q.jobs, q.nextID, i, j, id);
  }

  /** After that the job is done or failed until a cleanup drops it, and no claim is ever answered with it again. */
  lemma NeverAgain(r: Run, p: nat, k: nat, id: int)
    requires IsRun(r) && p < k <= |r.events| && Ends(r, p, id)
    ensures var after := Lookup(r.states[k].jobs, id);
            if after.Some? then after.value.status == if r.events[p].op.Complete? then Done else Failed
            else exists m :: p < m < k && r.events[m].op.Cleanup? && r.events[m].saved
    ensures k < |r.events| && r.events[k].op.Claim? && r.replies[k].Claimed? ==> r.replies[k].id != id
  {
    EndsUse(r, p, id);
    FinishedForever(r, p + 1, k, id);
    if Lookup(r.states[k].jobs, id).None? {
      var m := OnlyCleanupDrops(r, p + 1, k, id);
    }
    if k < |r.events| && r.events[k].op.Claim? && r.replies[k].Claimed? {
      ClaimGivesJob(r, k, r.events[k].op.worker, r.events[k].op.random);
    }
  }

  /** A failure before that puts the job back: the next claim may have it when ten seconds times the square of the attempts
      have passed, and not before. */
  lemma FailurePutsBack(q: Queue, e: Event, at: Time)
    requires WellFormed(q) && e.op.Fail? && e.op.attempts < 8 && ReplyTo(q, e) == Accepted
    ensures var before, after := Lookup(q.jobs, e.op.id), Lookup(Next(q, e).jobs, e.op.id);
            && before.Some? && after.Some? && SameTask(before.value, after.value)
            && after.value.status == Queued && after.value.lockedBy == "" && after.value.attempts == before.value.attempts
            && after.value.lastError == Cut(e.op.error) && after.value.lockedAt == 0 && after.value.updatedAt == e.now
            && (Admits(q, after.value.tenant) ==>
                  (Eligible(Next(q, e), after.value, at) <==>
                     at >= e.now + 10_000_000_000 * (e.op.attempts * e.op.attempts)))
  {
    var i := Leased(q.jobs, e.op.id, e.op.token);
    UpdateJob(q.jobs, q.nextID, i, FailedJob(q.jobs[i], e.op.attempts, e.op.error, e.now), e.op.id);
    assert e.op.attempts * e.op.attempts * 10 * SECOND == 10_000_000_000 * (e.op.attempts * e.op.attempts);
  }

  /** A cleanup keeps a job as it is when it is queued, running, or was changed after the cut, and drops it otherwise; a
      delivery when it was received at the cut or later. */
  lemma CleanupMeans(q: Queue, cut: Time, now: Time, j: Job, deliveryID: string)
    ensures var next := Next(q, Event(Cleanup(cut), now, true));
            && (j in next.jobs <==> j in q.jobs && (j.status == Queued || j.status == Running || j.updatedAt > cut))
            && (deliveryID in next.deliveries <==> deliveryID in q.deliveries && q.deliveries[deliveryID].receivedAt >= cut)
            && (deliveryID in next.deliveries ==> next.deliveries[deliveryID] == q.deliveries[deliveryID])
            && next.tenants == q.tenants && next.nextID == q.nextID
  {
    KeptJobsSpec(q.jobs, cut);
  }
}
