/** What holds along every run of the job queue: lease fencing, bounded retries, jobs never lost. */
module JobRuns {
  import opened Options
  import opened JobQueue

  ghost predicate HeldBy(q: Queue, id: int, token: string) {
    var j := Lookup(q.jobs, id);
    j.Some? && Holds(j.value, id, token)
  }

  /** The token is the lease of some job. */
  ghost predicate Live(q: Queue, token: string) {
    exists id :: HeldBy(q, id, token)
  }

  /** The event gives out the token. */
  predicate Issues(e: Event, token: string) {
    e.op.Claim? && LeaseOf(e.op) == token
  }

  /** The event is a call made with the token. */
  predicate Uses(e: Event, token: string) {
    match e.op
    case Renew(_, t) => t == token
    case Complete(_, t) => t == token
    case Fail(_, t, _, _) => t == token
    case _ => false
  }

  /** The event is a call with the token that ends the job's lease. */
  predicate Finishes(e: Event, token: string) {
    Uses(e, token) && !e.op.Renew?
  }

  // ---------------------------------------------------------------- leases

  lemma LookupHas(jobs: seq<Job>, id: int)
    ensures Lookup(jobs, id).Some? ==> Lookup(jobs, id).value.id == id
  {
  }

  /** Accepted exactly for the token that is the job's lease. */
  lemma AcceptedIffHeld(q: Queue, e: Event, token: string)
    requires Uses(e, token)
    ensures ReplyTo(q, e) == LeaseLost <==> !HeldBy(q, e.op.id, token)
    ensures !HeldBy(q, e.op.id, token) ==> Next(q, e) == q
    ensures ReplyTo(q, e) == Accepted <==> HeldBy(q, e.op.id, token) && e.saved
  {
  }

  /** A lease in force after an event was in force before, unless the event gave it out. */
  lemma HeldBefore(q: Queue, e: Event, id: int, token: string)
    requires WellFormed(q) && HeldBy(Next(q, e), id, token) && !Issues(e, token)
    ensures HeldBy(q, id, token)
    ensures Lookup(q.jobs, id).value.attempts == Lookup(Next(q, e).jobs, id).value.attempts
  {
    JobMoves(q, e, id);
    LookupHas(q.jobs, id);
  }

  ghost predicate UniqueLeases(q: Queue) {
    forall id, id', token :: HeldBy(q, id, token) && HeldBy(q, id', token) ==> id == id'
  }

  /** A claim changes one job only, an eligible one than which no eligible job has a smaller ID. */
  lemma ClaimChoosesSmallest(q: Queue, e: Event, id: int)
    requires WellFormed(q) && e.op.Claim? && e.saved && e.op.worker != ""
    ensures ReplyTo(q, e) == NoJob <==> forall j :: j in q.jobs ==> !Eligible(q, j, e.now)
    ensures ReplyTo(q, e).Claimed? ==>
              var c := ReplyTo(q, e).id;
              && Lookup(q.jobs, c).Some? && Eligible(q, Lookup(q.jobs, c).value, e.now)
              && (forall j :: j in q.jobs && Eligible(q, j, e.now) ==> c <= j.id)
              && HeldBy(Next(q, e), c, LeaseOf(e.op))
              && Lookup(Next(q, e).jobs, c).value.attempts == ReplyTo(q, e).attempts
              && (id != c ==> Lookup(Next(q, e).jobs, id) == Lookup(q.jobs, id))
    ensures !ReplyTo(q, e).Claimed? ==> Next(q, e) == q
  {
    var i := Candidate(q, e.now, |q.jobs|);
    if i >= 0 {
      var j := ClaimedJob(q.jobs[i], LeaseOf(e.op), e.now);
      UpdateJob(q.jobs, q.nextID, i, j, id);
      UpdateJob(q.jobs, q.nextID, i, j, j.id);
      assert q.jobs[i] in q.jobs;
    }
  }

  lemma UniqueNext(q: Queue, e: Event)
    requires WellFormed(q) && UniqueLeases(q)
    requires e.op.Claim? ==> !Live(q, LeaseOf(e.op))
    ensures UniqueLeases(Next(q, e))
  {
    forall id, id', token | HeldBy(Next(q, e), id, token) && HeldBy(Next(q, e), id', token) ensures id == id' {
      if Issues(e, token) {
        if e.saved && e.op.worker != "" {
          ClaimChoosesSmallest(q, e, id);
          ClaimChoosesSmallest(q, e, id');
          assert !HeldBy(q, id, token) && !HeldBy(q, id', token);
        } else {
          assert HeldBy(q, id, token);
        }
      } else {
        HeldBefore(q, e, id, token);
        HeldBefore(q, e, id', token);
      }
    }
  }

  /** A lease that comes into force with a claim is in its reply, with the attempts of the job. */
  lemma ClaimGives(q: Queue, e: Event, id: int, token: string)
    requires WellFormed(q) && Issues(e, token) && !HeldBy(q, id, token) && HeldBy(Next(q, e), id, token)
    ensures e.saved && ReplyTo(q, e) == Claimed(id, Lookup(Next(q, e).jobs, id).value.attempts, token)
  {
    if e.saved && e.op.worker != "" {
      ClaimChoosesSmallest(q, e, id);
    }
  }

  /** Completing or failing ends the lease. */
  lemma FinishEnds(q: Queue, e: Event, token: string)
    requires WellFormed(q) && Finishes(e, token) && ReplyTo(q, e) == Accepted
    ensures HeldBy(q, e.op.id, token) && !HeldBy(Next(q, e), e.op.id, token)
  {
    var i := Leased(q.jobs, e.op.id, token);
    var j := if e.op.Complete? then CompletedJob(q.jobs[i], e.now)
             else FailedJob(q.jobs[i], e.op.attempts, e.op.error, e.now);
    UpdateJob(q.jobs, q.nextID, i, j, e.op.id);
  }

  /** Putting a stale job back ends its lease. */
  lemma RequeueEnds(q: Queue, e: Event, id: int, token: string)
    requires WellFormed(q) && HeldBy(q, id, token)
    requires e.op.RequeueStale? && e.saved && e.op.olderThan > 0
    requires Stale(Lookup(q.jobs, id).value, e.now - e.op.olderThan)
    ensures !HeldBy(Next(q, e), id, token)
  {
    var cut, i := e.now - e.op.olderThan, Find(q.jobs, id);
    assert Stale(q.jobs[i], cut);
    RequeueJobs(q.jobs, q.nextID, cut, e.now, id);
  }

  /** A delivery is known, and was last taken up at the time or later. */
  predicate Remembers(q: Queue, deliveryID: string, at: Time) {
    deliveryID in q.deliveries && q.deliveries[deliveryID].receivedAt >= at
  }

  predicate Delivers(e: Event, deliveryID: string) {
    e.op.EnqueueDelivery? && e.op.deliveryID == deliveryID && e.op.typ != ""
  }

  /** The event is no older than the time and does not forget what is as old as it. */
  predicate Retains(e: Event, at: Time) {
    e.now >= at && (e.op.Cleanup? ==> e.op.cut <= at)
  }

  lemma DeliveryNext(q: Queue, e: Event, deliveryID: string, at: Time)
    ensures Delivers(e, deliveryID) && ReplyTo(q, e) == Accepted ==> Remembers(Next(q, e), deliveryID, e.now)
    ensures Remembers(q, deliveryID, at) && Retains(e, at) ==> Remembers(Next(q, e), deliveryID, at)
    ensures Remembers(q, deliveryID, at) && Delivers(e, deliveryID) && deliveryID != "" ==>
              ReplyTo(q, e) == AlreadyDelivered && Next(q, e) == q
  {
  }

  predicate Claims(e: Event, deliveryID: string) {
    e.op.ClaimDelivery? && e.op.deliveryID == deliveryID
  }

  /** Someone works on the delivery since the time or later. */
  predicate InWork(q: Queue, deliveryID: string, at: Time) {
    Remembers(q, deliveryID, at) && q.deliveries[deliveryID].status == "processing"
  }

  lemma WorkNext(q: Queue, e: Event, deliveryID: string, at: Time)
    ensures Claims(e, deliveryID) && ReplyTo(q, e) == Accepted ==> InWork(Next(q, e), deliveryID, e.now)
    ensures InWork(q, deliveryID, at) && Retains(e, at) && !(e.op.UpdateDelivery? && e.op.deliveryID == deliveryID) ==>
              InWork(Next(q, e), deliveryID, at)
    ensures InWork(q, deliveryID, at) && Claims(e, deliveryID) && e.now - at < ClaimWindow(e.op.staleAfter) ==>
              ReplyTo(q, e) != Accepted && Next(q, e) == q
  {
  }

  // ---------------------------------------------------------------- runs

  /** A run: the queue before each event and after the last one, the events, and their replies. */
  datatype Run = Run(states: seq<Queue>, events: seq<Event>, replies: seq<Reply>)

  ghost predicate Stepped(r: Run, k: nat)
    requires |r.states| == |r.events| + 1 == |r.replies| + 1 && k < |r.events|
  {
    r.states[k + 1] == Next(r.states[k], r.events[k]) && r.replies[k] == ReplyTo(r.states[k], r.events[k])
  }

  ghost predicate IsRun(r: Run) {
    && |r.states| == |r.events| + 1 == |r.replies| + 1
    && WellFormed(r.states[0])
    && forall k {:trigger Stepped(r, k)} :: 0 <= k < |r.events| ==> Stepped(r, k)
  }

  /** Every step of a run keeps the queue well formed. */
  lemma {:induction false} RunWellFormed(r: Run, k: nat)
    requires IsRun(r) && k <= |r.events|
    ensures WellFormed(r.states[k])
  {
    if k == 0 {
    } else {
      RunWellFormed(r, k - 1);
      assert Stepped(r, k - 1);
      JobMoves(r.states[k - 1], r.events[k - 1], 0);
    }
  }

  /** Every step of a run moves each job along its life. */
  lemma RunMoves(r: Run, k: nat, id: int)
    requires IsRun(r) && k < |r.events|
    ensures MovesIn(r.states[k], r.states[k + 1], r.events[k], id)
  {
    RunWellFormed(r, k);
    assert Stepped(r, k);
    JobMoves(r.states[k], r.events[k], id);
  }

  lemma RunUses(r: Run, k: nat, token: string)
    requires IsRun(r) && k < |r.events| && Uses(r.events[k], token)
    ensures r.replies[k] == LeaseLost <==> !HeldBy(r.states[k], r.events[k].op.id, token)
    ensures r.replies[k] == LeaseLost ==> r.states[k + 1] == r.states[k]
    ensures r.replies[k] == Accepted ==> HeldBy(r.states[k], r.events[k].op.id, token)
    ensures r.replies[k] == Accepted && Finishes(r.events[k], token) ==>
              !HeldBy(r.states[k + 1], r.events[k].op.id, token)
  {
    RunWellFormed(r, k);
    assert Stepped(r, k);
    AcceptedIffHeld(r.states[k], r.events[k], token);
    if r.replies[k] == Accepted && Finishes(r.events[k], token) {
      FinishEnds(r.states[k], r.events[k], token);
    }
  }

  lemma RunHeldBefore(r: Run, k: nat, id: int, token: string)
    requires IsRun(r) && k < |r.events| && HeldBy(r.states[k + 1], id, token) && !Issues(r.events[k], token)
    ensures HeldBy(r.states[k], id, token)
    ensures Lookup(r.states[k].jobs, id).value.attempts == Lookup(r.states[k + 1].jobs, id).value.attempts
  {
    RunWellFormed(r, k);
    assert Stepped(r, k);
    HeldBefore(r.states[k], r.events[k], id, token);
  }

  lemma RunLiveBefore(r: Run, k: nat, token: string)
    requires IsRun(r) && k < |r.events| && Live(r.states[k + 1], token) && !Issues(r.events[k], token)
    ensures Live(r.states[k], token)
  {
    var id :| HeldBy(r.states[k + 1], id, token);
    RunHeldBefore(r, k, id, token);
  }

  /** Each claim of the run gives out a token of its own, and none that is in force at the start; no two
      jobs share a lease at the start. */
  ghost predicate FreshLeases(r: Run) {
    && |r.states| > 0
    && (forall i, k :: 0 <= i < k < |r.events| && r.events[i].op.Claim? && r.events[k].op.Claim?
          ==> LeaseOf(r.events[i].op) != LeaseOf(r.events[k].op))
    && (forall i :: 0 <= i < |r.events| && r.events[i].op.Claim? ==> !Live(r.states[0], LeaseOf(r.events[i].op)))
    && UniqueLeases(r.states[0])
  }

  /** Once a token is no job's lease it stays so: until it is given out again, every later call with it is
      refused and changes nothing. */
  lemma {:induction false} DeadForever(r: Run, i: nat, k: nat, token: string)
    requires IsRun(r) && i <= k <= |r.events| && !Live(r.states[i], token)
    requires forall n :: i <= n < |r.events| ==> !Issues(r.events[n], token)
    ensures !Live(r.states[k], token)
    ensures k < |r.events| && Uses(r.events[k], token) ==>
              r.replies[k] == LeaseLost && r.states[k + 1] == r.states[k]
  {
    if k == i {
    } else {
      DeadForever(r, i, k - 1, token);
      if Live(r.states[k], token) {
        RunLiveBefore(r, k - 1, token);
      }
    }
    if k < |r.events| && Uses(r.events[k], token) {
      RunUses(r, k, token);
    }
  }

  /** A token not given out yet is not in force yet. */
  lemma {:induction false} NotYetLive(r: Run, k: nat, token: string)
    requires IsRun(r) && k <= |r.events| && !Live(r.states[0], token)
    requires forall n :: 0 <= n < k ==> !Issues(r.events[n], token)
    ensures !Live(r.states[k], token)
  {
    if k == 0 {
    } else {
      NotYetLive(r, k - 1, token);
      if Live(r.states[k], token) {
        RunLiveBefore(r, k - 1, token);
      }
    }
  }

  /** No two jobs ever share a lease. */
  lemma {:induction false} UniqueAt(r: Run, k: nat)
    requires IsRun(r) && FreshLeases(r) && k <= |r.events|
    ensures UniqueLeases(r.states[k])
  {
    if k == 0 {
    } else {
      UniqueAt(r, k - 1);
      if r.events[k - 1].op.Claim? {
        ClaimIsFresh(r, k - 1);
      }
      RunUnique(r, k - 1);
    }
  }

  lemma ClaimIsFresh(r: Run, k: nat)
    requires IsRun(r) && FreshLeases(r) && k < |r.events| && r.events[k].op.Claim?
    ensures !Live(r.states[k], LeaseOf(r.events[k].op))
  {
    NotYetLive(r, k, LeaseOf(r.events[k].op));
  }

  lemma RunUnique(r: Run, k: nat)
    requires IsRun(r) && k < |r.events| && UniqueLeases(r.states[k])
    requires r.events[k].op.Claim? ==> !Live(r.states[k], LeaseOf(r.events[k].op))
    ensures UniqueLeases(r.states[k + 1])
  {
    RunWellFormed(r, k);
    assert Stepped(r, k);
    UniqueNext(r.states[k], r.events[k]);
  }

  lemma InForceNotReissued(r: Run, p: nat, n: nat, id: int, token: string)
    requires IsRun(r) && FreshLeases(r) && p <= n < |r.events| && HeldBy(r.states[p], id, token)
    ensures !Issues(r.events[n], token)
  {
    if Issues(r.events[n], token) {
      forall m | 0 <= m < p ensures !Issues(r.events[m], token) {
      }
      NotYetLive(r, p, token);
    }
  }

  /** A token that stops being a job's lease is dead for the rest of the run: the worker it was given to
      can no longer renew, complete or fail anything. */
  lemma LostLeaseIsDead(r: Run, p: nat, k: nat, id: int, token: string)
    requires IsRun(r) && FreshLeases(r) && p < k <= |r.events|
    requires HeldBy(r.states[p], id, token) && !HeldBy(r.states[p + 1], id, token)
    ensures !Live(r.states[k], token)
    ensures k < |r.events| && Uses(r.events[k], token) ==>
              r.replies[k] == LeaseLost && r.states[k + 1] == r.states[k]
  {
    forall n | p <= n < |r.events| ensures !Issues(r.events[n], token) {
      InForceNotReissued(r, p, n, id, token);
    }
    UniqueAt(r, p);
    if Live(r.states[p + 1], token) {
      var other :| HeldBy(r.states[p + 1], other, token);
      RunHeldBefore(r, p, other, token);
    }
    DeadForever(r, p + 1, k, token);
  }

  /** Each claim has at most one outcome: of the calls that complete or fail a job with its token, at most
      one is accepted, and no call with the token is accepted after it. */
  lemma AtMostOneOutcome(r: Run, p: nat, k: nat, token: string)
    requires IsRun(r) && FreshLeases(r) && p < k < |r.events|
    requires Finishes(r.events[p], token) && r.replies[p] == Accepted && Uses(r.events[k], token)
    ensures r.replies[k] == LeaseLost && r.states[k + 1] == r.states[k]
  {
    RunUses(r, p, token);
    LostLeaseIsDead(r, p, k, r.events[p].op.id, token);
  }

  /** A worker whose job was put back as stale is shut out. */
  lemma RequeuedIsFenced(r: Run, p: nat, k: nat, id: int, token: string)
    requires IsRun(r) && FreshLeases(r) && p < k < |r.events| && HeldBy(r.states[p], id, token)
    requires r.events[p].op.RequeueStale? && r.events[p].saved && r.events[p].op.olderThan > 0
    requires Stale(Lookup(r.states[p].jobs, id).value, r.events[p].now - r.events[p].op.olderThan)
    requires Uses(r.events[k], token)
    ensures r.replies[k] == LeaseLost && r.states[k + 1] == r.states[k]
  {
    RunWellFormed(r, p);
    assert Stepped(r, p);
    RequeueEnds(r.states[p], r.events[p], id, token);
    LostLeaseIsDead(r, p, k, id, token);
  }

  /** A lease in force was given out by a claim of that very job, or was in force at the start; the attempts of the
      job have not changed since. */
  lemma {:induction false} LeaseOrigin(r: Run, k: nat, id: int, token: string) returns (c: Option<nat>)
    requires IsRun(r) && k <= |r.events| && HeldBy(r.states[k], id, token)
    ensures c.Some? ==>
              && c.value < k && Issues(r.events[c.value], token) && r.events[c.value].saved
              && r.replies[c.value] == Claimed(id, Lookup(r.states[k].jobs, id).value.attempts, token)
    ensures c.None? ==>
              HeldBy(r.states[0], id, token)
              && Lookup(r.states[0].jobs, id).value.attempts == Lookup(r.states[k].jobs, id).value.attempts
  {
    if k == 0 {
      c := None;
    } else if HeldBy(r.states[k - 1], id, token) {
      HeldStays(r, k - 1, id, token);
      c := LeaseOrigin(r, k - 1, id, token);
    } else {
      if !Issues(r.events[k - 1], token) {
        RunHeldBefore(r, k - 1, id, token);
      }
      RunWellFormed(r, k - 1);
      assert Stepped(r, k - 1);
      ClaimGives(r.states[k - 1], r.events[k - 1], id, token);
      c := Some(k - 1);
    }
  }

  /** While a lease stays in force the attempts stay. */
  lemma HeldStays(r: Run, k: nat, id: int, token: string)
    requires IsRun(r) && k < |r.events| && HeldBy(r.states[k], id, token) && HeldBy(r.states[k + 1], id, token)
    ensures Lookup(r.states[k].jobs, id).value.attempts == Lookup(r.states[k + 1].jobs, id).value.attempts
  {
    RunMoves(r, k, id);
  }

  /** A lease that was not in force at the start was given out by a claim of that very job, whose attempts have not
      changed since. */
  lemma ClaimBehindLease(r: Run, k: nat, id: int, token: string) returns (c: nat)
    requires IsRun(r) && k <= |r.events| && !HeldBy(r.states[0], id, token) && HeldBy(r.states[k], id, token)
    ensures c < k && Issues(r.events[c], token) && r.events[c].saved
    ensures r.replies[c] == Claimed(id, Lookup(r.states[k].jobs, id).value.attempts, token)
  {
    var origin := LeaseOrigin(r, k, id, token);
    c := origin.value;
  }

  // ---------------------------------------------------------------- bounded retries

  /** Event k is a failure report that puts the job back in the queue. */
  ghost predicate ReturnsJob(r: Run, k: nat, id: int)
    requires IsRun(r) && k < |r.events|
  {
    r.events[k].op.Fail? && r.events[k].op.id == id && r.replies[k] == Accepted && r.events[k].op.attempts < MAX_ATTEMPTS
  }

  ghost function Returns(r: Run, id: int, k: nat): nat
    requires IsRun(r) && k <= |r.events|
  {
    if k == 0 then 0 else Returns(r, id, k - 1) + if ReturnsJob(r, k - 1, id) then 1 else 0
  }

  /** Event k reports the failure of the job that claim c was answered with. */
  ghost predicate ReportsOn(r: Run, c: nat, k: nat)
    requires IsRun(r) && c < k < |r.events|
  {
    r.events[k].op.Fail? && Issues(r.events[c], r.events[k].op.token) && r.replies[c].Claimed?
  }

  /** Event k reports the failure of a job that was running at the start. */
  ghost predicate ReportsEarlier(r: Run, k: nat)
    requires IsRun(r) && k < |r.events|
  {
    r.events[k].op.Fail? && HeldBy(r.states[0], r.events[k].op.id, r.events[k].op.token)
  }

  /** Workers report the attempts their claim was answered with, also those that claimed before the start. */
  ghost predicate HonestAttempts(r: Run)
    requires IsRun(r)
  {
    && (forall c, k :: 0 <= c < k < |r.events| && ReportsOn(r, c, k) ==>
          r.events[k].op.attempts == r.replies[c].attempts)
    && (forall k :: 0 <= k < |r.events| && ReportsEarlier(r, k) ==>
          r.events[k].op.attempts == Lookup(r.states[0].jobs, r.events[k].op.id).value.attempts)
  }

  /** The number of returns is covered by the attempts on record. */
  predicate Covered(q: Queue, id: int, count: nat) {
    && count < MAX_ATTEMPTS
    && match Lookup(q.jobs, id)
       case None => id >= q.nextID ==> count == 0
       case Some(j) => count <= if j.status == Running then j.attempts - 1 else j.attempts
  }

  lemma {:induction false} CoveredAt(r: Run, id: int, k: nat)
    requires IsRun(r) && HonestAttempts(r) && k <= |r.events|
    ensures Covered(r.states[k], id, Returns(r, id, k))
  {
    if k == 0 {
      StartCovered(r.states[0], id);
    } else {
      CoveredAt(r, id, k - 1);
      if r.events[k - 1].op.Fail? && r.events[k - 1].op.id == id && r.replies[k - 1] == Accepted {
        CoveredReport(r, id, k - 1, Returns(r, id, k - 1));
      } else {
        CoveredOther(r, id, k - 1, Returns(r, id, k - 1));
      }
    }
  }

  lemma CoveredReport(r: Run, id: int, k: nat, count: nat)
    requires IsRun(r) && HonestAttempts(r) && k < |r.events| && Covered(r.states[k], id, count)
    requires r.events[k].op.Fail? && r.events[k].op.id == id && r.replies[k] == Accepted
    ensures Covered(r.states[k + 1], id, count + if ReturnsJob(r, k, id) then 1 else 0)
  {
    ReportedAttempts(r, id, k);
    RunMoves(r, k, id);
    LookupHas(r.states[k].jobs, id);
  }

  lemma CoveredOther(r: Run, id: int, k: nat, count: nat)
    requires IsRun(r) && k < |r.events| && Covered(r.states[k], id, count)
    requires !(r.events[k].op.Fail? && r.events[k].op.id == id && r.replies[k] == Accepted)
    ensures Covered(r.states[k + 1], id, count)
  {
    RunWellFormed(r, k);
    RunMoves(r, k, id);
    LookupHas(r.states[k].jobs, id);
  }

  lemma StartCovered(q: Queue, id: int)
    requires WellFormed(q)
    ensures Covered(q, id, 0)
  {
    var i := Find(q.jobs, id);
    assert i < |q.jobs| ==> LockOk(q.jobs[i]);
  }

  /** An accepted failure report has the attempts on record. */
  lemma ReportedAttempts(r: Run, id: int, k: nat)
    requires IsRun(r) && HonestAttempts(r) && k < |r.events|
    requires r.events[k].op.Fail? && r.events[k].op.id == id && r.replies[k] == Accepted
    ensures HeldBy(r.states[k], id, r.events[k].op.token) && !HeldBy(r.states[k + 1], id, r.events[k].op.token)
    ensures r.events[k].op.attempts == Lookup(r.states[k].jobs, id).value.attempts
  {
    var token := r.events[k].op.token;
    RunUses(r, k, token);
    var c := LeaseOrigin(r, k, id, token);
    if c.Some? {
      assert ReportsOn(r, c.value, k);
    } else {
      assert ReportsEarlier(r, k);
    }
  }

  /** However a run goes, failure reports put a job back at most seven times. */
  lemma RetriesBounded(r: Run, id: int)
    requires IsRun(r) && HonestAttempts(r)
    ensures Returns(r, id, |r.events|) <= 7
  {
    CoveredAt(r, id, |r.events|);
  }

  // ---------------------------------------------------------------- jobs are kept

  predicate Finished(j: Job) {
    j.status == Done || j.status == Failed
  }

  /** Finished, or dropped: the ID is used up. */
  predicate UsedUp(q: Queue, id: int) {
    match Lookup(q.jobs, id)
    case None => id < q.nextID
    case Some(j) => Finished(j)
  }

  /** A finished job is never touched again, at most dropped; a dropped ID never comes back. */
  lemma {:induction false} FinishedForever(r: Run, i: nat, k: nat, id: int)
    requires IsRun(r) && i <= k <= |r.events| && UsedUp(r.states[i], id)
    ensures UsedUp(r.states[k], id)
    ensures Lookup(r.states[k].jobs, id) == Lookup(r.states[i].jobs, id) || Lookup(r.states[k].jobs, id).None?
  {
    if k == i {
    } else {
      FinishedForever(r, i, k - 1, id);
      RunWellFormed(r, k - 1);
      RunMoves(r, k - 1, id);
    }
  }

  /** A job that is missing although it was there was finished before, and a cleanup dropped it after its
      retention time. */
  lemma {:induction false} OnlyCleanupDrops(r: Run, i: nat, k: nat, id: int) returns (m: nat)
    requires IsRun(r) && i <= k <= |r.events|
    requires Lookup(r.states[i].jobs, id).Some? && Lookup(r.states[k].jobs, id).None?
    ensures i <= m < k && r.events[m].op.Cleanup? && r.events[m].saved
    ensures var j := Lookup(r.states[m].jobs, id);
            j.Some? && Finished(j.value) && j.value.updatedAt <= r.events[m].op.cut
  {
    if Lookup(r.states[k - 1].jobs, id).Some? {
      RunMoves(r, k - 1, id);
      m := k - 1;
    } else {
      m := OnlyCleanupDrops(r, i, k - 1, id);
    }
  }

  // ---------------------------------------------------------------- deliveries

  /** A delivery enqueues at most one job, unless a cleanup forgets it after its retention time: until
      then a repeated delivery is answered as already delivered and changes nothing. */
  lemma {:induction false} DeliveredOnce(r: Run, p: nat, k: nat, deliveryID: string)
    requires IsRun(r) && p < k <= |r.events| && deliveryID != ""
    requires Delivers(r.events[p], deliveryID) && r.replies[p] == Accepted
    requires forall n :: p < n < k ==> Retains(r.events[n], r.events[p].now)
    ensures Remembers(r.states[k], deliveryID, r.events[p].now)
    ensures k < |r.events| && Delivers(r.events[k], deliveryID) ==>
              r.replies[k] == AlreadyDelivered && r.states[k + 1] == r.states[k]
  {
    if k == p + 1 {
      assert Stepped(r, p);
      DeliveryNext(r.states[p], r.events[p], deliveryID, r.events[p].now);
    } else {
      DeliveredOnce(r, p, k - 1, deliveryID);
      assert Stepped(r, k - 1);
      DeliveryNext(r.states[k - 1], r.events[k - 1], deliveryID, r.events[p].now);
    }
    if k < |r.events| {
      assert Stepped(r, k);
      DeliveryNext(r.states[k], r.events[k], deliveryID, r.events[p].now);
    }
  }

  /** Who has claimed a delivery is alone with it: until its state is updated, a cleanup forgets it or the window
      of a later claim has passed, no claim of it is accepted. */
  lemma {:induction false} ClaimedAlone(r: Run, p: nat, k: nat, deliveryID: string)
    requires IsRun(r) && p < k <= |r.events| && Claims(r.events[p], deliveryID) && r.replies[p] == Accepted
    requires forall n :: p < n < k ==>
               Retains(r.events[n], r.events[p].now)
               && !(r.events[n].op.UpdateDelivery? && r.events[n].op.deliveryID == deliveryID)
    ensures InWork(r.states[k], deliveryID, r.events[p].now)
    ensures k < |r.events| && Claims(r.events[k], deliveryID)
            && r.events[k].now - r.events[p].now < ClaimWindow(r.events[k].op.staleAfter) ==>
              r.replies[k] != Accepted && r.states[k + 1] == r.states[k]
  {
    if k == p + 1 {
      assert Stepped(r, p);
      WorkNext(r.states[p], r.events[p], deliveryID, r.events[p].now);
    } else {
      ClaimedAlone(r, p, k - 1, deliveryID);
      assert Stepped(r, k - 1);
      WorkNext(r.states[k - 1], r.events[k - 1], deliveryID, r.events[p].now);
    }
    if k < |r.events| {
      assert Stepped(r, k);
      WorkNext(r.states[k], r.events[k], deliveryID, r.events[p].now);
    }
  }

  /** A failure reported with its attempts keeps the job from being claimed for ten seconds times their square. */
  lemma FailureBacksOff(q: Queue, e: Event, at: Time)
    requires WellFormed(q) && e.op.Fail? && ReplyTo(q, e) == Accepted
    ensures var j := Lookup(Next(q, e).jobs, e.op.id);
            && j.Some? && (j.value.status == Failed <==> e.op.attempts >= MAX_ATTEMPTS)
            && (Eligible(Next(q, e), j.value, at) ==>
                  e.op.attempts < MAX_ATTEMPTS && at - e.now >= 10 * SECOND * (e.op.attempts * e.op.attempts))
  {
    var i := Leased(q.jobs, e.op.id, e.op.token);
    UpdateJob(q.jobs, q.nextID, i, FailedJob(q.jobs[i], e.op.attempts, e.op.error, e.now), e.op.id);
  }
}
