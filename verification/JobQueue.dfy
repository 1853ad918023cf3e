/** The leased job queue of the embedded store: what each operation does to the queue and to a job. */
module JobQueue {
  import opened Options

  type Time = int

  const ZERO_TIME: Time := 0
  const SECOND: int := 1_000_000_000
  const MAX_ATTEMPTS := 8
  const MAX_TEXT := 4000

  datatype Status = Queued | Running | Done | Failed

  datatype Job = Job(id: int, tenant: string, typ: string, payload: string, status: Status, attempts: nat,
                     availableAt: Time, lockedAt: Time, lockedBy: string, lastError: string,
                     createdAt: Time, updatedAt: Time)

  datatype Delivery = Delivery(eventType: string, receivedAt: Time, status: string, error: string)

  /** The part of the store's state the queue works on. A tenant maps to whether it is enabled. */
  datatype Queue = Queue(nextID: int, jobs: seq<Job>, tenants: map<string, bool>, deliveries: map<string, Delivery>)

  datatype Op =
    | Enqueue(tenant: string, typ: string, payload: string, availableAt: Time)
    | EnqueueDelivery(deliveryID: string, eventType: string, tenant: string, typ: string, payload: string,
                      availableAt: Time)
    | RecordDelivery(deliveryID: string, eventType: string, status: string, error: string)
    | ClaimDelivery(deliveryID: string, eventType: string, staleAfter: int)
    | UpdateDelivery(deliveryID: string, status: string, error: string)
    | Claim(worker: string, random: string)
    | Renew(id: int, token: string)
    | Complete(id: int, token: string)
    | Fail(id: int, token: string, attempts: int, error: string)
    | RequeueStale(olderThan: int)
    | Cleanup(cut: Time)

  /** One call: the operation, the clock reading, and whether persisting the new state succeeds. */
  datatype Event = Event(op: Op, now: Time, saved: bool)

  datatype Reply =
    | Accepted
    | Claimed(id: int, attempts: nat, lease: string)
    | NoJob | AlreadyDelivered | LeaseLost | Invalid | NotSaved

  // ---------------------------------------------------------------- finding jobs

  /** Position of the first job with the ID, or the number of jobs. */
  function Find(jobs: seq<Job>, id: int): (i: nat)
    ensures i <= |jobs|
    ensures i < |jobs| ==> jobs[i].id == id
    ensures forall k :: 0 <= k < i ==> jobs[k].id != id
  {
    if jobs == [] || jobs[0].id == id then 0 else 1 + Find(jobs[1..], id)
  }

  predicate Enabled(q: Queue, tenant: string) {
    tenant in q.tenants && q.tenants[tenant]
  }

  predicate Eligible(q: Queue, j: Job, now: Time) {
    Enabled(q, j.tenant) && j.status == Queued && j.availableAt <= now
  }

  /** The eligible job with the smallest ID among the first k, or -1. */
  function Candidate(q: Queue, now: Time, k: nat): (idx: int)
    requires k <= |q.jobs|
    ensures -1 <= idx < k
    ensures idx >= 0 ==> Eligible(q, q.jobs[idx], now)
    ensures forall i :: 0 <= i < k && Eligible(q, q.jobs[i], now) ==> idx >= 0 && q.jobs[idx].id <= q.jobs[i].id
  {
    if k == 0 then -1
    else
      var best := Candidate(q, now, k - 1);
      if Eligible(q, q.jobs[k - 1], now) && (best < 0 || q.jobs[k - 1].id < q.jobs[best].id) then k - 1 else best
  }

  function SecureEqualText(a: string, b: string): bool {
    a != "" && b != "" && a == b
  }

  /** The job the token is the current lease of, or the number of jobs. */
  function Leased(jobs: seq<Job>, id: int, token: string): (i: nat)
    ensures i <= |jobs|
    ensures i < |jobs| ==> jobs[i].id == id && jobs[i].status == Running && jobs[i].lockedBy == token && token != ""
  {
    var i := Find(jobs, id);
    if i < |jobs| && jobs[i].status == Running && SecureEqualText(jobs[i].lockedBy, token) then i else |jobs|
  }

  function Trim(s: string, n: nat): string {
    if |s| <= n then s else s[..n]
  }

  function LeaseOf(op: Op): string
    requires op.Claim?
  {
    op.worker + ":" + op.random
  }

  // ---------------------------------------------------------------- what the operations do to a job

  function NewJob(id: int, tenant: string, typ: string, payload: string, availableAt: Time, now: Time): Job {
    Job(id, tenant, typ, payload, Queued, 0, if availableAt == ZERO_TIME then now else availableAt,
        ZERO_TIME, "", "", now, now)
  }

  function ClaimedJob(j: Job, lease: string, now: Time): Job {
    j.(status := Running, lockedAt := now, lockedBy := lease, attempts := j.attempts + 1, updatedAt := now)
  }

  function RenewedJob(j: Job, now: Time): Job {
    j.(lockedAt := now, updatedAt := now)
  }

  function CompletedJob(j: Job, now: Time): Job {
    j.(status := Done, lockedAt := ZERO_TIME, lockedBy := "", updatedAt := now)
  }

  function FailedJob(j: Job, attempts: int, error: string, now: Time): Job {
    j.(status := if attempts >= MAX_ATTEMPTS then Failed else Queued,
       lastError := Trim(error, MAX_TEXT),
       availableAt := now + attempts * attempts * 10 * SECOND,
       lockedAt := ZERO_TIME, lockedBy := "", updatedAt := now)
  }

  predicate Stale(j: Job, cut: Time) {
    j.status == Running && j.lockedAt != ZERO_TIME && j.lockedAt < cut
  }

  function RequeuedJob(j: Job, cut: Time, now: Time): Job {
    if Stale(j, cut) then j.(status := Queued, lockedAt := ZERO_TIME, lockedBy := "", updatedAt := now) else j
  }

  function RequeuedJobs(jobs: seq<Job>, cut: Time, now: Time): seq<Job> {
    seq(|jobs|, i requires 0 <= i < |jobs| => RequeuedJob(jobs[i], cut, now))
  }

  predicate Kept(j: Job, cut: Time) {
    j.status == Queued || j.status == Running || j.updatedAt > cut
  }

  /** The jobs that are unfinished or were updated after the cut, in order. */
  function KeptJobs(jobs: seq<Job>, cut: Time): seq<Job> {
    if jobs == [] then []
    else KeptJobs(jobs[..|jobs| - 1], cut)
         + if Kept(jobs[|jobs| - 1], cut) then [jobs[|jobs| - 1]] else []
  }

  function KeptDeliveries(deliveries: map<string, Delivery>, cut: Time): map<string, Delivery> {
    map id | id in deliveries && deliveries[id].receivedAt >= cut :: deliveries[id]
  }

  const DELIVERY_WINDOW: int := 5 * 60 * SECOND

  function ClaimWindow(staleAfter: int): int {
    if staleAfter <= 0 then DELIVERY_WINDOW else staleAfter
  }

  /** The delivery is not to be worked on: it is done with, or someone works on it. */
  predicate Unclaimable(d: Delivery, now: Time, staleAfter: int) {
    || d.status in {"processed", "queued", "ignored", "invalid", "unbound"}
    || (d.status == "processing" && now - d.receivedAt < ClaimWindow(staleAfter))
  }

  // ---------------------------------------------------------------- one operation

  /** The state an operation asks to persist, and its reply when that succeeds. An operation that is
      refused or has nothing to do does not persist: its first component is None. */
  datatype Plan = Refuse(reply: Reply) | Save(queue: Queue, reply: Reply)

  function PlanOf(q: Queue, op: Op, now: Time): Plan {
    match op
    case Enqueue(tenant, typ, payload, availableAt) =>
      if typ == "" || !Enabled(q, tenant) then Refuse(Invalid)
      else Save(q.(nextID := q.nextID + 1,
                   jobs := q.jobs + [NewJob(q.nextID, tenant, typ, payload, availableAt, now)]), Accepted)
    case EnqueueDelivery(deliveryID, eventType, tenant, typ, payload, availableAt) =>
      if deliveryID == "" || typ == "" then Refuse(Invalid)
      else if deliveryID in q.deliveries then Refuse(AlreadyDelivered)
      else if !Enabled(q, tenant) then Refuse(Invalid)
      else Save(q.(nextID := q.nextID + 1,
                   jobs := q.jobs + [NewJob(q.nextID, tenant, typ, payload, availableAt, now)],
                   deliveries := q.deliveries[deliveryID := Delivery(eventType, now, "queued", "")]), Accepted)
    case RecordDelivery(deliveryID, eventType, status, error) =>
      if deliveryID == "" || status == "" then Refuse(Invalid)
      else if deliveryID in q.deliveries then Refuse(AlreadyDelivered)
      else Save(q.(deliveries := q.deliveries[deliveryID := Delivery(eventType, now, status, Trim(error, MAX_TEXT))]),
                Accepted)
    case ClaimDelivery(deliveryID, eventType, staleAfter) =>
      if deliveryID == "" then Refuse(Invalid)
      else if deliveryID in q.deliveries && Unclaimable(q.deliveries[deliveryID], now, staleAfter) then
        Refuse(AlreadyDelivered)
      else Save(q.(deliveries := q.deliveries[deliveryID := Delivery(eventType, now, "processing", "")]), Accepted)
    case UpdateDelivery(deliveryID, status, error) =>
      if deliveryID !in q.deliveries then Refuse(Accepted)
      else
        var d := q.deliveries[deliveryID].(status := status, error := Trim(error, MAX_TEXT));
        Save(q.(deliveries := q.deliveries[deliveryID := d]), Accepted)
    case Claim(worker, random) =>
      if worker == "" then Refuse(Invalid)
      else
        var idx := Candidate(q, now, |q.jobs|);
        if idx < 0 then Refuse(NoJob)
        else
          var j := ClaimedJob(q.jobs[idx], LeaseOf(op), now);
          Save(q.(jobs := q.jobs[idx := j]), Claimed(j.id, j.attempts, j.lockedBy))
    case Renew(id, token) =>
      var i := Leased(q.jobs, id, token);
      if i == |q.jobs| then Refuse(LeaseLost)
      else Save(q.(jobs := q.jobs[i := RenewedJob(q.jobs[i], now)]), Accepted)
    case Complete(id, token) =>
      var i := Leased(q.jobs, id, token);
      if i == |q.jobs| then Refuse(LeaseLost)
      else Save(q.(jobs := q.jobs[i := CompletedJob(q.jobs[i], now)]), Accepted)
    case Fail(id, token, attempts, error) =>
      var i := Leased(q.jobs, id, token);
      if i == |q.jobs| then Refuse(LeaseLost)
      else Save(q.(jobs := q.jobs[i := FailedJob(q.jobs[i], attempts, error, now)]), Accepted)
    case RequeueStale(olderThan) =>
      if olderThan <= 0 then Refuse(Invalid)
      else if forall i :: 0 <= i < |q.jobs| ==> !Stale(q.jobs[i], now - olderThan) then Refuse(Accepted)
      else Save(q.(jobs := RequeuedJobs(q.jobs, now - olderThan, now)), Accepted)
    case Cleanup(cut) =>
      Save(q.(jobs := KeptJobs(q.jobs, cut), deliveries := KeptDeliveries(q.deliveries, cut)), Accepted)
  }

  /** The queue after an event: an error from persisting leaves it as it was. */
  function Next(q: Queue, e: Event): Queue {
    var p := PlanOf(q, e.op, e.now);
    if p.Save? && e.saved then p.queue else q
  }

  function ReplyTo(q: Queue, e: Event): Reply {
    var p := PlanOf(q, e.op, e.now);
    if p.Save? && !e.saved then NotSaved else p.reply
  }

  // ---------------------------------------------------------------- the invariant

  predicate Sorted(jobs: seq<Job>) {
    forall i, k :: 0 <= i < k < |jobs| ==> jobs[i].id < jobs[k].id
  }

  /** A job is running exactly when it is locked, and then it was claimed. */
  predicate LockOk(j: Job) {
    && (j.status == Running <==> j.lockedBy != "")
    && (j.status == Running ==> j.attempts >= 1)
  }

  /** IDs strictly increase and stay below the next one; running jobs are the locked ones. */
  predicate JobsOk(jobs: seq<Job>, nextID: int) {
    && Sorted(jobs)
    && forall i :: 0 <= i < |jobs| ==> jobs[i].id < nextID && LockOk(jobs[i])
  }

  predicate WellFormed(q: Queue) {
    JobsOk(q.jobs, q.nextID)
  }

  function Lookup(jobs: seq<Job>, id: int): Option<Job> {
    var i := Find(jobs, id);
    if i < |jobs| then Some(jobs[i]) else None
  }

  lemma {:induction false} KeptJobsSpec(jobs: seq<Job>, cut: Time)
    ensures forall j :: j in KeptJobs(jobs, cut) <==> j in jobs && Kept(j, cut)
    ensures Sorted(jobs) ==> Sorted(KeptJobs(jobs, cut))
  {
    if jobs == [] {
    } else {
      var front, last := jobs[..|jobs| - 1], jobs[|jobs| - 1];
      KeptJobsSpec(front, cut);
      assert jobs == front + [last];
      if Sorted(jobs) {
        forall i | 0 <= i < |KeptJobs(front, cut)| ensures KeptJobs(front, cut)[i].id < last.id {
          assert KeptJobs(front, cut)[i] in front;
        }
      }
    }
  }

  /** Replacing a job by one with the same ID. */
  lemma UpdateJob(jobs: seq<Job>, nextID: int, i: nat, j: Job, id: int)
    requires JobsOk(jobs, nextID) && i < |jobs| && j.id == jobs[i].id && LockOk(j)
    ensures JobsOk(jobs[i := j], nextID)
    ensures Lookup(jobs[i := j], id) == if id == j.id then Some(j) else Lookup(jobs, id)
    ensures Lookup(jobs, j.id) == Some(jobs[i])
  {
    var r := jobs[i := j];
    assert forall k :: 0 <= k < |jobs| ==> r[k].id == jobs[k].id;
    assert Find(r, id) == Find(jobs, id);
  }

  lemma AppendJob(jobs: seq<Job>, j: Job, id: int)
    requires JobsOk(jobs, j.id) && LockOk(j)
    ensures JobsOk(jobs + [j], j.id + 1)
    ensures Lookup(jobs + [j], id) == if id == j.id then Some(j) else Lookup(jobs, id)
    ensures Lookup(jobs, j.id) == None
  {
    var r, i := jobs + [j], Find(jobs, id);
    assert forall k :: 0 <= k < |jobs| ==> r[k] == jobs[k];
    if i < |jobs| {
      assert r[i].id == id;
    } else if id == j.id {
      assert r[|jobs|].id == id;
    }
  }

  lemma RequeueJobs(jobs: seq<Job>, nextID: int, cut: Time, now: Time, id: int)
    requires JobsOk(jobs, nextID)
    ensures JobsOk(RequeuedJobs(jobs, cut, now), nextID)
    ensures Lookup(RequeuedJobs(jobs, cut, now), id)
         == if Lookup(jobs, id).Some? then Some(RequeuedJob(Lookup(jobs, id).value, cut, now)) else None
  {
    var r := RequeuedJobs(jobs, cut, now);
    assert forall k :: 0 <= k < |jobs| ==> r[k].id == jobs[k].id;
    assert Find(r, id) == Find(jobs, id);
  }

  lemma KeepJobs(jobs: seq<Job>, nextID: int, cut: Time, id: int)
    requires JobsOk(jobs, nextID)
    ensures JobsOk(KeptJobs(jobs, cut), nextID)
    ensures Lookup(KeptJobs(jobs, cut), id)
         == if Lookup(jobs, id).Some? && Kept(Lookup(jobs, id).value, cut) then Lookup(jobs, id) else None
  {
    KeptJobsSpec(jobs, cut);
    var kept := KeptJobs(jobs, cut);
    forall i | 0 <= i < |kept| ensures kept[i].id < nextID && LockOk(kept[i]) {
      assert kept[i] in jobs;
    }
    var i, n := Find(jobs, id), Find(kept, id);
    if i < |jobs| && Kept(jobs[i], cut) {
      assert jobs[i] in kept;
    }
    if n < |kept| {
      assert kept[n] in jobs;
      var k :| 0 <= k < |jobs| && jobs[k] == kept[n];
      assert k == i;
    }
  }

  /** How an event may change a job: the transitions of its life. */
  predicate Moves(j: Job, after: Option<Job>, e: Event) {
    || after == Some(j)
    || (e.saved &&
        match e.op
        case Claim(_, _) => j.status == Queued && after == Some(ClaimedJob(j, LeaseOf(e.op), e.now))
        case Renew(id, token) => Holds(j, id, token) && after == Some(RenewedJob(j, e.now))
        case Complete(id, token) => Holds(j, id, token) && after == Some(CompletedJob(j, e.now))
        case Fail(id, token, attempts, error) =>
          Holds(j, id, token) && after == Some(FailedJob(j, attempts, error, e.now))
        case RequeueStale(olderThan) =>
          Stale(j, e.now - olderThan) && after == Some(RequeuedJob(j, e.now - olderThan, e.now))
        case Cleanup(cut) => !Kept(j, cut) && after == None
        case _ => false)
  }

  predicate Holds(j: Job, id: int, token: string) {
    j.id == id && j.status == Running && j.lockedBy == token && token != ""
  }

  predicate Created(q: Queue, after: Option<Job>, id: int) {
    after.Some? ==> id == q.nextID && after.value.id == id && after.value.status == Queued && after.value.attempts == 0
  }

  predicate MovesIn(q: Queue, r: Queue, e: Event, id: int) {
    var before, after := Lookup(q.jobs, id), Lookup(r.jobs, id);
    && WellFormed(r) && q.nextID <= r.nextID
    && if before.Some? then Moves(before.value, after, e)
       else Created(q, after, id) && (after.Some? ==> q.nextID < r.nextID)
  }

  lemma EnqueueMoves(q: Queue, e: Event, id: int)
    requires WellFormed(q) && e.saved && (e.op.Enqueue? || e.op.EnqueueDelivery?)
    ensures MovesIn(q, Next(q, e), e, id)
  {
    var j := NewJob(q.nextID, e.op.tenant, e.op.typ, e.op.payload, e.op.availableAt, e.now);
    AppendJob(q.jobs, j, id);
  }

  lemma ClaimMoves(q: Queue, e: Event, id: int)
    requires WellFormed(q) && e.saved && e.op.Claim?
    ensures MovesIn(q, Next(q, e), e, id)
  {
    var i := Candidate(q, e.now, |q.jobs|);
    if i >= 0 && e.op.worker != "" {
      UpdateJob(q.jobs, q.nextID, i, ClaimedJob(q.jobs[i], LeaseOf(e.op), e.now), id);
    }
  }

  lemma RenewMoves(q: Queue, e: Event, id: int)
    requires WellFormed(q) && e.saved && e.op.Renew?
    ensures MovesIn(q, Next(q, e), e, id)
  {
    var i := Leased(q.jobs, e.op.id, e.op.token);
    if i < |q.jobs| {
      UpdateJob(q.jobs, q.nextID, i, RenewedJob(q.jobs[i], e.now), id);
    }
  }

  lemma CompleteMoves(q: Queue, e: Event, id: int)
    requires WellFormed(q) && e.saved && e.op.Complete?
    ensures MovesIn(q, Next(q, e), e, id)
  {
    var i := Leased(q.jobs, e.op.id, e.op.token);
    if i < |q.jobs| {
      UpdateJob(q.jobs, q.nextID, i, CompletedJob(q.jobs[i], e.now), id);
    }
  }

  lemma FailMoves(q: Queue, e: Event, id: int)
    requires WellFormed(q) && e.saved && e.op.Fail?
    ensures MovesIn(q, Next(q, e), e, id)
  {
    var i := Leased(q.jobs, e.op.id, e.op.token);
    if i < |q.jobs| {
      UpdateJob(q.jobs, q.nextID, i, FailedJob(q.jobs[i], e.op.attempts, e.op.error, e.now), id);
    }
  }

  /** Also when nothing is stale, all stale jobs are back afterwards. */
  lemma RequeueNext(q: Queue, e: Event)
    requires e.saved && e.op.RequeueStale? && e.op.olderThan > 0
    ensures Next(q, e) == q.(jobs := RequeuedJobs(q.jobs, e.now - e.op.olderThan, e.now))
  {
    if forall i :: 0 <= i < |q.jobs| ==> !Stale(q.jobs[i], e.now - e.op.olderThan) {
      assert RequeuedJobs(q.jobs, e.now - e.op.olderThan, e.now) == q.jobs;
    }
  }

  lemma RequeueMoves(q: Queue, e: Event, id: int)
    requires WellFormed(q) && e.saved && e.op.RequeueStale?
    ensures MovesIn(q, Next(q, e), e, id)
  {
    if e.op.olderThan > 0 {
      RequeueNext(q, e);
      RequeueJobs(q.jobs, q.nextID, e.now - e.op.olderThan, e.now, id);
    }
  }

  lemma CleanupMoves(q: Queue, e: Event, id: int)
    requires WellFormed(q) && e.saved && e.op.Cleanup?
    ensures MovesIn(q, Next(q, e), e, id)
  {
    KeepJobs(q.jobs, q.nextID, e.op.cut, id);
  }

  /** Every event keeps the queue well formed and moves each job along its life or leaves it alone. */
  lemma JobMoves(q: Queue, e: Event, id: int)
    requires WellFormed(q)
    ensures MovesIn(q, Next(q, e), e, id)
  {
    if e.saved {
      match e.op
      case Enqueue(_, _, _, _) => EnqueueMoves(q, e, id);
      case EnqueueDelivery(_, _, _, _, _, _) => EnqueueMoves(q, e, id);
      case RecordDelivery(_, _, _, _) =>
      case ClaimDelivery(_, _, _) =>
      case UpdateDelivery(_, _, _) =>
      case Claim(_, _) => ClaimMoves(q, e, id);
      case Renew(_, _) => RenewMoves(q, e, id);
      case Complete(_, _) => CompleteMoves(q, e, id);
      case Fail(_, _, _, _) => FailMoves(q, e, id);
      case RequeueStale(_) => RequeueMoves(q, e, id);
      case Cleanup(_) => CleanupMoves(q, e, id);
    } else {
      assert Next(q, e) == q;
    }
  }
}
