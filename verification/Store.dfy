/** The embedded store: its state is changed in place, persisted, and put back when persisting fails.
    Whether persisting succeeds is the argument `saved` of every operation that persists. */
module Stores {
  import opened Options
  import Queue = JobQueue
  import Notes = Notifications
  import Asked = NotificationLaws
  import Inc = Incidents
  import Keep = Retention
  import opened Slices

  type Time = int

  /** The recorded analyses, environments and audit events. */
  datatype History = History(
    analyses: map<string, Keep.Stamped>, analysisOrder: seq<string>, environments: seq<Keep.Stamped>,
    auditEvents: map<string, Keep.Stamped>, auditOrder: seq<string>)

  /** Everything the store keeps in memory that the modelled operations touch. */
  datatype State = State(
    queue: Queue.Queue, incidents: map<string, Inc.Incident>, outbox: Notes.Outbox, history: History,
    extensions: map<string, Keep.Extension>)

  // ---------------------------------------------------------------- what a cleanup leaves

  function StampExpired(cut: Time): Keep.Stamped -> bool {
    (a: Keep.Stamped) => a.createdAt < cut
  }

  function IncidentExpired(cut: Time): Inc.Incident -> bool {
    (i: Inc.Incident) => i.state == Inc.Resolved && i.resolvedAt != Inc.ZERO_TIME && i.resolvedAt < cut
  }

  function DeliveryExpired(cut: Time): Queue.Delivery -> bool {
    (d: Queue.Delivery) => d.receivedAt < cut
  }

  function JobExpired(cut: Time): Queue.Job -> bool {
    (j: Queue.Job) => !Queue.Kept(j, cut)
  }

  function ExtExpired(now: Time): Keep.Extension -> bool {
    (x: Keep.Extension) => Keep.ExtensionExpired(x, now)
  }

  function RetainedHistory(h: History, cut: Time): History {
    History(
      Keep.KeptRecords(h.analyses, h.analysisOrder, StampExpired(cut)),
      Keep.KeptOrder(h.analyses, h.analysisOrder, StampExpired(cut)),
      Keep.KeptItems(h.environments, StampExpired(cut)),
      Keep.KeptRecords(h.auditEvents, h.auditOrder, StampExpired(cut)),
      Keep.KeptOrder(h.auditEvents, h.auditOrder, StampExpired(cut)))
  }

  function RetainedQueue(q: Queue.Queue, cut: Time): Queue.Queue {
    q.(jobs := Queue.KeptJobs(q.jobs, cut), deliveries := Queue.KeptDeliveries(q.deliveries, cut))
  }

  /** The store after a cleanup: of each collection what is not expired. */
  function Retained(s: State, cut: Time, now: Time): State {
    State(RetainedQueue(s.queue, cut), Keep.KeptValues(s.incidents, IncidentExpired(cut)), Notes.Cleaned(s.outbox, cut),
          RetainedHistory(s.history, cut), Keep.KeptValues(s.extensions, ExtExpired(now)))
  }

  /** On the job queue and on the outbox a cleanup is the step of that name. */
  lemma CleanupIsAStep(s: State, days: int, now: Time)
    requires days >= 1
    ensures var kept, cut := Retained(s, Keep.Cut(days, now), now), Keep.Cut(days, now);
            && kept.queue == Queue.Next(s.queue, Queue.Event(Queue.Cleanup(cut), now, true))
            && kept.outbox == Notes.Next(s.outbox, Notes.Cleanup(days, now, true))
  {}

  lemma {:induction false} KeptJobsAreItems(jobs: seq<Queue.Job>, cut: Time)
    ensures Queue.KeptJobs(jobs, cut) == Keep.KeptItems(jobs, JobExpired(cut))
  {
    if jobs == [] {
    } else {
      KeptJobsAreItems(jobs[..|jobs| - 1], cut);
    }
  }

  // ---------------------------------------------------------------- steps

  function OnQueue(s: State, e: Queue.Event): State {
    s.(queue := Queue.Next(s.queue, e))
  }

  function OnOutbox(s: State, e: Notes.Event): State {
    s.(outbox := Notes.Next(s.outbox, e))
  }

  function InactiveOnes(incidents: map<string, Inc.Incident>, cutoff: Time): map<string, Inc.Incident> {
    map k | k in incidents && Inc.Inactive(incidents[k], cutoff) :: incidents[k]
  }

  function Merged(known: map<string, Inc.Incident>, key: string, report: Inc.Incident): map<string, Inc.Incident> {
    known[key := if key in known then Inc.Merge(known[key], report) else report]
  }

  function Analyzed(h: History, id: string, analysis: Keep.Stamped, environment: Keep.Stamped): History {
    h.(analyses := h.analyses[id := analysis],
       analysisOrder := if id in h.analyses then h.analysisOrder else h.analysisOrder + [id],
       environments := h.environments + [environment])
  }

  // ---------------------------------------------------------------- the store

  /** Copies of the collections of the history. */
  datatype HistoryClone = HistoryClone(
    analyses: map<string, Keep.Stamped>, analysisOrder: array<string>, environments: array<Keep.Stamped>,
    auditEvents: map<string, Keep.Stamped>, auditOrder: array<string>)
  {
    ghost function Contents(): History
      reads analysisOrder, environments, auditOrder
    {
      History(analyses, analysisOrder[..], environments[..], auditEvents, auditOrder[..])
    }
  }

  /** Copies of the eleven collections that a cleanup changes. */
  datatype Clones = Clones(
    history: HistoryClone, jobs: array<Queue.Job>, deliveries: map<string, Queue.Delivery>,
    incidents: map<string, Inc.Incident>, notificationOrder: array<string>,
    notifications: map<string, Notes.Notification>, extensions: map<string, Keep.Extension>)
  {
    ghost predicate Distinct() {
      && notificationOrder != history.analysisOrder && notificationOrder != history.auditOrder
      && history.analysisOrder != history.auditOrder
    }

    /** The state these copies and the rest of the store amount to. */
    ghost function Contents(nextJobID: int, tenants: map<string, bool>): State
      reads history.analysisOrder, history.environments, history.auditOrder, jobs, notificationOrder
    {
      State(Queue.Queue(nextJobID, jobs[..], tenants, deliveries), incidents,
            Notes.Outbox(notifications, notificationOrder[..]), history.Contents(), extensions)
    }
  }

  class Store {
    var nextJobID: int
    const jobs: List<Queue.Job>
    var tenants: map<string, bool>
    var deliveries: map<string, Queue.Delivery>
    var incidents: map<string, Inc.Incident>
    var notifications: map<string, Notes.Notification>
    const notificationOrder: List<string>
    var analyses: map<string, Keep.Stamped>
    const analysisOrder: List<string>
    const environments: List<Keep.Stamped>
    var auditEvents: map<string, Keep.Stamped>
    const auditOrder: List<string>
    var extensions: map<string, Keep.Extension>

    ghost predicate HistoryValid()
      reads this, analysisOrder, analysisOrder.data, environments, environments.data, auditOrder, auditOrder.data
    {
      && analysisOrder.Valid() && environments.Valid() && auditOrder.Valid()
      && analysisOrder != auditOrder && analysisOrder.data != auditOrder.data
    }

    /** The order lists and their arrays are not shared. */
    ghost predicate Valid()
      reads this, jobs, jobs.data, notificationOrder, notificationOrder.data, analysisOrder, analysisOrder.data
      reads environments, environments.data, auditOrder, auditOrder.data
    {
      && jobs.Valid() && notificationOrder.Valid() && HistoryValid()
      && notificationOrder != analysisOrder && notificationOrder != auditOrder
      && notificationOrder.data != analysisOrder.data && notificationOrder.data != auditOrder.data
    }

    ghost function JobState(): Queue.Queue
      reads this, jobs
    {
      Queue.Queue(nextJobID, jobs.items, tenants, deliveries)
    }

    ghost function Outbox(): Notes.Outbox
      reads this, notificationOrder
    {
      Notes.Outbox(notifications, notificationOrder.items)
    }

    ghost function Archive(): History
      reads this, analysisOrder, environments, auditOrder
    {
      History(analyses, analysisOrder.items, environments.items, auditEvents, auditOrder.items)
    }

    ghost function Contents(): State
      reads this, jobs, notificationOrder, analysisOrder, environments, auditOrder
    {
      State(JobState(), incidents, Outbox(), Archive(), extensions)
    }

    constructor (s: State)
      ensures Valid() && Contents() == s
      ensures fresh(jobs) && fresh(jobs.data) && fresh(notificationOrder) && fresh(notificationOrder.data)
      ensures fresh(analysisOrder) && fresh(analysisOrder.data) && fresh(environments) && fresh(environments.data)
      ensures fresh(auditOrder) && fresh(auditOrder.data)
    {
      nextJobID, tenants, deliveries := s.queue.nextID, s.queue.tenants, s.queue.deliveries;
      incidents, notifications, analyses := s.incidents, s.outbox.records, s.history.analyses;
      auditEvents, extensions := s.history.auditEvents, s.extensions;
      jobs := new List(s.queue.jobs);
      notificationOrder := new List(s.outbox.order);
      analysisOrder := new List(s.history.analysisOrder);
      environments := new List(s.history.environments);
      auditOrder := new List(s.history.auditOrder);
    }

    /** The lists and their arrays. */
    ghost function Parts(): set<object>
      reads jobs, notificationOrder, analysisOrder, environments, auditOrder
    {
      {jobs, jobs.data, notificationOrder, notificationOrder.data, analysisOrder, analysisOrder.data,
       environments, environments.data, auditOrder, auditOrder.data}
    }

    /** Every list still has its array, or one of its own. */
    twostate predicate ArraysOwned()
      reads jobs, notificationOrder, analysisOrder, environments, auditOrder
    {
      && (jobs.data == old(jobs.data) || fresh(jobs.data))
      && (environments.data == old(environments.data) || fresh(environments.data))
      && (notificationOrder.data == old(notificationOrder.data) || fresh(notificationOrder.data))
      && (analysisOrder.data == old(analysisOrder.data) || fresh(analysisOrder.data))
      && (auditOrder.data == old(auditOrder.data) || fresh(auditOrder.data))
    }

    /** The state that is written when the store persists. */
    method Snapshot() returns (s: State)
      requires Valid()
      ensures s == Contents()
    {
      s := State(Queue.Queue(nextJobID, jobs.Elements(), tenants, deliveries), incidents,
                 Notes.Outbox(notifications, notificationOrder.Elements()),
                 History(analyses, analysisOrder.Elements(), environments.Elements(), auditEvents, auditOrder.Elements()),
                 extensions);
    }

    // ---------------------------------------------------------------- jobs

    method EnqueueForTenant(tenant: string, typ: string, payload: string, availableAt: Time, now: Time, saved: bool)
      returns (reply: Queue.Reply)
      requires jobs.Valid()
      modifies this`nextJobID, jobs, jobs.data
      ensures jobs.Valid() && (jobs.data == old(jobs.data) || fresh(jobs.data))
      ensures var e := Queue.Event(Queue.Enqueue(tenant, typ, payload, availableAt), now, saved);
              JobState() == Queue.Next(old(JobState()), e) && reply == Queue.ReplyTo(old(JobState()), e)
    {
      if typ == "" {
        return Queue.Invalid;
      }
      var available := if availableAt == Queue.ZERO_TIME then now else availableAt;
      if tenant !in tenants || !tenants[tenant] {
        return Queue.Invalid;
      }
      var oldNext, oldLen := nextJobID, jobs.count;
      jobs.Append(Queue.Job(nextJobID, tenant, typ, payload, Queue.Queued, 0, available, Queue.ZERO_TIME, "", "", now, now));
      nextJobID := nextJobID + 1;
      if !saved {
        nextJobID := oldNext;
        jobs.Truncate(oldLen);
        assert jobs.items == old(jobs.items);
        return Queue.NotSaved;
      }
      reply := Queue.Accepted;
    }

    method EnqueueDeliveryForTenant(deliveryID: string, eventType: string, tenant: string, typ: string,
                                    payload: string, availableAt: Time, now: Time, saved: bool)
      returns (reply: Queue.Reply)
      requires jobs.Valid()
      modifies this`nextJobID, this`deliveries, jobs, jobs.data
      ensures jobs.Valid() && (jobs.data == old(jobs.data) || fresh(jobs.data))
      ensures var e := Queue.Event(Queue.EnqueueDelivery(deliveryID, eventType, tenant, typ, payload, availableAt),
                                   now, saved);
              JobState() == Queue.Next(old(JobState()), e) && reply == Queue.ReplyTo(old(JobState()), e)
    {
      if deliveryID == "" || typ == "" {
        return Queue.Invalid;
      }
      var available := if availableAt == Queue.ZERO_TIME then now else availableAt;
      if deliveryID in deliveries {
        return Queue.AlreadyDelivered;
      }
      if tenant !in tenants || !tenants[tenant] {
        return Queue.Invalid;
      }
      var oldNext, oldLen := nextJobID, jobs.count;
      deliveries := deliveries[deliveryID := Queue.Delivery(eventType, now, "queued", "")];
      jobs.Append(Queue.Job(nextJobID, tenant, typ, payload, Queue.Queued, 0, available, Queue.ZERO_TIME, "", "", now, now));
      nextJobID := nextJobID + 1;
      if !saved {
        deliveries := deliveries - {deliveryID};
        jobs.Truncate(oldLen);
        nextJobID := oldNext;
        assert jobs.items == old(jobs.items);
        return Queue.NotSaved;
      }
      reply := Queue.Accepted;
    }

    method RecordDelivery(deliveryID: string, eventType: string, now: Time, saved: bool) returns (reply: Queue.Reply)
      modifies this`deliveries
      ensures var e := Queue.Event(Queue.RecordDelivery(deliveryID, eventType, "received", ""), now, saved);
              JobState() == Queue.Next(old(JobState()), e) && reply == Queue.ReplyTo(old(JobState()), e)
    {
      if deliveryID == "" {
        return Queue.Invalid;
      }
      if deliveryID in deliveries {
        return Queue.AlreadyDelivered;
      }
      deliveries := deliveries[deliveryID := Queue.Delivery(eventType, now, "received", "")];
      if !saved {
        deliveries := deliveries - {deliveryID};
        return Queue.NotSaved;
      }
      reply := Queue.Accepted;
    }

    method RecordTerminalDelivery(deliveryID: string, eventType: string, status: string, error: string, now: Time,
                                  saved: bool)
      returns (reply: Queue.Reply)
      modifies this`deliveries
      ensures var e := Queue.Event(Queue.RecordDelivery(deliveryID, eventType, status, error), now, saved);
              JobState() == Queue.Next(old(JobState()), e) && reply == Queue.ReplyTo(old(JobState()), e)
    {
      if deliveryID == "" || status == "" {
        return Queue.Invalid;
      }
      if deliveryID in deliveries {
        return Queue.AlreadyDelivered;
      }
      deliveries := deliveries[deliveryID := Queue.Delivery(eventType, now, status, Queue.Trim(error, 4000))];
      if !saved {
        deliveries := deliveries - {deliveryID};
        return Queue.NotSaved;
      }
      reply := Queue.Accepted;
    }

    method ClaimDelivery(deliveryID: string, eventType: string, staleAfter: int, now: Time, saved: bool)
      returns (reply: Queue.Reply)
      modifies this`deliveries
      ensures var e := Queue.Event(Queue.ClaimDelivery(deliveryID, eventType, staleAfter), now, saved);
              JobState() == Queue.Next(old(JobState()), e) && reply == Queue.ReplyTo(old(JobState()), e)
    {
      if deliveryID == "" {
        return Queue.Invalid;
      }
      var window := staleAfter;
      if window <= 0 {
        window := 5 * 60 * Queue.SECOND;
      }
      var existed := deliveryID in deliveries;
      var claim := Queue.Delivery(eventType, now, "processing", "");
      var prior := if existed then deliveries[deliveryID] else claim;
      if existed {
        if prior.status in ["processed", "queued", "ignored", "invalid", "unbound"] {
          return Queue.AlreadyDelivered;
        }
        if prior.status == "processing" && now - prior.receivedAt < window {
          return Queue.AlreadyDelivered;
        }
      }
      deliveries := deliveries[deliveryID := claim];
      if !saved {
        if existed {
          deliveries := deliveries[deliveryID := prior];
        } else {
          deliveries := deliveries - {deliveryID};
        }
        return Queue.NotSaved;
      }
      reply := Queue.Accepted;
    }

    method UpdateDelivery(deliveryID: string, status: string, error: string, now: Time, saved: bool)
      returns (reply: Queue.Reply)
      modifies this`deliveries
      ensures var e := Queue.Event(Queue.UpdateDelivery(deliveryID, status, error), now, saved);
              JobState() == Queue.Next(old(JobState()), e) && reply == Queue.ReplyTo(old(JobState()), e)
    {
      if deliveryID !in deliveries {
        return Queue.Accepted;
      }
      var prior := deliveries[deliveryID];
      deliveries := deliveries[deliveryID := prior.(status := status, error := Queue.Trim(error, 4000))];
      if !saved {
        deliveries := deliveries[deliveryID := prior];
        return Queue.NotSaved;
      }
      reply := Queue.Accepted;
    }

    /** Find the eligible job with the smallest ID, or -1. */
    method FindEligible(now: Time) returns (idx: int)
      requires jobs.Valid()
      ensures idx == Queue.Candidate(JobState(), now, jobs.count)
    {
      idx := -1;
      for i := 0 to jobs.count
        invariant idx == Queue.Candidate(JobState(), now, i)
      {
        var j := jobs.Get(i);
        if j.tenant !in tenants || !tenants[j.tenant] {
          continue;
        }
        if j.status == Queue.Queued && j.availableAt <= now {
          if idx < 0 || j.id < jobs.Get(idx).id {
            idx := i;
          }
        }
      }
    }

    method ClaimJob(worker: string, random: string, now: Time, saved: bool) returns (reply: Queue.Reply)
      requires jobs.Valid()
      modifies jobs`items, jobs.data
      ensures jobs.Valid()
      ensures var e := Queue.Event(Queue.Claim(worker, random), now, saved);
              JobState() == Queue.Next(old(JobState()), e) && reply == Queue.ReplyTo(old(JobState()), e)
    {
      if worker == "" {
        return Queue.Invalid;
      }
      var lease := worker + ":" + random;
      var idx := FindEligible(now);
      if idx < 0 {
        return Queue.NoJob;
      }
      var prior := jobs.Get(idx);
      var j := prior.(status := Queue.Running, lockedAt := now, lockedBy := lease, attempts := prior.attempts + 1,
                      updatedAt := now);
      jobs.Set(idx, j);
      if !saved {
        jobs.Set(idx, prior);
        assert jobs.items == old(jobs.items);
        return Queue.NotSaved;
      }
      reply := Queue.Claimed(j.id, j.attempts, lease);
    }

    /** Find the first job with the ID. */
    method FindJob(id: int) returns (i: nat)
      requires jobs.Valid()
      ensures i == Queue.Find(jobs.items, id)
    {
      i := 0;
      while i < jobs.count && jobs.Get(i).id != id
        invariant i <= jobs.count
        invariant forall k :: 0 <= k < i ==> jobs.items[k].id != id
      {
        i := i + 1;
      }
      FindIs(jobs.items, id, i);
    }

    method RenewJobLease(id: int, token: string, now: Time, saved: bool) returns (reply: Queue.Reply)
      requires jobs.Valid()
      modifies jobs`items, jobs.data
      ensures jobs.Valid()
      ensures var e := Queue.Event(Queue.Renew(id, token), now, saved);
              JobState() == Queue.Next(old(JobState()), e) && reply == Queue.ReplyTo(old(JobState()), e)
    {
      var i := FindJob(id);
      if i == jobs.count || jobs.Get(i).status != Queue.Running || !Queue.SecureEqualText(jobs.Get(i).lockedBy, token) {
        return Queue.LeaseLost;
      }
      var j := jobs.Get(i);
      jobs.Set(i, j.(lockedAt := now, updatedAt := now));
      if !saved {
        jobs.Set(i, jobs.Get(i).(lockedAt := j.lockedAt, updatedAt := j.updatedAt));
        assert jobs.items == old(jobs.items);
        return Queue.NotSaved;
      }
      reply := Queue.Accepted;
    }

    method CompleteJob(id: int, token: string, now: Time, saved: bool) returns (reply: Queue.Reply)
      requires jobs.Valid()
      modifies jobs`items, jobs.data
      ensures jobs.Valid()
      ensures var e := Queue.Event(Queue.Complete(id, token), now, saved);
              JobState() == Queue.Next(old(JobState()), e) && reply == Queue.ReplyTo(old(JobState()), e)
    {
      var i := FindJob(id);
      if i == jobs.count || jobs.Get(i).status != Queue.Running || !Queue.SecureEqualText(jobs.Get(i).lockedBy, token) {
        return Queue.LeaseLost;
      }
      var j := jobs.Get(i);
      jobs.Set(i, j.(status := Queue.Done, lockedAt := Queue.ZERO_TIME, lockedBy := "", updatedAt := now));
      if !saved {
        jobs.Set(i, j);
        assert jobs.items == old(jobs.items);
        return Queue.NotSaved;
      }
      reply := Queue.Accepted;
    }

    method FailJob(id: int, token: string, attempts: int, error: string, now: Time, saved: bool)
      returns (reply: Queue.Reply)
      requires jobs.Valid()
      modifies jobs`items, jobs.data
      ensures jobs.Valid()
      ensures var e := Queue.Event(Queue.Fail(id, token, attempts, error), now, saved);
              JobState() == Queue.Next(old(JobState()), e) && reply == Queue.ReplyTo(old(JobState()), e)
    {
      var i := FindJob(id);
      if i == jobs.count || jobs.Get(i).status != Queue.Running || !Queue.SecureEqualText(jobs.Get(i).lockedBy, token) {
        return Queue.LeaseLost;
      }
      var j := jobs.Get(i);
      var failed := j.(status := Queue.Queued);
      if attempts >= 8 {
        failed := failed.(status := Queue.Failed);
      }
      failed := failed.(lastError := Queue.Trim(error, 4000),
                        availableAt := now + attempts * attempts * 10 * Queue.SECOND,
                        lockedAt := Queue.ZERO_TIME, lockedBy := "", updatedAt := now);
      jobs.Set(i, failed);
      if !saved {
        jobs.Set(i, j);
        assert jobs.items == old(jobs.items);
        return Queue.NotSaved;
      }
      reply := Queue.Accepted;
    }

    /** Put the stale jobs back, in place. */
    method RequeueInPlace(cut: Time, now: Time) returns (changed: bool)
      requires jobs.Valid()
      modifies jobs`items, jobs.data
      ensures jobs.Valid() && jobs.items == Queue.RequeuedJobs(old(jobs.items), cut, now)
      ensures changed <==> exists k :: 0 <= k < |old(jobs.items)| && Queue.Stale(old(jobs.items)[k], cut)
    {
      changed := false;
      ghost var prior := jobs.items;
      for i := 0 to jobs.count
        invariant jobs.Valid() && |jobs.items| == |prior|
        invariant forall k :: 0 <= k < |prior| ==>
                    jobs.items[k] == if k < i then Queue.RequeuedJob(prior[k], cut, now) else prior[k]
        invariant changed <==> exists k :: 0 <= k < i && Queue.Stale(prior[k], cut)
      {
        var j := jobs.Get(i);
        if j.status == Queue.Running && j.lockedAt != Queue.ZERO_TIME && j.lockedAt < cut {
          jobs.Set(i, j.(status := Queue.Queued, lockedAt := Queue.ZERO_TIME, lockedBy := "", updatedAt := now));
          changed := true;
        }
      }
      assert jobs.items == Queue.RequeuedJobs(prior, cut, now);
    }

    method RequeueStaleJobs(olderThan: int, now: Time, saved: bool) returns (reply: Queue.Reply)
      requires jobs.Valid()
      modifies jobs, jobs.data
      ensures jobs.Valid() && (jobs.data == old(jobs.data) || fresh(jobs.data))
      ensures var e := Queue.Event(Queue.RequeueStale(olderThan), now, saved);
              JobState() == Queue.Next(old(JobState()), e) && reply == Queue.ReplyTo(old(JobState()), e)
    {
      if olderThan <= 0 {
        return Queue.Invalid;
      }
      var cut := now - olderThan;
      var prior := jobs.Clone();
      ghost var items := jobs.items;
      var changed := RequeueInPlace(cut, now);
      if !changed {
        assert jobs.items == items;
        return Queue.Accepted;
      }
      if !saved {
        jobs.Restore(prior);
        return Queue.NotSaved;
      }
      reply := Queue.Accepted;
    }

    /** Do an operation of the queue, whichever it is. */
    method DoJobs(op: Queue.Op, now: Time, saved: bool) returns (reply: Queue.Reply)
      requires jobs.Valid() && !op.Cleanup?
      modifies this`nextJobID, this`deliveries, jobs, jobs.data
      ensures jobs.Valid() && (jobs.data == old(jobs.data) || fresh(jobs.data))
      ensures var e := Queue.Event(op, now, saved);
              JobState() == Queue.Next(old(JobState()), e) && reply == Queue.ReplyTo(old(JobState()), e)
    {
      match op {
        case Enqueue(tenant, typ, payload, availableAt) =>
          reply := EnqueueForTenant(tenant, typ, payload, availableAt, now, saved);
        case EnqueueDelivery(deliveryID, eventType, tenant, typ, payload, availableAt) =>
          reply := EnqueueDeliveryForTenant(deliveryID, eventType, tenant, typ, payload, availableAt, now, saved);
        case RecordDelivery(deliveryID, eventType, status, error) =>
          reply := RecordTerminalDelivery(deliveryID, eventType, status, error, now, saved);
        case ClaimDelivery(deliveryID, eventType, staleAfter) =>
          reply := ClaimDelivery(deliveryID, eventType, staleAfter, now, saved);
        case UpdateDelivery(deliveryID, status, error) => reply := UpdateDelivery(deliveryID, status, error, now, saved);
        case Claim(worker, random) => reply := ClaimJob(worker, random, now, saved);
        case Renew(id, token) => reply := RenewJobLease(id, token, now, saved);
        case Complete(id, token) => reply := CompleteJob(id, token, now, saved);
        case Fail(id, token, attempts, error) => reply := FailJob(id, token, attempts, error, now, saved);
        case RequeueStale(olderThan) => reply := RequeueStaleJobs(olderThan, now, saved);
        case Cleanup(_) => assert false;
      }
    }

    // ---------------------------------------------------------------- analyses

    method PutAnalysis(id: string, analysis: Keep.Stamped)
      requires analysisOrder.Valid()
      modifies this`analyses, analysisOrder, analysisOrder.data
      ensures analysisOrder.Valid() && (analysisOrder.data == old(analysisOrder.data) || fresh(analysisOrder.data))
      ensures analyses == old(analyses)[id := analysis]
      ensures analysisOrder.items == if id in old(analyses) then old(analysisOrder.items) else old(analysisOrder.items) + [id]
    {
      if id !in analyses {
        analysisOrder.Append(id);
      }
      analyses := analyses[id := analysis];
    }

    /** Record an analysis and its environment; the order list gets the analysis once. */
    method RecordAnalysis(tenant: string, id: string, analysis: Keep.Stamped, environment: Keep.Stamped, saved: bool)
      returns (ok: bool)
      requires analysisOrder.Valid() && environments.Valid()
      modifies this`analyses, analysisOrder, analysisOrder.data, environments, environments.data
      ensures analysisOrder.Valid() && (analysisOrder.data == old(analysisOrder.data) || fresh(analysisOrder.data))
      ensures environments.Valid() && (environments.data == old(environments.data) || fresh(environments.data))
      ensures ok <==> saved && tenant in tenants
      ensures analyses == if ok then old(analyses)[id := analysis] else old(analyses)
      ensures analysisOrder.items == old(analysisOrder.items) + if ok && id !in old(analyses) then [id] else []
      ensures environments.items == old(environments.items) + if ok then [environment] else []
    {
      if tenant !in tenants {
        return false;
      }
      var existed := id in analyses;
      var prior := if existed then analyses[id] else analysis;
      var oldOrderLen, oldEnvironmentLen := analysisOrder.count, environments.count;
      PutAnalysis(id, analysis);
      environments.Append(environment);
      if saved {
        return true;
      }
      analyses := if existed then analyses[id := prior] else analyses - {id};
      assert analyses == old(analyses);
      analysisOrder.Truncate(oldOrderLen);
      environments.Truncate(oldEnvironmentLen);
      ok := false;
    }

    // ---------------------------------------------------------------- incidents

    method UpsertIncident(key: string, report: Inc.Incident, saved: bool) returns (ok: bool)
      modifies this`incidents
      ensures ok == saved
      ensures incidents == if saved then Merged(old(incidents), key, report) else old(incidents)
    {
      var i := report;
      if key in incidents {
        var known := incidents[key];
        if known.firstSeenAt < i.firstSeenAt {
          i := i.(firstSeenAt := known.firstSeenAt);
        }
        if Inc.SeverityRank(known.severity) > Inc.SeverityRank(i.severity) {
          i := i.(severity := known.severity);
        }
        if known.repositoryCount > i.repositoryCount {
          i := i.(repositoryCount := known.repositoryCount);
        }
        if known.organizationCount > i.organizationCount {
          i := i.(organizationCount := known.organizationCount);
        }
        if known.occurrenceCount > i.occurrenceCount {
          i := i.(occurrenceCount := known.occurrenceCount);
        }
        if known.state == Inc.Acknowledged && i.state == Inc.Open {
          i := i.(state := known.state, acknowledgedAt := known.acknowledgedAt, acknowledgedBy := known.acknowledgedBy);
        }
        if known.state == Inc.Resolved && i.lastSeenAt > known.resolvedAt {
          i := i.(state := Inc.Open, resolvedAt := Inc.ZERO_TIME, resolvedBy := "", resolutionNote := "");
        }
      }
      var existed := key in incidents;
      var prior := if existed then incidents[key] else i;
      incidents := incidents[key := i];
      if !saved {
        if existed {
          incidents := incidents[key := prior];
        } else {
          incidents := incidents - {key};
        }
      }
      ok := saved;
    }

    /** Resolve the inactive incidents and keep what they were. */
    method ResolveInactive(cutoff: Time, now: Time) returns (previous: map<string, Inc.Incident>)
      modifies this`incidents
      ensures previous == InactiveOnes(old(incidents), cutoff)
      ensures incidents == Inc.ResolveStale(old(incidents), cutoff, now)
    {
      previous := map[];
      ghost var was := incidents;
      var remaining := incidents.Keys;
      while remaining != {}
        invariant remaining <= was.Keys == incidents.Keys
        invariant forall k :: k in previous <==> k in was && k !in remaining && Inc.Inactive(was[k], cutoff)
        invariant forall k :: k in previous ==> previous[k] == was[k]
        invariant forall k :: k in was ==> incidents[k] == if k in previous then Inc.AutoResolved(was[k], now) else was[k]
        decreases remaining
      {
        var k :| k in remaining;
        var incident := incidents[k];
        if (incident.state == Inc.Open || incident.state == Inc.Acknowledged) && incident.lastSeenAt < cutoff {
          previous := previous[k := incident];
          incidents := incidents[k := incident.(state := Inc.Resolved, resolvedAt := now, resolvedBy := "system",
                                                resolutionNote := "Automatically resolved after inactivity")];
        }
        remaining := remaining - {k};
      }
    }

    method ResolveStaleIncidents(cutoff: Time, now: Time, saved: bool) returns (ok: bool, resolved: set<string>)
      modifies this`incidents
      ensures var stale := InactiveOnes(old(incidents), cutoff);
              && (ok <==> saved || stale == map[])
              && resolved == (if ok then stale.Keys else {})
              && incidents == if ok then Inc.ResolveStale(old(incidents), cutoff, now) else old(incidents)
    {
      var previous := ResolveInactive(cutoff, now);
      ok, resolved := true, previous.Keys;
      if |previous| > 0 && !saved {
        incidents := incidents + previous;
        ok, resolved := false, {};
        assert incidents == old(incidents);
      }
    }

    // ---------------------------------------------------------------- notifications

    /** Store a record and persist it; an error takes it back. */
    method PutRecord(key: string, d: Notes.Notification, saved: bool)
      requires notificationOrder.Valid()
      modifies this`notifications, notificationOrder, notificationOrder.data
      ensures notificationOrder.Valid()
      ensures notificationOrder.data == old(notificationOrder.data) || fresh(notificationOrder.data)
      ensures Outbox() == if saved then Notes.Put(old(Outbox()), key, d) else old(Outbox())
    {
      var existed := key in notifications;
      var prior := if existed then notifications[key] else d;
      var oldOrderLen := notificationOrder.count;
      if !existed {
        notificationOrder.Append(key);
      }
      notifications := notifications[key := d];
      if !saved {
        if existed {
          notifications := notifications[key := prior];
        } else {
          notifications := notifications - {key};
        }
        notificationOrder.Truncate(oldOrderLen);
        assert notifications == old(notifications) && notificationOrder.items == old(notificationOrder.items);
      }
    }

    method RecordNotificationDelivery(record: Notes.Notification, ghost now: Time, saved: bool) returns (ok: bool)
      requires notificationOrder.Valid()
      modifies this`notifications, notificationOrder, notificationOrder.data
      ensures notificationOrder.Valid()
      ensures notificationOrder.data == old(notificationOrder.data) || fresh(notificationOrder.data)
      ensures ok == saved && Outbox() == Notes.Next(old(Outbox()), Notes.Record(record, now, saved))
    {
      var d := record;
      if d.id == "" {
        d := d.(id := Notes.NotificationKey(d.tenant, d.eventID, d.channel));
      }
      if d.id in notifications && d.createdAt == 0 {
        d := d.(createdAt := notifications[d.id].createdAt);
      }
      PutRecord(d.id, d, saved);
      ok := saved;
    }

    /** Look through the records for one that stands in the way of the request. */
    method FindConflict(r: Notes.Request, now: Time) returns (reason: string)
      ensures Notes.ConflictFound(Outbox(), r, now, reason)
    {
      reason := "";
      var remaining := notifications.Keys;
      while remaining != {}
        invariant remaining <= notifications.Keys
        invariant forall k :: k in notifications && k !in remaining ==> Notes.ConflictWith(notifications[k], r, now) == ""
        decreases remaining
      {
        var k :| k in remaining;
        remaining := remaining - {k};
        var existing := notifications[k];
        if existing.id == Notes.KeyOf(r) || existing.tenant != r.tenant || existing.channel != r.channel
           || existing.dedupeKey != r.dedupeKey {
          continue;
        }
        var found := "";
        if existing.status == Notes.Sent && existing.sentAt >= now - r.cooldown {
          found := "cooldown";
        }
        if (existing.status == Notes.Sending || existing.status == Notes.Retrying)
           && existing.updatedAt > now - Notes.IN_FLIGHT_WINDOW {
          found := "in_flight";
        }
        if found != "" {
          return found;
        }
      }
    }

    /** Decide about the request, given the reason found. */
    method BeginFound(r: Notes.Request, conflict: string, now: Time, saved: bool) returns (ok: bool, decision: Notes.Decision)
      requires notificationOrder.Valid()
      modifies this`notifications, notificationOrder, notificationOrder.data
      ensures notificationOrder.Valid()
      ensures notificationOrder.data == old(notificationOrder.data) || fresh(notificationOrder.data)
      ensures decision == Notes.BeginPlan(old(Outbox()), r, now, conflict).0
      ensures Outbox() == Notes.Next(old(Outbox()), Notes.Begin(r, now, conflict, saved))
      ensures ok <==> saved || Notes.BeginPlan(old(Outbox()), r, now, conflict).1 == old(Outbox())
    {
      var id := Notes.KeyOf(r);
      var existed := id in notifications;
      var original := if existed then notifications[id] else Notes.FreshRecord(r, now);
      if existed {
        if Notes.Settled(original, now) {
          return true, Notes.Skip;
        }
        if original.attempts >= Notes.AttemptLimit(r) {
          var failed := original.(status := Notes.Failed, updatedAt := now);
          assert failed != original;
          PutRecord(id, failed, saved);
          return saved, Notes.Skip;
        }
      }
      ok := saved;
      if r.cooldown > 0 && r.dedupeKey != "" && conflict != "" {
        var suppressed := Notes.SuppressedRecord(r, conflict, now);
        assert existed ==> original != suppressed;
        PutRecord(id, suppressed, saved);
        decision := Notes.Suppress;
      } else {
        PutRecord(id, original.(status := Notes.Sending, attempts := original.attempts + 1, updatedAt := now,
                                lastError := "", httpStatus := 0), saved);
        decision := Notes.Send;
      }
    }

    method BeginNotificationDelivery(r: Notes.Request, now: Time, saved: bool)
      returns (ok: bool, decision: Notes.Decision, ghost reason: string)
      requires notificationOrder.Valid()
      modifies this`notifications, notificationOrder, notificationOrder.data
      ensures notificationOrder.Valid()
      ensures notificationOrder.data == old(notificationOrder.data) || fresh(notificationOrder.data)
      ensures Notes.ConflictFound(old(Outbox()), r, now, reason)
      ensures decision == Notes.BeginPlan(old(Outbox()), r, now, reason).0
      ensures Outbox() == Notes.Next(old(Outbox()), Notes.Begin(r, now, reason, saved))
      ensures ok <==> saved || Notes.BeginPlan(old(Outbox()), r, now, reason).1 == old(Outbox())
      ensures Asked.DecisionFor(old(Outbox()), r, now, decision)
    {
      ghost var box := Outbox();
      var conflict := FindConflict(r, now);
      reason := conflict;
      ok, decision := BeginFound(r, conflict, now, saved);
      Asked.DecisionIs(box, r, now, reason);
    }

    // ---------------------------------------------------------------- cleanup

    method SweepHistory(cut: Time)
      requires HistoryValid()
      modifies this`analyses, this`auditEvents
      modifies analysisOrder`count, analysisOrder`items, analysisOrder.data
      modifies auditOrder`count, auditOrder`items, auditOrder.data
      modifies environments`count, environments`items, environments.data
      ensures HistoryValid() && Archive() == RetainedHistory(old(Archive()), cut)
    {
      analyses := SweepRecords(analyses, analysisOrder, StampExpired(cut));
      environments.Filter(StampExpired(cut));
      auditEvents := SweepRecords(auditEvents, auditOrder, StampExpired(cut));
    }

    method SweepWork(cut: Time)
      requires jobs.Valid()
      modifies this`deliveries, jobs`count, jobs`items, jobs.data
      ensures jobs.Valid() && JobState() == RetainedQueue(old(JobState()), cut)
    {
      KeptJobsAreItems(jobs.items, cut);
      jobs.Filter(JobExpired(cut));
      deliveries := Keep.SweepValues(deliveries, DeliveryExpired(cut));
    }

    method SweepAlerts(cut: Time, now: Time)
      requires notificationOrder.Valid()
      modifies this`notifications, this`incidents, this`extensions
      modifies notificationOrder`count, notificationOrder`items, notificationOrder.data
      ensures notificationOrder.Valid() && Outbox() == Notes.Cleaned(old(Outbox()), cut)
      ensures incidents == Keep.KeptValues(old(incidents), IncidentExpired(cut))
      ensures extensions == Keep.KeptValues(old(extensions), ExtExpired(now))
    {
      notifications := SweepRecords(notifications, notificationOrder, Notes.Expired(cut));
      incidents := Keep.SweepValues(incidents, IncidentExpired(cut));
      extensions := Keep.SweepValues(extensions, ExtExpired(now));
    }

    method SweepCurrent(cut: Time, now: Time)
      requires jobs.Valid() && notificationOrder.Valid()
      modifies this`deliveries, this`notifications, this`incidents, this`extensions
      modifies jobs`count, jobs`items, jobs.data
      modifies notificationOrder`count, notificationOrder`items, notificationOrder.data
      ensures jobs.Valid() && JobState() == RetainedQueue(old(JobState()), cut)
      ensures notificationOrder.Valid() && Outbox() == Notes.Cleaned(old(Outbox()), cut)
      ensures incidents == Keep.KeptValues(old(incidents), IncidentExpired(cut))
      ensures extensions == Keep.KeptValues(old(extensions), ExtExpired(now))
    {
      SweepWork(cut);
      SweepAlerts(cut, now);
    }

    method SweepAll(cut: Time, now: Time)
      requires Valid()
      modifies this`analyses, this`auditEvents, this`deliveries, this`notifications, this`incidents, this`extensions
      modifies jobs`count, jobs`items, jobs.data, environments`count, environments`items, environments.data
      modifies analysisOrder`count, analysisOrder`items, analysisOrder.data
      modifies auditOrder`count, auditOrder`items, auditOrder.data
      modifies notificationOrder`count, notificationOrder`items, notificationOrder.data
      ensures Valid() && JobState() == RetainedQueue(old(JobState()), cut)
      ensures Outbox() == Notes.Cleaned(old(Outbox()), cut) && Archive() == RetainedHistory(old(Archive()), cut)
      ensures incidents == Keep.KeptValues(old(incidents), IncidentExpired(cut))
      ensures extensions == Keep.KeptValues(old(extensions), ExtExpired(now))
    {
      SweepHistory(cut);
      SweepCurrent(cut, now);
    }

    method SweepContents(cut: Time, now: Time)
      requires Valid()
      modifies this`analyses, this`auditEvents, this`deliveries, this`notifications, this`incidents, this`extensions
      modifies jobs`count, jobs`items, jobs.data, environments`count, environments`items, environments.data
      modifies analysisOrder`count, analysisOrder`items, analysisOrder.data
      modifies auditOrder`count, auditOrder`items, auditOrder.data
      modifies notificationOrder`count, notificationOrder`items, notificationOrder.data
      ensures Valid() && Contents() == Retained(old(Contents()), cut, now)
    {
      SweepAll(cut, now);
    }

    /** Copy the history: the filters overwrite the arrays of its lists. */
    method CloneHistory() returns (c: HistoryClone)
      requires HistoryValid()
      ensures c.Contents() == Archive() && c.analysisOrder != c.auditOrder
      ensures fresh(c.analysisOrder) && fresh(c.environments) && fresh(c.auditOrder)
    {
      var a := analysisOrder.Clone();
      var e := environments.Clone();
      var t := auditOrder.Clone();
      c := HistoryClone(analyses, a, e, auditEvents, t);
    }

    method RestoreHistory(c: HistoryClone)
      requires HistoryValid() && c.analysisOrder != c.auditOrder
      modifies this`analyses, this`auditEvents, analysisOrder, auditOrder, environments
      ensures HistoryValid() && Archive() == c.Contents()
      ensures analysisOrder.data == c.analysisOrder && auditOrder.data == c.auditOrder
      ensures environments.data == c.environments
    {
      analyses := c.analyses;
      analysisOrder.Restore(c.analysisOrder);
      environments.Restore(c.environments);
      auditEvents := c.auditEvents;
      auditOrder.Restore(c.auditOrder);
    }

    method Clone() returns (c: Clones)
      requires Valid()
      ensures c.Contents(nextJobID, tenants) == Contents() && c.Distinct()
      ensures fresh(c.history.analysisOrder) && fresh(c.history.environments) && fresh(c.history.auditOrder)
      ensures fresh(c.jobs) && fresh(c.notificationOrder)
    {
      var h := CloneHistory();
      var j := jobs.Clone();
      var n := notificationOrder.Clone();
      c := Clones(h, j, deliveries, incidents, n, notifications, extensions);
    }

    method RestoreAlerts(c: Clones)
      modifies this`notifications, this`incidents, this`extensions, notificationOrder
      ensures notificationOrder.Valid() && notificationOrder.data == c.notificationOrder
      ensures Outbox() == Notes.Outbox(c.notifications, c.notificationOrder[..])
      ensures incidents == c.incidents && extensions == c.extensions
    {
      notifications := c.notifications;
      notificationOrder.Restore(c.notificationOrder);
      incidents := c.incidents;
      extensions := c.extensions;
    }

    method Restore(c: Clones)
      requires Valid() && c.Distinct()
      modifies this`analyses, this`auditEvents, this`deliveries, this`notifications, this`incidents, this`extensions
      modifies jobs, environments, analysisOrder, auditOrder, notificationOrder
      ensures Valid() && Contents() == c.Contents(nextJobID, tenants)
      ensures jobs.data == c.jobs && environments.data == c.history.environments && notificationOrder.data == c.notificationOrder
      ensures analysisOrder.data == c.history.analysisOrder && auditOrder.data == c.history.auditOrder
    {
      RestoreHistory(c.history);
      jobs.Restore(c.jobs);
      deliveries := c.deliveries;
      RestoreAlerts(c);
    }

    /** Drop what has expired; an error from persisting puts all of it back. */
    method SweepAndPersist(cut: Time, now: Time, saved: bool)
      requires Valid()
      modifies this`analyses, this`auditEvents, this`deliveries, this`notifications, this`incidents, this`extensions
      modifies jobs, jobs.data, environments, environments.data, analysisOrder, analysisOrder.data
      modifies auditOrder, auditOrder.data, notificationOrder, notificationOrder.data
      ensures Valid()
      ensures ArraysOwned()
      ensures saved ==> Contents() == Retained(old(Contents()), cut, now)
      ensures !saved ==> Contents() == old(Contents())
    {
      var c := Clone();
      SweepContents(cut, now);
      if !saved {
        Restore(c);
      }
    }

    /** Drop what the retention time has passed for; an error from persisting puts everything back. */
    method Cleanup(retentionDays: int, now: Time, saved: bool) returns (ok: bool)
      requires Valid()
      modifies this`analyses, this`auditEvents, this`deliveries, this`notifications, this`incidents, this`extensions
      modifies jobs, jobs.data, environments, environments.data, analysisOrder, analysisOrder.data
      modifies auditOrder, auditOrder.data, notificationOrder, notificationOrder.data
      ensures Valid() && (ok <==> saved || retentionDays < 1)
      ensures ArraysOwned()
      ensures retentionDays < 1 || !saved ==> Contents() == old(Contents())
      ensures retentionDays >= 1 && saved ==> Contents() == Retained(old(Contents()), Keep.Cut(retentionDays, now), now)
    {
      if retentionDays < 1 {
        return true;
      }
      SweepAndPersist(Keep.Cut(retentionDays, now), now, saved);
      ok := saved;
    }
  }

  lemma FindIs(jobs: seq<Queue.Job>, id: int, i: nat)
    requires i <= |jobs| && (forall k :: 0 <= k < i ==> jobs[k].id != id) && (i < |jobs| ==> jobs[i].id == id)
    ensures i == Queue.Find(jobs, id)
  {
  }
}
