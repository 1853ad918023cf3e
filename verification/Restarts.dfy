/** The store through any number of stops and restarts: normal calls keep the state normal, so that a restart brings back
    exactly what was on the disk. */
module Restarts {
  import Queue = JobQueue
  import Notes = Notifications
  import Inc = Incidents
  import Keep = Retention
  import opened StateFiles
  import opened Stores
  import opened Durability
  import opened Normalization

  type Time = int

  // ---------------------------------------------------------------- normal calls

  /** The call has normal tenants, and records under their keys. */
  predicate NormalCall(c: Change) {
    match c
    case OnJobs(op, _) =>
      && (op.Enqueue? ==> NormalTenant(op.tenant) == op.tenant)
      && (op.EnqueueDelivery? ==> NormalTenant(op.tenant) == op.tenant)
    case Report(key, report) => IncidentIsNormal(key, report)
    case Outcome(record, _) => NormalRecord(record.(id := Notes.RecordKey(record))) == record.(id := Notes.RecordKey(record))
    case Request(r, _, _) => NormalTenant(r.tenant) == r.tenant
    case _ => true
  }

  predicate NormalJobs(jobs: seq<Queue.Job>) {
    forall j :: j in jobs ==> NormalTenant(j.tenant) == j.tenant
  }

  lemma NormalQueueIff(q: Queue.Queue)
    ensures NormalQueue(q) == q <==> q.nextID >= 1 && DEFAULT_TENANT in q.tenants && NormalJobs(q.jobs)
  {
    if NormalQueue(q) == q {
      assert forall j :: j in q.jobs ==> exists i :: 0 <= i < |q.jobs| && NormalQueue(q).jobs[i] == j;
    }
    if q.nextID >= 1 && DEFAULT_TENANT in q.tenants && NormalJobs(q.jobs) {
      forall i | 0 <= i < |q.jobs| ensures NormalQueue(q).jobs[i] == q.jobs[i] {
        assert q.jobs[i] in q.jobs;
      }
      assert NormalQueue(q).jobs == q.jobs;
    }
  }

  predicate Enqueues(op: Queue.Op) {
    op.Enqueue? || op.EnqueueDelivery?
  }

  /** Every operation but a cleanup leaves the jobs with their tenants, and may add one with the tenant it names. */
  lemma TenantsStay(q: Queue.Queue, op: Queue.Op, now: Time)
    requires !op.Cleanup?
    ensures var next := Queue.Next(q, Queue.Event(op, now, true));
            && next.tenants == q.tenants && next.nextID >= q.nextID && |q.jobs| <= |next.jobs|
            && (forall i :: 0 <= i < |q.jobs| ==> next.jobs[i].tenant == q.jobs[i].tenant)
            && (forall i :: |q.jobs| <= i < |next.jobs| ==> Enqueues(op) && next.jobs[i].tenant == op.tenant)
  {
    var next := Queue.Next(q, Queue.Event(op, now, true));
    if Enqueues(op) {
      assert |next.jobs| <= |q.jobs| + 1;
    } else {
      assert |next.jobs| == |q.jobs|;
    }
  }

  lemma QueueStaysNormal(q: Queue.Queue, op: Queue.Op, now: Time)
    requires NormalQueue(q) == q && NormalCall(OnJobs(op, now)) && !op.Cleanup?
    ensures NormalQueue(Queue.Next(q, Queue.Event(op, now, true))) == Queue.Next(q, Queue.Event(op, now, true))
  {
    TenantsStay(q, op, now);
    SameTenants(q, Queue.Next(q, Queue.Event(op, now, true)), op);
  }

  lemma SameTenants(q: Queue.Queue, next: Queue.Queue, op: Queue.Op)
    requires NormalQueue(q) == q && (Enqueues(op) ==> NormalTenant(op.tenant) == op.tenant)
    requires next.tenants == q.tenants && next.nextID >= q.nextID && |q.jobs| <= |next.jobs|
    requires forall i :: 0 <= i < |q.jobs| ==> next.jobs[i].tenant == q.jobs[i].tenant
    requires forall i :: |q.jobs| <= i < |next.jobs| ==> Enqueues(op) && next.jobs[i].tenant == op.tenant
    ensures NormalQueue(next) == next
  {
    NormalQueueIff(q);
    NormalQueueIff(next);
    forall j | j in next.jobs ensures NormalTenant(j.tenant) == j.tenant {
      var i :| 0 <= i < |next.jobs| && next.jobs[i] == j;
      if i < |q.jobs| {
        assert q.jobs[i] in q.jobs;
      }
    }
  }

  lemma PutStaysNormal(box: Notes.Outbox, key: string, d: Notes.Notification)
    requires OutboxNormal(box) && d.id == key && NormalRecord(d) == d
    ensures OutboxNormal(Notes.Put(box, key, d))
  {
    Notes.PutWellFormed(box, key, d);
  }

  lemma RequestStaysNormal(box: Notes.Outbox, r: Notes.Request, now: Time, reason: string)
    requires OutboxNormal(box) && NormalTenant(r.tenant) == r.tenant
    ensures OutboxNormal(Notes.Next(box, Notes.Begin(r, now, reason, true)))
  {
    var d := BeginPuts(box, r, now, reason);
    if Notes.BeginPlan(box, r, now, reason).1 != box {
      PutStaysNormal(box, Notes.KeyOf(r), d);
    }
  }

  /** The records agree in what their key is made of. */
  predicate SameKey(d: Notes.Notification, other: Notes.Notification) {
    d.id == other.id && d.tenant == other.tenant && d.eventID == other.eventID && d.channel == other.channel
  }

  /** A request puts at most one record, with the key of the known one or a new one. */
  lemma BeginPuts(box: Notes.Outbox, r: Notes.Request, now: Time, reason: string) returns (d: Notes.Notification)
    ensures var next, key := Notes.BeginPlan(box, r, now, reason).1, Notes.KeyOf(r);
            next == box ||
            (next == Notes.Put(box, key, d)
             && (SameKey(d, Notes.FreshRecord(r, now)) || (key in box.records && SameKey(d, box.records[key]))))
  {
    var key := Notes.KeyOf(r);
    var next := Notes.BeginPlan(box, r, now, reason).1;
    d := if key in next.records then next.records[key] else Notes.FreshRecord(r, now);
  }

  lemma OutcomeStaysNormal(box: Notes.Outbox, record: Notes.Notification, now: Time)
    requires OutboxNormal(box) && NormalCall(Outcome(record, now))
    ensures OutboxNormal(Notes.Next(box, Notes.Record(record, now, true)))
  {
    Notes.RecordedWellFormed(box, record);
  }

  lemma RetainedStaysNormal(q: Queue.Queue, cut: int)
    requires NormalQueue(q) == q
    ensures NormalQueue(RetainedQueue(q, cut)) == RetainedQueue(q, cut)
  {
    NormalQueueIff(q);
    NormalQueueIff(RetainedQueue(q, cut));
    Queue.KeptJobsSpec(q.jobs, cut);
  }

  lemma OutboxStaysNormal(box: Notes.Outbox, cut: int)
    requires OutboxNormal(box)
    ensures OutboxNormal(Notes.Cleaned(box, cut))
  {
    Notes.CleanedSpec(box, cut);
  }

  lemma IncidentsStayNormal(incidents: map<string, Inc.Incident>, c: Change)
    requires IncidentsNormal(incidents) && NormalCall(c)
    ensures c.Report? ==> IncidentsNormal(Merged(incidents, c.key, c.report))
    ensures c.ResolveStale? ==> IncidentsNormal(Inc.ResolveStale(incidents, c.cutoff, c.now))
  {
    if c.Report? && c.key in incidents {
      assert Inc.Merge(incidents[c.key], c.report).tenant == c.report.tenant;
      assert Inc.Merge(incidents[c.key], c.report).fingerprint == c.report.fingerprint;
    }
  }

  lemma WithOutbox(s: State, e: Notes.Event)
    requires Normal(s) && OutboxNormal(Notes.Next(s.outbox, e))
    ensures Normal(OnOutbox(s, e))
  {}

  lemma WithQueue(s: State, e: Queue.Event)
    requires Normal(s) && NormalQueue(Queue.Next(s.queue, e)) == Queue.Next(s.queue, e)
    ensures Normal(OnQueue(s, e))
  {}

  lemma AlertsKept(s: State, c: Change)
    requires Normal(s) && NormalCall(c) && (c.Outcome? || c.Request?)
    ensures Normal(Target(s, c))
  {
    if c.Outcome? {
      OutcomeStaysNormal(s.outbox, c.record, c.now);
      WithOutbox(s, Notes.Record(c.record, c.now, true));
    } else {
      RequestStaysNormal(s.outbox, c.request, c.now, c.reason);
      WithOutbox(s, Notes.Begin(c.request, c.now, c.reason, true));
    }
  }

  lemma JobsKept(s: State, c: Change)
    requires Normal(s) && NormalCall(c) && Callable(c) && c.OnJobs?
    ensures Normal(Target(s, c))
  {
    QueueStaysNormal(s.queue, c.op, c.now);
    WithQueue(s, Queue.Event(c.op, c.now, true));
  }

  lemma WithIncidents(s: State, m: map<string, Inc.Incident>)
    requires Normal(s) && IncidentsNormal(m)
    ensures Normal(s.(incidents := m))
  {}

  lemma IncidentsKept(s: State, c: Change)
    requires Normal(s) && NormalCall(c) && (c.Report? || c.ResolveStale?)
    ensures Normal(Target(s, c))
  {
    IncidentsStayNormal(s.incidents, c);
    if c.Report? {
      WithIncidents(s, Merged(s.incidents, c.key, c.report));
    } else {
      WithIncidents(s, Inc.ResolveStale(s.incidents, c.cutoff, c.now));
    }
  }

  lemma RetainedKept(s: State, cut: Time, now: Time)
    requires Normal(s)
    ensures Normal(Retained(s, cut, now))
  {
    RetainedStaysNormal(s.queue, cut);
    OutboxStaysNormal(s.outbox, cut);
  }

  lemma CleanupKept(s: State, c: Change)
    requires Normal(s) && c.Cleanup?
    ensures Normal(Target(s, c))
  {
    var cut := Keep.Cut(c.retentionDays, c.now);
    RetainedKept(s, cut, c.now);
    assert Target(s, c) == if c.retentionDays < 1 then s else Retained(s, cut, c.now);
  }

  lemma AnalysisKept(s: State, c: Change)
    requires Normal(s) && c.Analysis?
    ensures Normal(Target(s, c))
  {}

  /** Normal calls keep the state normal. */
  lemma NormalKept(s: State, c: Change)
    requires Normal(s) && NormalCall(c) && Callable(c)
    ensures Normal(Target(s, c))
  {
    if c.OnJobs? {
      JobsKept(s, c);
    } else if c.Outcome? || c.Request? {
      AlertsKept(s, c);
    } else if c.Cleanup? {
      CleanupKept(s, c);
    } else if c.Analysis? {
      AnalysisKept(s, c);
    } else {
      IncidentsKept(s, c);
    }
  }

  /** A call of the store as the code makes it. */
  ghost predicate Proper(calls: seq<Call>) {
    forall i :: 0 <= i < |calls| ==> Callable(calls[i].change) && NormalCall(calls[i].change)
  }

  /** In a run of them all states are normal, those in memory and those on the disk. */
  lemma {:induction false} RunStaysNormal(windows: bool, calls: seq<Call>, answers: seq<bool>, states: seq<State>,
                                          found: seq<State>, i: nat)
    requires IsRun(calls, answers, states) && OnDisk(windows, calls, answers, states, found) && Proper(calls)
    requires Normal(states[0]) && Normal(found[0]) && i <= |calls|
    ensures Normal(states[i]) && Normal(found[i])
  {
    if i == 0 {
    } else {
      RunStaysNormal(windows, calls, answers, states, found, i - 1);
      NormalKept(states[i - 1], calls[i - 1].change);
      assert CallLeaves(windows, calls[i - 1], answers[i - 1], states[i - 1], found[i - 1], found[i]);
    }
  }

  // ---------------------------------------------------------------- sessions

  /** An opening in a process of its own, stopped after a step. */
  datatype Attempt = Attempt(plan: Plan, normalize: State -> State, step: nat)

  /** A session: attempts to open the store that are stopped, and a process that opens it, makes calls, and stops. */
  datatype Session = Session(attempts: seq<Attempt>, plan: Plan, normalize: State -> State, calls: seq<Call>, stop: Stop)

  /** What came of it: the store could not be opened, or the calls were answered with success or an error. */
  datatype Reply = NotOpened | Answered(answers: seq<bool>)

  /** The states in memory and on the disk from call to call. */
  datatype Log = Log(states: seq<State>, found: seq<State>)

  /** From what the disk had at the start, the session leads to what it has at its stop. */
  ghost predicate Follows(windows: bool, session: Session, before: State, reply: Reply, log: Log, after: State) {
    if reply.NotOpened? then after == before
    else
      && IsRun(session.calls, reply.answers, log.states) && log.states[0] == before
      && OnDisk(windows, session.calls, reply.answers, log.states, log.found) && log.found[0] == before
      && StopLeaves(session.stop, log.states[|session.calls|], log.found[|session.calls|], after)
  }

  /** Every session starts with what the one before left on the disk. */
  ghost predicate Chained(windows: bool, sessions: seq<Session>, replies: seq<Reply>, at: seq<State>, logs: seq<Log>) {
    && |replies| == |logs| == |sessions| && |at| == |sessions| + 1
    && forall n :: 0 <= n < |sessions| ==> Follows(windows, sessions[n], at[n], replies[n], logs[n], at[n + 1])
  }

  /** Without a fault the store opens, and every call succeeds. */
  ghost predicate Serves(session: Session, reply: Reply) {
    Faultless(session.plan, 0) ==> reply.Answered? && AllAnswered(reply.answers)
  }

  ghost predicate Normalizing(normalize: State -> State) {
    forall t :: Normalizes(t, normalize(t))
  }

  /** Its openings normalize, and its calls are as the code makes them. */
  ghost predicate ProperSession(session: Session) {
    && Proper(session.calls) && Normalizing(session.normalize)
    && (forall i :: 0 <= i < |session.attempts| ==> Normalizing(session.attempts[i].normalize))
    && (session.stop.During? ==> Callable(session.stop.last.change) && NormalCall(session.stop.last.change))
  }

  /** On POSIX nothing that was answered is lost: a stop leaves the state after the last call, or what one more call, not
      answered yet, makes of it. */
  lemma PosixKeeps(session: Session, before: State, reply: Reply, log: Log, after: State)
    requires Follows(false, session, before, reply, log, after) && reply.Answered?
    ensures var last := log.states[|session.calls|];
            after == last || (session.stop.During? && after == Target(last, session.stop.last.change))
  {
    FoundOnPosix(session.calls, reply.answers, log.states, log.found, |session.calls|);
  }

  /** Opening whatever can be opened leads to a normal state, in memory and on the disk, and succeeds without a fault. */
  method Start(disk: Disk<State>, blank: State, normalize: State -> State) returns (r: Opened<State>)
    requires disk.Valid() && Normalizing(normalize)
    modifies disk
    ensures disk.Valid()
    ensures r.Opened? ==> Normal(r.state) && Ready(disk.files) && OutcomeOf(disk.files) == Found(r.state)
    ensures r.Opened? ==> Normalizes(StateOr(OutcomeOf(old(disk.files)), blank), r.state)
    ensures !OutcomeOf(old(disk.files)).Unrecoverable? && Faultless(disk.plan, old(disk.clock)) ==> r.Opened?
  {
    ghost var s := StateOr(OutcomeOf(disk.files), blank);
    r := disk.Open(blank, normalize);
    NormalizedIsNormal(s, normalize(s));
  }

  /** Attempts to open a normal state, each stopped after a step: the state stays on the disk. */
  method StopOpenings(windows: bool, files: Files<State>, attempts: seq<Attempt>, blank: State, ghost s: State)
    returns (left: Files<State>)
    requires OutcomeOf(files) == Found(s) && Normal(s)
    requires forall i :: 0 <= i < |attempts| ==> Normalizing(attempts[i].normalize)
    ensures OutcomeOf(left) == Found(s)
  {
    left := files;
    for i := 0 to |attempts|
      invariant OutcomeOf(left) == Found(s)
    {
      assert Normalizing(attempts[i].normalize);
      NormalStays(s, attempts[i].normalize(s));
      var disk := new Disk(windows, attempts[i].plan, left);
      var r := disk.Open(blank, attempts[i].normalize);
      left := disk.StoppedAt(attempts[i].step);
    }
  }

  /** Open a normal state: what is in memory then is exactly that state, and it is still on the disk. */
  method Reopen(windows: bool, plan: Plan, files: Files<State>, blank: State, normalize: State -> State, ghost s: State)
    returns (r: Opened<State>, disk: Disk<State>)
    requires OutcomeOf(files) == Found(s) && Normal(s) && Normalizing(normalize)
    ensures fresh(disk) && disk.windows == windows && disk.plan == plan && disk.Valid()
    ensures OutcomeOf(disk.files) == Found(s)
    ensures r.Opened? ==> r.state == s && Ready(disk.files)
    ensures Faultless(plan, 0) ==> r.Opened?
  {
    NormalStays(s, normalize(s));
    disk := new Disk(windows, plan, files);
    r := disk.Open(blank, normalize);
  }

  lemma StopStaysNormal(windows: bool, session: Session, before: State, reply: Reply, log: Log, after: State)
    requires Follows(windows, session, before, reply, log, after) && Normal(before) && ProperSession(session)
    ensures Normal(after)
  {
    if reply.Answered? {
      RunStaysNormal(windows, session.calls, reply.answers, log.states, log.found, |session.calls|);
      if session.stop.During? {
        NormalKept(log.states[|session.calls|], session.stop.last.change);
      }
    }
  }

  /** One session, from what is on the disk to what is left there. */
  method RunSession(windows: bool, files: Files<State>, session: Session, blank: State, ghost s: State)
    returns (left: Files<State>, reply: Reply, ghost log: Log, ghost after: State)
    requires OutcomeOf(files) == Found(s) && Normal(s) && ProperSession(session)
    ensures OutcomeOf(left) == Found(after) && Normal(after)
    ensures Follows(windows, session, s, reply, log, after) && Serves(session, reply)
  {
    left := StopOpenings(windows, files, session.attempts, blank, s);
    var r, disk := Reopen(windows, session.plan, left, blank, session.normalize, s);
    reply, log, after := NotOpened, Log([], []), s;
    left := disk.files;
    if r.Opened? {
      left, reply, log, after := Serve(disk, session, r.state);
    }
    StopStaysNormal(windows, session, s, reply, log, after);
  }

  /** Make the calls of the session on what was opened, and stop. */
  method Serve(disk: Disk<State>, session: Session, s: State)
    returns (left: Files<State>, reply: Reply, ghost log: Log, ghost after: State)
    requires disk.Valid() && Ready(disk.files) && OutcomeOf(disk.files) == Found(s) && ProperSession(session)
    modifies disk
    ensures OutcomeOf(left) == Found(after) && reply.Answered?
    ensures Follows(disk.windows, session, s, reply, log, after)
    ensures Faultless(disk.plan, old(disk.clock)) ==> AllAnswered(reply.answers)
  {
    var store := new DurableStore(disk, s);
    ghost var states, found;
    var answers;
    answers, left, states, found, after := store.RunStop(session.calls, session.stop);
    reply, log := Answered(answers), Log(states, found);
  }

  /** Any number of sessions, each in processes of its own: each finds on the disk exactly what the one before left. */
  method RunSessions(windows: bool, files: Files<State>, sessions: seq<Session>, blank: State, ghost s: State)
    returns (left: Files<State>, replies: seq<Reply>, ghost at: seq<State>, ghost logs: seq<Log>)
    requires OutcomeOf(files) == Found(s) && Normal(s)
    requires forall n :: 0 <= n < |sessions| ==> ProperSession(sessions[n])
    ensures Chained(windows, sessions, replies, at, logs) && at[0] == s && OutcomeOf(left) == Found(at[|sessions|])
    ensures forall n :: 0 <= n < |sessions| ==> Serves(sessions[n], replies[n])
  {
    left, replies, at, logs := files, [], [s], [];
    for n := 0 to |sessions|
      invariant Chained(windows, sessions[..n], replies, at, logs) && at[0] == s
      invariant OutcomeOf(left) == Found(at[n]) && Normal(at[n])
      invariant forall m :: 0 <= m < n ==> Serves(sessions[m], replies[m])
    {
      ghost var log, after;
      var reply;
      left, reply, log, after := RunSession(windows, left, sessions[n], blank, at[n]);
      ChainedSnoc(windows, sessions, n, replies, at, logs, reply, log, after);
      replies, at, logs := replies + [reply], at + [after], logs + [log];
    }
    assert sessions[..|sessions|] == sessions;
  }

  lemma ChainedSnoc(windows: bool, sessions: seq<Session>, n: nat, replies: seq<Reply>, at: seq<State>, logs: seq<Log>,
                    reply: Reply, log: Log, after: State)
    requires n < |sessions| && Chained(windows, sessions[..n], replies, at, logs)
    requires Follows(windows, sessions[n], at[n], reply, log, after)
    ensures Chained(windows, sessions[..n + 1], replies + [reply], at + [after], logs + [log])
  {
    forall m | 0 <= m < n + 1
      ensures Follows(windows, sessions[..n + 1][m], (at + [after])[m], (replies + [reply])[m], (logs + [log])[m],
                      (at + [after])[m + 1])
    {
      if m < n {
        assert Follows(windows, sessions[..n][m], at[m], replies[m], logs[m], at[m + 1]);
      }
    }
  }
}
