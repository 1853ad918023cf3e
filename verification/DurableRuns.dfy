/** The whole life of the store as one run, through all its stops and restarts, and what the laws of the runs then say of
    it. */
module DurableRuns {
  import opened Options
  import Queue = JobQueue
  import Jobs = JobRuns
  import JobLaws
  import Notes = Notifications
  import Alerts = NotificationRuns
  import Inc = Incidents
  import Keep = Retention
  import CleanupLaws
  import opened StateFiles
  import opened Stores
  import opened Durability
  import opened Restarts

  type Time = int

  // ---------------------------------------------------------------- the calls as events

  /** What the call is to the job queue; most calls are nothing to it. */
  function JobEvent(c: Call, ok: bool): Queue.Event {
    match c.change
    case OnJobs(op, now) => Queue.Event(op, now, ok)
    case Cleanup(days, now) => Queue.Event(Queue.Cleanup(Keep.Cut(days, now)), now, ok && days >= 1)
    case _ => Queue.Event(Queue.Complete(0, ""), 0, false)
  }

  /** What it is to the outbox. */
  function AlertEvent(c: Call, ok: bool): Notes.Event {
    match c.change
    case Request(r, now, reason) => Notes.Begin(r, now, reason, ok)
    case Outcome(record, now) => Notes.Record(record, now, ok)
    case Cleanup(days, now) => Notes.Cleanup(days, now, ok)
    case _ => Notes.Cleanup(0, 0, false)
  }

  lemma QueueSteps(s: State, c: Call, ok: bool)
    ensures (if ok then Target(s, c.change) else s).queue == Queue.Next(s.queue, JobEvent(c, ok))
  {
    if ok && c.change.Cleanup? && c.change.retentionDays >= 1 {
      CleanupIsAStep(s, c.change.retentionDays, c.change.now);
    }
  }

  lemma OutboxSteps(s: State, c: Call, ok: bool)
    ensures (if ok then Target(s, c.change) else s).outbox == Notes.Next(s.outbox, AlertEvent(c, ok))
  {
    if ok && c.change.Cleanup? && c.change.retentionDays >= 1 {
      CleanupIsAStep(s, c.change.retentionDays, c.change.now);
    }
  }

  /** The calls of a store are a run of its job queue, with the answers for the success of persisting. */
  lemma JobsRun(calls: seq<Call>, answers: seq<bool>, states: seq<State>) returns (r: Jobs.Run)
    requires IsRun(calls, answers, states) && Queue.WellFormed(states[0].queue)
    ensures Jobs.IsRun(r) && |r.events| == |calls|
    ensures forall i :: 0 <= i < |calls| ==> r.events[i] == JobEvent(calls[i], answers[i])
    ensures forall i :: 0 <= i <= |calls| ==> r.states[i] == states[i].queue
  {
    var n := |calls|;
    var events := seq(n, i requires 0 <= i < n => JobEvent(calls[i], answers[i]));
    var queues := seq(n + 1, i requires 0 <= i <= n => states[i].queue);
    r := Jobs.Run(queues, events, seq(n, i requires 0 <= i < n => Queue.ReplyTo(queues[i], events[i])));
    forall k | 0 <= k < n ensures Jobs.Stepped(r, k) {
      QueueSteps(states[k], calls[k], answers[k]);
    }
  }

  /** The reason of every request is one that its look through the records finds. */
  ghost predicate LooksThrough(calls: seq<Call>, states: seq<State>) {
    |states| == |calls| + 1 &&
    forall i :: 0 <= i < |calls| && calls[i].change.Request? ==>
      Notes.ConflictFound(states[i].outbox, calls[i].change.request, calls[i].change.now, calls[i].change.reason)
  }

  /** They are a run of its outbox as well. */
  lemma AlertsRun(calls: seq<Call>, answers: seq<bool>, states: seq<State>) returns (r: Alerts.Run)
    requires IsRun(calls, answers, states) && Notes.WellFormed(states[0].outbox) && LooksThrough(calls, states)
    ensures Alerts.IsRun(r) && |r.events| == |calls|
    ensures forall i :: 0 <= i < |calls| ==> r.events[i] == AlertEvent(calls[i], answers[i])
    ensures forall i :: 0 <= i <= |calls| ==> r.states[i] == states[i].outbox
  {
    var n := |calls|;
    r := Alerts.Run(seq(n + 1, i requires 0 <= i <= n => states[i].outbox),
                    seq(n, i requires 0 <= i < n => AlertEvent(calls[i], answers[i])));
    forall k | 0 <= k < n ensures Alerts.Stepped(r, k) {
      OutboxSteps(states[k], calls[k], answers[k]);
      assert calls[k].change.Request? ==>
          Notes.ConflictFound(states[k].outbox, calls[k].change.request, calls[k].change.now, calls[k].change.reason);
    }
  }

  /** What the other calls do, and that each leaves the rest of the store alone. */
  lemma OthersMean(s: State, c: Change, k: string)
    ensures var t := Target(s, c);
            && (c.OnJobs? ==> t == s.(queue := t.queue))
            && (c.Outcome? || c.Request? ==> t == s.(outbox := t.outbox))
            && (c.Analysis? ==> t == s.(history := t.history))
            && (c.Report? || c.ResolveStale? ==> t == s.(incidents := t.incidents))
            && (c.Report? ==>
                  && t.incidents.Keys == s.incidents.Keys + {c.key}
                  && t.incidents[c.key] == if c.key in s.incidents then Inc.Merge(s.incidents[c.key], c.report) else c.report)
            && (c.ResolveStale? && k in s.incidents ==> k in t.incidents)
            && (c.ResolveStale? && k in s.incidents && s.incidents[k].lastSeenAt >= c.cutoff ==>
                  t.incidents[k] == s.incidents[k])
            && (c.ResolveStale? && k in s.incidents && s.incidents[k].lastSeenAt < c.cutoff ==>
                  t.incidents[k].state != Inc.Open && t.incidents[k].state != Inc.Acknowledged)
            && (c.Analysis? && c.tenant !in s.queue.tenants ==> t == s)
            && (c.Analysis? && c.tenant in s.queue.tenants ==>
                  && c.id in t.history.analyses && t.history.analyses[c.id] == c.analysis
                  && t.history.environments == s.history.environments + [c.environment])
            && (c.Cleanup? && c.retentionDays < 1 ==> t == s)
  {
    if c.ResolveStale? && k in s.incidents {
      Inc.SweepMeans(s.incidents, c.cutoff, c.now, k);
    }
  }

  // ---------------------------------------------------------------- sessions as one run

  /** Calls, their answers, and the states between them. */
  datatype Life = Life(calls: seq<Call>, answers: seq<bool>, states: seq<State>)

  ghost predicate Lives(l: Life) {
    IsRun(l.calls, l.answers, l.states)
  }

  function Last(l: Life): State
    requires |l.states| == |l.calls| + 1
  {
    l.states[|l.calls|]
  }

  function Then(l: Life, m: Life): Life
    requires |m.states| > 0
  {
    Life(l.calls + m.calls, l.answers + m.answers, l.states + m.states[1..])
  }

  /** One run after another, from where the first one ends. */
  lemma ThenLives(l: Life, m: Life)
    requires Lives(l) && Lives(m) && Last(l) == m.states[0]
    ensures Lives(Then(l, m)) && Last(Then(l, m)) == Last(m)
    ensures forall i :: 0 <= i <= |l.calls| ==> Then(l, m).states[i] == l.states[i]
    ensures forall i :: 0 <= i <= |m.calls| ==> Then(l, m).states[|l.calls| + i] == m.states[i]
  {
    var both, n := Then(l, m), |l.calls|;
    forall i | 0 <= i <= |m.calls| ensures both.states[n + i] == m.states[i] {
      if i > 0 {
        assert both.states[n + i] == m.states[1..][i - 1];
      }
    }
    forall i | 0 <= i < |both.calls|
      ensures both.states[i + 1] == if both.answers[i] then Target(both.states[i], both.calls[i].change) else both.states[i]
    {
      if i >= n {
        assert both.states[n + (i - n)] == m.states[i - n] && both.states[n + (i - n + 1)] == m.states[i - n + 1];
        assert m.states[(i - n) + 1]
               == if m.answers[i - n] then Target(m.states[i - n], m.calls[i - n].change) else m.states[i - n];
      }
    }
  }

  /** The calls and answers are those of the session; the call under way at its stop is among them as an answered one, or
      it did nothing. */
  predicate Told(session: Session, reply: Reply, calls: seq<Call>, answers: seq<bool>) {
    match reply
    case NotOpened => calls == [] && answers == []
    case Answered(given) =>
      || (calls == session.calls && answers == given)
      || (session.stop.During? && calls == session.calls + [session.stop.last] && answers == given + [true])
  }

  /** A session on POSIX leads from what was on the disk to what it leaves there by its own calls. */
  lemma SessionLives(session: Session, before: State, reply: Reply, log: Log, after: State) returns (l: Life)
    requires Follows(false, session, before, reply, log, after)
    ensures Lives(l) && l.states[0] == before && Last(l) == after && Told(session, reply, l.calls, l.answers)
  {
    if reply.NotOpened? {
      l := Life([], [], [before]);
      return;
    }
    l := Life(session.calls, reply.answers, log.states);
    PosixKeeps(session, before, reply, log, after);
    if after != Last(l) {
      var more := Life([session.stop.last], [true], [Last(l), after]);
      ThenLives(l, more);
      l := Then(l, more);
    }
  }

  /** Position marks[n] of the life is where session n starts. */
  ghost predicate Tells(l: Life, marks: seq<nat>, sessions: seq<Session>, replies: seq<Reply>, at: seq<State>) {
    && Lives(l) && |marks| == |sessions| + 1 == |at| == |replies| + 1
    && marks[0] == 0 && marks[|sessions|] == |l.calls|
    && (forall n :: 0 <= n <= |sessions| ==> marks[n] <= |l.calls| && l.states[marks[n]] == at[n])
    && (forall n :: 0 <= n < |sessions| ==> TellsOf(l, marks[n], marks[n + 1], sessions[n], replies[n]))
  }

  predicate TellsOf(l: Life, from: nat, to: nat, session: Session, reply: Reply) {
    from <= to <= |l.calls| && |l.answers| == |l.calls|
    && Told(session, reply, l.calls[from..to], l.answers[from..to])
  }

  /** Any number of sessions on POSIX, with stops at any step and restarts, is one run of the calls of them all. */
  lemma {:induction false} OneLife(sessions: seq<Session>, replies: seq<Reply>, at: seq<State>, logs: seq<Log>)
    returns (l: Life, marks: seq<nat>)
    requires Chained(false, sessions, replies, at, logs)
    ensures Tells(l, marks, sessions, replies, at)
  {
    if sessions == [] {
      l, marks := Life([], [], [at[0]]), [0];
      return;
    }
    var n := |sessions| - 1;
    var front;
    front, marks := OneLife(sessions[..n], replies[..n], at[..n + 1], logs[..n]);
    var last := SessionLives(sessions[n], at[n], replies[n], logs[n], at[n + 1]);
    assert at[..n + 1][n] == at[n];
    ThenLives(front, last);
    l := Then(front, last);
    TellsMore(front, last, marks, sessions, replies, at);
    marks := marks + [|l.calls|];
  }

  lemma TellsStill(front: Life, last: Life, from: nat, to: nat, session: Session, reply: Reply)
    requires TellsOf(front, from, to, session, reply) && |last.calls| == |last.answers| && |last.states| > 0
    ensures TellsOf(Then(front, last), from, to, session, reply)
  {
    var l := Then(front, last);
    assert l.calls[from..to] == front.calls[from..to] && l.answers[from..to] == front.answers[from..to];
  }

  lemma TellsMore(front: Life, last: Life, marks: seq<nat>, sessions: seq<Session>, replies: seq<Reply>, at: seq<State>)
    requires |sessions| > 0 && |replies| == |sessions| && |at| == |sessions| + 1
    requires var n := |sessions| - 1;
             && Tells(front, marks, sessions[..n], replies[..n], at[..n + 1])
             && Lives(last) && last.states[0] == at[n] && Last(last) == at[n + 1]
             && Told(sessions[n], replies[n], last.calls, last.answers)
    ensures var l := Then(front, last); Tells(l, marks + [|l.calls|], sessions, replies, at)
  {
    var n, l := |sessions| - 1, Then(front, last);
    var more := marks + [|l.calls|];
    assert at[..n + 1][n] == at[n] == Last(front);
    ThenLives(front, last);
    forall k | 0 <= k <= |sessions| ensures more[k] <= |l.calls| && l.states[more[k]] == at[k] {
      if k <= n {
        assert at[..n + 1][k] == at[k];
      }
    }
    forall k | 0 <= k < |sessions| ensures TellsOf(l, more[k], more[k + 1], sessions[k], replies[k]) {
      if k < n {
        assert TellsOf(front, marks[k], marks[k + 1], sessions[..n][k], replies[..n][k]);
        TellsStill(front, last, marks[k], marks[k + 1], sessions[k], replies[k]);
      } else {
        assert l.calls[|front.calls|..|l.calls|] == last.calls && l.answers[|front.calls|..|l.calls|] == last.answers;
      }
    }
  }

  // ---------------------------------------------------------------- what a life keeps of its jobs

  /** Call m is a cleanup that succeeds, and the job is done or failed then. */
  predicate DropsFinished(l: Life, m: nat, id: int)
    requires |l.states| == |l.calls| + 1 == |l.answers| + 1 && m < |l.calls|
  {
    var j := Queue.Lookup(l.states[m].queue.jobs, id);
    && (l.calls[m].change.Cleanup? || (l.calls[m].change.OnJobs? && l.calls[m].change.op.Cleanup?)) && l.answers[m]
    && j.Some? && (j.value.status == Queue.Done || j.value.status == Queue.Failed)
  }

  /** A job whose enqueueing was answered with success is there ever after, as it was asked for, until it is over and a
      cleanup drops it: no failed call, stop or restart loses it. */
  lemma EnqueuedStays(l: Life, p: nat, k: nat, op: Queue.Op, now: Time)
    requires Lives(l) && Queue.WellFormed(l.states[0].queue) && p < k <= |l.calls|
    requires l.calls[p].change == OnJobs(op, now) && l.answers[p]
    requires op.Enqueue? && op.typ != "" && JobLaws.Admits(l.states[p].queue, op.tenant)
    ensures var j := Queue.Lookup(l.states[k].queue.jobs, l.states[p].queue.nextID);
            if j.Some? then
              j.value.tenant == op.tenant && j.value.typ == op.typ && j.value.payload == op.payload && j.value.createdAt == now
            else exists m :: p < m < k && DropsFinished(l, m, l.states[p].queue.nextID)
  {
    var r := JobsRun(l.calls, l.answers, l.states);
    var q := r.states[p];
    var id, after := q.nextID, r.states[p + 1];
    assert Jobs.Stepped(r, p);
    JobLaws.EnqueueAdds(q, op.tenant, op.typ, op.payload, op.availableAt, now, true);
    Jobs.RunWellFormed(r, p);
    Queue.AppendJob(q.jobs, after.jobs[|q.jobs|], id);
    assert after.jobs == q.jobs + [after.jobs[|q.jobs|]];
    JobLaws.TaskStays(r, p + 1, k, id);
    if Queue.Lookup(l.states[k].queue.jobs, id).None? {
      var m := Jobs.OnlyCleanupDrops(r, p + 1, k, id);
      assert r.events[m] == JobEvent(l.calls[m], l.answers[m]) && DropsFinished(l, m, id);
    }
  }

  /** A job whose completion was answered with success is never given out again, by this process or any later one. */
  lemma CompletedStays(l: Life, p: nat, k: nat, id: int, token: string, now: Time, worker: string, random: string, later: Time)
    requires Lives(l) && Queue.WellFormed(l.states[0].queue) && p < k < |l.calls|
    requires l.calls[p].change == OnJobs(Queue.Complete(id, token), now) && l.answers[p]
    requires Jobs.HeldBy(l.states[p].queue, id, token)
    requires l.calls[k].change == OnJobs(Queue.Claim(worker, random), later)
    ensures var reply := Queue.ReplyTo(l.states[k].queue, Queue.Event(Queue.Claim(worker, random), later, l.answers[k]));
            reply.Claimed? ==> reply.id != id
  {
    var r := JobsRun(l.calls, l.answers, l.states);
    Jobs.RunWellFormed(r, p);
    assert Jobs.Stepped(r, p) && Jobs.Stepped(r, k);
    Jobs.AcceptedIffHeld(r.states[p], r.events[p], token);
    JobLaws.NeverAgain(r, p, k, id);
  }
}
