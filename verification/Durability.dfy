/** The store and its disk together: what is found after any sequence of operations and a stop at any step. */
module Durability {
  import Queue = JobQueue
  import Notes = Notifications
  import Inc = Incidents
  import Keep = Retention
  import opened StateFiles
  import opened Stores

  type Time = int

  /** One call of the store. A request for a notification comes with the reason its look through the records found. */
  datatype Change =
    | OnJobs(op: Queue.Op, now: Time)
    | Report(key: string, report: Inc.Incident)
    | ResolveStale(cutoff: Time, now: Time)
    | Outcome(record: Notes.Notification, now: Time)
    | Request(request: Notes.Request, now: Time, reason: string)
    | Analysis(tenant: string, id: string, analysis: Keep.Stamped, environment: Keep.Stamped)
    | Cleanup(retentionDays: int, now: Time)

  /** A cleanup is a call of its own. */
  predicate Callable(c: Change) {
    c.OnJobs? ==> !c.op.Cleanup?
  }

  /** A call, and whether it writes the state file even when it changes nothing. */
  datatype Call = Call(change: Change, writes: bool)

  /** What the call leaves when it is acknowledged. */
  function Target(s: State, c: Change): State {
    match c
    case OnJobs(op, now) => OnQueue(s, Queue.Event(op, now, true))
    case Report(key, report) => s.(incidents := Merged(s.incidents, key, report))
    case ResolveStale(cutoff, now) => s.(incidents := Inc.ResolveStale(s.incidents, cutoff, now))
    case Outcome(record, now) => OnOutbox(s, Notes.Record(record, now, true))
    case Request(r, now, reason) => OnOutbox(s, Notes.Begin(r, now, reason, true))
    case Analysis(tenant, id, analysis, environment) =>
      if tenant in s.queue.tenants then s.(history := Analyzed(s.history, id, analysis, environment)) else s
    case Cleanup(days, now) => if days < 1 then s else Retained(s, Keep.Cut(days, now), now)
  }

  /** Every state follows from the one before it by its call, if that was answered with success. */
  ghost predicate IsRun(calls: seq<Call>, answers: seq<bool>, states: seq<State>) {
    && |answers| == |calls| && |states| == |calls| + 1
    && forall i :: 0 <= i < |calls| ==> states[i + 1] == if answers[i] then Target(states[i], calls[i].change) else states[i]
  }

  /** The call writes the state file. */
  predicate Writes(s: State, c: Call) {
    c.writes || Target(s, c.change) != s
  }

  /** What a call leaves on the disk: its state when it is answered with success and nothing new after an error, except
      that on Windows an error may leave the state as well. */
  predicate Leaves(windows: bool, writes: bool, ok: bool, target: State, before: State, after: State) {
    if !writes then ok && after == before
    else if ok then after == target
    else after == before || (windows && after == target)
  }

  predicate CallLeaves(windows: bool, c: Call, ok: bool, s: State, before: State, after: State) {
    Leaves(windows, Writes(s, c), ok, Target(s, c.change), before, after)
  }

  /** found[i] is on the disk when the first i calls are answered. */
  ghost predicate OnDisk(windows: bool, calls: seq<Call>, answers: seq<bool>, states: seq<State>, found: seq<State>) {
    && |answers| == |calls| && |states| == |calls| + 1 == |found|
    && forall i :: 0 <= i < |calls| ==> CallLeaves(windows, calls[i], answers[i], states[i], found[i], found[i + 1])
  }

  lemma RunSnoc(calls: seq<Call>, answers: seq<bool>, states: seq<State>, ok: bool, next: State)
    requires |answers| < |calls| && IsRun(calls[..|answers|], answers, states)
    requires next == if ok then Target(states[|answers|], calls[|answers|].change) else states[|answers|]
    ensures IsRun(calls[..|answers| + 1], answers + [ok], states + [next])
  {
    var n, more := |answers|, states + [next];
    forall i | 0 <= i < n + 1
      ensures more[i + 1] == if (answers + [ok])[i] then Target(more[i], calls[i].change) else more[i]
    {
      assert i < n ==> calls[i] == calls[..n][i] && more[i + 1] == states[i + 1];
    }
  }

  lemma OnDiskSnoc(windows: bool, calls: seq<Call>, answers: seq<bool>, states: seq<State>, found: seq<State>,
                   ok: bool, next: State, after: State)
    requires |answers| < |calls| && OnDisk(windows, calls[..|answers|], answers, states, found)
    requires CallLeaves(windows, calls[|answers|], ok, states[|answers|], found[|answers|], after)
    ensures OnDisk(windows, calls[..|answers| + 1], answers + [ok], states + [next], found + [after])
  {
    var n, more := |answers|, found + [after];
    forall i | 0 <= i < n + 1
      ensures CallLeaves(windows, calls[..n + 1][i], (answers + [ok])[i], (states + [next])[i], more[i], more[i + 1])
    {
      assert i < n ==> calls[i] == calls[..n][i] && more[i + 1] == found[i + 1];
    }
  }

  /** On POSIX the disk always has what the last answered call left. */
  lemma {:induction false} FoundOnPosix(calls: seq<Call>, answers: seq<bool>, states: seq<State>, found: seq<State>, i: nat)
    requires IsRun(calls, answers, states) && OnDisk(false, calls, answers, states, found) && found[0] == states[0]
    requires i <= |calls|
    ensures found[i] == states[i]
  {
    if i == 0 {
    } else {
      FoundOnPosix(calls, answers, states, found, i - 1);
      assert CallLeaves(false, calls[i - 1], answers[i - 1], states[i - 1], found[i - 1], found[i]);
    }
  }

  /** Call j failed but left its state, and nothing was written with success since. */
  ghost predicate LeftBehind(calls: seq<Call>, answers: seq<bool>, states: seq<State>, found: State, j: nat, i: nat)
    requires |answers| == |calls| && |states| == |calls| + 1
  {
    && j < i <= |calls| && !answers[j] && states[i] == states[j] && found == Target(states[j], calls[j].change)
    && forall m :: j <= m < i ==> !(answers[m] && Writes(states[m], calls[m]))
  }

  /** On Windows it may also have the state that a failed call left, until the next one that writes with success. */
  lemma {:induction false} FoundOnWindows(calls: seq<Call>, answers: seq<bool>, states: seq<State>, found: seq<State>, i: nat)
    requires IsRun(calls, answers, states) && OnDisk(true, calls, answers, states, found) && found[0] == states[0]
    requires i <= |calls|
    ensures found[i] == states[i] || exists j: nat :: LeftBehind(calls, answers, states, found[i], j, i)
  {
    if i == 0 {
    } else {
      FoundOnWindows(calls, answers, states, found, i - 1);
      assert CallLeaves(true, calls[i - 1], answers[i - 1], states[i - 1], found[i - 1], found[i]);
      if found[i] != states[i] {
        if found[i] == found[i - 1] && found[i - 1] != states[i - 1] {
          var j: nat :| LeftBehind(calls, answers, states, found[i - 1], j, i - 1);
          assert LeftBehind(calls, answers, states, found[i], j, i);
        } else {
          assert LeftBehind(calls, answers, states, found[i], i - 1, i);
        }
      }
    }
  }

  lemma NoneInactive(incidents: map<string, Inc.Incident>, cutoff: Time, now: Time)
    ensures InactiveOnes(incidents, cutoff) == map[] ==> Inc.ResolveStale(incidents, cutoff, now) == incidents
  {
    forall k | k in incidents && Inc.Inactive(incidents[k], cutoff) ensures k in InactiveOnes(incidents, cutoff) {}
  }

  /** When the process stops: after all calls are answered, or during one more, after that many steps of it. */
  datatype Stop = Between | During(last: Call, step: nat)

  /** What a stop leaves on the disk: what was there when the last call was answered, or else what the one under way
      makes of the state. */
  predicate StopLeaves(stop: Stop, s: State, found: State, stopped: State) {
    stopped == found || (stop.During? && stopped == Target(s, stop.last.change))
  }

  ghost predicate AllCallable(calls: seq<Call>, stop: Stop) {
    && (forall i :: 0 <= i < |calls| ==> Callable(calls[i].change))
    && (stop.During? ==> Callable(stop.last.change))
  }

  ghost predicate AllAnswered(answers: seq<bool>) {
    forall i :: 0 <= i < |answers| ==> answers[i]
  }

  /** A store in use and the disk it persists to. Every call changes the state in memory, writes it out and takes the
      change back when that fails. */
  class DurableStore {
    const store: Store
    const disk: Disk<State>
    ghost var onDisk: State

    /** Put the state that opening the disk found in memory. */
    constructor (disk: Disk<State>, state: State)
      requires disk.Valid() && Ready(disk.files) && OutcomeOf(disk.files) == Found(state)
      ensures this.disk == disk && Valid() && store.Contents() == state == onDisk
      ensures fresh(store) && fresh(store.Parts())
    {
      this.disk := disk;
      onDisk := state;
      store := new Store(state);
    }

    /** What is on the disk is what opening it would find. */
    ghost predicate Valid()
      reads this, disk, store, store.Parts()
    {
      && store.Valid() && disk.Valid() && Ready(disk.files) && OutcomeOf(disk.files) == Found(onDisk)
    }

    /** Any calls, and what came of them: states[i] is the state in memory when the first i calls are answered, and
        found[i] what the disk has then. An answer is an error only when the disk had a fault. */
    method RunAll(calls: seq<Call>) returns (answers: seq<bool>, ghost states: seq<State>, ghost found: seq<State>)
      requires Valid() && AllCallable(calls, Between)
      modifies this`onDisk, disk, store, store.Parts()
      ensures IsRun(calls, answers, states) && states[0] == old(store.Contents())
      ensures OnDisk(disk.windows, calls, answers, states, found) && found[0] == old(onDisk)
      ensures Valid() && store.Contents() == states[|calls|] && onDisk == found[|calls|]
      ensures store.ArraysOwned() && Continues(old(disk.history), disk.history) && disk.clock >= old(disk.clock)
      ensures Faultless(disk.plan, old(disk.clock)) ==> AllAnswered(answers)
    {
      answers, states, found := [], [store.Contents()], [onDisk];
      for i := 0 to |calls|
        invariant Valid() && store.ArraysOwned()
        invariant Continues(old(disk.history), disk.history) && disk.clock >= old(disk.clock)
        invariant Recorded(calls[..i], answers, states, found)
        invariant states[0] == old(store.Contents()) && found[0] == old(onDisk)
        invariant Faultless(disk.plan, old(disk.clock)) ==> AllAnswered(answers)
      {
        answers, states, found := DoNext(calls, i, answers, states, found);
      }
      assert calls[..|calls|] == calls;
    }

    /** The calls so far, their answers, the states and the disk fit together. */
    ghost predicate Recorded(calls: seq<Call>, answers: seq<bool>, states: seq<State>, found: seq<State>)
      reads this, disk, store, store.Parts()
    {
      && IsRun(calls, answers, states) && OnDisk(disk.windows, calls, answers, states, found)
      && store.Contents() == states[|calls|] && onDisk == found[|calls|]
    }

    method DoNext(calls: seq<Call>, i: nat, answers: seq<bool>, ghost states: seq<State>, ghost found: seq<State>)
      returns (answers': seq<bool>, ghost states': seq<State>, ghost found': seq<State>)
      requires Valid() && i < |calls| && Callable(calls[i].change)
      requires Recorded(calls[..i], answers, states, found)
      modifies this`onDisk, disk, store, store.Parts()
      ensures Valid() && store.ArraysOwned()
      ensures Continues(old(disk.history), disk.history) && disk.clock >= old(disk.clock)
      ensures Recorded(calls[..i + 1], answers', states', found')
      ensures states' == states + [store.Contents()] && found' == found + [onDisk]
      ensures Faultless(disk.plan, old(disk.clock)) && AllAnswered(answers) ==> AllAnswered(answers')
    {
      ghost var target, writes;
      var ok;
      ok, target, writes := Do(calls[i]);
      RunSnoc(calls, answers, states, ok, store.Contents());
      OnDiskSnoc(disk.windows, calls, answers, states, found, ok, store.Contents(), onDisk);
      answers', states', found' := answers + [ok], states + [store.Contents()], found + [onDisk];
    }

    /** Any calls and a stop, between calls or after any step of one more. */
    method RunStop(calls: seq<Call>, stop: Stop)
      returns (answers: seq<bool>, left: Files<State>, ghost states: seq<State>, ghost found: seq<State>, ghost stopped: State)
      requires Valid() && AllCallable(calls, stop)
      modifies this`onDisk, disk, store, store.Parts()
      ensures IsRun(calls, answers, states) && states[0] == old(store.Contents())
      ensures OnDisk(disk.windows, calls, answers, states, found) && found[0] == old(onDisk)
      ensures Faultless(disk.plan, old(disk.clock)) ==> AllAnswered(answers)
      ensures OutcomeOf(left) == Found(stopped) && StopLeaves(stop, states[|calls|], found[|calls|], stopped)
      ensures disk.Valid() && Continues(old(disk.history), disk.history)
      ensures left == disk.files || exists k :: |old(disk.history)| <= k < |disk.history| && left == disk.history[k]
    {
      answers, states, found := RunAll(calls);
      left, stopped := disk.files, onDisk;
      if stop.During? {
        left, stopped := StopDuring(stop.last, stop.step);
      }
    }

    /** Stop after a step of the call; after its last one it is done. */
    method StopDuring(c: Call, step: nat) returns (left: Files<State>, ghost stopped: State)
      requires Valid() && Callable(c.change)
      modifies this`onDisk, disk, store, store.Parts()
      ensures OutcomeOf(left) == Found(stopped)
      ensures stopped == old(onDisk) || stopped == Target(old(store.Contents()), c.change)
      ensures disk.Valid() && Continues(old(disk.history), disk.history)
      ensures left == disk.files || exists k :: |old(disk.history)| <= k < |disk.history| && left == disk.history[k]
    {
      var first := |disk.history|;
      var ok;
      ghost var target, writes;
      ok, target, writes := Do(c);
      left := disk.StoppedAt(first + step);
      stopped := if first + step < |disk.history| then OutcomeOf(left).state else onDisk;
    }

    /** Any calls, a stop, and an opening of what is there then in a new process, with faults of its own: the store opens
        with what was on the disk when the last call was answered or, if one more was under way, perhaps with what that
        one makes of the state. */
    method RunStopOpen(calls: seq<Call>, stop: Stop, restartPlan: Plan, blank: State, normalize: State -> State)
      returns (answers: seq<bool>, r: Opened<State>, next: Disk<State>, ghost states: seq<State>, ghost found: seq<State>)
      requires Valid() && AllCallable(calls, stop)
      modifies this`onDisk, disk, store, store.Parts()
      ensures IsRun(calls, answers, states) && states[0] == old(store.Contents())
      ensures OnDisk(disk.windows, calls, answers, states, found) && found[0] == old(onDisk)
      ensures !disk.windows && old(onDisk) == old(store.Contents()) ==> found == states
      ensures Faultless(disk.plan, old(disk.clock)) ==> AllAnswered(answers)
      ensures r.Opened? ==>
                || r.state == normalize(found[|calls|])
                || (stop.During? && r.state == normalize(Target(states[|calls|], stop.last.change)))
      ensures r.Opened? ==> next.Valid() && Ready(next.files) && OutcomeOf(next.files) == Found(r.state)
      ensures Faultless(restartPlan, 0) ==> r.Opened?
    {
      var left;
      ghost var stopped;
      answers, left, states, found, stopped := RunStop(calls, stop);
      next := new Disk(disk.windows, restartPlan, left);
      r := next.Open(blank, normalize);
      if !disk.windows && old(onDisk) == old(store.Contents()) {
        forall i | 0 <= i <= |calls| ensures found[i] == states[i] {
          FoundOnPosix(calls, answers, states, found, i);
        }
      }
    }

    /** What the call leaves on the disk, after an error exactly when; at every step the disk has what it had before, or
        that. */
    twostate predicate Written(target: State, writes: bool, ok: bool)
      reads this, disk
    {
      && Leaves(disk.windows, writes, ok, target, old(onDisk), onDisk)
      && (ok <==> !writes || Clean(disk.plan, old(disk.clock), PersistSteps(disk.windows, old(disk.files))))
      && disk.clock >= old(disk.clock)
      && (!ok ==> onDisk == if OnlyLastFails(disk.windows, disk.plan, old(disk.clock), old(disk.files))
                            then target else old(onDisk))
      && Continues(old(disk.history), disk.history)
      && (exists m: nat :: SwitchesAt(disk.history, |old(disk.history)|, m, Found(old(onDisk)), Found(onDisk)))
    }

    /** One call under the lock of the store. Whenever the process stops in it, the disk has what it had before or what
        the call leaves. */
    method Do(c: Call) returns (ok: bool, ghost target: State, ghost writes: bool)
      requires Valid() && Callable(c.change)
      modifies this`onDisk, disk, store, store.Parts()
      ensures Valid() && store.ArraysOwned()
      ensures target == Target(old(store.Contents()), c.change) && writes == Writes(old(store.Contents()), c)
      ensures store.Contents() == if ok then target else old(store.Contents())
      ensures Written(target, writes, ok)
    {
      var before := store.Snapshot();
      var after := Target(before, c.change);
      target, writes := after, Writes(before, c);
      ok := WriteOut(after, Writes(before, c));
      InMemory(c.change, ok);
    }

    /** Write the new state out, if at all. */
    method WriteOut(target: State, writes: bool) returns (ok: bool)
      requires disk.Valid() && Ready(disk.files) && OutcomeOf(disk.files) == Found(onDisk)
      modifies this`onDisk, disk
      ensures disk.Valid() && Ready(disk.files) && OutcomeOf(disk.files) == Found(onDisk)
      ensures Written(target, writes, ok)
    {
      ok := true;
      if !writes {
        assert SwitchesAt(disk.history, |old(disk.history)|, |disk.history|, Found(onDisk), Found(onDisk));
        return;
      }
      ghost var installed;
      ok, installed := disk.Persist(target);
      if installed {
        onDisk := target;
      } else {
        assert SwitchesAt(disk.history, |old(disk.history)|, |disk.history|, Found(onDisk), Found(onDisk));
      }
    }

    /** Change the state in memory; an error from persisting takes the change back. */
    method InMemory(c: Change, saved: bool)
      requires store.Valid() && Callable(c)
      modifies store, store.Parts()
      ensures unchanged(this`onDisk) && unchanged(disk)
      ensures store.Valid()
      ensures store.ArraysOwned()
      ensures store.Contents() == if saved then Target(old(store.Contents()), c) else old(store.Contents())
    {
      if c.Cleanup? {
        ChangeAll(c, saved);
      } else {
        ChangePart(c, saved);
      }
    }

    method ChangeAll(c: Change, saved: bool)
      requires store.Valid() && c.Cleanup?
      modifies store, store.Parts()
      ensures unchanged(this`onDisk) && unchanged(disk)
      ensures store.Valid()
      ensures store.ArraysOwned()
      ensures store.Contents() == if saved then Target(old(store.Contents()), c) else old(store.Contents())
    {
      var ok := store.Cleanup(c.retentionDays, c.now, saved);
    }

    method ChangePart(c: Change, saved: bool)
      requires store.Valid() && Callable(c) && !c.Cleanup?
      modifies store, store.Parts()
      ensures unchanged(this`onDisk) && unchanged(disk)
      ensures store.Valid()
      ensures store.ArraysOwned()
      ensures store.Contents() == if saved then Target(old(store.Contents()), c) else old(store.Contents())
    {
      if c.OnJobs? {
        ChangeJobs(c, saved);
      } else if c.Analysis? {
        ChangeAnalyses(c, saved);
      } else {
        ChangeAlerts(c, saved);
      }
    }

    method ChangeJobs(c: Change, saved: bool)
      requires store.Valid() && c.OnJobs? && Callable(c)
      modifies store, store.jobs, store.jobs.data
      ensures unchanged(this`onDisk) && unchanged(disk)
      ensures store.Valid() && (store.jobs.data == old(store.jobs.data) || fresh(store.jobs.data))
      ensures store.Contents() == if saved then Target(old(store.Contents()), c) else old(store.Contents())
    {
      var reply := store.DoJobs(c.op, c.now, saved);
    }

    method ChangeAnalyses(c: Change, saved: bool)
      requires store.Valid() && c.Analysis?
      modifies store, store.analysisOrder, store.analysisOrder.data, store.environments, store.environments.data
      ensures unchanged(this`onDisk) && unchanged(disk)
      ensures store.Valid()
      ensures store.analysisOrder.data == old(store.analysisOrder.data) || fresh(store.analysisOrder.data)
      ensures store.environments.data == old(store.environments.data) || fresh(store.environments.data)
      ensures store.Contents() == if saved then Target(old(store.Contents()), c) else old(store.Contents())
    {
      var ok := store.RecordAnalysis(c.tenant, c.id, c.analysis, c.environment, saved);
    }

    method ChangeAlerts(c: Change, saved: bool)
      requires store.Valid() && (c.Report? || c.ResolveStale? || c.Outcome? || c.Request?)
      modifies store, store.notificationOrder, store.notificationOrder.data
      ensures unchanged(this`onDisk) && unchanged(disk)
      ensures store.Valid()
      ensures store.notificationOrder.data == old(store.notificationOrder.data) || fresh(store.notificationOrder.data)
      ensures store.Contents() == if saved then Target(old(store.Contents()), c) else old(store.Contents())
    {
      match c {
        case Report(key, report) => var ok := store.UpsertIncident(key, report, saved);
        case ResolveStale(cutoff, now) =>
          NoneInactive(store.incidents, cutoff, now);
          var ok, resolved := store.ResolveStaleIncidents(cutoff, now, saved);
        case Outcome(record, now) => var ok := store.RecordNotificationDelivery(record, now, saved);
        case Request(r, now, reason) => var ok, decision := store.BeginFound(r, reason, now, saved);
      }
    }
  }
}
