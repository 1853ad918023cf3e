/** What holds along every run of notification requests, outcomes and cleanups. */
module NotificationRuns {
  import opened Options
  import Keep = Retention
  import opened Notifications

  datatype Run = Run(states: seq<Outbox>, events: seq<Event>)

  ghost predicate Stepped(run: Run, k: nat)
    requires |run.states| == |run.events| + 1 && k < |run.events|
  {
    && run.states[k + 1] == Next(run.states[k], run.events[k])
    && (run.events[k].Begin? ==>
          ConflictFound(run.states[k], run.events[k].request, run.events[k].now, run.events[k].reason))
  }

  ghost predicate IsRun(run: Run) {
    && |run.states| == |run.events| + 1
    && WellFormed(run.states[0])
    && forall k {:trigger Stepped(run, k)} :: 0 <= k < |run.events| ==> Stepped(run, k)
  }

  /** The clock does not go back. */
  ghost predicate Clocked(run: Run) {
    forall m, n {:trigger InOrder(run, m, n)} :: 0 <= m < n < |run.events| ==> InOrder(run, m, n)
  }

  predicate InOrder(run: Run, m: nat, n: nat)
    requires m < |run.events| && n < |run.events|
  {
    TimeOf(run.events[m]) <= TimeOf(run.events[n])
  }

  /** Cleanups retain at least this many days; one with less than a day does nothing. */
  predicate Retains(e: Event, days: int) {
    e.Cleanup? && e.retentionDays >= 1 ==> e.retentionDays >= days
  }

  ghost predicate AllRetain(run: Run, days: int) {
    forall n {:trigger Retains(run.events[n], days)} :: 0 <= n < |run.events| ==> Retains(run.events[n], days)
  }

  /** Some event before k was at the time or later. */
  ghost predicate Late(run: Run, k: nat, at: Time) {
    exists n :: 0 <= n < k && n < |run.events| && TimeOf(run.events[n]) >= at
  }

  lemma LaterStill(run: Run, k: nat, at: Time)
    requires Clocked(run) && k < |run.events| && Late(run, k, at)
    ensures Late(run, k + 1, at) && TimeOf(run.events[k]) >= at
  {
    var n :| 0 <= n < k && TimeOf(run.events[n]) >= at;
    assert InOrder(run, n, k);
  }

  lemma {:induction false} RunWellFormed(run: Run, k: nat)
    requires IsRun(run) && k <= |run.events|
    ensures WellFormed(run.states[k])
  {
    if k == 0 {
    } else {
      RunWellFormed(run, k - 1);
      assert Stepped(run, k - 1);
      NextWellFormed(run.states[k - 1], run.events[k - 1]);
    }
  }

  // ---------------------------------------------------------------- deduplication at a request

  /** The record is one that the request competes with. */
  predicate Competes(d: Notification, r: Request) {
    d.id != KeyOf(r) && d.tenant == r.tenant && d.channel == r.channel && d.dedupeKey == r.dedupeKey
  }

  /** "Send" with a cooldown and a dedupe key means that no other record for the same tenant, channel and
      key is in flight or was sent within the cooldown. */
  lemma SendIsClear(run: Run, k: nat, other: string)
    requires IsRun(run) && k < |run.events| && Sends(run.states[k], run.events[k])
    requires run.events[k].request.cooldown > 0 && run.events[k].request.dedupeKey != ""
    requires other in run.states[k].records && Competes(run.states[k].records[other], run.events[k].request)
    ensures var d, r, now := run.states[k].records[other], run.events[k].request, run.events[k].now;
            && (d.status == Sent ==> d.sentAt < now - r.cooldown)
            && (d.status == Sending || d.status == Retrying ==> d.updatedAt <= now - IN_FLIGHT_WINDOW)
  {
    assert Stepped(run, k);
    assert ConflictWith(run.states[k].records[other], run.events[k].request, run.events[k].now) == "";
  }

  // ---------------------------------------------------------------- final records

  predicate Final(d: Notification) {
    d.status == Sent || d.status == Suppressed || d.status == Failed
  }

  /** The event records an outcome for the key. */
  predicate Reports(e: Event, key: string) {
    e.Record? && e.saved && Touches(e, key)
  }

  /** No outcome is recorded for the key by the events from i to k. */
  ghost predicate Unrecorded(run: Run, i: nat, k: nat, key: string) {
    forall n :: i <= n < k && n < |run.events| ==> !Reports(run.events[n], key)
  }

  /** A final record stays as it is, until an outcome is recorded for it or its retention time is over. */
  lemma {:induction false} FinalOrLate(run: Run, days: int, i: nat, k: nat, key: string)
    requires IsRun(run) && i <= k <= |run.events| && days >= 1 && AllRetain(run, days)
    requires key in run.states[i].records && Final(run.states[i].records[key]) && Unrecorded(run, i, k, key)
    ensures var d := run.states[i].records[key];
            || (key in run.states[k].records && run.states[k].records[key] == d)
            || Late(run, k, d.updatedAt + days * Keep.DAY + 1)
  {
    if i == k {
    } else {
      var d, at := run.states[i].records[key], run.states[i].records[key].updatedAt + days * Keep.DAY + 1;
      FinalOrLate(run, days, i, k - 1, key);
      if !Late(run, k - 1, at) {
        FinalStep(run, days, k - 1, key);
      }
    }
  }

  lemma FinalStep(run: Run, days: int, n: nat, key: string)
    requires IsRun(run) && n < |run.events| && days >= 1 && Retains(run.events[n], days)
    requires key in run.states[n].records && Final(run.states[n].records[key]) && Unrecorded(run, n, n + 1, key)
    ensures var d := run.states[n].records[key];
            || (key in run.states[n + 1].records && run.states[n + 1].records[key] == d)
            || TimeOf(run.events[n]) >= d.updatedAt + days * Keep.DAY + 1
  {
    assert Stepped(run, n);
    RunWellFormed(run, n);
    var e := run.events[n];
    if Touches(e, key) {
      assert Settled(run.states[n].records[key], e.now);
    } else {
      OthersStay(run.states[n], e, key);
      if key !in run.states[n + 1].records {
        LongerRetention(days, e.retentionDays);
      }
    }
  }

  lemma LongerRetention(days: int, more: int)
    requires days <= more
    ensures days * Keep.DAY <= more * Keep.DAY
  {}

  /** A record that is sent, suppressed or failed stays as it is and is not sent again, until an outcome is
      recorded for it or its retention time is over. */
  lemma FinalStays(run: Run, days: int, i: nat, k: nat, key: string)
    requires IsRun(run) && i <= k <= |run.events| && days >= 1 && AllRetain(run, days)
    requires key in run.states[i].records && Final(run.states[i].records[key]) && Unrecorded(run, i, k, key)
    requires !Late(run, k, run.states[i].records[key].updatedAt + days * Keep.DAY + 1)
    ensures key in run.states[k].records && run.states[k].records[key] == run.states[i].records[key]
    ensures k < |run.events| && Touches(run.events[k], key) ==> !Sends(run.states[k], run.events[k])
  {
    FinalOrLate(run, days, i, k, key);
  }

  /** Event n sends the notification. */
  ghost predicate IsSending(run: Run, key: string, n: nat)
    requires |run.states| == |run.events| + 1 && n < |run.events|
  {
    Touches(run.events[n], key) && Sends(run.states[n], run.events[n])
  }

  /** Sends of the record among the first k events. */
  ghost function SendCount(run: Run, key: string, k: nat): nat
    requires |run.states| == |run.events| + 1 && k <= |run.events|
  {
    if k == 0 then 0
    else SendCount(run, key, k - 1) + if IsSending(run, key, k - 1) then 1 else 0
  }

  // ---------------------------------------------------------------- outcomes and their sends

  /** Event i sends the notification of the key; -1 stands for a send from before the run that is under way. */
  ghost predicate IsSend(run: Run, key: string, i: int)
    requires |run.states| == |run.events| + 1
  {
    && -1 <= i < |run.events|
    && if i == -1 then key in run.states[0].records && run.states[0].records[key].status == Sending
       else IsSending(run, key, i)
  }

  /** Event n records the outcome of send i: it has the attempts that the send was given, its time was read after the
      send, and it is recorded later than that, but within the delay. */
  ghost predicate IsOutcome(run: Run, key: string, delay: int, i: int, n: nat)
    requires |run.states| == |run.events| + 1 && n < |run.events| && run.events[n].Record?
  {
    && i < n && IsSend(run, key, i) && key in run.states[i + 1].records
    && var sent, d, now := run.states[i + 1].records[key], run.events[n].record, run.events[n].now;
       d.attempts == sent.attempts && sent.updatedAt <= d.updatedAt <= now <= sent.updatedAt + delay
  }

  /** Every outcome recorded for the key is that of the send given for it, and no send has two. */
  ghost predicate Honest(run: Run, key: string, of: seq<int>, delay: int) {
    && |run.states| == |run.events| + 1 && |of| == |run.events|
    && (forall n {:trigger IsOutcome(run, key, delay, of[n], n)} :: 0 <= n < |of| && Reports(run.events[n], key) ==>
          IsOutcome(run, key, delay, of[n], n))
    && (forall m, n {:trigger Differ(run, key, of, m, n)} :: 0 <= m < n < |of| ==> Differ(run, key, of, m, n))
  }

  /** The events record the outcomes of different sends. */
  ghost predicate Differ(run: Run, key: string, of: seq<int>, m: nat, n: nat)
    requires |of| == |run.events| && m < |of| && n < |of|
  {
    Reports(run.events[m], key) && Reports(run.events[n], key) ==> of[m] != of[n]
  }

  /** While the outcome is awaited, requests come within the in-flight window of the send, and no cleanup comes after
      the retention time. */
  predicate Waits(e: Event, key: string, sent: Notification, days: int) {
    && (e.Begin? && Touches(e, key) ==> e.now < sent.updatedAt + IN_FLIGHT_WINDOW)
    && (e.Cleanup? ==> e.now <= sent.updatedAt + days * Keep.DAY)
  }

  /** So do all of the first k events between a send and its outcome. */
  ghost predicate AllWait(run: Run, key: string, of: seq<int>, days: int, k: nat)
    requires |run.states| == |run.events| + 1 && |of| == |run.events|
  {
    forall n, m :: 0 <= n < |of| && Reports(run.events[n], key) && -1 <= of[n] < m < n && m < k
                   && key in run.states[of[n] + 1].records ==>
      Waits(run.events[m], key, run.states[of[n] + 1].records[key], days)
  }

  /** The send whose outcome event n records is the last one before k, and the record is as it left it. */
  ghost predicate Pending(run: Run, key: string, i: int, k: nat)
    requires |run.states| == |run.events| + 1 && k <= |run.events|
  {
    && -1 <= i < k && IsSend(run, key, i) && key in run.states[i + 1].records && key in run.states[k].records
    && run.states[k].records[key] == run.states[i + 1].records[key] && run.states[k].records[key].status == Sending
    && (forall m: nat :: i < m < k ==> !IsSend(run, key, m))
  }

  lemma SendLeaves(run: Run, key: string, i: int)
    requires IsRun(run) && IsSend(run, key, i)
    ensures key in run.states[i + 1].records && run.states[i + 1].records[key].status == Sending
    ensures i >= 0 ==> run.states[i + 1].records[key].updatedAt == run.events[i].now
  {
    if i >= 0 {
      assert Stepped(run, i);
    }
  }

  lemma PendingStep(run: Run, key: string, days: int, i: int, k: nat)
    requires IsRun(run) && k < |run.events| && days >= 1 && Retains(run.events[k], days)
    requires Pending(run, key, i, k) && !Reports(run.events[k], key)
    requires Waits(run.events[k], key, run.states[i + 1].records[key], days)
    ensures Pending(run, key, i, k + 1)
  {
    SendingStays(run, key, days, k);
    forall m: nat | i < m < k + 1 ensures !IsSend(run, key, m) {
      assert m < k || m == k;
    }
  }

  lemma SendingStays(run: Run, key: string, days: int, k: nat)
    requires IsRun(run) && k < |run.events| && days >= 1 && Retains(run.events[k], days)
    requires key in run.states[k].records && run.states[k].records[key].status == Sending
    requires !Reports(run.events[k], key) && Waits(run.events[k], key, run.states[k].records[key], days)
    ensures key in run.states[k + 1].records && run.states[k + 1].records[key] == run.states[k].records[key]
    ensures !IsSend(run, key, k)
  {
    assert Stepped(run, k);
    RunWellFormed(run, k);
    var box, e := run.states[k], run.events[k];
    if Touches(e, key) {
      assert e.Begin? ==> Settled(box.records[key], e.now);
      assert run.states[k + 1] == box;
    } else {
      OthersStay(box, e, key);
      if key !in run.states[k + 1].records {
        LongerRetention(days, e.retentionDays);
      }
    }
  }

  /** While its outcome is awaited, a send is the last one and its record stays. */
  lemma {:induction false} OutcomesPending(run: Run, key: string, of: seq<int>, delay: int, days: int, k: nat, n: nat)
    requires IsRun(run) && days >= 1 && AllRetain(run, days) && Honest(run, key, of, delay)
    requires k <= n < |run.events| && AllWait(run, key, of, days, k) && Reports(run.events[n], key) && of[n] < k
    ensures Pending(run, key, of[n], k)
    decreases k
  {
    assert IsOutcome(run, key, delay, of[n], n);
    if of[n] == k - 1 {
      SendLeaves(run, key, of[n]);
    } else {
      FewerWait(run, key, of, days, k);
      OutcomesPending(run, key, of, delay, days, k - 1, n);
      if Reports(run.events[k - 1], key) {
        assert IsOutcome(run, key, delay, of[k - 1], k - 1);
        OutcomesPending(run, key, of, delay, days, k - 1, k - 1);
      }
      OneOutcome(run, key, of, delay, k - 1, n);
      WaitsAt(run, key, of, days, k, n);
      PendingStep(run, key, days, of[n], k - 1);
    }
  }

  lemma FewerWait(run: Run, key: string, of: seq<int>, days: int, k: nat)
    requires |run.states| == |run.events| + 1 && |of| == |run.events| && k > 0 && AllWait(run, key, of, days, k)
    ensures AllWait(run, key, of, days, k - 1)
  {}

  lemma WaitsAt(run: Run, key: string, of: seq<int>, days: int, k: nat, n: nat)
    requires |run.states| == |run.events| + 1 && |of| == |run.events| && k > 0 && AllWait(run, key, of, days, k)
    requires k <= n < |of| && Reports(run.events[n], key) && -1 <= of[n] < k - 1 && key in run.states[of[n] + 1].records
    ensures Waits(run.events[k - 1], key, run.states[of[n] + 1].records[key], days)
  {}

  /** While one outcome is awaited, no other is recorded. */
  lemma OneOutcome(run: Run, key: string, of: seq<int>, delay: int, k: nat, n: nat)
    requires Honest(run, key, of, delay) && k < n < |run.events| && Reports(run.events[n], key)
    requires Pending(run, key, of[n], k) && (Reports(run.events[k], key) ==> Pending(run, key, of[k], k))
    ensures !Reports(run.events[k], key)
  {
    assert Differ(run, key, of, k, n);
  }

  // ---------------------------------------------------------------- bounded sends

  /** Attempts on record when the run starts. */
  function Tried(box: Outbox, key: string): int {
    if key in box.records then box.records[key].attempts else 0
  }

  /** How often the event may go out yet. */
  function TriesLeft(box: Outbox, key: string, limit: int): int {
    if Tried(box, key) < limit then limit - Tried(box, key) else 0
  }

  /** Requests for the key come within the span from the start and ask for at most so many attempts. */
  predicate Bounds(e: Event, key: string, start: Time, span: int, limit: int) {
    e.Begin? && Touches(e, key) ==> start <= e.now <= start + span && AttemptLimit(e.request) <= limit
  }

  /** The outcomes for the key are honest, and nothing about it is from before the start or beyond these bounds. */
  ghost predicate Bounded(run: Run, key: string, of: seq<int>, start: Time, span: int, delay: int, limit: int) {
    && Honest(run, key, of, delay) && limit >= 1
    && (key in run.states[0].records ==> run.states[0].records[key].updatedAt >= start)
    && (forall n {:trigger Bounds(run.events[n], key, start, span, limit)} :: 0 <= n < |run.events| ==>
          Bounds(run.events[n], key, start, span, limit))
  }

  /** The record has counted all attempts. */
  predicate CountedIn(box: Outbox, key: string, start: Time, total: int) {
    if key in box.records then
      (box.records[key].status == Suppressed || box.records[key].attempts == total) && box.records[key].updatedAt >= start
    else total == 0
  }

  lemma CountedRequest(box: Outbox, e: Event, key: string, start: Time, span: int, total: int, limit: int)
    requires CountedIn(box, key, start, total) && e.Begin? && Touches(e, key)
    requires Bounds(e, key, start, span, limit) && limit >= 1
    ensures CountedIn(Next(box, e), key, start, total + if Sends(box, e) then 1 else 0)
    ensures Sends(box, e) ==> total + 1 <= limit
  {
    if key in box.records && box.records[key].status == Suppressed {
      assert Settled(box.records[key], e.now);
    }
  }

  lemma CountedOutcome(run: Run, key: string, i: int, n: nat, start: Time, delay: int, total: int)
    requires IsRun(run) && n < |run.events| && Reports(run.events[n], key) && Pending(run, key, i, n)
    requires IsOutcome(run, key, delay, i, n) && CountedIn(run.states[n], key, start, total)
    ensures CountedIn(run.states[n + 1], key, start, total)
  {
    assert Stepped(run, n);
  }

  lemma CountedOther(run: Run, key: string, n: nat, days: int, start: Time, total: int)
    requires IsRun(run) && n < |run.events| && days >= 1 && Retains(run.events[n], days)
    requires !Reports(run.events[n], key) && (run.events[n].Begin? ==> !Touches(run.events[n], key))
    requires CountedIn(run.states[n], key, start, total)
    ensures CountedIn(run.states[n + 1], key, start, total) || TimeOf(run.events[n]) >= start + days * Keep.DAY + 1
  {
    assert Stepped(run, n);
    RunWellFormed(run, n);
    var box, e := run.states[n], run.events[n];
    if Touches(e, key) {
      assert run.states[n + 1] == box;
    } else if key in box.records {
      OthersStay(box, e, key);
      if key !in run.states[n + 1].records {
        LongerRetention(days, e.retentionDays);
      }
    } else {
      AbsentStays(box, e, key);
    }
  }

  /** Before the retention time is over, the bounds make every request and cleanup wait. */
  lemma BoundsWait(run: Run, key: string, of: seq<int>, days: int, k: nat, start: Time, span: int, delay: int, limit: int)
    requires IsRun(run) && Clocked(run) && days >= 1 && k <= |run.events|
    requires Bounded(run, key, of, start, span, delay, limit) && (delay < IN_FLIGHT_WINDOW || span < IN_FLIGHT_WINDOW)
    requires !Late(run, k, start + days * Keep.DAY + 1)
    ensures AllWait(run, key, of, days, k)
  {
    forall n, m | 0 <= n < |of| && Reports(run.events[n], key) && -1 <= of[n] < m < n && m < k
                  && key in run.states[of[n] + 1].records
      ensures Waits(run.events[m], key, run.states[of[n] + 1].records[key], days)
    {
      assert IsOutcome(run, key, delay, of[n], n) && Bounds(run.events[m], key, start, span, limit);
      SendLeaves(run, key, of[n]);
      if of[n] >= 0 {
        assert Bounds(run.events[of[n]], key, start, span, limit);
      }
      assert InOrder(run, m, n);
    }
  }

  /** So many sends are within the tries left, and with the attempts from before on record until the retention time is
      over. */
  ghost predicate Counted(run: Run, days: int, key: string, k: nat, start: Time, limit: int, sends: nat)
    requires |run.states| == |run.events| + 1 && k <= |run.events|
  {
    && sends <= TriesLeft(run.states[0], key, limit)
    && (CountedIn(run.states[k], key, start, Tried(run.states[0], key) + sends) || Late(run, k, start + days * Keep.DAY + 1))
  }

  lemma LateEvent(run: Run, days: int, key: string, n: nat, start: Time, span: int, limit: int)
    requires |run.states| == |run.events| + 1 && Clocked(run) && n < |run.events| && span <= days * Keep.DAY
    requires Late(run, n, start + days * Keep.DAY + 1) && Bounds(run.events[n], key, start, span, limit)
    ensures !IsSending(run, key, n) && Late(run, n + 1, start + days * Keep.DAY + 1)
  {
    LaterStill(run, n, start + days * Keep.DAY + 1);
  }

  lemma CountedEvent(run: Run, days: int, key: string, of: seq<int>, n: nat, start: Time, span: int, delay: int, limit: int,
                     total: int)
    requires IsRun(run) && Clocked(run) && days >= 1 && AllRetain(run, days) && n < |run.events|
    requires Bounded(run, key, of, start, span, delay, limit)
    requires delay < IN_FLIGHT_WINDOW || span < IN_FLIGHT_WINDOW
    requires !Late(run, n, start + days * Keep.DAY + 1) && CountedIn(run.states[n], key, start, total)
    ensures IsSending(run, key, n) ==> total + 1 <= limit
    ensures || CountedIn(run.states[n + 1], key, start, total + if IsSending(run, key, n) then 1 else 0)
            || Late(run, n + 1, start + days * Keep.DAY + 1)
  {
    var e := run.events[n];
    if Reports(e, key) {
      assert IsOutcome(run, key, delay, of[n], n);
      BoundsWait(run, key, of, days, n, start, span, delay, limit);
      OutcomesPending(run, key, of, delay, days, n, n);
      CountedOutcome(run, key, of[n], n, start, delay, total);
    } else if e.Begin? && Touches(e, key) {
      assert Stepped(run, n) && Bounds(e, key, start, span, limit);
      CountedRequest(run.states[n], e, key, start, span, total, limit);
    } else {
      CountedOther(run, key, n, days, start, total);
    }
  }

  lemma CountedStep(run: Run, days: int, key: string, n: nat, start: Time, limit: int, sends: nat, more: bool)
    requires |run.states| == |run.events| + 1 && n < |run.events| && Counted(run, days, key, n, start, limit, sends)
    requires var total, late := Tried(run.states[0], key) + sends, start + days * Keep.DAY + 1;
             if Late(run, n, late) then !more && Late(run, n + 1, late)
             else && (more ==> total + 1 <= limit)
                  && (CountedIn(run.states[n + 1], key, start, total + if more then 1 else 0) || Late(run, n + 1, late))
    ensures Counted(run, days, key, n + 1, start, limit, sends + if more then 1 else 0)
  {}

  lemma CountedAtStart(run: Run, days: int, key: string, start: Time, limit: int)
    requires |run.states| == |run.events| + 1
    requires key in run.states[0].records ==> run.states[0].records[key].updatedAt >= start
    ensures Counted(run, days, key, 0, start, limit, 0)
  {}

  lemma {:induction false} SendsCounted(run: Run, days: int, key: string, of: seq<int>, k: nat, start: Time, span: int,
                                        delay: int, limit: int)
    requires IsRun(run) && Clocked(run) && days >= 1 && AllRetain(run, days) && k <= |run.events|
    requires Bounded(run, key, of, start, span, delay, limit)
    requires span <= days * Keep.DAY && (delay < IN_FLIGHT_WINDOW || span < IN_FLIGHT_WINDOW)
    ensures Counted(run, days, key, k, start, limit, SendCount(run, key, k))
  {
    if k == 0 {
      CountedAtStart(run, days, key, start, limit);
    } else {
      SendsCounted(run, days, key, of, k - 1, start, span, delay, limit);
      assert Bounds(run.events[k - 1], key, start, span, limit);
      if Late(run, k - 1, start + days * Keep.DAY + 1) {
        LateEvent(run, days, key, k - 1, start, span, limit);
      } else {
        CountedEvent(run, days, key, of, k - 1, start, span, delay, limit,
                     Tried(run.states[0], key) + SendCount(run, key, k - 1));
      }
      CountedStep(run, days, key, k - 1, start, limit, SendCount(run, key, k - 1), IsSending(run, key, k - 1));
    }
  }

  /** If every outcome is recorded within the in-flight window of its send, or all requests for an event come within it,
      and they come within the retention time, the event goes out over one channel at most as often as the largest
      attempt limit, less the attempts made before the run. */
  lemma SendsBounded(run: Run, days: int, key: string, of: seq<int>, k: nat, start: Time, span: int, delay: int, limit: int)
    requires IsRun(run) && Clocked(run) && days >= 1 && AllRetain(run, days) && k <= |run.events|
    requires Bounded(run, key, of, start, span, delay, limit)
    requires span <= days * Keep.DAY && (delay < IN_FLIGHT_WINDOW || span < IN_FLIGHT_WINDOW)
    ensures SendCount(run, key, k) <= TriesLeft(run.states[0], key, limit)
  {
    SendsCounted(run, days, key, of, k, start, span, delay, limit);
  }

  /** No run sends an event more often than its limit, if its requests come within the span and its outcomes within the
      delay. */
  ghost predicate NeverExceeds(days: int, span: int, delay: int) {
    forall run, key, of, start, limit | IsRun(run) && Clocked(run) && AllRetain(run, days)
                                        && Bounded(run, key, of, start, span, delay, limit)
      :: SendCount(run, key, |run.events|) <= TriesLeft(run.states[0], key, limit)
  }

  // ---------------------------------------------------------------- spacing

  /** The record carries what later requests are compared with. */
  predicate Carries(d: Notification, r: Request) {
    d.tenant == r.tenant && d.channel == r.channel && d.dedupeKey == r.dedupeKey
  }

  /** The requests are for different events with the same tenant, channel and dedupe key, and the later has a cooldown. */
  predicate Rivals(a: Request, b: Request) {
    && KeyOf(a) != KeyOf(b) && a.tenant == b.tenant && a.channel == b.channel && a.dedupeKey == b.dedupeKey
    && b.dedupeKey != "" && b.cooldown > 0
  }

  /** Event i is a request that is sent, and its record carries what later requests are compared with. */
  ghost predicate SentOut(run: Run, i: nat)
    requires |run.states| == |run.events| + 1 && i < |run.events|
  {
    && Sends(run.states[i], run.events[i])
    && var r := run.events[i].request;
       KeyOf(r) in run.states[i + 1].records && Carries(run.states[i + 1].records[KeyOf(r)], r)
  }

  predicate BeingSent(box: Outbox, r: Request, since: Time) {
    && KeyOf(r) in box.records && Carries(box.records[KeyOf(r)], r)
    && box.records[KeyOf(r)].status == Sending && box.records[KeyOf(r)].updatedAt >= since
  }

  lemma BeingSentStep(run: Run, days: int, n: nat, r: Request, since: Time)
    requires IsRun(run) && n < |run.events| && days >= 1 && Retains(run.events[n], days)
    requires BeingSent(run.states[n], r, since) && Unrecorded(run, n, n + 1, KeyOf(r))
    requires TimeOf(run.events[n]) >= since
    ensures BeingSent(run.states[n + 1], r, since) || TimeOf(run.events[n]) >= since + IN_FLIGHT_WINDOW
  {
    assert Stepped(run, n);
    RunWellFormed(run, n);
    if !Touches(run.events[n], KeyOf(r)) {
      OthersStay(run.states[n], run.events[n], KeyOf(r));
    }
  }

  lemma {:induction false} InFlight(run: Run, days: int, i: nat, k: nat)
    requires IsRun(run) && Clocked(run) && days >= 1 && AllRetain(run, days) && i < k <= |run.events| && SentOut(run, i)
    requires Unrecorded(run, i + 1, k, KeyOf(run.events[i].request))
    ensures var t := run.events[i].now;
            BeingSent(run.states[k], run.events[i].request, t) || Late(run, k, t + IN_FLIGHT_WINDOW)
  {
    var r, t := run.events[i].request, run.events[i].now;
    if k == i + 1 {
      assert Stepped(run, i);
    } else {
      InFlight(run, days, i, k - 1);
      if !Late(run, k - 1, t + IN_FLIGHT_WINDOW) {
        assert InOrder(run, i, k - 1);
        BeingSentStep(run, days, k - 1, r, t);
      }
    }
  }

  /** As long as no outcome is recorded for a send, a rival goes out no earlier than the in-flight window after it. */
  lemma ApartInFlight(run: Run, days: int, i: nat, k: nat)
    requires IsRun(run) && Clocked(run) && days >= 1 && AllRetain(run, days) && i < k < |run.events| && SentOut(run, i)
    requires Unrecorded(run, i + 1, k, KeyOf(run.events[i].request))
    requires Sends(run.states[k], run.events[k]) && Rivals(run.events[i].request, run.events[k].request)
    ensures run.events[k].now >= run.events[i].now + IN_FLIGHT_WINDOW
  {
    InFlight(run, days, i, k);
    RunWellFormed(run, k);
    if Late(run, k, run.events[i].now + IN_FLIGHT_WINDOW) {
      LaterStill(run, k, run.events[i].now + IN_FLIGHT_WINDOW);
    } else {
      SendIsClear(run, k, KeyOf(run.events[i].request));
    }
  }

  /** Event j records that the notification of the request was sent. */
  ghost predicate RecordsSent(e: Event, r: Request) {
    Reports(e, KeyOf(r)) && e.record.status == Sent && Carries(e.record, r) && e.record.sentAt <= e.record.updatedAt
  }

  lemma SentRecorded(run: Run, j: nat, r: Request)
    requires IsRun(run) && j < |run.events| && RecordsSent(run.events[j], r)
    ensures var key, d := KeyOf(r), run.events[j].record;
            && key in run.states[j + 1].records && Final(run.states[j + 1].records[key])
            && run.states[j + 1].records[key] == d.(id := key, createdAt := run.states[j + 1].records[key].createdAt)
  {
    assert Stepped(run, j);
  }

  /** While the record is there, a rival waits for its cooldown. */
  lemma RivalWaits(run: Run, j: nat, k: nat, a: Request)
    requires IsRun(run) && j < k < |run.events| && RecordsSent(run.events[j], a)
    requires Sends(run.states[k], run.events[k]) && Rivals(a, run.events[k].request)
    requires KeyOf(a) in run.states[j + 1].records && KeyOf(a) in run.states[k].records
    requires run.states[k].records[KeyOf(a)] == run.states[j + 1].records[KeyOf(a)]
    ensures run.events[k].now > run.events[j].record.sentAt + run.events[k].request.cooldown
  {
    SentRecorded(run, j, a);
    SendIsClear(run, k, KeyOf(a));
  }

  /** Once a notification is recorded as sent, a rival goes out only when its cooldown or the retention time is over, or
      when yet another outcome is recorded for it. */
  lemma SentApart(run: Run, days: int, j: nat, k: nat, a: Request)
    requires IsRun(run) && Clocked(run) && days >= 1 && AllRetain(run, days) && j < k < |run.events|
    requires RecordsSent(run.events[j], a) && Unrecorded(run, j + 1, k, KeyOf(a))
    requires Sends(run.states[k], run.events[k]) && Rivals(a, run.events[k].request)
    ensures var sentAt, cooldown := run.events[j].record.sentAt, run.events[k].request.cooldown;
            run.events[k].now > sentAt + if cooldown <= days * Keep.DAY then cooldown else days * Keep.DAY
  {
    SentRecorded(run, j, a);
    FinalOrLate(run, days, j + 1, k, KeyOf(a));
    if Late(run, k, run.events[j].record.updatedAt + days * Keep.DAY + 1) {
      LaterStill(run, k, run.events[j].record.updatedAt + days * Keep.DAY + 1);
    } else {
      RivalWaits(run, j, k, a);
    }
  }

  /** Of two rivals the earlier is sent, its outcome says so, and the later is sent with the cooldown; all outcomes of the
      earlier are honest and recorded within the delay. */
  ghost predicate RivalSends(run: Run, of: seq<int>, i: nat, j: nat, k: nat, delay: int, cooldown: int)
    requires |run.states| == |run.events| + 1
  {
    && i < |run.events| && SentOut(run, i) && Honest(run, KeyOf(run.events[i].request), of, delay)
    && i < j < |run.events| && RecordsSent(run.events[j], run.events[i].request) && of[j] == i
    && run.events[i].now <= run.events[j].record.sentAt
    && i < k < |run.events| && Sends(run.states[k], run.events[k])
    && Rivals(run.events[i].request, run.events[k].request) && run.events[k].request.cooldown == cooldown
  }

  /** In no run do two rivals go out within the cooldown. */
  ghost predicate CooldownHolds(days: int, delay: int, cooldown: int) {
    forall run: Run, of: seq<int>, i: nat, j: nat, k: nat
           | IsRun(run) && Clocked(run) && AllRetain(run, days) && RivalSends(run, of, i, j, k, delay, cooldown)
      :: run.events[k].now > run.events[i].now + cooldown
  }

  /** Outcomes within the in-flight window make every request and cleanup wait. */
  lemma PromptWait(run: Run, key: string, of: seq<int>, delay: int, days: int, k: nat)
    requires IsRun(run) && Clocked(run) && days >= 1 && k <= |run.events|
    requires Honest(run, key, of, delay) && delay < IN_FLIGHT_WINDOW
    ensures AllWait(run, key, of, days, k)
  {
    forall n, m | 0 <= n < |of| && Reports(run.events[n], key) && -1 <= of[n] < m < n && m < k
                  && key in run.states[of[n] + 1].records
      ensures Waits(run.events[m], key, run.states[of[n] + 1].records[key], days)
    {
      assert IsOutcome(run, key, delay, of[n], n);
      assert InOrder(run, m, n);
    }
  }

  /** With such outcomes none follows one that is final, before the retention time is over. */
  lemma {:induction false} PromptFinal(run: Run, key: string, of: seq<int>, delay: int, days: int, i: nat, k: nat)
    requires IsRun(run) && Clocked(run) && days >= 1 && AllRetain(run, days) && i <= k <= |run.events|
    requires Honest(run, key, of, delay) && delay < IN_FLIGHT_WINDOW
    requires key in run.states[i].records && Final(run.states[i].records[key])
    ensures var d := run.states[i].records[key];
            || (key in run.states[k].records && run.states[k].records[key] == d)
            || Late(run, k, d.updatedAt + days * Keep.DAY + 1)
  {
    if i == k {
    } else {
      PromptFinal(run, key, of, delay, days, i, k - 1);
      if !Late(run, k - 1, run.states[i].records[key].updatedAt + days * Keep.DAY + 1) {
        if Reports(run.events[k - 1], key) {
          assert IsOutcome(run, key, delay, of[k - 1], k - 1);
          PromptWait(run, key, of, delay, days, k - 1);
          OutcomesPending(run, key, of, delay, days, k - 1, k - 1);
          assert false;
        }
        FinalStep(run, days, k - 1, key);
      }
    }
  }

  /** Then rivals keep to the cooldown, if the retention time is no shorter. */
  lemma PromptRivals(run: Run, of: seq<int>, days: int, i: nat, j: nat, k: nat, delay: int, cooldown: int)
    requires IsRun(run) && Clocked(run) && days >= 1 && AllRetain(run, days)
    requires RivalSends(run, of, i, j, k, delay, cooldown) && delay < IN_FLIGHT_WINDOW && cooldown <= days * Keep.DAY
    ensures run.events[k].now > run.events[i].now + cooldown
  {
    var a, key := run.events[i].request, KeyOf(run.events[i].request);
    RunWellFormed(run, k);
    if k < j {
      assert IsOutcome(run, key, delay, of[j], j);
      PromptWait(run, key, of, delay, days, k);
      OutcomesPending(run, key, of, delay, days, k, j);
      SendLeaves(run, key, i);
      assert InOrder(run, k, j);
      SendIsClear(run, k, key);
      assert false;
    } else {
      SentRecorded(run, j, a);
      PromptFinal(run, key, of, delay, days, j + 1, k);
      if Late(run, k, run.events[j].record.updatedAt + days * Keep.DAY + 1) {
        LaterStill(run, k, run.events[j].record.updatedAt + days * Keep.DAY + 1);
      } else {
        RivalWaits(run, j, k, a);
      }
    }
  }
}
