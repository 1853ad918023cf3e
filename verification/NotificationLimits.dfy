/** How far the bounds on repeated and on competing notifications reach: runs that break them, and the exact conditions. */
module NotificationLimits {
  import opened Options
  import Keep = Retention
  import opened Notifications
  import opened NotificationRuns

  // ---------------------------------------------------------------- a run with a cleanup

  const NOTHING: Outbox := Outbox(map[], [])

  function Ask(eventID: string, cooldown: int): Request {
    Request("t", eventID, "c", "webhook", "d", cooldown, 1)
  }

  function Delivered(r: Request, at: Time): Notification {
    Notification(KeyOf(r), r.tenant, r.eventID, r.dedupeKey, r.channel, r.channelType, Sent, 1, 200, "", "", 0, at, at)
  }

  lemma DifferentKeys(cooldown: int)
    ensures KeyOf(Ask("a", cooldown)) != KeyOf(Ask("b", cooldown))
  {
    assert KeyOf(Ask("a", cooldown))[2] == 'a' && KeyOf(Ask("b", cooldown))[2] == 'b';
  }

  /** The outbox after a notification went out at time 0 and was recorded as sent. */
  function AfterSent(r: Request): Outbox {
    Next(Next(NOTHING, Begin(r, 0, "", true)), Record(Delivered(r, 0), 0, true))
  }

  lemma BeginsOnNothing(box: Outbox, r: Request, now: Time)
    requires box.records == map[]
    ensures Sends(box, Begin(r, now, "", true)) && ConflictFound(box, r, now, "")
  {}

  lemma SentRecords(r: Request)
    ensures WellFormed(AfterSent(r)) && AfterSent(r).records == map[KeyOf(r) := Delivered(r, 0)]
  {
    var e0, e1 := Begin(r, 0, "", true), Record(Delivered(r, 0), 0, true);
    NextWellFormed(NOTHING, e0);
    NextWellFormed(Next(NOTHING, e0), e1);
    assert |KeyOf(r)| > 0;
    assert RecordKey(Delivered(r, 0)) == KeyOf(r);
    BeginsOnNothing(NOTHING, r, 0);
    assert Next(NOTHING, e0).records == map[KeyOf(r) := SendingRecord(FreshRecord(r, 0), 0)];
  }

  lemma CleanedAway(box: Outbox, key: string, days: int)
    requires days >= 1 && WellFormed(box) && box.records.Keys == {key} && box.records[key].updatedAt == 0
    ensures Next(box, Cleanup(days, days * Keep.DAY + 1, true)).records == map[]
  {
    CleanedSpec(box, 1);
    assert forall k :: k in box.records ==> k == key;
    assert Cleaned(box, 1).records == map[];
  }

  /** A notification is sent, recorded as sent, forgotten by a cleanup, and another one is asked for. */
  function CleanedRun(first: Request, second: Request, days: int): Run {
    var later := days * Keep.DAY + 1;
    var es := [Begin(first, 0, "", true), Record(Delivered(first, 0), 0, true), Cleanup(days, later, true),
               Begin(second, later, "", true)];
    var cleaned := Next(AfterSent(first), es[2]);
    Run([NOTHING, Next(NOTHING, es[0]), AfterSent(first), cleaned, Next(cleaned, es[3])], es)
  }

  lemma FourSteps(run: Run)
    requires |run.states| == 5 && |run.events| == 4 && WellFormed(run.states[0])
    requires Stepped(run, 0) && Stepped(run, 1) && Stepped(run, 2) && Stepped(run, 3)
    ensures IsRun(run)
  {
    forall k | 0 <= k < 4 ensures Stepped(run, k) {
      assert k == 0 || k == 1 || k == 2 || k == 3;
    }
  }

  lemma CleanedSteps(first: Request, second: Request, days: int)
    requires days >= 1
    ensures var run := CleanedRun(first, second, days);
            && IsRun(run) && run.states[3].records == map[]
            && Sends(run.states[0], run.events[0]) && Sends(run.states[3], run.events[3])
  {
    var run := CleanedRun(first, second, days);
    SentRecords(first);
    CleanedAway(AfterSent(first), KeyOf(first), days);
    BeginsOnNothing(NOTHING, first, 0);
    BeginsOnNothing(run.states[3], second, run.events[3].now);
    FourSteps(run);
  }

  lemma FourEvents(run: Run, later: Time, days: int)
    requires |run.events| == 4 && later >= 0
    requires TimeOf(run.events[0]) == TimeOf(run.events[1]) == 0
    requires TimeOf(run.events[2]) == TimeOf(run.events[3]) == later
    requires forall n :: 0 <= n < 4 ==> Retains(run.events[n], days)
    ensures Clocked(run) && AllRetain(run, days)
  {}

  lemma CleanedIsRun(first: Request, second: Request, days: int)
    requires days >= 1
    ensures var run := CleanedRun(first, second, days);
            && IsRun(run) && Clocked(run) && AllRetain(run, days)
            && Sends(run.states[0], run.events[0]) && Sends(run.states[3], run.events[3])
            && run.states[3].records == map[]
  {
    CleanedSteps(first, second, days);
    LongerRetention(0, days);
    FourEvents(CleanedRun(first, second, days), days * Keep.DAY + 1, days);
  }

  lemma CountsTwo(run: Run, key: string)
    requires |run.states| == 5 && |run.events| == 4
    requires run.events[0].Begin? && run.events[1].Record? && run.events[2].Cleanup? && run.events[3].Begin?
    requires Touches(run.events[0], key) && Touches(run.events[3], key)
    requires Sends(run.states[0], run.events[0]) && Sends(run.states[3], run.events[3])
    ensures SendCount(run, key, 4) == 2
  {
    assert SendCount(run, key, 0) == 0 && SendCount(run, key, 1) == 1 && SendCount(run, key, 2) == 1;
    assert SendCount(run, key, 3) == 1;
  }

  /** The outcome of the run is that of its first send. */
  const CLEANED_OF: seq<int> := [-2, 0, -2, -2]

  lemma CleanedHonest(first: Request, second: Request, days: int)
    requires days >= 1
    ensures Honest(CleanedRun(first, second, days), KeyOf(first), CLEANED_OF, 0)
  {
    var run := CleanedRun(first, second, days);
    BeginsOnNothing(NOTHING, first, 0);
    assert IsSend(run, KeyOf(first), 0);
    OneReport(run, KeyOf(first), CLEANED_OF, 0, 1);
  }

  lemma OneReport(run: Run, key: string, of: seq<int>, delay: int, n: nat)
    requires |run.states| == |run.events| + 1 && |of| == |run.events| && n < |of|
    requires run.events[n].Record? && IsOutcome(run, key, delay, of[n], n)
    requires forall m :: 0 <= m < |of| && m != n ==> !run.events[m].Record?
    ensures Honest(run, key, of, delay)
  {}

  lemma LongerDelay(run: Run, key: string, of: seq<int>, delay: int, more: int)
    requires Honest(run, key, of, delay) && delay <= more
    ensures Honest(run, key, of, more)
  {
    forall n | 0 <= n < |of| && Reports(run.events[n], key) ensures IsOutcome(run, key, more, of[n], n) {
      assert IsOutcome(run, key, delay, of[n], n);
    }
  }

  lemma CleanedBounded(r: Request, days: int, delay: int)
    requires days >= 1 && delay >= 0 && AttemptLimit(r) == 1
    ensures Bounded(CleanedRun(r, r, days), KeyOf(r), CLEANED_OF, 0, days * Keep.DAY + 1, delay, 1)
  {
    var run := CleanedRun(r, r, days);
    CleanedHonest(r, r, days);
    LongerDelay(run, KeyOf(r), CLEANED_OF, 0, delay);
    LongerRetention(0, days);
    forall n | 0 <= n < 4 ensures Bounds(run.events[n], KeyOf(r), 0, days * Keep.DAY + 1, 1) {}
  }

  /** One event, asked for again just after its retention time, goes out twice although its limit is one. */
  lemma SentTwice(days: int, delay: int)
    requires days >= 1 && delay >= 0
    ensures var r, run := Ask("a", 0), CleanedRun(Ask("a", 0), Ask("a", 0), days);
            && IsRun(run) && Clocked(run) && AllRetain(run, days) && KeyOf(r) !in run.states[0].records
            && Bounded(run, KeyOf(r), CLEANED_OF, 0, days * Keep.DAY + 1, delay, 1) && SendCount(run, KeyOf(r), 4) == 2
  {
    var r, run := Ask("a", 0), CleanedRun(Ask("a", 0), Ask("a", 0), days);
    CleanedIsRun(r, r, days);
    CleanedBounded(r, days, delay);
    CountsTwo(run, KeyOf(r));
  }

  /** A rival asked for just after the retention time goes out, however long its cooldown. */
  lemma CleanedRivals(days: int, delay: int, cooldown: int)
    requires days >= 1 && delay >= 0 && cooldown > 0
    ensures var run := CleanedRun(Ask("a", cooldown), Ask("b", cooldown), days);
            && IsRun(run) && Clocked(run) && AllRetain(run, days) && RivalSends(run, CLEANED_OF, 0, 1, 3, delay, cooldown)
            && run.events[3].now == run.events[0].now + days * Keep.DAY + 1
  {
    var a, b, run := Ask("a", cooldown), Ask("b", cooldown), CleanedRun(Ask("a", cooldown), Ask("b", cooldown), days);
    DifferentKeys(cooldown);
    CleanedIsRun(a, b, days);
    CleanedHonest(a, b, days);
    LongerDelay(run, KeyOf(a), CLEANED_OF, 0, delay);
    CleanedSent(a, b, days);
  }

  lemma CleanedSent(first: Request, second: Request, days: int)
    ensures SentOut(CleanedRun(first, second, days), 0)
    ensures RecordsSent(CleanedRun(first, second, days).events[1], first)
  {
    BeginsOnNothing(NOTHING, first, 0);
    assert |KeyOf(first)| > 0;
    assert RecordKey(Delivered(first, 0)) == KeyOf(first);
  }

  // ---------------------------------------------------------------- a run with a late outcome

  /** The request may be tried twice. */
  function AskTwice(cooldown: int): Request {
    Ask("a", cooldown).(maxAttempts := 2)
  }

  /** The outcome of its first try, recorded when the in-flight window has passed. */
  function LateOutcome(r: Request, status: SendStatus): Notification {
    Notification(KeyOf(r), r.tenant, r.eventID, r.dedupeKey, r.channel, r.channelType, status, 1, 500, "late", "", 0,
                 IN_FLIGHT_WINDOW, 0)
  }

  /** The second try's. */
  function SecondOutcome(r: Request): Notification {
    Delivered(r, IN_FLIGHT_WINDOW).(attempts := 2)
  }

  function LateEvents(r: Request, status: SendStatus, third: Request): seq<Event> {
    var w := IN_FLIGHT_WINDOW;
    [Begin(r, 0, "", true), Begin(r, w, "", true), Record(LateOutcome(r, status), w, true), Begin(third, w, "", true),
     Record(SecondOutcome(r), w, true)]
  }

  function AfterTries(r: Request): Outbox {
    Next(Next(NOTHING, Begin(r, 0, "", true)), Begin(r, IN_FLIGHT_WINDOW, "", true))
  }

  function AfterLate(r: Request, status: SendStatus): Outbox {
    Next(AfterTries(r), Record(LateOutcome(r, status), IN_FLIGHT_WINDOW, true))
  }

  /** A notification goes out and, when the in-flight window has passed, once more; then the first outcome is recorded,
      another request is made, and the second outcome is recorded. */
  function LateRun(r: Request, status: SendStatus, third: Request): Run {
    var es := LateEvents(r, status, third);
    var asked := Next(AfterLate(r, status), es[3]);
    Run([NOTHING, Next(NOTHING, es[0]), AfterTries(r), AfterLate(r, status), asked, Next(asked, es[4])], es)
  }

  const LATE_OF: seq<int> := [-2, -2, 0, -2, 1]

  lemma TriesRecord(r: Request)
    requires AttemptLimit(r) == 2
    ensures var first := SendingRecord(FreshRecord(r, 0), 0);
            && Next(NOTHING, Begin(r, 0, "", true)).records == map[KeyOf(r) := first]
            && Sends(NOTHING, Begin(r, 0, "", true))
            && Sends(Next(NOTHING, Begin(r, 0, "", true)), Begin(r, IN_FLIGHT_WINDOW, "", true))
            && AfterTries(r).records == map[KeyOf(r) := SendingRecord(first, IN_FLIGHT_WINDOW)]
  {}

  lemma LateRecord(r: Request, status: SendStatus)
    requires AttemptLimit(r) == 2
    ensures var kept := AfterLate(r, status).records;
            kept.Keys == {KeyOf(r)} && kept[KeyOf(r)] == LateOutcome(r, status)
  {
    TriesRecord(r);
    assert |KeyOf(r)| > 0;
    assert RecordKey(LateOutcome(r, status)) == KeyOf(r);
  }

  /** The third request goes out: for the same event, because the late outcome takes back an attempt, and for a rival,
      because a failed notification does not compete. */
  lemma ThirdSends(r: Request, status: SendStatus, third: Request)
    requires AttemptLimit(r) == 2
    requires (third == r && status == Retrying) || (KeyOf(third) != KeyOf(r) && status == Failed)
    ensures Sends(AfterLate(r, status), Begin(third, IN_FLIGHT_WINDOW, "", true))
    ensures ConflictFound(AfterLate(r, status), third, IN_FLIGHT_WINDOW, "")
  {
    LateRecord(r, status);
  }

  lemma LateIsRun(r: Request, status: SendStatus, third: Request, days: int)
    requires AttemptLimit(r) == 2
    requires (third == r && status == Retrying) || (KeyOf(third) != KeyOf(r) && status == Failed)
    ensures IsRun(LateRun(r, status, third)) && Clocked(LateRun(r, status, third)) && AllRetain(LateRun(r, status, third), days)
  {
    var run := LateRun(r, status, third);
    LateSteps(r, status, third);
    FiveSteps(run);
    LateClocked(r, status, third, days);
  }

  lemma LateClocked(r: Request, status: SendStatus, third: Request, days: int)
    ensures Clocked(LateRun(r, status, third)) && AllRetain(LateRun(r, status, third), days)
  {
    FiveEvents(LateRun(r, status, third), days);
  }

  lemma LateSteps(r: Request, status: SendStatus, third: Request)
    requires AttemptLimit(r) == 2
    requires (third == r && status == Retrying) || (KeyOf(third) != KeyOf(r) && status == Failed)
    ensures var run := LateRun(r, status, third);
            && WellFormed(run.states[0]) && Stepped(run, 0) && Stepped(run, 1) && Stepped(run, 2) && Stepped(run, 3)
            && Stepped(run, 4)
  {
    TwoSteps(r, status, third);
    ThirdStep(r, status, third);
    RecordSteps(r, status, third);
  }

  lemma TwoSteps(r: Request, status: SendStatus, third: Request)
    requires AttemptLimit(r) == 2
    ensures Stepped(LateRun(r, status, third), 0) && Stepped(LateRun(r, status, third), 1)
  {
    TriesRecord(r);
  }

  lemma ThirdStep(r: Request, status: SendStatus, third: Request)
    requires AttemptLimit(r) == 2
    requires (third == r && status == Retrying) || (KeyOf(third) != KeyOf(r) && status == Failed)
    ensures Stepped(LateRun(r, status, third), 3)
  {
    ThirdSends(r, status, third);
  }

  lemma RecordSteps(r: Request, status: SendStatus, third: Request)
    ensures Stepped(LateRun(r, status, third), 2) && Stepped(LateRun(r, status, third), 4)
  {}

  lemma FiveSteps(run: Run)
    requires |run.states| == 6 && |run.events| == 5 && WellFormed(run.states[0])
    requires Stepped(run, 0) && Stepped(run, 1) && Stepped(run, 2) && Stepped(run, 3) && Stepped(run, 4)
    ensures IsRun(run)
  {
    forall k | 0 <= k < 5 ensures Stepped(run, k) {
      assert k == 0 || k == 1 || k == 2 || k == 3 || k == 4;
    }
  }

  lemma FiveEvents(run: Run, days: int)
    requires |run.events| == 5 && TimeOf(run.events[0]) == 0
    requires forall n :: 1 <= n < 5 ==> TimeOf(run.events[n]) == IN_FLIGHT_WINDOW
    requires forall n :: 0 <= n < 5 ==> !run.events[n].Cleanup?
    ensures Clocked(run) && AllRetain(run, days)
  {}

  lemma LateHonest(r: Request, status: SendStatus, third: Request, delay: int)
    requires AttemptLimit(r) == 2 && delay >= IN_FLIGHT_WINDOW
    ensures Honest(LateRun(r, status, third), KeyOf(r), LATE_OF, delay)
  {
    var run, key := LateRun(r, status, third), KeyOf(r);
    TriesRecord(r);
    assert IsOutcome(run, key, delay, 0, 2);
    assert IsOutcome(run, key, delay, 1, 4);
    forall n | 0 <= n < 5 && Reports(run.events[n], key) ensures n == 2 || n == 4 {}
  }

  /** All three tries are within the window, yet the limit is two. */
  lemma SentThrice(days: int, delay: int)
    requires delay >= IN_FLIGHT_WINDOW
    ensures var r, run := AskTwice(0), LateRun(AskTwice(0), Retrying, AskTwice(0));
            && IsRun(run) && Clocked(run) && AllRetain(run, days) && KeyOf(r) !in run.states[0].records
            && Bounded(run, KeyOf(r), LATE_OF, 0, IN_FLIGHT_WINDOW, delay, 2) && SendCount(run, KeyOf(r), 5) == 3
  {
    var r, run := AskTwice(0), LateRun(AskTwice(0), Retrying, AskTwice(0));
    LateIsRun(r, Retrying, r, days);
    LateBounded(r, delay);
    TriesRecord(r);
    ThirdSends(r, Retrying, r);
    CountsThree(run, KeyOf(r));
  }

  lemma LateBounded(r: Request, delay: int)
    requires AttemptLimit(r) == 2 && delay >= IN_FLIGHT_WINDOW
    ensures Bounded(LateRun(r, Retrying, r), KeyOf(r), LATE_OF, 0, IN_FLIGHT_WINDOW, delay, 2)
  {
    var run := LateRun(r, Retrying, r);
    LateHonest(r, Retrying, r, delay);
    forall n | 0 <= n < 5 ensures Bounds(run.events[n], KeyOf(r), 0, IN_FLIGHT_WINDOW, 2) {}
  }

  lemma CountsThree(run: Run, key: string)
    requires |run.states| == 6 && |run.events| == 5 && run.events[2].Record? && run.events[4].Record?
    requires IsSending(run, key, 0) && IsSending(run, key, 1) && IsSending(run, key, 3)
    ensures SendCount(run, key, 5) == 3
  {
    assert SendCount(run, key, 0) == 0 && SendCount(run, key, 1) == 1 && SendCount(run, key, 2) == 2;
    assert SendCount(run, key, 3) == 2 && SendCount(run, key, 4) == 3;
  }

  /** A rival goes out at the same time as the second try, whatever the cooldown. */
  lemma LateRivals(days: int, delay: int, cooldown: int)
    requires delay >= IN_FLIGHT_WINDOW && cooldown > 0
    ensures var run := LateRun(AskTwice(cooldown), Failed, Ask("b", cooldown));
            && IsRun(run) && Clocked(run) && AllRetain(run, days) && RivalSends(run, LATE_OF, 1, 4, 3, delay, cooldown)
            && run.events[3].now == run.events[1].now
  {
    var a, b := AskTwice(cooldown), Ask("b", cooldown);
    var run := LateRun(a, Failed, b);
    DifferentKeys(cooldown);
    LateIsRun(a, Failed, b, days);
    LateHonest(a, Failed, b, delay);
    LateSent(a, Failed, b);
    ThirdSends(a, Failed, b);
  }

  lemma LateSent(r: Request, status: SendStatus, third: Request)
    requires AttemptLimit(r) == 2
    ensures SentOut(LateRun(r, status, third), 1) && RecordsSent(LateRun(r, status, third).events[4], r)
  {
    TriesRecord(r);
    assert |KeyOf(r)| > 0;
    assert RecordKey(SecondOutcome(r)) == KeyOf(r);
  }

  // ---------------------------------------------------------------- a run without retries

  /** A rival asked for while the outcome of the first is still to be recorded. */
  function SlowRun(cooldown: int): Run {
    var first, second := Ask("a", cooldown), Ask("b", cooldown);
    var es := [Begin(first, 0, "", true), Begin(second, IN_FLIGHT_WINDOW, "", true),
               Record(Delivered(first, IN_FLIGHT_WINDOW), IN_FLIGHT_WINDOW, true)];
    var b1 := Next(NOTHING, es[0]);
    var b2 := Next(b1, es[1]);
    Run([NOTHING, b1, b2, Next(b2, es[2])], es)
  }

  const SLOW_OF: seq<int> := [-2, -2, 0]

  lemma SlowSends(cooldown: int)
    requires cooldown > 0
    ensures var a, b := Ask("a", cooldown), Ask("b", cooldown);
            var one := Next(NOTHING, Begin(a, 0, "", true));
            && one.records == map[KeyOf(a) := SendingRecord(FreshRecord(a, 0), 0)]
            && Sends(NOTHING, Begin(a, 0, "", true)) && Sends(one, Begin(b, IN_FLIGHT_WINDOW, "", true))
            && ConflictFound(one, b, IN_FLIGHT_WINDOW, "")
  {
    var a := Ask("a", cooldown);
    DifferentKeys(cooldown);
    assert Next(NOTHING, Begin(a, 0, "", true)).records == map[KeyOf(a) := SendingRecord(FreshRecord(a, 0), 0)];
  }

  lemma SlowIsRun(cooldown: int, days: int)
    requires cooldown > 0
    ensures var run, a := SlowRun(cooldown), Ask("a", cooldown);
            && IsRun(run) && Clocked(run) && AllRetain(run, days)
            && Sends(run.states[0], run.events[0]) && Sends(run.states[1], run.events[1])
            && run.states[1].records == map[KeyOf(a) := SendingRecord(FreshRecord(a, 0), 0)]
  {
    var run := SlowRun(cooldown);
    SlowSends(cooldown);
    assert Stepped(run, 0) && Stepped(run, 1) && Stepped(run, 2);
  }

  /** It goes out just after the in-flight window, however long its cooldown. */
  lemma SlowRivals(cooldown: int, days: int)
    requires cooldown > 0
    ensures var run := SlowRun(cooldown);
            && IsRun(run) && Clocked(run) && AllRetain(run, days)
            && RivalSends(run, SLOW_OF, 0, 2, 1, IN_FLIGHT_WINDOW, cooldown)
            && run.events[1].now == run.events[0].now + IN_FLIGHT_WINDOW
  {
    DifferentKeys(cooldown);
    SlowIsRun(cooldown, days);
    assert |KeyOf(Ask("a", cooldown))| > 0;
    var run, a := SlowRun(cooldown), Ask("a", cooldown);
    assert SentOut(run, 0) && RecordsSent(run.events[2], a);
    OneReport(run, KeyOf(a), SLOW_OF, IN_FLIGHT_WINDOW, 2);
  }

  // ---------------------------------------------------------------- the exact conditions

  /** Sends are bounded by the limit in every run exactly when the requests come within the retention time, and the
      outcomes, or else all requests, within the in-flight window. */
  lemma SendsBoundedIff(days: int, span: int, delay: int)
    requires days >= 1 && delay >= 0
    ensures NeverExceeds(days, span, delay)
       <==> span <= days * Keep.DAY && (delay < IN_FLIGHT_WINDOW || span < IN_FLIGHT_WINDOW)
  {
    if span > days * Keep.DAY {
      ExceedsLater(days, span, delay);
    } else if delay >= IN_FLIGHT_WINDOW && span >= IN_FLIGHT_WINDOW {
      ExceedsSlowly(days, span, delay);
    } else {
      forall run, key, of, start, limit | IsRun(run) && Clocked(run) && AllRetain(run, days)
                                          && Bounded(run, key, of, start, span, delay, limit)
        ensures SendCount(run, key, |run.events|) <= TriesLeft(run.states[0], key, limit)
      {
        SendsBounded(run, days, key, of, |run.events|, start, span, delay, limit);
      }
    }
  }

  lemma ExceedsLater(days: int, span: int, delay: int)
    requires days >= 1 && delay >= 0 && span > days * Keep.DAY
    ensures !NeverExceeds(days, span, delay)
  {
    SentTwice(days, delay);
    var run, key := CleanedRun(Ask("a", 0), Ask("a", 0), days), KeyOf(Ask("a", 0));
    LongerSpan(run, key, CLEANED_OF, 0, days * Keep.DAY + 1, span, delay, 1);
    assert SendCount(run, key, |run.events|) > TriesLeft(run.states[0], key, 1);
  }

  lemma ExceedsSlowly(days: int, span: int, delay: int)
    requires delay >= IN_FLIGHT_WINDOW && span >= IN_FLIGHT_WINDOW
    ensures !NeverExceeds(days, span, delay)
  {
    SentThrice(days, delay);
    var run, key := LateRun(AskTwice(0), Retrying, AskTwice(0)), KeyOf(AskTwice(0));
    LongerSpan(run, key, LATE_OF, 0, IN_FLIGHT_WINDOW, span, delay, 2);
    assert SendCount(run, key, |run.events|) > TriesLeft(run.states[0], key, 2);
  }

  lemma LongerSpan(run: Run, key: string, of: seq<int>, start: Time, span: int, more: int, delay: int, limit: int)
    requires Bounded(run, key, of, start, span, delay, limit) && span <= more
    ensures Bounded(run, key, of, start, more, delay, limit)
  {
    forall n | 0 <= n < |run.events| ensures Bounds(run.events[n], key, start, more, limit) {
      assert Bounds(run.events[n], key, start, span, limit);
    }
  }

  /** Cooldowns hold in every run exactly when they are within the retention time and outcomes are recorded within the
      in-flight window. */
  lemma CooldownHoldsIff(days: int, delay: int, cooldown: int)
    requires days >= 1 && delay >= 0 && cooldown > 0
    ensures CooldownHolds(days, delay, cooldown) <==> cooldown <= days * Keep.DAY && delay < IN_FLIGHT_WINDOW
  {
    if cooldown > days * Keep.DAY {
      CleanedRivals(days, delay, cooldown);
    } else if delay >= IN_FLIGHT_WINDOW {
      LateRivals(days, delay, cooldown);
    } else {
      forall run: Run, of: seq<int>, i: nat, j: nat, k: nat
        | IsRun(run) && Clocked(run) && AllRetain(run, days) && RivalSends(run, of, i, j, k, delay, cooldown)
        ensures run.events[k].now > run.events[i].now + cooldown
      {
        PromptRivals(run, of, days, i, j, k, delay, cooldown);
      }
    }
  }
}
