/** What the answer to a notification request means, in terms of the records there are. */
module NotificationLaws {
  import opened Notifications

  /** A record of another event with the same tenant, channel and dedupe key that is being delivered for less than two
      minutes, or was sent within the cooldown. */
  predicate Blocks(d: Notification, r: Request, now: Time) {
    && d.id != KeyFor(r) && d.tenant == r.tenant && d.channel == r.channel && d.dedupeKey == r.dedupeKey
    && (|| (d.status == Sending && now - d.updatedAt < 120_000_000_000)
        || (d.status == Retrying && now - d.updatedAt < 120_000_000_000)
        || (d.status == Sent && now - d.sentAt <= r.cooldown))
  }

  function KeyFor(r: Request): string {
    r.tenant + "|" + r.eventID + "|" + r.channel
  }

  /** The event was not given up, delivered or suppressed over the channel, and nobody delivers it just now. */
  predicate Unsettled(box: Outbox, r: Request, now: Time) {
    KeyFor(r) in box.records ==>
      var d := box.records[KeyFor(r)];
      && d.status != Sent && d.status != Suppressed && d.status != Failed
      && (d.status == Sending ==> now - d.updatedAt >= 120_000_000_000)
  }

  /** It has attempts left, of which there is at least one. */
  predicate AttemptsLeft(box: Outbox, r: Request) {
    KeyFor(r) in box.records ==> box.records[KeyFor(r)].attempts < r.maxAttempts || box.records[KeyFor(r)].attempts < 1
  }

  ghost predicate Blocked(box: Outbox, r: Request, now: Time) {
    r.cooldown > 0 && r.dedupeKey != "" && exists k :: k in box.records && Blocks(box.records[k], r, now)
  }

  lemma ConflictBlocks(d: Notification, r: Request, now: Time)
    ensures ConflictWith(d, r, now) != "" <==> Blocks(d, r, now)
    ensures ConflictWith(d, r, now) in {"", "in_flight", "cooldown"}
    ensures ConflictWith(d, r, now) == "cooldown" ==> d.status == Sent
  {}

  lemma FoundBlocks(box: Outbox, r: Request, now: Time, reason: string)
    requires ConflictFound(box, r, now, reason)
    ensures reason != "" <==> exists k :: k in box.records && Blocks(box.records[k], r, now)
  {
    forall k | k in box.records ensures ConflictWith(box.records[k], r, now) != "" <==> Blocks(box.records[k], r, now) {
      ConflictBlocks(box.records[k], r, now);
    }
    if reason != "" {
      var k :| k in box.records && ConflictWith(box.records[k], r, now) == reason;
      assert Blocks(box.records[k], r, now);
    }
  }

  /** The answer: a request goes out exactly when its event is unsettled over the channel, has attempts left, and no
      record blocks it; it is suppressed exactly when only a record blocks it. */
  ghost predicate DecisionFor(box: Outbox, r: Request, now: Time, decision: Decision) {
    && (decision == Send <==> Unsettled(box, r, now) && AttemptsLeft(box, r) && !Blocked(box, r, now))
    && (decision == Suppress <==> Unsettled(box, r, now) && AttemptsLeft(box, r) && Blocked(box, r, now))
  }

  lemma DecisionIs(box: Outbox, r: Request, now: Time, reason: string)
    requires ConflictFound(box, r, now, reason)
    ensures DecisionFor(box, r, now, BeginPlan(box, r, now, reason).0)
  {
    FoundBlocks(box, r, now, reason);
  }

  /** What a request leaves: of other records everything, of its own what the answer says. */
  lemma RequestLeaves(box: Outbox, r: Request, now: Time, reason: string, other: string)
    requires ConflictFound(box, r, now, reason)
    ensures var (decision, after) := BeginPlan(box, r, now, reason);
            && (other != KeyFor(r) ==> (other in after.records <==> other in box.records))
            && (other != KeyFor(r) && other in box.records ==> after.records[other] == box.records[other])
            && (decision == Skip && !(Unsettled(box, r, now) && !AttemptsLeft(box, r)) ==> after == box)
            && (decision == Skip && Unsettled(box, r, now) && !AttemptsLeft(box, r) ==>
                  after == box.(records := box.records[KeyFor(r) := box.records[KeyFor(r)].(status := Failed, updatedAt := now)]))
  {
    FoundBlocks(box, r, now, reason);
  }

  /** A record that goes out counts the attempt and is locked at the time; the first one is that of the request. */
  lemma SendLeaves(box: Outbox, r: Request, now: Time, reason: string)
    requires BeginPlan(box, r, now, reason).0 == Send
    ensures var after := BeginPlan(box, r, now, reason).1;
            && KeyFor(r) in after.records
            && var d := after.records[KeyFor(r)];
               && d.status == Sending && d.updatedAt == now && d.lastError == "" && d.httpStatus == 0
               && if KeyFor(r) in box.records then
                    var was := box.records[KeyFor(r)];
                    && d == was.(status := Sending, attempts := was.attempts + 1, updatedAt := now, lastError := "",
                                 httpStatus := 0)
                    && after.order == box.order
                  else && IsOf(d, r) && d.attempts == 1 && d.createdAt == now && d.sentAt == 0 && d.suppressedReason == ""
                       && after.order == box.order + [KeyFor(r)]
  {}

  /** A suppressed one is that of the request, with the reason. */
  lemma SuppressLeaves(box: Outbox, r: Request, now: Time, reason: string)
    requires BeginPlan(box, r, now, reason).0 == Suppress
    ensures var after := BeginPlan(box, r, now, reason).1;
            && KeyFor(r) in after.records
            && var d := after.records[KeyFor(r)];
               && IsOf(d, r) && d.status == Suppressed && d.suppressedReason == reason && d.attempts == 0
               && d.createdAt == d.updatedAt == now && d.sentAt == 0 && d.lastError == "" && d.httpStatus == 0
               && after.order == if KeyFor(r) in box.records then box.order else box.order + [KeyFor(r)]
  {}

  predicate IsOf(d: Notification, r: Request) {
    && d.id == KeyFor(r) && d.tenant == r.tenant && d.eventID == r.eventID && d.channel == r.channel
    && d.channelType == r.channelType && d.dedupeKey == r.dedupeKey
  }

  /** An outcome is stored as it is, under its ID or, without one, under that of its event and channel; it keeps the time
      of creation when it has none of its own. */
  lemma OutcomeLeaves(box: Outbox, d: Notification, now: Time, other: string)
    ensures var after := Next(box, Record(d, now, true));
            var key := if d.id == "" then d.tenant + "|" + d.eventID + "|" + d.channel else d.id;
            && key in after.records
            && after.records[key] == d.(id := key, createdAt := if key in box.records && d.createdAt == 0
                                                                then box.records[key].createdAt else d.createdAt)
            && (other != key ==> (other in after.records <==> other in box.records))
            && (other != key && other in box.records ==> after.records[other] == box.records[other])
            && after.order == if key in box.records then box.order else box.order + [key]
  {}

  /** An event that goes to several channels goes to each of them: what was sent or is being sent over one does not keep it
      from another. */
  lemma ChannelsApart(box: Outbox, r: Request, now: Time, reason: string)
    requires ConflictFound(box, r, now, reason)
    requires forall k :: k in box.records ==> box.records[k].channel != r.channel
    requires KeyFor(r) !in box.records
    ensures BeginPlan(box, r, now, reason).0 == Send
  {
    DecisionIs(box, r, now, reason);
  }
}
