/** Outgoing notifications: when a delivery may begin, what is recorded of it, and what a cleanup forgets. */
module Notifications {
  import opened Options
  import Keep = Retention

  type Time = int

  const IN_FLIGHT_WINDOW: int := 2 * 60 * 1_000_000_000   // two minutes

  datatype SendStatus = Sending | Sent | Suppressed | Failed | Retrying | OtherStatus

  datatype Notification = Notification(
    id: string, tenant: string, eventID: string, dedupeKey: string, channel: string, channelType: string,
    status: SendStatus, attempts: int, httpStatus: int, lastError: string, suppressedReason: string,
    createdAt: Time, updatedAt: Time, sentAt: Time)

  datatype Outbox = Outbox(records: map<string, Notification>, order: seq<string>)

  /** One request to deliver an event over a channel. */
  datatype Request = Request(tenant: string, eventID: string, channel: string, channelType: string,
                             dedupeKey: string, cooldown: int, maxAttempts: int)

  datatype Decision = Send | Skip | Suppress

  function NotificationKey(tenant: string, eventID: string, channel: string): string {
    tenant + "|" + eventID + "|" + channel
  }

  function KeyOf(r: Request): string {
    NotificationKey(r.tenant, r.eventID, r.channel)
  }

  function AttemptLimit(r: Request): int {
    if r.maxAttempts < 1 then 1 else r.maxAttempts
  }

  /** Why another record stands in the way of the request; empty when it does not. */
  function ConflictWith(d: Notification, r: Request, now: Time): string {
    if d.id == KeyOf(r) || d.tenant != r.tenant || d.channel != r.channel || d.dedupeKey != r.dedupeKey then ""
    else if (d.status == Sending || d.status == Retrying) && d.updatedAt > now - IN_FLIGHT_WINDOW then "in_flight"
    else if d.status == Sent && d.sentAt >= now - r.cooldown then "cooldown"
    else ""
  }

  /** The reason found is that of some record; none is found only when no record stands in the way. */
  ghost predicate ConflictFound(box: Outbox, r: Request, now: Time, reason: string) {
    if reason == "" then forall k :: k in box.records ==> ConflictWith(box.records[k], r, now) == ""
    else exists k :: k in box.records && ConflictWith(box.records[k], r, now) == reason
  }

  function Put(box: Outbox, key: string, d: Notification): Outbox {
    Outbox(box.records[key := d], if key in box.records then box.order else box.order + [key])
  }

  /** The record says that nothing is to be done for the request. */
  predicate Settled(d: Notification, now: Time) {
    || d.status == Sent || d.status == Suppressed || d.status == Failed
    || (d.status == Sending && d.updatedAt > now - IN_FLIGHT_WINDOW)
  }

  function ExhaustedRecord(d: Notification, now: Time): Notification {
    d.(status := Failed, updatedAt := now)
  }

  function SuppressedRecord(r: Request, reason: string, now: Time): Notification {
    Notification(KeyOf(r), r.tenant, r.eventID, r.dedupeKey, r.channel, r.channelType, Suppressed, 0, 0, "", reason,
                 now, now, 0)
  }

  function FreshRecord(r: Request, now: Time): Notification {
    Notification(KeyOf(r), r.tenant, r.eventID, r.dedupeKey, r.channel, r.channelType, OtherStatus, 0, 0, "", "",
                 now, 0, 0)
  }

  function SendingRecord(d: Notification, now: Time): Notification {
    d.(status := Sending, attempts := d.attempts + 1, updatedAt := now, lastError := "", httpStatus := 0)
  }

  /** What Begin decides and the outbox it wants persisted, given the reason found. */
  function BeginPlan(box: Outbox, r: Request, now: Time, reason: string): (Decision, Outbox) {
    var key := KeyOf(r);
    var prior := if key in box.records then Some(box.records[key]) else None;
    if prior.Some? && Settled(prior.value, now) then (Skip, box)
    else if prior.Some? && prior.value.attempts >= AttemptLimit(r) then (Skip, Put(box, key, ExhaustedRecord(prior.value, now)))
    else if r.cooldown > 0 && r.dedupeKey != "" && reason != "" then
      (Suppress, Put(box, key, SuppressedRecord(r, reason, now)))
    else (Send, Put(box, key, SendingRecord(if prior.Some? then prior.value else FreshRecord(r, now), now)))
  }

  function RecordKey(d: Notification): string {
    if d.id == "" then NotificationKey(d.tenant, d.eventID, d.channel) else d.id
  }

  function Recorded(box: Outbox, d: Notification): Outbox {
    var key := RecordKey(d);
    var kept := if key in box.records && d.createdAt == 0 then d.(createdAt := box.records[key].createdAt) else d;
    Put(box, key, kept.(id := key))
  }

  function Expired(cut: Time): Notification -> bool {
    (d: Notification) => d.updatedAt < cut
  }

  /** The outbox after a cleanup. */
  function Cleaned(box: Outbox, cut: Time): Outbox {
    Outbox(Keep.KeptRecords(box.records, box.order, Expired(cut)), Keep.KeptOrder(box.records, box.order, Expired(cut)))
  }

  // ---------------------------------------------------------------- what every outbox keeps

  /** Records are stored under their own ID; the order lists every record once. */
  ghost predicate WellFormed(box: Outbox) {
    && (forall k :: k in box.records ==> box.records[k].id == k)
    && (forall k :: k in box.records <==> k in box.order)
    && (forall i, j :: 0 <= i < j < |box.order| ==> box.order[i] != box.order[j])
  }

  lemma PutWellFormed(box: Outbox, key: string, d: Notification)
    requires WellFormed(box) && d.id == key
    ensures WellFormed(Put(box, key, d))
  {
  }

  /** A cleanup drops exactly the records that were not touched since the cut. */
  lemma CleanedSpec(box: Outbox, cut: Time)
    requires WellFormed(box)
    ensures WellFormed(Cleaned(box, cut))
    ensures forall k :: k in Cleaned(box, cut).records <==> k in box.records && box.records[k].updatedAt >= cut
    ensures forall k :: k in Cleaned(box, cut).records ==> Cleaned(box, cut).records[k] == box.records[k]
  {
    Keep.KeptConsistent(box.records, box.order, Expired(cut));
  }

  // ---------------------------------------------------------------- events

  datatype Event =
    | Begin(request: Request, now: Time, reason: string, saved: bool)
    | Record(record: Notification, now: Time, saved: bool)
    | Cleanup(retentionDays: int, now: Time, saved: bool)

  function Next(box: Outbox, e: Event): Outbox {
    match e
    case Begin(r, now, reason, saved) => if saved then BeginPlan(box, r, now, reason).1 else box
    case Record(d, _, saved) => if saved then Recorded(box, d) else box
    case Cleanup(days, now, saved) => if saved && days >= 1 then Cleaned(box, Keep.Cut(days, now)) else box
  }

  /** The event is a request answered with "send". */
  predicate Sends(box: Outbox, e: Event) {
    e.Begin? && e.saved && BeginPlan(box, e.request, e.now, e.reason).0 == Send
  }

  predicate Touches(e: Event, key: string) {
    match e
    case Begin(r, _, _, _) => KeyOf(r) == key
    case Record(d, _, _) => RecordKey(d) == key
    case Cleanup(_, _, _) => false
  }

  /** When the event happens. The times inside an outcome's record were read earlier. */
  function TimeOf(e: Event): Time {
    match e
    case Begin(_, now, _, _) => now
    case Record(_, now, _) => now
    case Cleanup(_, now, _) => now
  }

  lemma BeginWellFormed(box: Outbox, r: Request, now: Time, reason: string)
    requires WellFormed(box)
    ensures WellFormed(BeginPlan(box, r, now, reason).1)
  {
    PutWellFormed(box, KeyOf(r), SuppressedRecord(r, reason, now));
    if KeyOf(r) in box.records {
      PutWellFormed(box, KeyOf(r), ExhaustedRecord(box.records[KeyOf(r)], now));
      PutWellFormed(box, KeyOf(r), SendingRecord(box.records[KeyOf(r)], now));
    } else {
      PutWellFormed(box, KeyOf(r), SendingRecord(FreshRecord(r, now), now));
    }
  }

  lemma RecordedWellFormed(box: Outbox, d: Notification)
    requires WellFormed(box)
    ensures WellFormed(Recorded(box, d))
  {
    var key := RecordKey(d);
    var kept := if key in box.records && d.createdAt == 0 then d.(createdAt := box.records[key].createdAt) else d;
    PutWellFormed(box, key, kept.(id := key));
  }

  lemma NextWellFormed(box: Outbox, e: Event)
    requires WellFormed(box)
    ensures WellFormed(Next(box, e))
  {
    if e.Begin? {
      BeginWellFormed(box, e.request, e.now, e.reason);
    } else if e.Record? {
      RecordedWellFormed(box, e.record);
    } else {
      CleanedSpec(box, Keep.Cut(e.retentionDays, e.now));
    }
  }

  /** An event leaves every record alone that it neither touches nor, as a cleanup, drops. */
  lemma OthersStay(box: Outbox, e: Event, key: string)
    requires WellFormed(box) && key in box.records && !Touches(e, key)
    ensures key in Next(box, e).records ==> Next(box, e).records[key] == box.records[key]
    ensures key !in Next(box, e).records ==>
              e.Cleanup? && e.saved && e.retentionDays >= 1
              && box.records[key].updatedAt < Keep.Cut(e.retentionDays, e.now)
  {
    if e.Cleanup? {
      CleanedSpec(box, Keep.Cut(e.retentionDays, e.now));
    }
  }

  /** A key without a record gets one only from an event that touches it. */
  lemma AbsentStays(box: Outbox, e: Event, key: string)
    requires WellFormed(box) && key !in box.records && !Touches(e, key)
    ensures key !in Next(box, e).records
  {
    if e.Cleanup? {
      CleanedSpec(box, Keep.Cut(e.retentionDays, e.now));
    }
  }
}
