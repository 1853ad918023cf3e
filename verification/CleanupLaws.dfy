/** What a cleanup of the store keeps and what it drops, record by record. */
module CleanupLaws {
  import Queue = JobQueue
  import Notes = Notifications
  import Inc = Incidents
  import Keep = Retention
  import opened Stores

  /** That many days before now; a day has 86400 seconds of a thousand million nanoseconds. */
  function Before(days: int, now: Time): Time {
    now - days * (86_400 * 1_000_000_000)
  }

  ghost predicate ConsistentStore(s: State) {
    && Keep.Consistent(s.history.analyses, s.history.analysisOrder)
    && Keep.Consistent(s.history.auditEvents, s.history.auditOrder) && Notes.WellFormed(s.outbox)
  }

  /** The store after a cleanup. */
  function After(s: State, days: int, now: Time): State {
    Retained(s, Keep.Cut(days, now), now)
  }

  lemma CutIs(days: int, now: Time)
    ensures Keep.Cut(days, now) == Before(days, now)
  {}

  /** Jobs and deliveries: unfinished jobs stay, and of the rest what was changed after the cut or received since. */
  lemma QueueKeeps(s: State, days: int, now: Time, j: Queue.Job, id: string)
    ensures j in After(s, days, now).queue.jobs <==>
              j in s.queue.jobs && (j.status == Queue.Queued || j.status == Queue.Running || j.updatedAt > Before(days, now))
    ensures id in After(s, days, now).queue.deliveries <==>
              id in s.queue.deliveries && s.queue.deliveries[id].receivedAt >= Before(days, now)
    ensures id in After(s, days, now).queue.deliveries ==>
              After(s, days, now).queue.deliveries[id] == s.queue.deliveries[id]
    ensures After(s, days, now).queue.tenants == s.queue.tenants && After(s, days, now).queue.nextID == s.queue.nextID
  {
    CutIs(days, now);
    Queue.KeptJobsSpec(s.queue.jobs, Keep.Cut(days, now));
  }

  /** Incidents: all but the ones resolved before the cut. */
  lemma IncidentsKept(s: State, days: int, now: Time, k: string)
    ensures k in After(s, days, now).incidents <==>
              k in s.incidents &&
              var i := s.incidents[k];
              i.state != Inc.Resolved || i.resolvedAt == 0 || i.resolvedAt >= Before(days, now)
    ensures k in After(s, days, now).incidents ==> After(s, days, now).incidents[k] == s.incidents[k]
  {
    CutIs(days, now);
  }

  /** Notifications, analyses and audit events: those touched or created at the cut or later, listed in their order. */
  lemma RecordsKept(s: State, days: int, now: Time, k: string)
    requires ConsistentStore(s)
    ensures ConsistentStore(After(s, days, now))
    ensures var box := After(s, days, now).outbox;
            && (k in box.records <==> k in s.outbox.records && s.outbox.records[k].updatedAt >= Before(days, now))
            && (k in box.records ==> box.records[k] == s.outbox.records[k])
    ensures var h := After(s, days, now).history;
            && (k in h.analyses <==> k in s.history.analyses && s.history.analyses[k].createdAt >= Before(days, now))
            && (k in h.analyses ==> h.analyses[k] == s.history.analyses[k])
            && (k in h.auditEvents <==> k in s.history.auditEvents && s.history.auditEvents[k].createdAt >= Before(days, now))
            && (k in h.auditEvents ==> h.auditEvents[k] == s.history.auditEvents[k])
  {
    CutIs(days, now);
    var cut := Keep.Cut(days, now);
    Notes.CleanedSpec(s.outbox, cut);
    Keep.KeptConsistent(s.history.analyses, s.history.analysisOrder, StampExpired(cut));
    Keep.KeptConsistent(s.history.auditEvents, s.history.auditOrder, StampExpired(cut));
  }

  /** Environments: those created at the cut or later, as often as they were there. */
  lemma EnvironmentsKept(s: State, days: int, now: Time, e: Keep.Stamped)
    ensures multiset(After(s, days, now).history.environments)[e]
         == if e.createdAt >= Before(days, now) then multiset(s.history.environments)[e] else 0
  {
    CutIs(days, now);
    ItemsKept(s.history.environments, StampExpired(Keep.Cut(days, now)), e);
  }

  lemma {:induction false} ItemsKept<V>(items: seq<V>, expired: V -> bool, x: V)
    ensures multiset(Keep.KeptItems(items, expired))[x] == if expired(x) then 0 else multiset(items)[x]
  {
    if items == [] {
    } else {
      var front, last := items[..|items| - 1], items[|items| - 1];
      ItemsKept(front, expired, x);
      assert items == front + [last];
      assert Keep.KeptItems(items, expired)
          == Keep.KeptItems(front, expired) + if expired(last) then [] else [last];
    }
  }

  /** Extensions, whatever the retention time: a replay guard of the system until it expires; a revocation until it expires
      or, without a time, for two hours after its last change; both only if their time can be read; all others. */
  lemma ExtensionsKept(s: State, days: int, now: Time, k: string)
    ensures k in After(s, days, now).extensions <==>
              k in s.extensions &&
              var x := s.extensions[k];
              if x.tenant == "__system__" && x.kind == "sso_replay" then x.expiry.ExpiresAt? && x.expiry.at > now
              else if x.kind != "oauth_revocation" then true
              else if x.expiry.Undecodable? then false
              else if x.expiry.at == 0 then x.updatedAt >= now - 7_200 * 1_000_000_000
              else x.expiry.at > now
    ensures k in After(s, days, now).extensions ==> After(s, days, now).extensions[k] == s.extensions[k]
  {}

  /** The kept lists are the old ones without what was dropped. */
  lemma {:induction false} OrderKept<V>(records: map<string, V>, order: seq<string>, expired: V -> bool)
    ensures Sub(Keep.KeptOrder(records, order, expired), order)
  {
    if order == [] {
    } else {
      OrderKept(records, order[..|order| - 1], expired);
      assert order == order[..|order| - 1] + [order[|order| - 1]];
    }
  }

  /** The first is the second with some elements left out. */
  predicate Sub(a: seq<string>, b: seq<string>)
    decreases |b|
  {
    if b == [] then a == []
    else || Sub(a, b[..|b| - 1])
         || (a != [] && a[|a| - 1] == b[|b| - 1] && Sub(a[..|a| - 1], b[..|b| - 1]))
  }

  // ---------------------------------------------------------------- other steps of the store

  /** Recording an analysis adds its environment, and lists it when it is new. */
  lemma AnalyzedMeans(h: History, id: string, analysis: Keep.Stamped, environment: Keep.Stamped)
    ensures var after := Analyzed(h, id, analysis, environment);
            && id in after.analyses && after.analyses[id] == analysis && after.analyses.Keys == h.analyses.Keys + {id}
            && (forall k :: k in h.analyses && k != id ==> after.analyses[k] == h.analyses[k])
            && after.analysisOrder == h.analysisOrder + (if id in h.analyses then [] else [id])
            && after.environments == h.environments + [environment]
            && after.auditEvents == h.auditEvents && after.auditOrder == h.auditOrder
            && (Keep.Consistent(h.analyses, h.analysisOrder) ==> Keep.Consistent(after.analyses, after.analysisOrder))
  {}

  /** A report goes to the incident of its key: a new one is as reported, a known one is merged with it. */
  lemma MergedMeans(known: map<string, Inc.Incident>, key: string, report: Inc.Incident, other: string)
    ensures Merged(known, key, report).Keys == known.Keys + {key}
    ensures Merged(known, key, report)[key] == if key in known then Inc.Merge(known[key], report) else report
    ensures other in known && other != key ==> Merged(known, key, report)[other] == known[other]
  {}
}
