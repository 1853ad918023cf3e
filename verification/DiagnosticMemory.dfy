/** The memory of recent diagnoses: for every tenant a bounded number of entries, each for a limited time. */
module DiagnosticMemory {
  import opened Options

  type Time = int

  datatype Diagnosis = Diagnosis(category: string, attribution: string, provider: string, errorFamily: string,
                                 summary: string, recommendation: string)

  datatype Entry = Entry(diagnosis: Diagnosis, authoritative: bool, expiresAt: Time, updatedAt: Time)

  type Bucket = map<string, Entry>

  type Buckets = map<string, Bucket>

  predicate Live(e: Entry, now: Time) {
    e.expiresAt > now
  }

  /** Nothing but white space. */
  predicate Blank(s: string) {
    forall c :: c in s ==> c in " \t\n\r" || c as int == 11 || c as int == 12
  }

  function BucketOf(m: Buckets, tenant: string): Bucket {
    if tenant in m then m[tenant] else map[]
  }

  // ---------------------------------------------------------------- what get and put do to a tenant's bucket

  /** The answer of `get`. */
  function Recalled(b: Bucket, fingerprint: string, now: Time): Option<Entry> {
    if !Blank(fingerprint) && fingerprint in b && Live(b[fingerprint], now) then Some(b[fingerprint]) else None
  }

  /** `get` drops the entry it finds expired. */
  function AfterGet(b: Bucket, fingerprint: string, now: Time): Bucket {
    if !Blank(fingerprint) && fingerprint in b && !Live(b[fingerprint], now) then b - {fingerprint} else b
  }

  function Purged(b: Bucket, now: Time): Bucket {
    map k | k in b && Live(b[k], now) :: b[k]
  }

  /** The entry has the earliest update of the bucket. */
  predicate OldestIn(b: Bucket, victim: string) {
    victim in b && forall k :: k in b ==> b[victim].updatedAt <= b[k].updatedAt
  }

  /** A put of this entry leaves the known one in place and only renews it. */
  predicate Protected(b: Bucket, fingerprint: string, authoritative: bool) {
    fingerprint in b && b[fingerprint].authoritative && !authoritative
  }

  predicate Evicts(b: Bucket, fingerprint: string, authoritative: bool, limit: int) {
    !Protected(b, fingerprint, authoritative) && b != map[] && |b| >= limit
  }

  datatype Call =
    | Get(tenant: string, fingerprint: string, now: Time)
    | Put(tenant: string, fingerprint: string, diagnosis: Diagnosis, authoritative: bool, now: Time, victim: string)

  datatype Limits = Limits(ttl: int, perTenant: int)

  /** The tenant's bucket after one of its calls; a put that evicts, evicts its victim. */
  function After(b: Bucket, c: Call, l: Limits): Bucket {
    match c
    case Get(_, fingerprint, now) => AfterGet(b, fingerprint, now)
    case Put(_, fingerprint, diagnosis, authoritative, now, victim) =>
      if Blank(fingerprint) then b
      else
        var live := Purged(b, now);
        if Protected(live, fingerprint, authoritative) then
          live[fingerprint := live[fingerprint].(expiresAt := now + l.ttl, updatedAt := now)]
        else
          var kept := if Evicts(live, fingerprint, authoritative, l.perTenant) then live - {victim} else live;
          kept[fingerprint := Entry(diagnosis, authoritative, now + l.ttl, now)]
  }

  /** A put's victim is an oldest live entry when it evicts one. */
  predicate Possible(b: Bucket, c: Call, l: Limits) {
    c.Put? && !Blank(c.fingerprint) && Evicts(Purged(b, c.now), c.fingerprint, c.authoritative, l.perTenant) ==>
      OldestIn(Purged(b, c.now), c.victim)
  }

  function Next(m: Buckets, c: Call, l: Limits): Buckets {
    WithBucket(m, c.tenant, After(BucketOf(m, c.tenant), c, l))
  }

  function WithBucket(m: Buckets, tenant: string, b: Bucket): Buckets {
    if b == map[] then m - {tenant} else m[tenant := b]
  }

  // ---------------------------------------------------------------- the memory

  ghost predicate WellKept(b: Bucket, l: Limits) {
    && 0 < |b| && (|b| <= l.perTenant || |b| == 1)
    && forall k :: k in b ==> !Blank(k) && b[k].expiresAt == b[k].updatedAt + l.ttl
  }

  ghost predicate AllKept(m: Buckets, l: Limits) {
    forall t :: t in m ==> WellKept(m[t], l)
  }

  lemma SameBucket(m: Buckets, tenant: string)
    requires tenant in m ==> m[tenant] != map[]
    ensures WithBucket(m, tenant, BucketOf(m, tenant)) == m
  {}

  // ---------------------------------------------------------------- one call

  /** What a call leaves under a fingerprint was there before, or is what it put. */
  lemma AfterAt(b: Bucket, c: Call, l: Limits, k: string)
    requires k in After(b, c, l)
    ensures var e, own := After(b, c, l)[k], c.Put? && c.fingerprint == k && !Blank(k);
            && (!own ==> k in b && e == b[k])
            && (own ==> e.updatedAt == c.now && e.expiresAt == c.now + l.ttl)
            && (own && Protected(Purged(b, c.now), k, c.authoritative) ==>
                  e.diagnosis == b[k].diagnosis && e.authoritative)
            && (own && !Protected(Purged(b, c.now), k, c.authoritative) ==>
                  e.diagnosis == c.diagnosis && e.authoritative == c.authoritative)
  {}

  lemma AfterSize(b: Bucket, c: Call, l: Limits)
    requires Possible(b, c, l)
    ensures |After(b, c, l)| <= |b| || |After(b, c, l)| <= l.perTenant || |After(b, c, l)| == 1
  {
    var r := After(b, c, l);
    if c.Put? && !Blank(c.fingerprint) {
      var live := Purged(b, c.now);
      SizeBound(live.Keys, b.Keys);
      if Protected(live, c.fingerprint, c.authoritative) {
        assert r.Keys == live.Keys;
      } else if Evicts(live, c.fingerprint, c.authoritative, l.perTenant) {
        assert r.Keys == (live.Keys - {c.victim}) + {c.fingerprint};
        assert c.victim in live.Keys;
      } else {
        assert r.Keys == live.Keys + {c.fingerprint};
      }
    } else if r != b {
      assert r.Keys == b.Keys - {c.fingerprint};
    }
  }

  /** A call keeps every bucket within its limit. */
  lemma AfterKept(b: Bucket, c: Call, l: Limits)
    requires b == map[] || WellKept(b, l)
    requires Possible(b, c, l)
    ensures After(b, c, l) == map[] || WellKept(After(b, c, l), l)
  {
    AfterSize(b, c, l);
    var r := After(b, c, l);
    forall k | k in r ensures !Blank(k) && r[k].expiresAt == r[k].updatedAt + l.ttl {
      AfterAt(b, c, l, k);
    }
  }

  lemma SizeBound(a: set<string>, b: set<string>)
    requires a <= b
    ensures |a| <= |b|
  {
    assert b == a + (b - a);
  }

  lemma NextKept(m: Buckets, c: Call, l: Limits)
    requires AllKept(m, l) && Possible(BucketOf(m, c.tenant), c, l)
    ensures AllKept(Next(m, c, l), l)
  {
    AfterKept(BucketOf(m, c.tenant), c, l);
  }

  /** A call changes the bucket of its tenant and no other. */
  lemma OneTenant(m: Buckets, c: Call, l: Limits, tenant: string)
    ensures BucketOf(Next(m, c, l), tenant)
         == if tenant == c.tenant then After(BucketOf(m, tenant), c, l) else BucketOf(m, tenant)
  {}

  /** A put drops a live entry of another fingerprint exactly when it evicts that one, also when it replaces an
      entry and needs no room: it then leaves the bucket smaller. */
  lemma PutDrops(b: Bucket, c: Call, l: Limits, k: string)
    requires c.Put? && !Blank(c.fingerprint) && Possible(b, c, l)
    requires k != c.fingerprint && k in Purged(b, c.now)
    ensures var live := Purged(b, c.now);
            k !in After(b, c, l) <==>
            && !Protected(live, c.fingerprint, c.authoritative) && |live| >= l.perTenant && c.victim == k
    ensures k in After(b, c, l) ==> After(b, c, l)[k] == b[k]
    ensures k !in After(b, c, l) ==> forall j :: j in b && Live(b[j], c.now) ==> b[k].updatedAt <= b[j].updatedAt
    ensures k !in After(b, c, l) && c.fingerprint in Purged(b, c.now) ==>
              |After(b, c, l)| == |Purged(b, c.now)| - 1
  {
    var live := Purged(b, c.now);
    if k !in After(b, c, l) {
      assert OldestIn(live, k);
      forall j | j in b && Live(b[j], c.now) ensures b[k].updatedAt <= b[j].updatedAt {
        assert j in live;
      }
    }
    if k !in After(b, c, l) && c.fingerprint in live {
      assert After(b, c, l).Keys == live.Keys - {k};
    }
  }

  // ---------------------------------------------------------------- what is recalled

  /** What is put is recalled until its time has passed, unless it only renews a confirmed diagnosis: then that is. */
  lemma PutRecalled(b: Bucket, c: Call, l: Limits, later: Time)
    requires c.Put? && !Blank(c.fingerprint) && l.ttl > 0
    ensures var found := Recalled(After(b, c, l), c.fingerprint, later);
            var known := c.fingerprint in b && b[c.fingerprint].expiresAt > c.now && b[c.fingerprint].authoritative;
            && (found.Some? <==> later < c.now + l.ttl)
            && (found.Some? && known && !c.authoritative ==>
                  found.value.diagnosis == b[c.fingerprint].diagnosis && found.value.authoritative)
            && (found.Some? && (c.authoritative || !known) ==>
                  found.value.diagnosis == c.diagnosis && found.value.authoritative == c.authoritative)
  {
    AfterAt(b, c, l, c.fingerprint);
  }

  /** Looking something up changes nothing of what can be recalled then or later. */
  lemma GetChangesNothing(b: Bucket, fingerprint: string, now: Time, other: string, later: Time)
    requires later >= now
    ensures Recalled(AfterGet(b, fingerprint, now), other, later) == Recalled(b, other, later)
    ensures Recalled(b, other, later).Some? <==>
              other in b && b[other].expiresAt > later && exists i :: 0 <= i < |other| && other[i] as int !in {32, 9, 10, 11, 12, 13}
    ensures Recalled(b, other, later).Some? ==> Recalled(b, other, later).value == b[other]
  {
    if exists i :: 0 <= i < |other| && other[i] as int !in {32, 9, 10, 11, 12, 13} {
      var i :| 0 <= i < |other| && other[i] as int !in {32, 9, 10, 11, 12, 13};
      assert other[i] in other;
    }
  }

  class Memory {
    var entries: Buckets
    const limits: Limits

    constructor (ttl: int, perTenant: int)
      ensures entries == map[] && limits == Limits(ttl, perTenant) && AllKept(entries, limits)
    {
      entries := map[];
      limits := Limits(ttl, perTenant);
    }

    method Get(tenant: string, fingerprint: string, now: Time) returns (found: Option<Entry>)
      requires AllKept(entries, limits)
      modifies this`entries
      ensures found == Recalled(BucketOf(old(entries), tenant), fingerprint, now)
      ensures entries == Next(old(entries), Call.Get(tenant, fingerprint, now), limits) && AllKept(entries, limits)
    {
      NextKept(entries, Call.Get(tenant, fingerprint, now), limits);
      SameBucket(entries, tenant);
      if Blank(fingerprint) {
        return None;
      }
      var bucket := BucketOf(entries, tenant);
      if fingerprint !in bucket {
        return None;
      }
      var entry := bucket[fingerprint];
      if entry.expiresAt <= now {
        bucket := bucket - {fingerprint};
        if |bucket| == 0 {
          entries := entries - {tenant};
        } else {
          entries := entries[tenant := bucket];
        }
        return None;
      }
      found := Some(entry);
    }

    /** Find an entry with the earliest update; "" stands for none yet. */
    method Oldest(bucket: Bucket) returns (oldestKey: string)
      requires "" !in bucket
      ensures if bucket == map[] then oldestKey == "" else OldestIn(bucket, oldestKey)
    {
      oldestKey := "";
      var oldest := 0;
      var remaining := bucket.Keys;
      while remaining != {}
        invariant remaining <= bucket.Keys
        invariant oldestKey == "" ==> remaining == bucket.Keys
        invariant oldestKey != "" ==> oldestKey in bucket && bucket[oldestKey].updatedAt == oldest
        invariant oldestKey != "" ==> forall k :: k in bucket && k !in remaining ==> oldest <= bucket[k].updatedAt
        decreases remaining
      {
        var key :| key in remaining;
        if oldestKey == "" || bucket[key].updatedAt < oldest {
          oldestKey, oldest := key, bucket[key].updatedAt;
        }
        remaining := remaining - {key};
      }
      assert bucket != map[] ==> exists k :: k in bucket;
    }

    method Purge(bucket: Bucket, now: Time) returns (live: Bucket)
      ensures live == Purged(bucket, now)
    {
      live := bucket;
      var remaining := bucket.Keys;
      while remaining != {}
        invariant remaining <= bucket.Keys
        invariant live == map k | k in bucket && (k in remaining || Live(bucket[k], now)) :: bucket[k]
        decreases remaining
      {
        var key :| key in remaining;
        if bucket[key].expiresAt <= now {
          live := live - {key};
        }
        remaining := remaining - {key};
      }
    }

    /** What a put makes of the tenant's bucket. */
    method Renew(before: Bucket, c: Call) returns (bucket: Bucket, ghost victim: string)
      requires c.Put? && !Blank(c.fingerprint) && "" !in before
      ensures Possible(before, c.(victim := victim), limits)
      ensures bucket == After(before, c.(victim := victim), limits)
      ensures c.fingerprint in bucket
    {
      victim := "";
      var entry := Entry(c.diagnosis, c.authoritative, c.now + limits.ttl, c.now);
      bucket := Purge(before, c.now);
      if c.fingerprint in bucket && bucket[c.fingerprint].authoritative && !c.authoritative {
        bucket := bucket[c.fingerprint := bucket[c.fingerprint].(expiresAt := entry.expiresAt, updatedAt := c.now)];
        return;
      }
      if |bucket| >= limits.perTenant {
        var oldestKey := Oldest(bucket);
        if oldestKey != "" {
          bucket := bucket - {oldestKey};
          victim := oldestKey;
        }
      }
      bucket := bucket[c.fingerprint := entry];
    }

    method Put(tenant: string, fingerprint: string, diagnosis: Diagnosis, authoritative: bool, now: Time)
      returns (ghost victim: string)
      requires AllKept(entries, limits)
      modifies this`entries
      ensures var c := Call.Put(tenant, fingerprint, diagnosis, authoritative, now, victim);
              Possible(BucketOf(old(entries), tenant), c, limits) && entries == Next(old(entries), c, limits)
      ensures AllKept(entries, limits)
    {
      victim := "";
      SameBucket(entries, tenant);
      if Blank(fingerprint) {
        return;
      }
      var bucket;
      bucket, victim := Renew(BucketOf(entries, tenant), Call.Put(tenant, fingerprint, diagnosis, authoritative, now, ""));
      NextKept(entries, Call.Put(tenant, fingerprint, diagnosis, authoritative, now, victim), limits);
      entries := entries[tenant := bucket];
    }
  }

  // ---------------------------------------------------------------- whole runs

  /** The memory after the calls, from an empty one. */
  function Run(calls: seq<Call>, l: Limits): Buckets {
    if calls == [] then map[] else Next(Run(calls[..|calls| - 1], l), calls[|calls| - 1], l)
  }

  function BucketAt(calls: seq<Call>, l: Limits, tenant: string): Bucket {
    BucketOf(Run(calls, l), tenant)
  }

  predicate PossibleAt(calls: seq<Call>, l: Limits, k: nat)
    requires k < |calls|
  {
    Possible(BucketAt(calls[..k], l, calls[k].tenant), calls[k], l)
  }

  /** The calls, with victims that an execution can choose. */
  ghost predicate IsRun(calls: seq<Call>, l: Limits) {
    forall k {:trigger PossibleAt(calls, l, k)} :: 0 <= k < |calls| ==> PossibleAt(calls, l, k)
  }

  lemma RunPrefix(calls: seq<Call>, l: Limits)
    requires IsRun(calls, l) && calls != []
    ensures IsRun(calls[..|calls| - 1], l)
    ensures var c := calls[|calls| - 1]; Possible(BucketAt(calls[..|calls| - 1], l, c.tenant), c, l)
  {
    var front := calls[..|calls| - 1];
    assert PossibleAt(calls, l, |calls| - 1);
    forall k | 0 <= k < |front| ensures PossibleAt(front, l, k) {
      assert front[..k] == calls[..k] && PossibleAt(calls, l, k);
    }
  }

  lemma BucketStep(calls: seq<Call>, l: Limits, tenant: string)
    requires calls != []
    ensures var before, c := BucketAt(calls[..|calls| - 1], l, tenant), calls[|calls| - 1];
            BucketAt(calls, l, tenant) == (if tenant == c.tenant then After(before, c, l) else before)
  {
    OneTenant(Run(calls[..|calls| - 1], l), calls[|calls| - 1], l, tenant);
  }

  /** In every run every bucket is within its limit and not empty, and every entry expires when the time to live has
      passed since its last update. */
  lemma {:induction false} AlwaysKept(calls: seq<Call>, l: Limits)
    requires IsRun(calls, l)
    ensures AllKept(Run(calls, l), l)
  {
    if calls == [] {
    } else {
      RunPrefix(calls, l);
      AlwaysKept(calls[..|calls| - 1], l);
      NextKept(Run(calls[..|calls| - 1], l), calls[|calls| - 1], l);
    }
  }

  /** The tenant's own calls. */
  function Own(calls: seq<Call>, tenant: string): seq<Call> {
    if calls == [] then []
    else
      var front, c := Own(calls[..|calls| - 1], tenant), calls[|calls| - 1];
      if c.tenant == tenant then front + [c] else front
  }

  /** What a tenant finds depends on its own calls only: the other tenants' calls could as well not have been
      made. */
  lemma {:induction false} Isolation(calls: seq<Call>, l: Limits, tenant: string)
    ensures BucketAt(calls, l, tenant) == BucketAt(Own(calls, tenant), l, tenant)
  {
    if calls == [] {
    } else {
      var front, c := calls[..|calls| - 1], calls[|calls| - 1];
      Isolation(front, l, tenant);
      BucketStep(calls, l, tenant);
      if c.tenant == tenant {
        var own := Own(calls, tenant);
        assert own[..|own| - 1] == Own(front, tenant);
        BucketStep(own, l, tenant);
      }
    }
  }

  /** The tenant's own calls are a run themselves. */
  lemma {:induction false} OwnIsRun(calls: seq<Call>, l: Limits, tenant: string)
    requires IsRun(calls, l)
    ensures IsRun(Own(calls, tenant), l)
  {
    if calls == [] {
    } else {
      var front, c := calls[..|calls| - 1], calls[|calls| - 1];
      RunPrefix(calls, l);
      OwnIsRun(front, l, tenant);
      var ours, before := Own(calls, tenant), Own(front, tenant);
      forall k | 0 <= k < |ours| ensures PossibleAt(ours, l, k) {
        if k < |before| {
          assert ours[..k] == before[..k] && PossibleAt(before, l, k);
        } else {
          assert ours[..k] == before;
          Isolation(front, l, tenant);
        }
      }
    }
  }

  predicate PutsAt(c: Call, tenant: string, fingerprint: string) {
    c.Put? && c.tenant == tenant && c.fingerprint == fingerprint && !Blank(fingerprint)
  }

  /** The entry was put: `last` is the last put on its fingerprint and gave it its time, `origin` gave it its
      diagnosis. They are one unless the origin was authoritative and no put since was. */
  ghost predicate Traced(calls: seq<Call>, l: Limits, tenant: string, fingerprint: string, e: Entry,
                         origin: nat, last: nat) {
    && origin <= last < |calls|
    && PutsAt(calls[origin], tenant, fingerprint) && PutsAt(calls[last], tenant, fingerprint)
    && e.diagnosis == calls[origin].diagnosis && e.authoritative == calls[origin].authoritative
    && e.updatedAt == calls[last].now && e.expiresAt == calls[last].now + l.ttl
    && (forall m :: last < m < |calls| ==> !PutsAt(calls[m], tenant, fingerprint))
    && (origin != last ==> calls[origin].authoritative)
    && (forall m :: origin < m < |calls| && PutsAt(calls[m], tenant, fingerprint) ==> !calls[m].authoritative)
  }

  lemma TracedLonger(front: seq<Call>, c: Call, l: Limits, tenant: string, fingerprint: string, e: Entry,
                     origin: nat, last: nat)
    requires Traced(front, l, tenant, fingerprint, e, origin, last) && !PutsAt(c, tenant, fingerprint)
    ensures Traced(front + [c], l, tenant, fingerprint, e, origin, last)
  {}

  lemma TracedRenewed(front: seq<Call>, c: Call, l: Limits, tenant: string, fingerprint: string, e: Entry,
                      origin: nat, last: nat)
    requires Traced(front, l, tenant, fingerprint, e, origin, last)
    requires PutsAt(c, tenant, fingerprint) && e.authoritative && !c.authoritative
    ensures Traced(front + [c], l, tenant, fingerprint, e.(updatedAt := c.now, expiresAt := c.now + l.ttl),
                   origin, |front|)
  {}

  /** Every entry in a run can be traced to the puts that made it. */
  lemma {:induction false} Origin(calls: seq<Call>, l: Limits, tenant: string, fingerprint: string)
    returns (origin: nat, last: nat)
    requires fingerprint in BucketAt(calls, l, tenant)
    ensures Traced(calls, l, tenant, fingerprint, BucketAt(calls, l, tenant)[fingerprint], origin, last)
  {
    BucketStep(calls, l, tenant);
    var front, c := calls[..|calls| - 1], calls[|calls| - 1];
    assert calls == front + [c];
    var before := BucketAt(front, l, tenant);
    if c.tenant == tenant {
      AfterAt(before, c, l, fingerprint);
    }
    if !PutsAt(c, tenant, fingerprint) {
      origin, last := Origin(front, l, tenant, fingerprint);
      TracedLonger(front, c, l, tenant, fingerprint, before[fingerprint], origin, last);
    } else if Protected(Purged(before, c.now), fingerprint, c.authoritative) {
      origin, last := Origin(front, l, tenant, fingerprint);
      TracedRenewed(front, c, l, tenant, fingerprint, before[fingerprint], origin, last);
      last := |front|;
    } else {
      origin, last := |front|, |front|;
    }
  }

  /** An authoritative entry that is put at `j` is still what its tenant finds after the calls, if these came
      within the entry's time, did not evict it and put no other authoritative one. */
  lemma {:induction false} AuthoritativeStays(calls: seq<Call>, l: Limits, j: nat)
    requires IsRun(calls, l) && j < |calls|
    requires PutsAt(calls[j], calls[j].tenant, calls[j].fingerprint) && calls[j].authoritative
    requires forall m :: j < m < |calls| ==> calls[j].now <= calls[m].now < calls[j].now + l.ttl
    requires forall m :: j < m < |calls| && PutsAt(calls[m], calls[j].tenant, calls[j].fingerprint) ==>
                           !calls[m].authoritative
    requires forall m :: j < m < |calls| && calls[m].Put? && calls[m].tenant == calls[j].tenant ==>
                           calls[m].victim != calls[j].fingerprint
    ensures var b := BucketAt(calls, l, calls[j].tenant);
            && calls[j].fingerprint in b && b[calls[j].fingerprint].authoritative
            && b[calls[j].fingerprint].diagnosis == calls[j].diagnosis
            && b[calls[j].fingerprint].expiresAt >= calls[j].now + l.ttl
  {
    RunPrefix(calls, l);
    BucketStep(calls, l, calls[j].tenant);
    if j == |calls| - 1 {
    } else {
      var front, c := calls[..|calls| - 1], calls[|calls| - 1];
      AuthoritativeStays(front, l, j);
      assert calls[j].now <= c.now < calls[j].now + l.ttl;
      assert c.Put? && c.tenant == calls[j].tenant ==> c.victim != calls[j].fingerprint;
      assert PutsAt(c, calls[j].tenant, calls[j].fingerprint) ==> !c.authoritative;
    }
  }

  // ---------------------------------------------------------------- a replacement that evicts

  const SAMPLE: Diagnosis := Diagnosis("c", "a", "p", "f", "s", "r")

  function Name(i: nat): string {
    seq(i + 1, _ => 'x')
  }

  function PutNth(i: nat, now: Time, victim: string): Call {
    Put("t", Name(i), SAMPLE, false, now, victim)
  }

  /** Puts on k fingerprints, one after the other. */
  function Filling(k: nat): seq<Call> {
    seq(k, i requires 0 <= i < k => PutNth(i, i, ""))
  }

  /** The bucket has the first k fingerprints, put at times 0 to k - 1. */
  ghost predicate FilledTo(b: Bucket, k: nat, ttl: int) {
    && (forall f :: f in b ==> 0 < |f| <= k && b[f] == Entry(SAMPLE, false, |f| - 1 + ttl, |f| - 1))
    && (forall i {:trigger Name(i)} :: 0 <= i < k ==> Name(i) in b)
    && |b| == k
  }

  lemma Names(i: nat, k: nat)
    ensures !Blank(Name(i)) && (i != k ==> Name(i) != Name(k))
  {
    assert Name(i)[0] in Name(i) && Name(i)[0] !in " \t\n\r";
    assert |Name(i)| != |Name(k)| || i == k;
  }

  /** Nothing of it has expired yet. */
  lemma FilledLives(b: Bucket, k: nat, ttl: int, now: Time)
    requires FilledTo(b, k, ttl) && now < ttl
    ensures Purged(b, now) == b
    ensures forall f :: f in b ==> b[f].updatedAt >= 0
  {
    assert forall f :: f in b ==> Live(b[f], now);
  }

  /** A put of something new, with room for it, adds an entry. */
  lemma AddsEntry(b: Bucket, c: Call, l: Limits)
    requires c.Put? && !Blank(c.fingerprint) && c.fingerprint !in b && Purged(b, c.now) == b && |b| < l.perTenant
    ensures Possible(b, c, l)
    ensures After(b, c, l) == b[c.fingerprint := Entry(c.diagnosis, c.authoritative, c.now + l.ttl, c.now)]
  {}

  lemma FillOne(b: Bucket, k: nat, l: Limits)
    requires FilledTo(b, k, l.ttl) && k < l.perTenant < l.ttl
    ensures FilledTo(After(b, PutNth(k, k, ""), l), k + 1, l.ttl) && Possible(b, PutNth(k, k, ""), l)
  {
    Names(k, k);
    FilledLives(b, k, l.ttl, k);
    assert |Name(k)| == k + 1 && Name(k) !in b;
    AddsEntry(b, PutNth(k, k, ""), l);
    OneMore(b, k, l.ttl);
  }

  lemma OneMore(b: Bucket, k: nat, ttl: int)
    requires FilledTo(b, k, ttl) && Name(k) !in b
    ensures FilledTo(b[Name(k) := Entry(SAMPLE, false, k + ttl, k)], k + 1, ttl)
  {
    GrowsByOne(b, Name(k), Entry(SAMPLE, false, k + ttl, k));
    assert |Name(k)| == k + 1;
  }

  lemma GrowsByOne(b: Bucket, f: string, e: Entry)
    requires f !in b
    ensures |b[f := e]| == |b| + 1
  {
    assert b[f := e].Keys == b.Keys + {f};
  }

  lemma {:induction false} Filled(k: nat, l: Limits)
    requires k <= l.perTenant < l.ttl
    ensures IsRun(Filling(k), l) && FilledTo(BucketAt(Filling(k), l, "t"), k, l.ttl)
  {
    if k == 0 {
    } else {
      Filled(k - 1, l);
      var front, c := Filling(k - 1), PutNth(k - 1, k - 1, "");
      assert Filling(k) == front + [c];
      FillOne(BucketAt(front, l, "t"), k - 1, l);
      BucketStep(Filling(k), l, "t");
      RunSnoc(front, c, l);
    }
  }

  lemma RunSnoc(front: seq<Call>, c: Call, l: Limits)
    requires IsRun(front, l) && Possible(BucketAt(front, l, c.tenant), c, l)
    ensures IsRun(front + [c], l)
  {
    forall k | 0 <= k < |front| + 1 ensures PossibleAt(front + [c], l, k) {
      if k < |front| {
        assert (front + [c])[..k] == front[..k] && PossibleAt(front, l, k);
      } else {
        assert (front + [c])[..k] == front;
      }
    }
  }

  /** It happens: a bucket is filled, the last fingerprint is put once more, and the first one is gone. */
  lemma ReplacementEvicts(l: Limits)
    requires 2 <= l.perTenant < l.ttl
    ensures var n := l.perTenant;
            var calls := Filling(n) + [PutNth(n - 1, n, Name(0))];
            && IsRun(calls, l) && Name(n - 1) in BucketAt(Filling(n), l, "t") && Name(0) in BucketAt(Filling(n), l, "t")
            && Name(0) !in BucketAt(calls, l, "t") && |BucketAt(calls, l, "t")| == n - 1
  {
    var n := l.perTenant;
    var b, c := BucketAt(Filling(n), l, "t"), PutNth(n - 1, n, Name(0));
    Filled(n, l);
    Names(n - 1, 0);
    FilledLives(b, n, l.ttl, n);
    assert |Name(0)| == 1 && b[Name(0)].updatedAt == 0;
    PutDrops(b, c, l, Name(0));
    RunSnoc(Filling(n), c, l);
    assert (Filling(n) + [c])[..n] == Filling(n);
    BucketStep(Filling(n) + [c], l, "t");
  }

  // ---------------------------------------------------------------- what an analysis does with the memory

  datatype Finding = Finding(tenant: string, fingerprint: string, diagnosis: Diagnosis, insufficient: bool)

  const UNKNOWN := "UNKNOWN"

  function Field(recalled: string, found: string): string {
    if recalled != "" then recalled else found
  }

  /** The finding with the fields of the recalled entry, where that has any. */
  function Applied(r: Finding, e: Entry): Finding {
    var d, own := e.diagnosis, r.diagnosis;
    r.(diagnosis := Diagnosis(Field(d.category, own.category), Field(d.attribution, own.attribution),
                              Field(d.provider, own.provider), Field(d.errorFamily, own.errorFamily),
                              Field(d.summary, own.summary), Field(d.recommendation, own.recommendation)),
       insufficient := false)
  }

  /** A recalled diagnosis gives its fields, where it has any, and the finding counts as sufficient; what the recalled one
      leaves open stays. */
  lemma AppliedFields(r: Finding, e: Entry)
    ensures var d, found, result := e.diagnosis, r.diagnosis, Applied(r, e).diagnosis;
            && (if d.category != "" then result.category == d.category else result.category == found.category)
            && (if d.attribution != "" then result.attribution == d.attribution else result.attribution == found.attribution)
            && (if d.provider != "" then result.provider == d.provider else result.provider == found.provider)
            && (if d.errorFamily != "" then result.errorFamily == d.errorFamily else result.errorFamily == found.errorFamily)
            && (if d.summary != "" then result.summary == d.summary else result.summary == found.summary)
            && (if d.recommendation != "" then result.recommendation == d.recommendation
                else result.recommendation == found.recommendation)
    ensures Applied(r, e).tenant == r.tenant && Applied(r, e).fingerprint == r.fingerprint && !Applied(r, e).insufficient
  {}

  predicate Sure(r: Finding) {
    r.diagnosis.category != UNKNOWN && !r.insufficient
  }

  /** An analysis recalls what the memory has and stores what it is sure of. The two clock readings are passed
      in. */
  method AnalyzeWithMemory(m: Memory, found: Finding, recallTime: Time, storeTime: Time)
    returns (result: Finding, ghost victim: string)
    requires AllKept(m.entries, m.limits)
    modifies m`entries
    ensures AllKept(m.entries, m.limits)
    ensures Sure(found) <==> found.diagnosis.category != "UNKNOWN" && !found.insufficient
    ensures var e := Recalled(BucketOf(old(m.entries), found.tenant), found.fingerprint, recallTime);
            result == if e.Some? && (e.value.authoritative || !Sure(found)) then Applied(found, e.value) else found
    ensures var mid := Next(old(m.entries), Call.Get(found.tenant, found.fingerprint, recallTime), m.limits);
            var put := Call.Put(found.tenant, found.fingerprint, result.diagnosis, false, storeTime, victim);
            if Sure(result) then
              Possible(BucketOf(mid, found.tenant), put, m.limits) && m.entries == Next(mid, put, m.limits)
            else m.entries == mid
  {
    result, victim := found, "";
    var recalled := m.Get(found.tenant, found.fingerprint, recallTime);
    if recalled.Some? && (recalled.value.authoritative || !Sure(result)) {
      result := Applied(result, recalled.value);
    }
    if Sure(result) {
      victim := m.Put(found.tenant, found.fingerprint, result.diagnosis, false, storeTime);
    }
  }

  /** A confirmed diagnosis outlives the analyses that recall it: the put that ends such an analysis renews it,
      evicts nothing, and leaves it authoritative exactly when it had not expired in between. */
  lemma ConfirmationStays(b: Bucket, l: Limits, found: Finding, e: Entry, recallTime: Time, put: Call)
    requires Recalled(b, found.fingerprint, recallTime) == Some(e) && e.authoritative && l.ttl > 0
    requires PutsAt(put, found.tenant, found.fingerprint) && !put.authoritative && put.now >= recallTime
    requires put.diagnosis == Applied(found, e).diagnosis
    ensures var mid := AfterGet(b, found.fingerprint, recallTime);
            var r := Recalled(After(mid, put, l), found.fingerprint, put.now);
            && r.Some? && (r.value.authoritative <==> Live(e, put.now))
            && Applied(found, r.value) == Applied(found, e)
            && (Live(e, put.now) ==> r.value.diagnosis == e.diagnosis)
            && (Live(e, put.now) ==> forall k :: k in Purged(b, put.now) ==> k in After(mid, put, l))
  {
    var d := e.diagnosis;
  }

  lemma ExpiryCase(ttl: int, d: Diagnosis, victim: string)
    requires ttl > 0
    ensures var b, l := map["f" := Entry(d, true, ttl, 0)], Limits(ttl, 1024);
            && Recalled(b, "f", ttl - 1) == Some(b["f"]) && AfterGet(b, "f", ttl - 1) == b
            && After(b, Put("t", "f", d, false, ttl, victim), l) == map["f" := Entry(d, false, 2 * ttl, ttl)]
  {
    assert "f"[0] in "f" && "f"[0] !in " \t\n\r";
    assert Purged(map["f" := Entry(d, true, ttl, 0)], ttl) == map[];
  }

  /** It happens: a confirmed diagnosis expires while an analysis that recalled it runs, and comes back unconfirmed. */
  method ConfirmationExpires(ttl: int, d: Diagnosis) returns (m: Memory, result: Finding)
    requires ttl > 0 && d.category != UNKNOWN
    ensures fresh(m) && m.limits == Limits(ttl, 1024) && result.diagnosis == d
    ensures "t" in m.entries && "f" in m.entries["t"] && m.entries["t"]["f"] == Entry(d, false, 2 * ttl, ttl)
  {
    m := new Memory(ttl, 1024);
    assert "f"[0] in "f" && "f"[0] !in " \t\n\r";
    ghost var victim := m.Put("t", "f", d, true, 0);
    assert BucketOf(m.entries, "t") == map["f" := Entry(d, true, ttl, 0)];
    result := AnalyzeExpired(m, ttl, d);
  }

  method AnalyzeExpired(m: Memory, ttl: int, d: Diagnosis) returns (result: Finding)
    requires ttl > 0 && d.category != UNKNOWN && AllKept(m.entries, m.limits) && m.limits == Limits(ttl, 1024)
    requires BucketOf(m.entries, "t") == map["f" := Entry(d, true, ttl, 0)]
    modifies m`entries
    ensures result.diagnosis == d
    ensures BucketOf(m.entries, "t") == map["f" := Entry(d, false, 2 * ttl, ttl)]
  {
    ghost var victim;
    result, victim := AnalyzeWithMemory(m, Finding("t", "f", d, false), ttl - 1, ttl);
    ExpiryCase(ttl, d, victim);
  }
}
