/** What a cleanup keeps of the store's collections. */
module Retention {

  type Time = int

  const ZERO_TIME: Time := 0
  const LEGACY_GRACE: int := 2 * 60 * 60 * 1_000_000_000   // two hours

  const DAY: int := 24 * 60 * 60 * 1_000_000_000

  /** What is older than this is expired. */
  function Cut(retentionDays: int, now: Time): Time {
    now - retentionDays * DAY
  }

  datatype Stamped = Stamped(createdAt: Time, body: string)

  /** The expiry found in an extension's value. */
  datatype Expiry = Undecodable | ExpiresAt(at: Time)

  datatype Extension = Extension(tenant: string, kind: string, expiry: Expiry, updatedAt: Time)

  predicate ExtensionExpired(x: Extension, now: Time) {
    if x.tenant == "__system__" && x.kind == "sso_replay" then
      x.expiry.Undecodable? || x.expiry.at <= now
    else if x.kind == "oauth_revocation" then
      || x.expiry.Undecodable?
      || (x.expiry.at != ZERO_TIME && x.expiry.at <= now)
      || (x.expiry.at == ZERO_TIME && x.updatedAt < now - LEGACY_GRACE)
    else false
  }

  // ---------------------------------------------------------------- collections with an order list

  /** The listed records that exist and are not expired, in order. */
  function KeptOrder<V>(records: map<string, V>, order: seq<string>, expired: V -> bool): seq<string> {
    if order == [] then []
    else
      var front, id := KeptOrder(records, order[..|order| - 1], expired), order[|order| - 1];
      if id in records && !expired(records[id]) then front + [id] else front
  }

  /** All records but the listed expired ones. */
  function KeptRecords<V>(records: map<string, V>, order: seq<string>, expired: V -> bool): map<string, V> {
    map id | id in records && !(id in order && expired(records[id])) :: records[id]
  }

  ghost predicate Distinct(order: seq<string>) {
    forall i, k :: 0 <= i < k < |order| ==> order[i] != order[k]
  }

  /** The order lists every record once, and nothing else. */
  ghost predicate Consistent<V>(records: map<string, V>, order: seq<string>) {
    && (forall id :: id in records <==> id in order)
    && Distinct(order)
  }

  lemma {:induction false} KeptOrderSpec<V>(records: map<string, V>, order: seq<string>, expired: V -> bool)
    ensures forall id :: id in KeptOrder(records, order, expired)
                    <==> id in order && id in records && !expired(records[id])
    ensures Distinct(order) ==> Distinct(KeptOrder(records, order, expired))
  {
    if order == [] {
    } else {
      var front, id := order[..|order| - 1], order[|order| - 1];
      KeptOrderSpec(records, front, expired);
      assert order == front + [id];
      if Distinct(order) {
        assert Distinct(front);
        assert id !in front;
        forall i | 0 <= i < |KeptOrder(records, front, expired)| ensures KeptOrder(records, front, expired)[i] != id {
          assert KeptOrder(records, front, expired)[i] in front;
        }
      }
    }
  }

  /** One more listed identifier: its record goes if it is expired. */
  lemma KeptRecordsStep<V>(records: map<string, V>, order: seq<string>, i: nat, expired: V -> bool)
    requires i < |order|
    ensures var kept := KeptRecords(records, order[..i], expired);
            && (order[i] in kept <==> order[i] in records && !(order[i] in order[..i] && expired(records[order[i]])))
            && KeptRecords(records, order[..i + 1], expired)
            == if order[i] in kept && expired(kept[order[i]]) then kept - {order[i]} else kept
  {
    assert order[..i + 1] == order[..i] + [order[i]];
  }

  lemma KeptOrderStep<V>(records: map<string, V>, order: seq<string>, i: nat, expired: V -> bool)
    requires i < |order|
    ensures KeptOrder(records, order[..i + 1], expired)
         == KeptOrder(records, order[..i], expired)
            + if order[i] in records && !expired(records[order[i]]) then [order[i]] else []
  {
    assert order[..i + 1][..i] == order[..i];
  }

  /** A cleanup keeps a consistent collection consistent, keeps exactly the unexpired records, and finds
      nothing more to do when run again. */
  lemma KeptConsistent<V>(records: map<string, V>, order: seq<string>, expired: V -> bool)
    requires Consistent(records, order)
    ensures var r, o := KeptRecords(records, order, expired), KeptOrder(records, order, expired);
            && Consistent(r, o)
            && (forall id :: id in r <==> id in records && !expired(records[id]))
            && KeptRecords(r, o, expired) == r
  {
    KeptOrderSpec(records, order, expired);
  }

  // ---------------------------------------------------------------- plain collections

  function KeptValues<V>(values: map<string, V>, expired: V -> bool): map<string, V> {
    map k | k in values && !expired(values[k]) :: values[k]
  }

  method SweepValues<V>(values: map<string, V>, expired: V -> bool) returns (kept: map<string, V>)
    ensures kept == KeptValues(values, expired)
  {
    kept := values;
    var remaining := values.Keys;
    while remaining != {}
      invariant remaining <= values.Keys
      invariant kept == map k | k in values && !(k !in remaining && expired(values[k])) :: values[k]
      decreases remaining
    {
      var k :| k in remaining;
      if expired(values[k]) {
        kept := kept - {k};
      }
      remaining := remaining - {k};
    }
  }

  function KeptItems<V>(items: seq<V>, expired: V -> bool): seq<V> {
    if items == [] then []
    else KeptItems(items[..|items| - 1], expired)
         + if expired(items[|items| - 1]) then [] else [items[|items| - 1]]
  }
}
