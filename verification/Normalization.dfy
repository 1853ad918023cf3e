/** What opening the store makes of a state it has loaded: normal tenants, and records under the keys these give.
    The order in which the entries of a map are visited is arbitrary. */
module Normalization {
  import Queue = JobQueue
  import Notes = Notifications
  import Inc = Incidents
  import opened StateFiles
  import opened Stores

  const DEFAULT_TENANT := "default"

  // ---------------------------------------------------------------- tenants

  predicate IsSpace(c: char) {
    c in " \t\n\r" || c == 11 as char || c == 12 as char
  }

  function LowerChar(c: char): char {
    if 'A' <= c <= 'Z' then c + 32 as char else c
  }

  function Lower(v: string): string {
    seq(|v|, i requires 0 <= i < |v| => LowerChar(v[i]))
  }

  function TrimLeft(v: string): string {
    if v != "" && IsSpace(v[0]) then TrimLeft(v[1..]) else v
  }

  function TrimRight(v: string): string {
    if v != "" && IsSpace(v[|v| - 1]) then TrimRight(v[..|v| - 1]) else v
  }

  function NormalTenant(v: string): string {
    var t := TrimRight(TrimLeft(Lower(v)));
    if t == "" then DEFAULT_TENANT else t
  }

  /** Lower-case, and no space at either end. */
  predicate Trimmed(v: string) {
    && (forall i :: 0 <= i < |v| ==> LowerChar(v[i]) == v[i])
    && (v != "" ==> !IsSpace(v[0]) && !IsSpace(v[|v| - 1]))
  }

  lemma {:induction false} TrimLeftSpec(v: string)
    ensures TrimLeft(v) != "" ==> !IsSpace(TrimLeft(v)[0])
    ensures forall c :: c in TrimLeft(v) ==> c in v
  {
    if v == "" || !IsSpace(v[0]) {
    } else {
      TrimLeftSpec(v[1..]);
    }
  }

  lemma {:induction false} TrimRightSpec(v: string)
    ensures TrimRight(v) <= v
    ensures TrimRight(v) != "" ==> !IsSpace(TrimRight(v)[|TrimRight(v)| - 1])
  {
    if v == "" || !IsSpace(v[|v| - 1]) {
    } else {
      TrimRightSpec(v[..|v| - 1]);
    }
  }

  lemma NormalTenantTrimmed(v: string)
    ensures Trimmed(NormalTenant(v)) && NormalTenant(v) != ""
  {
    TrimLeftSpec(Lower(v));
    TrimRightSpec(TrimLeft(Lower(v)));
    var t := TrimRight(TrimLeft(Lower(v)));
    forall i | 0 <= i < |t| ensures LowerChar(t[i]) == t[i] {
      assert t[i] in TrimLeft(Lower(v)) && t[i] in Lower(v);
    }
  }

  /** A normal tenant stays as it is. */
  lemma NormalTenantTwice(v: string)
    ensures NormalTenant(NormalTenant(v)) == NormalTenant(v)
  {
    var t := NormalTenant(v);
    NormalTenantTrimmed(v);
    assert Lower(t) == t;
  }

  /** A space, tab, newline, carriage return, vertical tab or form feed. */
  predicate SpaceChar(c: char) {
    c as int in {32, 9, 10, 13, 11, 12}
  }

  predicate Spaces(v: string) {
    forall i :: 0 <= i < |v| ==> SpaceChar(v[i])
  }

  /** The two spell the same, the second in small letters. */
  predicate SmallLetters(v: string, w: string) {
    && |v| == |w|
    && forall i :: 0 <= i < |v| ==> w[i] as int == v[i] as int + if 'A' <= v[i] <= 'Z' then 32 else 0
  }

  /** From i to j the first is the second in small letters, and around that it has spaces, as many as there are. */
  predicate BareAt(v: string, w: string, i: nat, j: nat) {
    && i < j <= |v| && SmallLetters(v[i..j], w)
    && !SpaceChar(v[i]) && !SpaceChar(v[j - 1])
    && (forall k :: 0 <= k < i ==> SpaceChar(v[k])) && (forall k :: j <= k < |v| ==> SpaceChar(v[k]))
  }

  /** The second is the first without its outer spaces, in small letters. */
  ghost predicate Bare(v: string, w: string) {
    exists i: nat, j: nat :: BareAt(v, w, i, j)
  }

  lemma {:induction false} TrimLeftIs(v: string) returns (i: nat)
    ensures i <= |v| && TrimLeft(v) == v[i..]
    ensures (forall k :: 0 <= k < i ==> SpaceChar(v[k])) && (i < |v| ==> !SpaceChar(v[i]))
  {
    if v == "" || !IsSpace(v[0]) {
      i := 0;
    } else {
      var k := TrimLeftIs(v[1..]);
      i := k + 1;
      assert forall m :: 1 <= m < |v| ==> v[m] == v[1..][m - 1];
    }
  }

  lemma {:induction false} TrimRightIs(v: string) returns (j: nat)
    ensures j <= |v| && TrimRight(v) == v[..j]
    ensures (forall k :: j <= k < |v| ==> SpaceChar(v[k])) && (j > 0 ==> !SpaceChar(v[j - 1]))
  {
    if v == "" || !IsSpace(v[|v| - 1]) {
      j := |v|;
    } else {
      j := TrimRightIs(v[..|v| - 1]);
    }
  }

  lemma LowerIs(v: string)
    ensures SmallLetters(v, Lower(v))
    ensures forall i :: 0 <= i < |v| ==> (SpaceChar(Lower(v)[i]) <==> SpaceChar(v[i]))
  {}

  /** The trimmed part of the text in small letters. */
  lemma TrimmedPart(v: string) returns (i: nat, j: nat)
    ensures i <= j <= |v| && TrimRight(TrimLeft(Lower(v))) == Lower(v)[i..j]
    ensures (forall k :: 0 <= k < i ==> SpaceChar(v[k])) && (forall k :: j <= k < |v| ==> SpaceChar(v[k]))
    ensures i < j ==> !SpaceChar(v[i]) && !SpaceChar(v[j - 1])
  {
    var low := Lower(v);
    LowerIs(v);
    i := TrimLeftIs(low);
    var k := TrimRightIs(low[i..]);
    j := i + k;
    assert low[i..][..k] == low[i..j];
    assert forall m :: j <= m < |v| ==> low[m] == low[i..][m - i];
    assert i < j ==> low[j - 1] == low[i..][k - 1];
  }

  lemma SameEnds(v: string, w: string, i: nat, j: nat, x: string, k: nat, l: nat)
    requires BareAt(v, w, i, j) && BareAt(v, x, k, l)
    ensures i == k && j == l
  {}

  lemma SameLetters(v: string, w: string, x: string)
    requires SmallLetters(v, w) && SmallLetters(v, x)
    ensures w == x
  {
    assert forall m :: 0 <= m < |w| ==> w[m] as int == x[m] as int;
  }

  /** There is at most one such text. */
  lemma BareUnique(v: string, w: string, x: string)
    requires Bare(v, w) && Bare(v, x)
    ensures w == x
  {
    var i: nat, j: nat :| BareAt(v, w, i, j);
    var k: nat, l: nat :| BareAt(v, x, k, l);
    SameEnds(v, w, i, j, x, k, l);
    SameLetters(v[i..j], w, x);
  }

  /** Which tenant comes out: the text without its outer spaces and in small letters, or "default" when nothing is left.
      So it is "default" exactly for spaces and for that name itself. */
  lemma NormalTenantIs(v: string)
    ensures Spaces(v) ==> NormalTenant(v) == "default"
    ensures !Spaces(v) ==> Bare(v, NormalTenant(v))
    ensures NormalTenant(v) == "default" <==> Spaces(v) || Bare(v, "default")
  {
    var i, j := TrimmedPart(v);
    LowerIs(v);
    if i < j {
      assert BareAt(v, Lower(v)[i..j], i, j);
      assert !Spaces(v);
      if Bare(v, "default") {
        BareUnique(v, Lower(v)[i..j], "default");
      }
    } else {
      assert Spaces(v);
    }
  }

  /** A name in small letters, without outer spaces. */
  predicate Plain(v: string) {
    && v != "" && !SpaceChar(v[0]) && !SpaceChar(v[|v| - 1])
    && forall i :: 0 <= i < |v| ==> !('A' <= v[i] <= 'Z')
  }

  /** It stays as it is. */
  lemma PlainTenant(v: string)
    requires Plain(v)
    ensures NormalTenant(v) == v
  {
    assert v[0..|v|] == v;
    assert BareAt(v, v, 0, |v|);
    NormalTenantIs(v);
    BareUnique(v, NormalTenant(v), v);
  }

  // ---------------------------------------------------------------- incidents

  function IncidentKey(i: Inc.Incident): string {
    NormalTenant(i.tenant) + "|" + i.fingerprint
  }

  function NormalIncident(i: Inc.Incident): Inc.Incident {
    i.(tenant := NormalTenant(i.tenant))
  }

  predicate IncidentIsNormal(key: string, i: Inc.Incident) {
    key == IncidentKey(i) && i == NormalIncident(i)
  }

  predicate IncidentsNormal(m: map<string, Inc.Incident>) {
    forall k :: k in m ==> IncidentIsNormal(k, m[k])
  }

  /** Move the entry to the key of its normal tenant. */
  function Rekey(m: map<string, Inc.Incident>, k: string): map<string, Inc.Incident> {
    if k !in m then m else (m - {k})[IncidentKey(m[k]) := NormalIncident(m[k])]
  }

  function RekeyAll(m: map<string, Inc.Incident>, visits: seq<string>): map<string, Inc.Incident> {
    if visits == [] then m else Rekey(RekeyAll(m, visits[..|visits| - 1]), visits[|visits| - 1])
  }

  /** Every entry is visited, and perhaps entries put in on the way. */
  ghost predicate Visits<V>(m: map<string, V>, visits: seq<string>) {
    forall k :: k in m ==> k in visits
  }

  lemma NormalIncidentIsNormal(i: Inc.Incident)
    ensures IncidentIsNormal(IncidentKey(i), NormalIncident(i))
  {
    NormalTenantTwice(i.tenant);
  }

  /** What was visited is normal, the rest is as it was. */
  lemma {:induction false} RekeyedSoFar(m: map<string, Inc.Incident>, visits: seq<string>)
    ensures forall k :: k in RekeyAll(m, visits) ==>
              IncidentIsNormal(k, RekeyAll(m, visits)[k]) || (k in m && k !in visits && RekeyAll(m, visits)[k] == m[k])
  {
    if visits == [] {
    } else {
      var front, last := visits[..|visits| - 1], visits[|visits| - 1];
      RekeyedSoFar(m, front);
      assert visits == front + [last];
      if last in RekeyAll(m, front) {
        NormalIncidentIsNormal(RekeyAll(m, front)[last]);
      }
    }
  }

  lemma {:induction false} NormalIncidentsStay(m: map<string, Inc.Incident>, visits: seq<string>)
    requires IncidentsNormal(m)
    ensures RekeyAll(m, visits) == m
  {
    if visits == [] {
    } else {
      NormalIncidentsStay(m, visits[..|visits| - 1]);
    }
  }

  /** No entry moves to the key of another, and no two move to the same. */
  ghost predicate Apart(m: map<string, Inc.Incident>) {
    forall k, l :: k in m && l in m && k != l ==> IncidentKey(m[k]) != l && IncidentKey(m[k]) != IncidentKey(m[l])
  }

  /** The incident is still where it was or, once visited, under its normal key. */
  predicate KeptAt(m: map<string, Inc.Incident>, now: map<string, Inc.Incident>, k: string, visited: bool)
    requires k in m
  {
    if visited then IncidentKey(m[k]) in now && now[IncidentKey(m[k])] == NormalIncident(m[k])
    else k in now && now[k] == m[k]
  }

  /** Whatever the order of the visits, no incident is lost when they are apart. */
  lemma {:induction false} ApartKept(m: map<string, Inc.Incident>, visits: seq<string>)
    requires Apart(m)
    ensures forall k :: k in m ==> KeptAt(m, RekeyAll(m, visits), k, k in visits)
  {
    if visits == [] {
    } else {
      var front, last := visits[..|visits| - 1], visits[|visits| - 1];
      ApartKept(m, front);
      RekeyedSoFar(m, front);
      assert visits == front + [last];
      var now := RekeyAll(m, front);
      forall k | k in m ensures KeptAt(m, Rekey(now, last), k, k in visits) {
        assert KeptAt(m, now, k, k in front);
        NormalTenantTwice(m[k].tenant);
      }
    }
  }

  /** The entry is an incident of before: where it was or, once visited, under its normal key. */
  ghost predicate Stems(m: map<string, Inc.Incident>, visits: seq<string>, key: string, i: Inc.Incident) {
    exists k :: k in m && NormalIncident(m[k]) == NormalIncident(i) && key == if k in visits then IncidentKey(m[k]) else k
  }

  lemma {:induction false} RekeyedStem(m: map<string, Inc.Incident>, visits: seq<string>)
    ensures forall k :: k in RekeyAll(m, visits) ==> Stems(m, visits, k, RekeyAll(m, visits)[k])
  {
    if visits == [] {
      forall k | k in m ensures Stems(m, visits, k, m[k]) {
        assert NormalIncident(m[k]) == NormalIncident(m[k]);
      }
    } else {
      var front, last := visits[..|visits| - 1], visits[|visits| - 1];
      RekeyedStem(m, front);
      assert visits == front + [last];
      forall k | k in RekeyAll(m, visits) ensures Stems(m, visits, k, RekeyAll(m, visits)[k]) {
        StemsStep(m, RekeyAll(m, front), front, last, k);
      }
    }
  }

  lemma StemsStep(m: map<string, Inc.Incident>, now: map<string, Inc.Incident>, front: seq<string>, last: string, k: string)
    requires forall l :: l in now ==> Stems(m, front, l, now[l])
    requires k in Rekey(now, last)
    ensures Stems(m, front + [last], k, Rekey(now, last)[k])
  {
    var from := if last in now && k == IncidentKey(now[last]) then last else k;
    var l :| l in m && NormalIncident(m[l]) == NormalIncident(now[from]) && from == if l in front then IncidentKey(m[l]) else l;
    NormalTenantTwice(now[from].tenant);
    assert IncidentKey(m[l]) == IncidentKey(NormalIncident(m[l])) by { NormalTenantTwice(m[l].tenant); }
    assert IncidentKey(now[from]) == IncidentKey(NormalIncident(now[from]));
    assert NormalIncident(Rekey(now, last)[k]) == NormalIncident(m[l]);
  }

  /** No visit makes more entries of them, and it makes fewer only when it overwrites one. */
  lemma RekeySize(m: map<string, Inc.Incident>, k: string)
    ensures |Rekey(m, k)| == if k in m && IncidentKey(m[k]) != k && IncidentKey(m[k]) in m then |m| - 1 else |m|
  {
    if k in m {
      var rest, key := m - {k}, IncidentKey(m[k]);
      assert m.Keys == rest.Keys + {k};
      assert Rekey(m, k).Keys == rest.Keys + {key};
    }
  }

  lemma {:induction false} ApartSize(m: map<string, Inc.Incident>, visits: seq<string>)
    requires Apart(m)
    ensures |RekeyAll(m, visits)| == |m|
  {
    if visits == [] {
    } else {
      var front, last := visits[..|visits| - 1], visits[|visits| - 1];
      var now := RekeyAll(m, front);
      ApartSize(m, front);
      RekeySize(now, last);
      RekeyedSoFar(m, front);
      RekeyedStem(m, front);
    }
  }

  lemma {:induction false} FewerAfter(m: map<string, Inc.Incident>, first: seq<string>, visits: seq<string>)
    ensures |RekeyAll(m, first + visits)| <= |RekeyAll(m, first)|
  {
    if visits == [] {
      assert first + visits == first;
    } else {
      var front, last := visits[..|visits| - 1], visits[|visits| - 1];
      FewerAfter(m, first, front);
      assert (first + visits)[..|first + visits| - 1] == first + front;
      RekeySize(RekeyAll(m, first + front), last);
    }
  }

  lemma {:induction false} Listing(keys: set<string>) returns (order: seq<string>)
    ensures forall k :: k in keys <==> k in order
    ensures |order| == |keys|
  {
    if keys == {} {
      order := [];
    } else {
      var k :| k in keys;
      var front := Listing(keys - {k});
      order := front + [k];
    }
  }

  /** Exactly when they are apart, every order of the visits leaves as many incidents as there were. */
  lemma NoneLostIff(m: map<string, Inc.Incident>)
    ensures Apart(m) <==> forall visits :: Visits(m, visits) ==> |RekeyAll(m, visits)| == |m|
  {
    if Apart(m) {
      forall visits ensures |RekeyAll(m, visits)| == |m| {
        ApartSize(m, visits);
      }
    } else {
      var k, l :| k in m && l in m && k != l && (IncidentKey(m[k]) == l || IncidentKey(m[k]) == IncidentKey(m[l]));
      if IncidentKey(m[l]) == k {
        var visits := LosingVisits(m, l, k);
      } else {
        var visits := LosingVisits(m, k, l);
      }
    }
  }

  lemma LosingVisits(m: map<string, Inc.Incident>, k: string, l: string) returns (visits: seq<string>)
    requires k in m && l in m && k != l && (IncidentKey(m[k]) == l || IncidentKey(m[k]) == IncidentKey(m[l]) != k)
    ensures Visits(m, visits) && |RekeyAll(m, visits)| < |m|
  {
    var rest := Listing(m.Keys - {k, l});
    TwoVisits(m, k, l);
    FewerAfter(m, [k, l], rest);
    visits := [k, l] + rest;
    forall x | x in m ensures x in visits {
      assert x == visits[0] || x == visits[1] || x in rest;
    }
  }

  lemma TwoVisits(m: map<string, Inc.Incident>, k: string, l: string)
    requires k in m && l in m && k != l && (IncidentKey(m[k]) == l || IncidentKey(m[k]) == IncidentKey(m[l]) != k)
    ensures |RekeyAll(m, [k, l])| < |m|
  {
    assert [k, l][..1] == [k] && [k][..0] == [];
    assert RekeyAll(m, [k]) == Rekey(RekeyAll(m, []), k);
    assert RekeyAll(m, [k, l]) == Rekey(Rekey(m, k), l);
    RekeySize(m, k);
    RekeySize(Rekey(m, k), l);
  }

  function Sample(tenant: string): Inc.Incident {
    Inc.Incident(tenant, "f", Inc.Open, "minor", 1, 1, 1, 1, 1, 0, "", 0, "", "")
  }

  /** It happens: two spellings of one tenant with the same fingerprint leave one incident. */
  lemma OneIsLost()
    ensures var m := map["A|f" := Sample("A"), "a|f" := Sample("a")];
            |m| == 2 && !Apart(m) && |RekeyAll(m, ["A|f", "a|f"])| == 1
  {
    var m := map["A|f" := Sample("A"), "a|f" := Sample("a")];
    assert "A|f"[0] != "a|f"[0];
    assert Lower("A") == "a" == Lower("a");
    assert TrimRight(TrimLeft("a")) == "a";
    assert IncidentKey(m["A|f"]) == "a|f" == IncidentKey(m["a|f"]);
    assert m.Keys == {"A|f", "a|f"};
    TwoVisits(m, "A|f", "a|f");
    assert "a|f" in RekeyAll(m, ["A|f", "a|f"]) by {
      assert ["A|f", "a|f"][..1] == ["A|f"] && ["A|f"][..0] == [];
      assert RekeyAll(m, ["A|f"]) == Rekey(RekeyAll(m, []), "A|f");
    }
  }

  /** Move every incident to its normal key, in some order. */
  method NormalizeIncidents(m: map<string, Inc.Incident>) returns (r: map<string, Inc.Incident>, ghost visits: seq<string>)
    ensures Visits(m, visits) && r == RekeyAll(m, visits)
    ensures IncidentsNormal(r) && (IncidentsNormal(m) ==> r == m)
  {
    r, visits := m, [];
    var remaining := m.Keys;
    while remaining != {}
      invariant r == RekeyAll(m, visits)
      invariant forall k :: k in m ==> k in remaining || k in visits
      invariant forall k :: k in remaining ==> k in r
      decreases remaining
    {
      var k :| k in remaining;
      remaining := remaining - {k};
      var i := r[k];
      i := i.(tenant := NormalTenant(i.tenant));
      var key := IncidentKey(i);
      NormalTenantTwice(r[k].tenant);
      assert key == IncidentKey(r[k]) && (visits + [k])[..|visits|] == visits;
      if key != k {
        r := r - {k};
      }
      r := r[key := i];
      visits := visits + [k];
    }
    RekeyedSoFar(m, visits);
    if IncidentsNormal(m) {
      NormalIncidentsStay(m, visits);
    }
  }

  // ---------------------------------------------------------------- notifications

  function NormalRecord(d: Notes.Notification): Notes.Notification {
    var tenant := NormalTenant(d.tenant);
    d.(tenant := tenant, id := Notes.NotificationKey(tenant, d.eventID, d.channel))
  }

  /** Records are under their keys, with normal tenants, and the order lists each once. */
  ghost predicate OutboxNormal(box: Notes.Outbox) {
    Notes.WellFormed(box) && forall k :: k in box.records ==> NormalRecord(box.records[k]) == box.records[k]
  }

  /** The record of the key, if there is one, goes under its normal key. */
  function Renumber(records: map<string, Notes.Notification>, box: Notes.Outbox, key: string): Notes.Outbox {
    if key !in records then box
    else var d := NormalRecord(records[key]); Notes.Put(box, d.id, d)
  }

  function RenumberAll(records: map<string, Notes.Notification>, visits: seq<string>): Notes.Outbox {
    if visits == [] then Notes.Outbox(map[], [])
    else Renumber(records, RenumberAll(records, visits[..|visits| - 1]), visits[|visits| - 1])
  }

  lemma {:induction false} RenumberedIsNormal(records: map<string, Notes.Notification>, visits: seq<string>)
    ensures OutboxNormal(RenumberAll(records, visits))
    ensures forall k :: k in visits && k in records ==> NormalRecord(records[k]).id in RenumberAll(records, visits).records
  {
    if visits == [] {
    } else {
      var front, last := visits[..|visits| - 1], visits[|visits| - 1];
      RenumberedIsNormal(records, front);
      assert visits == front + [last];
      if last in records {
        var d := NormalRecord(records[last]);
        NormalTenantTwice(records[last].tenant);
        Notes.PutWellFormed(RenumberAll(records, front), d.id, d);
      }
    }
  }

  /** The part of an outbox that the first n of its keys make up. */
  function Front(box: Notes.Outbox, n: nat): Notes.Outbox
    requires n <= |box.order|
  {
    Notes.Outbox(map k | k in box.records && k in box.order[..n] :: box.records[k], box.order[..n])
  }

  lemma FrontSnoc(box: Notes.Outbox, n: nat)
    requires OutboxNormal(box) && 0 < n <= |box.order|
    ensures Renumber(box.records, Front(box, n - 1), box.order[n - 1]) == Front(box, n)
  {
    var key := box.order[n - 1];
    assert key in box.order && key !in box.order[..n - 1];
    assert box.order[..n] == box.order[..n - 1] + [key];
    var d := box.records[key];
    assert NormalRecord(d) == d && d.id == key;
    assert Front(box, n).records == Front(box, n - 1).records[key := d];
  }

  lemma {:induction false} NormalFront(box: Notes.Outbox, n: nat)
    requires OutboxNormal(box) && n <= |box.order|
    ensures RenumberAll(box.records, box.order[..n]) == Front(box, n)
  {
    if n == 0 {
    } else {
      NormalFront(box, n - 1);
      assert box.order[..n][..n - 1] == box.order[..n - 1];
      FrontSnoc(box, n);
    }
  }

  lemma RenumberedAgain(box: Notes.Outbox, key: string)
    requires OutboxNormal(box)
    ensures Renumber(box.records, box, key) == box
  {
    if key in box.records {
      assert box.records[key := box.records[key]] == box.records;
    }
  }

  lemma RenumberSnoc(records: map<string, Notes.Notification>, visits: seq<string>, last: string)
    ensures RenumberAll(records, visits + [last]) == Renumber(records, RenumberAll(records, visits), last)
  {
    assert (visits + [last])[..|visits|] == visits;
  }

  lemma WholeFront(box: Notes.Outbox)
    requires OutboxNormal(box)
    ensures RenumberAll(box.records, box.order) == box
  {
    NormalFront(box, |box.order|);
    FrontIsAll(box);
    assert box.order[..|box.order|] == box.order;
  }

  lemma FrontIsAll(box: Notes.Outbox)
    requires forall k :: k in box.records ==> k in box.order
    ensures Front(box, |box.order|) == box
  {
    assert box.order[..|box.order|] == box.order;
    assert Front(box, |box.order|).records == box.records;
  }

  /** A normal outbox stays as it is, in whatever order its records are visited the second time. */
  lemma {:induction false} NormalOutboxStays(box: Notes.Outbox, listing: seq<string>)
    requires OutboxNormal(box)
    ensures RenumberAll(box.records, box.order + listing) == box
  {
    if listing == [] {
      WholeFront(box);
      assert box.order + listing == box.order;
    } else {
      var front, last := listing[..|listing| - 1], listing[|listing| - 1];
      NormalOutboxStays(box, front);
      RenumberedAgain(box, last);
      RenumberSnoc(box.records, box.order + front, last);
      assert box.order + listing == box.order + front + [last];
    }
  }

  /** Rebuild the outbox: the listed records first, in their order, and then all records in some order. */
  method NormalizeOutbox(box: Notes.Outbox) returns (r: Notes.Outbox, ghost listing: seq<string>)
    ensures Visits(box.records, listing) && r == RenumberAll(box.records, box.order + listing)
    ensures OutboxNormal(r) && (OutboxNormal(box) ==> r == box)
  {
    var records, order: seq<string> := map[], [];
    for i := 0 to |box.order|
      invariant Notes.Outbox(records, order) == RenumberAll(box.records, box.order[..i])
    {
      assert box.order[..i + 1][..i] == box.order[..i];
      var oldKey := box.order[i];
      if oldKey !in box.records {
        continue;
      }
      var d := NormalRecord(box.records[oldKey]);
      if d.id !in records {
        order := order + [d.id];
      }
      records := records[d.id := d];
    }
    listing := [];
    assert box.order[..|box.order|] == box.order + listing;
    var remaining := box.records.Keys;
    while remaining != {}
      invariant remaining <= box.records.Keys
      invariant forall k :: k in box.records ==> k in remaining || k in listing
      invariant Notes.Outbox(records, order) == RenumberAll(box.records, box.order + listing)
      decreases remaining
    {
      var k :| k in remaining;
      remaining := remaining - {k};
      assert (box.order + (listing + [k]))[..|box.order + listing|] == box.order + listing;
      var d := NormalRecord(box.records[k]);
      if d.id !in records {
        order := order + [d.id];
      }
      records := records[d.id := d];
      listing := listing + [k];
    }
    r := Notes.Outbox(records, order);
    RenumberedIsNormal(box.records, box.order + listing);
    if OutboxNormal(box) {
      NormalOutboxStays(box, listing);
    }
  }

  // ---------------------------------------------------------------- the whole state

  function NormalQueue(q: Queue.Queue): Queue.Queue {
    Queue.Queue(
      if q.nextID < 1 then 1 else q.nextID,
      seq(|q.jobs|, i requires 0 <= i < |q.jobs| => q.jobs[i].(tenant := NormalTenant(q.jobs[i].tenant))),
      if DEFAULT_TENANT in q.tenants then q.tenants else q.tenants[DEFAULT_TENANT := true],
      q.deliveries)
  }

  /** The second state is what normalizing the first may lead to. */
  ghost predicate Normalizes(s: State, t: State) {
    && t == s.(queue := t.queue, incidents := t.incidents, outbox := t.outbox) && t.queue == NormalQueue(s.queue)
    && (exists visits :: Visits(s.incidents, visits) && t.incidents == RekeyAll(s.incidents, visits))
    && (exists listing :: Visits(s.outbox.records, listing)
                          && t.outbox == RenumberAll(s.outbox.records, s.outbox.order + listing))
  }

  ghost predicate Normal(s: State) {
    NormalQueue(s.queue) == s.queue && IncidentsNormal(s.incidents) && OutboxNormal(s.outbox)
  }

  /** Normalizing makes a state normal, whatever the order of the visits. */
  lemma NormalizedIsNormal(s: State, t: State)
    requires Normalizes(s, t)
    ensures Normal(t)
  {
    var visits :| Visits(s.incidents, visits) && t.incidents == RekeyAll(s.incidents, visits);
    RekeyedSoFar(s.incidents, visits);
    var listing :| Visits(s.outbox.records, listing) && t.outbox == RenumberAll(s.outbox.records, s.outbox.order + listing);
    RenumberedIsNormal(s.outbox.records, s.outbox.order + listing);
    NormalQueueTwice(s.queue);
  }

  lemma NormalQueueTwice(q: Queue.Queue)
    ensures NormalQueue(NormalQueue(q)) == NormalQueue(q)
  {
    var once := NormalQueue(q);
    forall i | 0 <= i < |once.jobs| ensures NormalQueue(once).jobs[i] == once.jobs[i] {
      NormalTenantTwice(q.jobs[i].tenant);
    }
  }

  /** Normalizing once more changes nothing, whatever the orders of the visits. */
  lemma NormalStays(s: State, t: State)
    requires Normal(s) && Normalizes(s, t)
    ensures t == s
  {
    var visits :| Visits(s.incidents, visits) && t.incidents == RekeyAll(s.incidents, visits);
    NormalIncidentsStay(s.incidents, visits);
    var listing :| Visits(s.outbox.records, listing) && t.outbox == RenumberAll(s.outbox.records, s.outbox.order + listing);
    NormalOutboxStays(s.outbox, listing);
  }

  method Normalize(s: State) returns (t: State)
    ensures Normalizes(s, t)
  {
    var q := s.queue;
    var nextID, tenants := q.nextID, q.tenants;
    if nextID < 1 {
      nextID := 1;
    }
    if DEFAULT_TENANT !in tenants {
      tenants := tenants[DEFAULT_TENANT := true];
    }
    var jobs := q.jobs;
    for i := 0 to |jobs|
      invariant |jobs| == |q.jobs|
      invariant forall k :: 0 <= k < |jobs| ==> jobs[k] == if k < i then NormalQueue(q).jobs[k] else q.jobs[k]
    {
      jobs := jobs[i := jobs[i].(tenant := NormalTenant(jobs[i].tenant))];
    }
    assert jobs == NormalQueue(q).jobs;
    ghost var visits, listing;
    var incidents, outbox;
    incidents, visits := NormalizeIncidents(s.incidents);
    outbox, listing := NormalizeOutbox(s.outbox);
    t := s.(queue := Queue.Queue(nextID, jobs, tenants, q.deliveries), incidents := incidents, outbox := outbox);
  }

  /** Recovery from the backup that is itself stopped after any step ends with the state of the backup in normal form,
      whatever orders the two openings visit the entries in. */
  method RecoverNormalized(disk: Disk<State>, k: nat, restartPlan: Plan, blank: State, first: State -> State,
                           second: State -> State)
    returns (r: Opened<State>)
    requires disk.Valid() && DamagedWithBackup(disk.files)
    requires forall s :: Normalizes(s, first(s)) && Normalizes(s, second(s))
    modifies disk
    ensures r.Opened? ==> Normal(r.state) && Normalizes(old(disk.files)[Bak].state, r.state)
    ensures Faultless(restartPlan, 0) ==> r.Opened?
  {
    var s := disk.files[Bak].state;
    NormalizedIsNormal(s, first(s));
    NormalizedIsNormal(s, second(s));
    NormalStays(first(s), second(first(s)));
    r := disk.RecoverStopOpen(k, restartPlan, blank, first, second);
  }

  // ---------------------------------------------------------------- what stays as it is

  /** Jobs keep everything but the spelling of their tenant; the default tenant is there, and the others are as before. */
  lemma QueueKeeps(q: Queue.Queue, i: nat, tenant: string)
    requires i < |q.jobs|
    ensures |NormalQueue(q).jobs| == |q.jobs| && NormalQueue(q).deliveries == q.deliveries
    ensures NormalQueue(q).jobs[i] == q.jobs[i].(tenant := NormalQueue(q).jobs[i].tenant)
    ensures Plain(q.jobs[i].tenant) ==> NormalQueue(q).jobs[i] == q.jobs[i]
    ensures !Spaces(q.jobs[i].tenant) ==> Bare(q.jobs[i].tenant, NormalQueue(q).jobs[i].tenant)
    ensures q.nextID >= 1 ==> NormalQueue(q).nextID == q.nextID
    ensures q.nextID < 1 ==> NormalQueue(q).nextID == 1
    ensures "default" in NormalQueue(q).tenants
    ensures tenant in q.tenants ==> tenant in NormalQueue(q).tenants && NormalQueue(q).tenants[tenant] == q.tenants[tenant]
    ensures tenant in NormalQueue(q).tenants && tenant !in q.tenants ==> tenant == "default" && NormalQueue(q).tenants[tenant]
  {
    NormalTenantIs(q.jobs[i].tenant);
    if Plain(q.jobs[i].tenant) {
      PlainTenant(q.jobs[i].tenant);
    }
  }

  /** The incident has a plain tenant and is under its key. */
  predicate PlainIncident(k: string, i: Inc.Incident) {
    Plain(i.tenant) && k == i.tenant + "|" + i.fingerprint
  }

  predicate PlainRecord(k: string, d: Notes.Notification) {
    Plain(d.tenant) && k == d.id == d.tenant + "|" + d.eventID + "|" + d.channel
  }

  /** All tenants are plain, and everything is under its key. */
  ghost predicate PlainState(s: State) {
    && s.queue.nextID >= 1 && "default" in s.queue.tenants
    && (forall i :: 0 <= i < |s.queue.jobs| ==> Plain(s.queue.jobs[i].tenant))
    && (forall k :: k in s.incidents ==> PlainIncident(k, s.incidents[k]))
    && Notes.WellFormed(s.outbox) && (forall k :: k in s.outbox.records ==> PlainRecord(k, s.outbox.records[k]))
  }

  lemma PlainIsNormal(s: State)
    requires PlainState(s)
    ensures Normal(s)
  {
    forall i | 0 <= i < |s.queue.jobs| ensures NormalQueue(s.queue).jobs[i] == s.queue.jobs[i] {
      PlainTenant(s.queue.jobs[i].tenant);
    }
    assert NormalQueue(s.queue).jobs == s.queue.jobs;
    forall k | k in s.incidents ensures IncidentIsNormal(k, s.incidents[k]) {
      PlainTenant(s.incidents[k].tenant);
    }
    forall k | k in s.outbox.records ensures NormalRecord(s.outbox.records[k]) == s.outbox.records[k] {
      PlainTenant(s.outbox.records[k].tenant);
    }
  }

  /** Such a state is left alone: its tenants are never merged. */
  lemma PlainStays(s: State, t: State)
    requires PlainState(s) && Normalizes(s, t)
    ensures t == s
  {
    PlainIsNormal(s);
    NormalStays(s, t);
  }

  /** In any state, an incident with a plain tenant stays under its key, unless another one moves there. */
  lemma PlainIncidentStays(s: State, t: State, k: string)
    requires Normalizes(s, t) && k in s.incidents && PlainIncident(k, s.incidents[k])
    requires forall l :: l in s.incidents && l != k ==> IncidentKey(s.incidents[l]) != k
    ensures k in t.incidents && t.incidents[k] == s.incidents[k]
  {
    var visits :| Visits(s.incidents, visits) && t.incidents == RekeyAll(s.incidents, visits);
    PlainTenant(s.incidents[k].tenant);
    UnmovedStays(s.incidents, visits, k);
  }

  lemma {:induction false} UnmovedStays(m: map<string, Inc.Incident>, visits: seq<string>, k: string)
    requires k in m && IncidentIsNormal(k, m[k])
    requires forall l :: l in m && l != k ==> IncidentKey(m[l]) != k
    ensures k in RekeyAll(m, visits) && RekeyAll(m, visits)[k] == m[k]
  {
    if visits == [] {
    } else {
      var front, last := visits[..|visits| - 1], visits[|visits| - 1];
      var now := RekeyAll(m, front);
      UnmovedStays(m, front, k);
      if last in now && last != k {
        RekeyedStem(m, front);
        MovesElsewhere(m, front, last, now[last], k);
      }
    }
  }

  /** What is somewhere else moves somewhere else. */
  lemma MovesElsewhere(m: map<string, Inc.Incident>, visits: seq<string>, at: string, i: Inc.Incident, k: string)
    requires k in m && IncidentIsNormal(k, m[k]) && Stems(m, visits, at, i) && at != k
    requires forall l :: l in m && l != k ==> IncidentKey(m[l]) != k
    ensures IncidentKey(i) != k
  {
    var l :| l in m && NormalIncident(m[l]) == NormalIncident(i) && at == if l in visits then IncidentKey(m[l]) else l;
    NormalTenantTwice(m[l].tenant);
    NormalTenantTwice(i.tenant);
    assert IncidentKey(i) == IncidentKey(NormalIncident(i)) == IncidentKey(m[l]);
  }

  /** A record is spelled anew: its tenant, and the key under which it goes. */
  lemma RecordIs(d: Notes.Notification)
    ensures var after := NormalRecord(d);
            && (Plain(d.tenant) ==> after.tenant == d.tenant) && (!Spaces(d.tenant) ==> Bare(d.tenant, after.tenant))
            && (Spaces(d.tenant) ==> after.tenant == "default")
            && after.id == after.tenant + "|" + d.eventID + "|" + d.channel
            && after == d.(tenant := after.tenant, id := after.id)
  {
    NormalTenantIs(d.tenant);
    if Plain(d.tenant) {
      PlainTenant(d.tenant);
    }
  }

  /** Every record of the rebuilt outbox is one of before, spelled anew; of every one before there is one under its key. */
  lemma {:induction false} RecordsStem(records: map<string, Notes.Notification>, visits: seq<string>)
    ensures forall k :: k in RenumberAll(records, visits).records ==>
              exists l :: l in visits && l in records && NormalRecord(records[l]) == RenumberAll(records, visits).records[k]
                          && NormalRecord(records[l]).id == k
  {
    if visits == [] {
    } else {
      var front, last := visits[..|visits| - 1], visits[|visits| - 1];
      RecordsStem(records, front);
      assert visits == front + [last];
      var box := RenumberAll(records, front);
      forall k | k in RenumberAll(records, visits).records
        ensures exists l :: l in visits && l in records
                            && NormalRecord(records[l]) == RenumberAll(records, visits).records[k]
                            && NormalRecord(records[l]).id == k
      {
        if last in records && NormalRecord(records[last]).id == k {
          assert last in visits;
        } else {
          assert k in box.records && box.records[k] == RenumberAll(records, visits).records[k];
          var l :| l in front && l in records && NormalRecord(records[l]) == box.records[k] && NormalRecord(records[l]).id == k;
          assert l in visits;
        }
      }
    }
  }

  /** An incident moves with its tenant spelled anew to the key of that, unless it is there. */
  lemma RekeyIs(m: map<string, Inc.Incident>, k: string)
    requires k in m
    ensures var tenant := NormalTenant(m[k].tenant);
            var key := tenant + "|" + m[k].fingerprint;
            && Rekey(m, k).Keys == (m.Keys - {k}) + {key} && Rekey(m, k)[key] == m[k].(tenant := tenant)
            && (forall l :: l in m && l != k && l != key ==> Rekey(m, k)[l] == m[l])
  {
    NormalTenantTwice(m[k].tenant);
  }
}
