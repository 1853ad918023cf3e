/** Incidents: merging repeated reports of the same failure, and resolving the inactive ones. */
module Incidents {

  type Time = int

  const ZERO_TIME: Time := 0

  datatype IncidentState = Open | Acknowledged | Resolved | OtherState

  datatype Incident = Incident(
    tenant: string, fingerprint: string, state: IncidentState, severity: string, firstSeenAt: Time, lastSeenAt: Time,
    repositoryCount: int, organizationCount: int, occurrenceCount: int,
    acknowledgedAt: Time, acknowledgedBy: string,
    resolvedAt: Time, resolvedBy: string, resolutionNote: string)

  function SeverityRank(severity: string): int {
    if severity == "critical" then 4
    else if severity == "major" then 3
    else if severity == "minor" then 2
    else 1
  }

  /** What is stored when `report` arrives over the incident `known`. */
  function Merge(known: Incident, report: Incident): Incident {
    var merged := report.(
      firstSeenAt := if known.firstSeenAt < report.firstSeenAt then known.firstSeenAt else report.firstSeenAt,
      severity := if SeverityRank(known.severity) > SeverityRank(report.severity) then known.severity
                  else report.severity,
      repositoryCount := if known.repositoryCount > report.repositoryCount then known.repositoryCount
                         else report.repositoryCount,
      organizationCount := if known.organizationCount > report.organizationCount then known.organizationCount
                           else report.organizationCount,
      occurrenceCount := if known.occurrenceCount > report.occurrenceCount then known.occurrenceCount
                         else report.occurrenceCount);
    var acked :=
      if known.state == Acknowledged && report.state == Open then
        merged.(state := Acknowledged, acknowledgedAt := known.acknowledgedAt, acknowledgedBy := known.acknowledgedBy)
      else merged;
    if known.state == Resolved && report.lastSeenAt > known.resolvedAt then
      acked.(state := Open, resolvedAt := ZERO_TIME, resolvedBy := "", resolutionNote := "")
    else acked
  }

  /** What a merge takes from the report as it is, and when it keeps what was known. */
  lemma MergeFields(known: Incident, report: Incident)
    ensures var merged := Merge(known, report);
            && merged.tenant == report.tenant && merged.fingerprint == report.fingerprint
            && merged.lastSeenAt == report.lastSeenAt
            && merged.severity == (if Worse(known.severity, report.severity) then known.severity else report.severity)
            && if known.state == Resolved && report.lastSeenAt > known.resolvedAt then
                 && merged.state == Open && merged.resolvedAt == 0 && merged.resolvedBy == "" && merged.resolutionNote == ""
                 && merged.acknowledgedAt == report.acknowledgedAt && merged.acknowledgedBy == report.acknowledgedBy
               else
                 && merged.resolvedAt == report.resolvedAt && merged.resolvedBy == report.resolvedBy
                 && merged.resolutionNote == report.resolutionNote
                 && if known.state == Acknowledged && report.state == Open then
                      && merged.state == Acknowledged && merged.acknowledgedAt == known.acknowledgedAt
                      && merged.acknowledgedBy == known.acknowledgedBy
                    else
                      && merged.state == report.state && merged.acknowledgedAt == report.acknowledgedAt
                      && merged.acknowledgedBy == report.acknowledgedBy
  {}

  /** Critical is worse than major, that than minor, and minor than anything else. */
  predicate Worse(a: string, b: string) {
    || (a == "critical" && b != "critical")
    || (a == "major" && b != "critical" && b != "major")
    || (a == "minor" && b != "critical" && b != "major" && b != "minor")
  }

  /** The incident after a series of reports. */
  function MergeAll(reports: seq<Incident>): Incident
    requires reports != []
  {
    var last := reports[|reports| - 1];
    if |reports| == 1 then last else Merge(MergeAll(reports[..|reports| - 1]), last)
  }

  /** What the merge keeps the largest of: the counts, the severity, and how early it was first seen. */
  datatype Measure = Repositories | Organizations | Occurrences | Severity | Earliness {
    function Of(i: Incident): int {
      match this
      case Repositories => i.repositoryCount
      case Organizations => i.organizationCount
      case Occurrences => i.occurrenceCount
      case Severity => SeverityRank(i.severity)
      case Earliness => -i.firstSeenAt
    }
  }

  /** The value is reached by some report and no report is above it. */
  ghost predicate IsLargest(reports: seq<Incident>, m: Measure, value: int) {
    && (exists i :: 0 <= i < |reports| && m.Of(reports[i]) == value)
    && (forall i :: 0 <= i < |reports| ==> m.Of(reports[i]) <= value)
  }

  lemma MergeTakesLarger(known: Incident, report: Incident, m: Measure)
    ensures m.Of(Merge(known, report)) == if m.Of(known) > m.Of(report) then m.Of(known) else m.Of(report)
  {
  }

  /** Whatever the order of the reports, every measure of the incident is the largest one reported. */
  lemma {:induction false} MergeKeepsLargest(reports: seq<Incident>, m: Measure)
    requires reports != []
    ensures IsLargest(reports, m, m.Of(MergeAll(reports)))
  {
    var front, last := reports[..|reports| - 1], reports[|reports| - 1];
    if |reports| == 1 {
      assert m.Of(reports[0]) == m.Of(MergeAll(reports));
    } else {
      MergeKeepsLargest(front, m);
      MergeTakesLarger(MergeAll(front), last, m);
      LargestSnoc(front, last, m, m.Of(MergeAll(front)));
      assert reports == front + [last];
    }
  }

  lemma LargestSnoc(front: seq<Incident>, last: Incident, m: Measure, value: int)
    requires IsLargest(front, m, value)
    ensures IsLargest(front + [last], m, if value > m.Of(last) then value else m.Of(last))
  {
    var all := front + [last];
    var i :| 0 <= i < |front| && m.Of(front[i]) == value;
    assert all[i] == front[i] && all[|front|] == last;
  }

  /** Reports may arrive in any order: the counts, the severity rank and the first sighting come out the
      same. */
  lemma MergeOrderIrrelevant(reports: seq<Incident>, others: seq<Incident>, m: Measure)
    requires reports != [] && others != [] && multiset(reports) == multiset(others)
    ensures m.Of(MergeAll(reports)) == m.Of(MergeAll(others))
  {
    MergeKeepsLargest(reports, m);
    MergeKeepsLargest(others, m);
    var i :| 0 <= i < |reports| && m.Of(reports[i]) == m.Of(MergeAll(reports));
    var k :| 0 <= k < |others| && m.Of(others[k]) == m.Of(MergeAll(others));
    assert reports[i] in multiset(others) && others[k] in multiset(reports);
    assert reports[i] in others && others[k] in reports;
  }

  lemma MergeSnoc(known: Incident, front: seq<Incident>, last: Incident)
    ensures MergeAll([known] + (front + [last])) == Merge(MergeAll([known] + front), last)
  {
    assert ([known] + (front + [last]))[..|front| + 1] == [known] + front;
  }

  /** An acknowledgement survives every further open report. */
  lemma {:induction false} AcknowledgementKept(known: Incident, reports: seq<Incident>)
    requires known.state == Acknowledged
    requires forall i :: 0 <= i < |reports| ==> reports[i].state == Open
    ensures var last := MergeAll([known] + reports);
            last.state == Acknowledged && last.acknowledgedAt == known.acknowledgedAt
            && last.acknowledgedBy == known.acknowledgedBy
  {
    if reports == [] {
    } else {
      var front, last := reports[..|reports| - 1], reports[|reports| - 1];
      AcknowledgementKept(known, front);
      assert reports == front + [last];
      MergeSnoc(known, front, last);
    }
  }

  /** A resolved incident stays resolved exactly when the report itself says so and is no newer than the
      resolution: an open report reopens it however old the sighting is. */
  lemma StaysResolvedIff(known: Incident, report: Incident)
    requires known.state == Resolved
    ensures Merge(known, report).state == Resolved
       <==> report.state == Resolved && report.lastSeenAt <= known.resolvedAt
    ensures report.state == Open && report.lastSeenAt <= known.resolvedAt ==>
              Merge(known, report).state == Open && Merge(known, report).resolvedAt == report.resolvedAt
  {
  }

  /** The incident stays resolved through all the reports. */
  ghost predicate ResolvedThroughout(known: Incident, reports: seq<Incident>) {
    forall n :: 0 <= n <= |reports| ==> MergeAll([known] + reports[..n]).state == Resolved
  }

  /** The report repeats that the incident is resolved, and has seen nothing since. */
  predicate Confirms(report: Incident, resolvedAt: Time) {
    report.state == Resolved && report.lastSeenAt <= resolvedAt
  }

  /** The n-th report confirms the resolution as the report before it told it. */
  ghost predicate ConfirmsAt(known: Incident, reports: seq<Incident>, n: nat)
    requires n < |reports|
  {
    Confirms(reports[n], if n == 0 then known.resolvedAt else reports[n - 1].resolvedAt)
  }

  ghost predicate AllConfirm(known: Incident, reports: seq<Incident>) {
    forall n :: 0 <= n < |reports| ==> ConfirmsAt(known, reports, n)
  }

  /** When the incident counts as resolved after the reports. */
  function ResolutionTime(known: Incident, reports: seq<Incident>): Time {
    if reports == [] then known.resolvedAt else reports[|reports| - 1].resolvedAt
  }

  lemma ThroughoutSnoc(known: Incident, front: seq<Incident>, last: Incident)
    ensures ResolvedThroughout(known, front + [last])
       <==> ResolvedThroughout(known, front) && MergeAll([known] + (front + [last])).state == Resolved
    ensures ResolvedThroughout(known, front) ==> MergeAll([known] + front).state == Resolved
  {
    assert front[..|front|] == front;
    var all := front + [last];
    assert all[..|all|] == all;
    assert forall n :: 0 <= n <= |front| ==> all[..n] == front[..n];
  }

  lemma ConfirmSnoc(known: Incident, front: seq<Incident>, last: Incident)
    ensures AllConfirm(known, front + [last])
       <==> AllConfirm(known, front) && Confirms(last, ResolutionTime(known, front))
  {
    var all := front + [last];
    assert forall n :: 0 <= n < |front| ==> ConfirmsAt(known, all, n) == ConfirmsAt(known, front, n);
    assert ConfirmsAt(known, all, |front|) == Confirms(last, ResolutionTime(known, front));
  }

  /** A resolved incident stays so exactly when every report says so and is no newer than the resolution time that the
      report before it gave, which replaces the earlier one. */
  lemma {:induction false} ResolvedThroughoutIff(known: Incident, reports: seq<Incident>)
    requires known.state == Resolved
    ensures ResolvedThroughout(known, reports) <==> AllConfirm(known, reports)
    ensures ResolvedThroughout(known, reports) ==>
              MergeAll([known] + reports).resolvedAt == ResolutionTime(known, reports)
  {
    if reports == [] {
      assert [known] + reports[..0] == [known] == [known] + reports;
    } else {
      var front, last := reports[..|reports| - 1], reports[|reports| - 1];
      ResolvedThroughoutIff(known, front);
      assert reports == front + [last];
      ThroughoutSnoc(known, front, last);
      ConfirmSnoc(known, front, last);
      MergeSnoc(known, front, last);
      if ResolvedThroughout(known, front) {
        StaysResolvedIff(MergeAll([known] + front), last);
      }
    }
  }

  // ---------------------------------------------------------------- inactive incidents

  predicate Inactive(i: Incident, cutoff: Time) {
    (i.state == Open || i.state == Acknowledged) && i.lastSeenAt < cutoff
  }

  /** A sweep resolves exactly the open and acknowledged incidents last seen before the cutoff, in the name of the system. */
  lemma SweepMeans(incidents: map<string, Incident>, cutoff: Time, now: Time, k: string)
    requires k in incidents
    ensures ResolveStale(incidents, cutoff, now).Keys == incidents.Keys
    ensures var i, after := incidents[k], ResolveStale(incidents, cutoff, now)[k];
            if (i.state == Open || i.state == Acknowledged) && i.lastSeenAt < cutoff then
              after == i.(state := Resolved, resolvedAt := now, resolvedBy := "system",
                          resolutionNote := "Automatically resolved after inactivity")
            else after == i
  {}

  function AutoResolved(i: Incident, now: Time): Incident {
    i.(state := Resolved, resolvedAt := now, resolvedBy := "system",
       resolutionNote := "Automatically resolved after inactivity")
  }

  function ResolveStale(incidents: map<string, Incident>, cutoff: Time, now: Time): map<string, Incident> {
    map k | k in incidents :: if Inactive(incidents[k], cutoff) then AutoResolved(incidents[k], now) else incidents[k]
  }

  datatype Sweep = Sweep(cutoff: Time, now: Time)

  function SweepAll(incidents: map<string, Incident>, sweeps: seq<Sweep>): map<string, Incident> {
    if sweeps == [] then incidents
    else
      var last := sweeps[|sweeps| - 1];
      ResolveStale(SweepAll(incidents, sweeps[..|sweeps| - 1]), last.cutoff, last.now)
  }

  /** The n-th sweep is the first that the incident is inactive for. */
  ghost predicate FirstFor(i: Incident, sweeps: seq<Sweep>, n: nat) {
    n < |sweeps| && Inactive(i, sweeps[n].cutoff) && forall m :: 0 <= m < n ==> !Inactive(i, sweeps[m].cutoff)
  }

  ghost predicate NeverInactive(i: Incident, sweeps: seq<Sweep>) {
    forall n :: 0 <= n < |sweeps| ==> !Inactive(i, sweeps[n].cutoff)
  }

  /** What the sweeps make of an incident: resolved by the first one it is inactive for, or nothing. */
  ghost predicate IsSwept(i: Incident, sweeps: seq<Sweep>, swept: Incident) {
    if NeverInactive(i, sweeps) then swept == i
    else exists n: nat :: FirstFor(i, sweeps, n) && swept == AutoResolved(i, sweeps[n].now)
  }

  lemma SweptSnoc(i: Incident, front: seq<Sweep>, last: Sweep, swept: Incident)
    requires IsSwept(i, front, swept)
    ensures IsSwept(i, front + [last], if Inactive(swept, last.cutoff) then AutoResolved(swept, last.now) else swept)
  {
    var all := front + [last];
    assert all[|front|] == last && forall n :: 0 <= n < |front| ==> all[n] == front[n];
    if NeverInactive(i, front) {
      assert Inactive(i, last.cutoff) ==> FirstFor(i, all, |front|);
    } else {
      var n: nat :| FirstFor(i, front, n) && swept == AutoResolved(i, front[n].now);
      assert FirstFor(i, all, n);
    }
  }

  lemma SweptIsQuiet(i: Incident, sweeps: seq<Sweep>, swept: Incident)
    requires IsSwept(i, sweeps, swept)
    ensures NeverInactive(swept, sweeps)
  {
  }

  /** After any sweeps no incident is left that is inactive for one of them; each was resolved by the first one it was
      inactive for, and the others are as they were. */
  lemma {:induction false} SweepIsComplete(incidents: map<string, Incident>, sweeps: seq<Sweep>, k: string)
    requires k in incidents
    ensures k in SweepAll(incidents, sweeps) && IsSwept(incidents[k], sweeps, SweepAll(incidents, sweeps)[k])
    ensures NeverInactive(SweepAll(incidents, sweeps)[k], sweeps)
  {
    if sweeps == [] {
    } else {
      var front, last := sweeps[..|sweeps| - 1], sweeps[|sweeps| - 1];
      SweepIsComplete(incidents, front, k);
      assert sweeps == front + [last];
      SweptSnoc(incidents[k], front, last, SweepAll(incidents, front)[k]);
    }
    SweptIsQuiet(incidents[k], sweeps, SweepAll(incidents, sweeps)[k]);
  }

  /** However many open reports follow a sweep, the first one opens the incident again, it stays open, and the sweep has
      cost none of what was known of it. */
  lemma {:induction false} SweptReopens(known: Incident, reports: seq<Incident>, now: Time, m: Measure)
    requires reports != [] && forall i :: 0 <= i < |reports| ==> reports[i].state == Open
    ensures var again := MergeAll([AutoResolved(known, now)] + reports);
            again.state == Open && IsLargest([known] + reports, m, m.Of(again))
  {
    var swept := AutoResolved(known, now);
    OpenedStays(swept, reports);
    MergeKeepsLargest([swept] + reports, m);
    var value := m.Of(MergeAll([swept] + reports));
    var i :| 0 <= i <= |reports| && m.Of(([swept] + reports)[i]) == value;
    assert m.Of(swept) == m.Of(known);
    assert forall n :: 1 <= n <= |reports| ==> ([swept] + reports)[n] == ([known] + reports)[n];
    assert m.Of(([known] + reports)[i]) == value;
  }

  lemma {:induction false} OpenedStays(known: Incident, reports: seq<Incident>)
    requires reports != [] && known.state == Resolved && forall i :: 0 <= i < |reports| ==> reports[i].state == Open
    ensures MergeAll([known] + reports).state == Open
  {
    var front, last := reports[..|reports| - 1], reports[|reports| - 1];
    assert reports == front + [last];
    MergeSnoc(known, front, last);
    if front == [] {
    } else {
      OpenedStays(known, front);
    }
  }
}
