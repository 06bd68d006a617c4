/** Incident and endpoint scores, fleet state, decision, tactic counts and chains, in numbers and fields
    (src/detection_engine.py:576-800). */
module Scores {
  import opened Prelude
  import opened Json
  import opened EventSchema
  import opened Rules
  import opened Grouping
  import opened Beacons
  import opened Correlation
  import opened Verdicts
  import opened TacticCounts
  import opened Detection

  // ---------------------------------------------------------------- incident scores

  /** How many alerts of the rule the host has. */
  function Number(alerts: seq<Alert>, host: string, rule: Rule): nat {
    if alerts == [] then 0
    else Number(alerts[1..], host, rule) + (if alerts[0].host == host && alerts[0].rule == rule then 1 else 0)
  }

  /** Points of the host's alerts of the seven rules that enter into an incident. */
  function ChainPoints(alerts: seq<Alert>, host: string): nat {
    34 * Number(alerts, host, R001) + 28 * Number(alerts, host, R002) + 30 * Number(alerts, host, R003)
    + 36 * Number(alerts, host, R004) + 35 * Number(alerts, host, R005) + 22 * Number(alerts, host, R006)
    + 32 * Number(alerts, host, R008)
  }

  /** Points of the other six. */
  function OtherPoints(alerts: seq<Alert>, host: string): nat {
    26 * Number(alerts, host, R007) + 38 * Number(alerts, host, R009) + 34 * Number(alerts, host, R010)
    + 42 * Number(alerts, host, R011) + 20 * Number(alerts, host, R012) + 33 * Number(alerts, host, R013)
  }

  lemma SumCons<T>(x: T, xs: seq<T>, f: T -> nat)
    ensures Sum([x] + xs, f) == f(x) + Sum(xs, f)
  {
    SumAppend([x], xs, f);
    assert [x][..0] == [];
  }

  /** What one more alert in front adds. */
  lemma OnePoint(x: Alert, rest: seq<Alert>, host: string)
    requires x.score == Score(x.rule)
    ensures ChainPoints([x] + rest, host)
         == ChainPoints(rest, host) + (if x.host == host && Correlated(x.rule) then x.score else 0)
    ensures OtherPoints([x] + rest, host)
         == OtherPoints(rest, host) + (if x.host == host && !Correlated(x.rule) then x.score else 0)
  {
    assert ([x] + rest)[1..] == rest;
  }

  /** The host's alerts, and those of them that enter into an incident, with one more alert in front. */
  lemma MineCons(x: Alert, rest: seq<Alert>, host: string)
    ensures var (more, mine) := (Members([x] + rest, AlertHost(), host), Members(rest, AlertHost(), host));
      && TotalScore(more) == TotalScore(mine) + (if x.host == host then x.score else 0)
      && TotalScore(CorrelatedAlerts(more)) == TotalScore(CorrelatedAlerts(mine))
           + (if x.host == host && Correlated(x.rule) then x.score else 0)
  {
    var mine := Members(rest, AlertHost(), host);
    assert ([x] + rest)[1..] == rest;
    if x.host == host {
      ConsTail(x, mine);
      SumCons(x, mine, ScoreOf());
      SumCons(x, CorrelatedAlerts(mine), ScoreOf());
    }
  }

  lemma {:induction false} ScoresByRule(alerts: seq<Alert>, host: string)
    requires Scored(alerts)
    ensures var mine := Members(alerts, AlertHost(), host);
      && TotalScore(mine) == ChainPoints(alerts, host) + OtherPoints(alerts, host)
      && TotalScore(CorrelatedAlerts(mine)) == ChainPoints(alerts, host)
  {
    if alerts != [] {
      assert alerts == [alerts[0]] + alerts[1..];
      ScoresByRule(alerts[1..], host);
      OnePoint(alerts[0], alerts[1..], host);
      MineCons(alerts[0], alerts[1..], host);
    }
  }

  lemma DetectScored(lib: Library, db: Signatures, events: seq<Event>)
    ensures Scored(Detect(lib, db, events))
  {
    var alerts := Detect(lib, db, events);
    forall i | 0 <= i < |alerts|
      ensures alerts[i].score == Score(alerts[i].rule)
    {
      AlertsGrounded(lib, db, events, i);
    }
  }

  lemma ScoreFits(alerts: seq<Alert>, host: string, score: nat)
    requires Scored(alerts) && HasRule(alerts, host, R004) && HasRule(alerts, host, R005)
      && score == IncidentScore(Members(alerts, AlertHost(), host))
    ensures var points := 52 + ChainPoints(alerts, host) / 4;
      && score == (if points <= 100 then points else 100) && score >= 69
  {
    ScoresByRule(alerts, host);
    CorrelatedScores(alerts, host);
  }

  /** An incident's score: 52 and a quarter of its host's chain points, at most 100; and what severity that is. */
  lemma IncidentScoreIs(lib: Library, db: Signatures, events: seq<Event>, k: nat)
    requires Sorted(events, TimeLe()) && k < |Incidents(lib, events, Detect(lib, db, events))|
    ensures var (alerts, incident) := (Detect(lib, db, events), Incidents(lib, events, Detect(lib, db, events))[k]);
      var points := 52 + ChainPoints(alerts, incident.host) / 4;
      && incident.score == (if points <= 100 then points else 100)
      && incident.severity == (if points >= 80 then Critical else Warning)
  {
    var alerts := Detect(lib, db, events);
    var incident := Incidents(lib, events, alerts)[k];
    DetectScored(lib, db, events);
    IncidentRules(lib, events, alerts, k);
    ScoreFits(alerts, incident.host, incident.score);
  }

  lemma IncidentRules(lib: Library, events: seq<Event>, alerts: seq<Alert>, k: nat)
    requires Sorted(events, TimeLe()) && k < |Incidents(lib, events, alerts)|
    ensures var incident := Incidents(lib, events, alerts)[k];
      && HasRule(alerts, incident.host, R004) && HasRule(alerts, incident.host, R005)
      && incident.score == IncidentScore(Members(alerts, AlertHost(), incident.host))
      && incident.severity == SeverityOf(incident.score)
  {
    var incident := Incidents(lib, events, alerts)[k];
    IncidentsExact(lib, events, alerts, incident.host);
    assert FitsHost(lib, events, alerts, incident.host, incident);
    assert HasIncident(Incidents(lib, events, alerts), incident.host);
  }

  // ---------------------------------------------------------------- endpoint rows

  /** The score of the host's incident, if it has one. */
  ghost predicate BonusOf(incidents: seq<Incident>, host: string, bonus: nat) {
    if HasIncident(incidents, host)
    then exists k :: 0 <= k < |incidents| && incidents[k].host == host && incidents[k].score == bonus
    else bonus == 0
  }

  lemma {:induction false} BonusExact(incidents: seq<Incident>, host: string)
    ensures BonusOf(incidents, host, Bonus(incidents, host))
  {
    if incidents != [] {
      var n := |incidents| - 1;
      BonusExact(incidents[..n], host);
      assert forall k :: 0 <= k < n ==> incidents[..n][k] == incidents[k];
      if incidents[n].host != host && HasIncident(incidents[..n], host) {
        var k :| 0 <= k < n && incidents[..n][k].host == host && incidents[..n][k].score == Bonus(incidents, host);
        assert incidents[k].host == host && incidents[k].score == Bonus(incidents, host);
      }
    }
  }

  lemma RowFits(events: seq<Event>, alerts: seq<Alert>, incidents: seq<Incident>, row: Endpoint)
    requires Scored(alerts) && row in EndpointRisk(events, alerts, incidents)
    ensures var points := ChainPoints(alerts, row.host) + OtherPoints(alerts, row.host);
      var (base, bonus) := (if points <= 100 then points else 100, Bonus(incidents, row.host));
      row.score == (if base >= bonus then base else bonus) && row.severity == SeverityOf(row.score)
  {
    RowIff(events, alerts, incidents, row);
    ScoresByRule(alerts, row.host);
  }

  /**
   * A row's score is the larger of its host's points, at most 100, and the score of its incident; severities begin at
   * 80, 60 and 30.
   */
  lemma RowScoreIs(lib: Library, db: Signatures, events: seq<Event>, row: Endpoint) returns (bonus: nat)
    requires var alerts := Detect(lib, db, events);
      row in EndpointRisk(events, alerts, Incidents(lib, events, alerts))
    ensures var alerts := Detect(lib, db, events);
      var points := ChainPoints(alerts, row.host) + OtherPoints(alerts, row.host);
      var base := if points <= 100 then points else 100;
      && BonusOf(Incidents(lib, events, alerts), row.host, bonus)
      && row.score == (if base >= bonus then base else bonus)
    ensures row.severity == if row.score >= 80 then Critical else if row.score >= 60 then Warning
                            else if row.score >= 30 then Suspicious else Info
  {
    var alerts := Detect(lib, db, events);
    var incidents := Incidents(lib, events, alerts);
    DetectScored(lib, db, events);
    RowFits(events, alerts, incidents, row);
    BonusExact(incidents, row.host);
    bonus := Bonus(incidents, row.host);
  }

  /** How many alerts and incidents the row says its host has. */
  lemma RowCounts(events: seq<Event>, alerts: seq<Alert>, incidents: seq<Incident>, row: Endpoint)
    requires row in EndpointRisk(events, alerts, incidents)
    ensures row.alerts == |Filter(alerts, (alert: Alert) => alert.host == row.host)|
    ensures row.incidents == |Filter(incidents, (incident: Incident) => incident.host == row.host)|
  {
    RowIff(events, alerts, incidents, row);
    FilterSame(alerts, HasKey(AlertHost(), row.host), (alert: Alert) => alert.host == row.host);
    FilterSame(incidents, HasKey(IncidentHost(), row.host), (incident: Incident) => incident.host == row.host);
  }

  lemma {:induction false} FilterSame<T>(xs: seq<T>, p: T -> bool, q: T -> bool)
    requires forall x <- xs :: p(x) == q(x)
    ensures Filter(xs, p) == Filter(xs, q)
  {
    if xs != [] {
      FilterSame(xs[1..], p, q);
    }
  }

  /** Rows by falling score, hosts with equal scores in text order. */
  lemma RowOrder(events: seq<Event>, alerts: seq<Alert>, incidents: seq<Incident>, i: nat, j: nat)
    requires i < j < |EndpointRisk(events, alerts, incidents)|
    ensures var (a, b) := (EndpointRisk(events, alerts, incidents)[i], EndpointRisk(events, alerts, incidents)[j]);
      a.score > b.score || (a.score == b.score && TextBefore(a.host, b.host))
  {
    RowsExact(events, alerts, incidents);
    var rows := EndpointRisk(events, alerts, incidents);
    assert RiskOrder()(rows[i], rows[j]);
    assert Map(rows, HostOfRow())[i] != Map(rows, HostOfRow())[j];
    if TextLe(rows[i].host, rows[j].host) {
      TextLeBefore(rows[i].host, rows[j].host);
    }
  }

  /** The shorter of two texts that agree so far comes first, otherwise the one with the smaller next character. */
  ghost predicate TextBefore(a: string, b: string) { exists k: nat :: PartsAt(a, b, k) }

  predicate PartsAt(a: string, b: string, k: nat) {
    k <= |a| && k < |b| && a[..k] == b[..k] && (k == |a| || a[k] < b[k])
  }

  lemma {:induction false} TextLeBefore(a: string, b: string)
    ensures TextLe(a, b) <==> a == b || TextBefore(a, b)
    decreases |a|
  {
    if a == "" {
      assert b != "" ==> PartsAt(a, b, 0);
    } else if b != "" {
      if a[0] < b[0] {
        assert PartsAt(a, b, 0);
      } else if a[0] == b[0] {
        TextLeBefore(a[1..], b[1..]);
        PartsTail(a, b);
        assert a == [a[0]] + a[1..] && b == [b[0]] + b[1..];
      }
    }
  }

  lemma PartsTail(a: string, b: string)
    requires a != "" && b != "" && a[0] == b[0]
    ensures TextBefore(a, b) <==> TextBefore(a[1..], b[1..])
  {
    if TextBefore(a, b) {
      var k: nat :| PartsAt(a, b, k);
      assert a[..k][1..] == a[1..][..k - 1] && b[..k][1..] == b[1..][..k - 1];
      assert PartsAt(a[1..], b[1..], k - 1);
    }
    if TextBefore(a[1..], b[1..]) {
      var k: nat :| PartsAt(a[1..], b[1..], k);
      assert a[..k + 1] == [a[0]] + a[1..][..k] && b[..k + 1] == [b[0]] + b[1..][..k];
      assert PartsAt(a, b, k + 1);
    }
  }

  // ---------------------------------------------------------------- state and decision

  ghost predicate SomeRow(rows: seq<Endpoint>, floor: nat) { exists k :: 0 <= k < |rows| && rows[k].score >= floor }

  /** Red from 80 on, yellow from 50 on, green below. */
  lemma StateBounds(rows: seq<Endpoint>)
    ensures StateOf(rows) == Red <==> SomeRow(rows, 80)
    ensures StateOf(rows) == Yellow <==> SomeRow(rows, 50) && !SomeRow(rows, 80)
    ensures StateOf(rows) == Green <==> !SomeRow(rows, 50)
  {
    HighestBound(rows, 80);
    HighestBound(rows, 50);
  }

  /** The decision: a security review for any incident or row from 80 on, otherwise a schema review for dead letters. */
  lemma DecisionIs(rows: seq<Endpoint>, incidents: seq<Incident>, letters: nat)
    requires forall row <- rows :: row.severity == SeverityOf(row.score)
    ensures Decide(rows, incidents, letters)
      == if incidents != [] || SomeRow(rows, 80) then NeedsSecurityReview
         else if letters > 0 then NeedsSchemaReview else NoHighRiskSignal
  {
    assert forall k :: 0 <= k < |rows| ==> rows[k] in rows;
    assert AnyCritical(rows) <==> SomeRow(rows, 80);
  }

  // ---------------------------------------------------------------- tactic counts

  /** The place of a tactic in the published order. */
  function Place(tactic: Tactic): nat {
    match tactic
    case Reconnaissance => 1 case ResourceDevelopment => 2 case InitialAccess => 3 case Execution => 4
    case Persistence => 5 case PrivilegeEscalation => 6 case DefenseEvasion => 7 case CredentialAccess => 8
    case Discovery => 9 case LateralMovement => 10 case Collection => 11 case CommandAndControl => 12
    case Exfiltration => 13 case Impact => 14
  }

  /** Mentions of a tactic by alerts. */
  function Mentioned(alerts: seq<Alert>, tactic: Tactic): nat {
    if alerts == [] then 0
    else
      var n := |alerts| - 1;
      Mentioned(alerts[..n], tactic) + multiset(alerts[n].tactics)[tactic]
  }

  lemma {:induction false} AlertMentions(alerts: seq<Alert>, tactic: Tactic)
    ensures multiset(FlatMap(alerts, TacticsOfAlert()))[tactic] == Mentioned(alerts, tactic)
  {
    if alerts != [] {
      AlertMentions(alerts[..|alerts| - 1], tactic);
    }
  }

  lemma {:induction false} IncidentMentions(incidents: seq<Incident>, tactic: Tactic)
    ensures multiset(FlatMap(incidents, TacticsOfIncident()))[tactic]
      == if tactic in [InitialAccess, Execution, CommandAndControl, Exfiltration] then |incidents| else 0
  {
    if incidents != [] {
      IncidentMentions(incidents[..|incidents| - 1], tactic);
      FourTactics(tactic);
    }
  }

  lemma FourTactics(tactic: Tactic)
    ensures multiset(INCIDENT_TACTICS)[tactic]
      == if tactic in [InitialAccess, Execution, CommandAndControl, Exfiltration] then 1 else 0
  {
  }

  /** A tactic's row counts its mentions by alerts, and each incident once for its four tactics. */
  lemma TacticRowIs(alerts: seq<Alert>, incidents: seq<Incident>, row: TacticCount)
    ensures row in Distribution(alerts, incidents) <==>
      && row.count > 0
      && row.count == Mentioned(alerts, row.tactic)
           + (if row.tactic in [InitialAccess, Execution, CommandAndControl, Exfiltration] then |incidents| else 0)
  {
    DistributionExact(alerts, incidents);
    AlertMentions(alerts, row.tactic);
    IncidentMentions(incidents, row.tactic);
  }

  lemma {:induction false} CountedInOrder(order: seq<Tactic>, mentions: seq<Tactic>, i: nat, j: nat)
    requires forall a, b :: 0 <= a < b < |order| ==> Place(order[a]) < Place(order[b])
    requires i < j < |Counted(order, mentions)|
    ensures Place(Counted(order, mentions)[i].tactic) < Place(Counted(order, mentions)[j].tactic)
  {
    var n := |order| - 1;
    var front := Counted(order[..n], mentions);
    if j < |front| {
      CountedInOrder(order[..n], mentions, i, j);
    } else {
      CountedIff(order[..n], mentions, front[i]);
      assert front[i] in front;
      var a :| 0 <= a < n && order[..n][a] == front[i].tactic;
    }
  }

  /** Rows come in the published order of the tactics. */
  lemma TacticOrder(alerts: seq<Alert>, incidents: seq<Incident>, i: nat, j: nat)
    requires i < j < |Distribution(alerts, incidents)|
    ensures Place(Distribution(alerts, incidents)[i].tactic) < Place(Distribution(alerts, incidents)[j].tactic)
  {
    forall a | 0 <= a < |TACTIC_ORDER|
      ensures Place(TACTIC_ORDER[a]) == a + 1
    {
    }
    CountedInOrder(TACTIC_ORDER, Mentions(alerts, incidents), i, j);
  }

  // ---------------------------------------------------------------- chains

  /** The same hash, not blank, or paths that agree in lower case, not blank. */
  ghost predicate SameFileFields(lib: Library, download: Fields, start: Fields) {
    || (exists v: Value :: Truthy(v) && Get(download, "hash_sha256") == Some(v) && Get(start, "hash_sha256") == Some(v))
    || (var path := Lower(lib, PickText(lib, download, ["file_path"]));
        path != "" && Lower(lib, PickText(lib, start, ["process_path"])) == path)
  }

  /** A chain: a process start on the host of the same file, zero to 900 seconds after its download. */
  lemma ChainIff(lib: Library, events: seq<Event>, host: string, i: nat, j: nat)
    ensures Chain(lib, events, host, i, j) <==>
      && i < |events| && j < |events| && events[i].host == host && events[j].host == host
      && events[i].kind == "file_download" && events[j].kind == "process_start"
      && 0 <= events[j].time - events[i].time <= 900 * 1_000_000
      && SameFileFields(lib, events[i].fields, events[j].fields)
  {
    if i < |events| && j < |events| {
      SameFileIff(lib, events[i], events[j]);
    }
  }

  lemma SameFileIff(lib: Library, download: Event, start: Event)
    ensures SameFile(lib, download, start) <==> SameFileFields(lib, download.fields, start.fields)
  {
    var hash := Look(download.fields, "hash_sha256");
    assert Truthy(hash) ==> Get(download.fields, "hash_sha256") == Some(hash);
  }

  // ---------------------------------------------------------------- beacons

  /** Gap number i in whole seconds. */
  lemma GapIs(times: seq<int>, i: nat)
    requires i + 1 < |times|
    ensures |Gaps(times)| == |times| - 1 && Gaps(times)[i] == (times[i + 1] - times[i]) / 1_000_000
  {
  }

  /** Places of the gaps within five seconds of the interval. */
  function CloseGaps(gaps: seq<int>, interval: int): set<int> {
    set i | 0 <= i < |gaps| && interval - 5 <= gaps[i] <= interval + 5
  }

  /**
   * A series of times is a beacon with an interval exactly when the interval is the first of the most frequent gaps,
   * occurs at least twice, has at least three gaps within five seconds and is at most 120 seconds.
   */
  lemma BeaconIff(times: seq<int>, interval: int)
    ensures (Verdict(times).Some? && Verdict(times).value.interval == interval) <==>
      (var gaps := Gaps(times);
       && IsMode(gaps, interval) && multiset(gaps)[interval] >= 2 && |CloseGaps(gaps, interval)| >= 3
       && interval <= 120)
    ensures Verdict(times).Some? ==>
      var beacon := Verdict(times).value;
      beacon.regular == |CloseGaps(Gaps(times), beacon.interval)| && beacon.events == |times|
  {
    VerdictIff(times, interval);
    CloseIsNear(Gaps(times), interval);
    if Verdict(times).Some? {
      CloseIsNear(Gaps(times), Verdict(times).value.interval);
    }
  }

  lemma CloseIsNear(gaps: seq<int>, interval: int)
    ensures CloseGaps(gaps, interval) == set i | 0 <= i < |gaps| && Near(gaps[i], interval)
  {
  }

  /** A group: connections of one host, process and destination. */
  lemma GroupIff(lib: Library, event: Event, k: GroupKey)
    ensures KeyOf(lib)(event) == Some(k) <==>
      && event.kind == "network_connection" && event.host == k.host
      && k.process == (if FirstTruthy(event.fields, ["process_name"]).None? then "unknown"
                       else PickText(lib, event.fields, ["process_name"]))
      && k.destination != ""
      && k.destination == (if EventDomain(lib, event.fields) != "" then EventDomain(lib, event.fields)
                           else PickText(lib, event.fields, ["dst_ip"]))
  {
  }

  lemma GroupSizeIs(lib: Library, events: seq<Event>, k: GroupKey)
    ensures PeriodicGroup(lib, events, k) <==>
      |Members(events, KeyOf(lib), k)| >= 4 && SeriesVerdict(Map(Members(events, KeyOf(lib), k), TimeOf())).Some?
  {
  }
}
