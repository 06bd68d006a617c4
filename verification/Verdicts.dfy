/** Endpoint risk, fleet state, tactic counts and the review decision (src/detection_engine.py:738-800, 931-950). */
module Verdicts {
  import opened Prelude
  import opened Rules
  import opened Grouping
  import opened Correlation

  datatype Endpoint = Endpoint(host: string, score: nat, severity: Severity, alerts: nat, incidents: nat)

  function Max(a: nat, b: nat): nat { if a >= b then a else b }

  /** incident_bonus.get(host, 0), where a later incident of a host replaces an earlier one. */
  function Bonus(incidents: seq<Incident>, host: string): nat {
    if incidents == [] then 0
    else
      var last := incidents[|incidents| - 1];
      if last.host == host then last.score else Bonus(incidents[..|incidents| - 1], host)
  }

  function IncidentHost(): Incident -> Option<string> { (incident: Incident) => Some(incident.host) }

  function HostRow(alerts: seq<Alert>, incidents: seq<Incident>, host: string): Endpoint {
    var mine := Members(alerts, AlertHost(), host);
    var score := Max(Min(100, TotalScore(mine)), Bonus(incidents, host));
    Endpoint(host, score, SeverityOf(score), |mine|, |Members(incidents, IncidentHost(), host)|)
  }

  function RowFor(alerts: seq<Alert>, incidents: seq<Incident>): string -> Endpoint {
    (host: string) => HostRow(alerts, incidents, host)
  }

  function TextOrder(): (string, string) -> bool { (a: string, b: string) => TextLe(a, b) }

  /** Highest risk first, then by host. */
  function RiskOrder(): (Endpoint, Endpoint) -> bool {
    (a: Endpoint, b: Endpoint) => a.score > b.score || (a.score == b.score && TextLe(a.host, b.host))
  }

  function Hosts(events: seq<Event>): seq<string> { SortBy(Keys(events, HostOf()), TextOrder()) }

  function EndpointRisk(events: seq<Event>, alerts: seq<Alert>, incidents: seq<Incident>): seq<Endpoint> {
    SortBy(Map(Hosts(events), RowFor(alerts, incidents)), RiskOrder())
  }

  method BuildEndpointRisk(events: seq<Event>, alerts: seq<Alert>, incidents: seq<Incident>)
    returns (rows: seq<Endpoint>)
    ensures rows == EndpointRisk(events, alerts, incidents)
  {
    var hosts := Hosts(events);
    var bonus: map<string, nat> := map[];
    for i := 0 to |incidents|
      invariant forall host :: Bonus(incidents[..i], host) == if host in bonus then bonus[host] else 0
    {
      assert incidents[..i + 1][..i] == incidents[..i];
      bonus := bonus[incidents[i].host := incidents[i].score];
    }
    assert incidents[..|incidents|] == incidents;
    rows := [];
    for i := 0 to |hosts|
      invariant rows == Map(hosts[..i], RowFor(alerts, incidents))
    {
      var host := hosts[i];
      var mine := Members(alerts, AlertHost(), host);
      var base := Min(100, TotalScore(mine));
      var score := Max(base, if host in bonus then bonus[host] else 0);
      MapStep(hosts, i, RowFor(alerts, incidents));
      rows := rows + [Endpoint(host, score, SeverityOf(score), |mine|, |Members(incidents, IncidentHost(), host)|)];
    }
    assert hosts[..|hosts|] == hosts;
    rows := SortBy(rows, RiskOrder());
  }

  // ---------------------------------------------------------------- fleet state and decision

  datatype State = Red | Yellow | Green

  function Highest(rows: seq<Endpoint>): nat {
    if rows == [] then 0 else Max(Highest(rows[..|rows| - 1]), rows[|rows| - 1].score)
  }

  function StateOf(rows: seq<Endpoint>): State {
    if Highest(rows) >= 80 then Red else if Highest(rows) >= 50 then Yellow else Green
  }

  predicate AnyCritical(rows: seq<Endpoint>) { exists i :: 0 <= i < |rows| && rows[i].severity == Critical }

  function Decide(rows: seq<Endpoint>, incidents: seq<Incident>, deadLetters: nat): Decision {
    if AnyCritical(rows) || incidents != [] then NeedsSecurityReview
    else if deadLetters > 0 then NeedsSchemaReview
    else NoHighRiskSignal
  }

  lemma {:induction false} HighestBound(rows: seq<Endpoint>, floor: nat)
    requires floor > 0
    ensures Highest(rows) >= floor <==> exists i :: 0 <= i < |rows| && rows[i].score >= floor
  {
    if rows != [] {
      var n := |rows| - 1;
      HighestBound(rows[..n], floor);
      assert forall i :: 0 <= i < n ==> rows[..n][i] == rows[i];
    }
  }

  // ---------------------------------------------------------------- the rows

  lemma TextOrderTotal()
    ensures TotalPreorder(TextOrder())
    ensures forall a, b :: TextOrder()(a, b) && TextOrder()(b, a) ==> a == b
  {
    forall a: string, b: string
      ensures TextLe(a, b) || TextLe(b, a)
      ensures TextLe(a, b) && TextLe(b, a) ==> a == b
    {
      TextLeTotal(a, b);
      if TextLe(a, b) && TextLe(b, a) {
        TextLeAntisymmetric(a, b);
      }
    }
    forall a: string, b: string, c: string | TextLe(a, b) && TextLe(b, c)
      ensures TextLe(a, c)
    {
      TextLeTransitive(a, b, c);
    }
  }

  lemma RiskOrderTotal()
    ensures TotalPreorder(RiskOrder())
  {
    TextOrderTotal();
    assert forall a, b :: TextOrder()(a, b) == TextLe(a, b);
  }

  function HostOfRow(): Endpoint -> string { (row: Endpoint) => row.host }

  /** Exactly one row per host of the events, in order of risk, and each row is its host's row. */
  lemma RowsExact(events: seq<Event>, alerts: seq<Alert>, incidents: seq<Incident>)
    ensures var rows := EndpointRisk(events, alerts, incidents);
      && Sorted(rows, RiskOrder())
      && Distinct(Map(rows, HostOfRow()))
      && multiset(Map(rows, HostOfRow())) == multiset(Keys(events, HostOf()))
      && multiset(rows) == multiset(Map(Keys(events, HostOf()), RowFor(alerts, incidents)))
  {
    var keys, hosts, rowFor := Keys(events, HostOf()), Hosts(events), RowFor(alerts, incidents);
    var unsorted := Map(hosts, rowFor);
    var rows := EndpointRisk(events, alerts, incidents);
    TextOrderTotal();
    RiskOrderTotal();
    SortByCorrect(keys, TextOrder());
    SortByCorrect(unsorted, RiskOrder());
    KeysDistinct(events, HostOf());
    MapPermuted(hosts, keys, rowFor);
    MapPermuted(rows, unsorted, HostOfRow());
    assert Map(unsorted, HostOfRow()) == hosts;
    DistinctPermuted(keys, Map(rows, HostOfRow()));
  }

  lemma RowIff(events: seq<Event>, alerts: seq<Alert>, incidents: seq<Incident>, row: Endpoint)
    ensures row in EndpointRisk(events, alerts, incidents)
      <==> (row.host in Keys(events, HostOf()) && row == HostRow(alerts, incidents, row.host))
  {
    var rows, keys := EndpointRisk(events, alerts, incidents), Keys(events, HostOf());
    RowsExact(events, alerts, incidents);
    InPermuted(rows, Map(keys, RowFor(alerts, incidents)), row);
    MapIff(keys, RowFor(alerts, incidents), row);
  }

  // ---------------------------------------------------------------- scores

  lemma {:induction false} OneScore(alerts: seq<Alert>, a: Alert)
    requires a in alerts
    ensures TotalScore(alerts) >= a.score
  {
    var n := |alerts| - 1;
    if a != alerts[n] {
      assert a in alerts[..n];
      OneScore(alerts[..n], a);
    }
  }

  lemma {:induction false} TwoScores(alerts: seq<Alert>, a: Alert, b: Alert)
    requires a in alerts && b in alerts && a != b
    ensures TotalScore(alerts) >= a.score + b.score
  {
    var n := |alerts| - 1;
    if a == alerts[n] {
      assert b in alerts[..n];
      OneScore(alerts[..n], b);
    } else if b == alerts[n] {
      assert a in alerts[..n];
      OneScore(alerts[..n], a);
    } else {
      assert a in alerts[..n] && b in alerts[..n];
      TwoScores(alerts[..n], a, b);
    }
  }

  /** Every alert carries its rule's score. */
  predicate Scored(alerts: seq<Alert>) { forall i :: 0 <= i < |alerts| ==> alerts[i].score == Score(alerts[i].rule) }

  /** A host with a beacon and a large transfer scores at least 71, and its incident at least 69. */
  lemma CorrelatedScores(alerts: seq<Alert>, host: string)
    requires Scored(alerts) && HasRule(alerts, host, R004) && HasRule(alerts, host, R005)
    ensures TotalScore(Members(alerts, AlertHost(), host)) >= 71
    ensures 69 <= IncidentScore(Members(alerts, AlertHost(), host)) <= 100
  {
    var mine := Members(alerts, AlertHost(), host);
    var i :| 0 <= i < |alerts| && alerts[i].host == host && alerts[i].rule == R004;
    var j :| 0 <= j < |alerts| && alerts[j].host == host && alerts[j].rule == R005;
    MembersIff(alerts, AlertHost(), host, alerts[i]);
    MembersIff(alerts, AlertHost(), host, alerts[j]);
    TwoScores(mine, alerts[i], alerts[j]);
    var keep := (alert: Alert) => Correlated(alert.rule);
    FilterHas(mine, keep, alerts[i]);
    FilterHas(mine, keep, alerts[j]);
    assert CorrelatedAlerts(mine) == Filter(mine, keep);
    TwoScores(CorrelatedAlerts(mine), alerts[i], alerts[j]);
  }

  lemma {:induction false} BonusIs(incidents: seq<Incident>, host: string)
    ensures Bonus(incidents, host) > 0 ==>
      exists k :: 0 <= k < |incidents| && incidents[k].host == host && incidents[k].score == Bonus(incidents, host)
  {
    if incidents != [] && incidents[|incidents| - 1].host != host {
      BonusIs(incidents[..|incidents| - 1], host);
      if Bonus(incidents, host) > 0 {
        var k :| 0 <= k < |incidents| - 1 && incidents[..|incidents| - 1][k].host == host
          && incidents[..|incidents| - 1][k].score == Bonus(incidents, host);
        assert incidents[k].host == host;
      }
    }
  }

  // ---------------------------------------------------------------- conservation

  function SizeOf<T, K(==)>(xs: seq<T>, key: T -> Option<K>): K -> nat { (k: K) => |Members(xs, key, k)| }

  lemma {:induction false} GroupSizesSum<T, K>(xs: seq<T>, key: T -> Option<K>, keys: seq<K>)
    requires Distinct(keys)
    requires forall x <- xs :: key(x).Some? && key(x).value in keys
    ensures Sum(keys, SizeOf(xs, key)) == |xs|
  {
    var one := (x: T) => 1 as nat;
    GroupSums(xs, key, keys, one);
    SumOnes(xs, one);
    forall k | k in keys
      ensures SizeOf(xs, key)(k) == GroupSum(xs, key, one)(k)
    {
      SumOnes(Members(xs, key, k), one);
    }
    SumSame(keys, keys, SizeOf(xs, key), GroupSum(xs, key, one));
  }

  function AlertsOfRow(): Endpoint -> nat { (row: Endpoint) => row.alerts }

  function IncidentsOfRow(): Endpoint -> nat { (row: Endpoint) => row.incidents }

  lemma {:induction false} SumMap<S, T>(xs: seq<S>, g: S -> T, f: T -> nat, h: S -> nat)
    requires forall x <- xs :: f(g(x)) == h(x)
    ensures Sum(Map(xs, g), f) == Sum(xs, h)
  {
    if xs != [] {
      var n := |xs| - 1;
      assert Map(xs, g)[..n] == Map(xs[..n], g);
      SumMap(xs[..n], g, f, h);
    }
  }

  /** The endpoint rows count every alert and every incident once. */
  lemma RowsCountEverything(events: seq<Event>, alerts: seq<Alert>, incidents: seq<Incident>)
    requires forall alert <- alerts :: alert.host in Keys(events, HostOf())
    requires forall incident <- incidents :: incident.host in Keys(events, HostOf())
    ensures Sum(EndpointRisk(events, alerts, incidents), AlertsOfRow()) == |alerts|
    ensures Sum(EndpointRisk(events, alerts, incidents), IncidentsOfRow()) == |incidents|
  {
    var keys, rowFor := Keys(events, HostOf()), RowFor(alerts, incidents);
    var rows := EndpointRisk(events, alerts, incidents);
    RowsExact(events, alerts, incidents);
    KeysDistinct(events, HostOf());
    SumPermuted(rows, Map(keys, rowFor), AlertsOfRow());
    SumPermuted(rows, Map(keys, rowFor), IncidentsOfRow());
    SumMap(keys, rowFor, AlertsOfRow(), SizeOf(alerts, AlertHost()));
    SumMap(keys, rowFor, IncidentsOfRow(), SizeOf(incidents, IncidentHost()));
    GroupSizesSum(alerts, AlertHost(), keys);
    GroupSizesSum(incidents, IncidentHost(), keys);
  }
}
