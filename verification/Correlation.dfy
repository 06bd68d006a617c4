/** Correlation of a download, its execution, a beacon and a large transfer into one incident per host
    (src/detection_engine.py:623-735). */
module Correlation {
  import opened Prelude
  import opened EventSchema
  import opened Rules
  import opened Grouping
  import Beacons

  const MAX_DELAY := 900 * Beacons.MICROSECONDS_PER_SECOND

  const INCIDENT_TACTICS: seq<Tactic> := [InitialAccess, Execution, CommandAndControl, Exfiltration]

  datatype Incident = Incident(
    id: string, host: string, score: nat, severity: Severity, download: string, execution: string,
    beaconEvents: seq<string>, outboundEvents: seq<string>)

  /** The same non-empty hash, or the same non-empty path regardless of case. */
  predicate SameFile(lib: Library, download: Event, start: Event) {
    var hash := Look(download.fields, "hash_sha256");
    var path := Lower(lib, PickText(lib, download.fields, ["file_path"]));
    || (Truthy(hash) && Look(start.fields, "hash_sha256") == hash)
    || (path != "" && Lower(lib, PickText(lib, start.fields, ["process_path"])) == path)
  }

  /** A process started from the downloaded file at most fifteen minutes later. */
  predicate Follows(lib: Library, download: Event, start: Event) {
    start.kind == "process_start" && 0 <= start.time - download.time <= MAX_DELAY && SameFile(lib, download, start)
  }

  function FollowsFrom(lib: Library, download: Event): Event -> bool { (event: Event) => Follows(lib, download, event) }

  method FindRelatedExecution(lib: Library, download: Event, events: seq<Event>) returns (execution: Option<Event>)
    ensures execution == First(events, FollowsFrom(lib, download))
  {
    for i := 0 to |events|
      invariant First(events, FollowsFrom(lib, download)) == First(events[i..], FollowsFrom(lib, download))
    {
      var event := events[i];
      assert events[i..][0] == event && events[i..][1..] == events[i + 1..];
      if event.kind != "process_start" {
        continue;
      }
      var delta := event.time - download.time;
      if delta < 0 || delta > MAX_DELAY {
        continue;
      }
      if SameFile(lib, download, event) {
        return Some(event);
      }
    }
    return None;
  }

  function OfRule(rule: Rule): Alert -> bool { (alert: Alert) => alert.rule == rule }

  predicate Correlated(rule: Rule) { rule in { R001, R002, R003, R004, R005, R006, R008 } }

  function ScoreOf(): Alert -> nat { (alert: Alert) => alert.score }

  function TotalScore(alerts: seq<Alert>): nat { Sum(alerts, ScoreOf()) }

  function CorrelatedAlerts(alerts: seq<Alert>): seq<Alert> { Filter(alerts, (alert: Alert) => Correlated(alert.rule)) }

  function Min(a: nat, b: nat): nat { if a <= b then a else b }

  function IncidentScore(hostAlerts: seq<Alert>): nat { Min(100, 52 + TotalScore(CorrelatedAlerts(hostAlerts)) / 4) }

  function HostOf(): Event -> Option<string> { (event: Event) => Some(event.host) }

  function AlertHost(): Alert -> Option<string> { (alert: Alert) => Some(alert.host) }

  function IsDownload(): Event -> bool { (event: Event) => event.kind == "file_download" }

  /** A later process start among these events runs this download. */
  function Executed(lib: Library, events: seq<Event>): Event -> bool {
    (event: Event) => First(events, FollowsFrom(lib, event)).Some?
  }

  function NewIncident(host: string, hostAlerts: seq<Alert>, download: Event, execution: Event, beacon: Alert,
                       outbound: Alert)
    : Incident
  {
    var score := IncidentScore(hostAlerts);
    Incident("", host, score, SeverityOf(score), download.id, execution.id, beacon.eventIds, outbound.eventIds)
  }

  /** The incident of one host, if any: events and alerts are the host's own. */
  function HostIncident(lib: Library, host: string, hostEvents: seq<Event>,
                        hostAlerts: seq<Alert>): (found: seq<Incident>)
    ensures |found| <= 1
  {
    var beacon, outbound := First(hostAlerts, OfRule(R004)), First(hostAlerts, OfRule(R005));
    var download := First(Filter(hostEvents, IsDownload()), Executed(lib, hostEvents));
    if beacon.None? || outbound.None? || download.None? then []
    else
      var execution := First(hostEvents, FollowsFrom(lib, download.value));
      if execution.None? then []
      else [NewIncident(host, hostAlerts, download.value, execution.value, beacon.value, outbound.value)]
  }

  function IncidentsFor(lib: Library, events: seq<Event>, alerts: seq<Alert>): string -> seq<Incident> {
    (host: string) =>
      HostIncident(lib, host, SortBy(Members(events, HostOf(), host), Beacons.TimeLe()),
                   Members(alerts, AlertHost(), host))
  }

  function NumberedIncidents(incidents: seq<Incident>): seq<Incident> {
    seq(|incidents|, i requires 0 <= i < |incidents| => incidents[i].(id := "incident-" + ThreeDigits(i + 1)))
  }

  function Incidents(lib: Library, events: seq<Event>, alerts: seq<Alert>): seq<Incident> {
    NumberedIncidents(FlatMap(Keys(events, HostOf()), IncidentsFor(lib, events, alerts)))
  }

  lemma NumberedSnoc(incidents: seq<Incident>, incident: Incident)
    ensures NumberedIncidents(incidents + [incident])
      == NumberedIncidents(incidents) + [incident.(id := "incident-" + ThreeDigits(|incidents| + 1))]
  {
  }

  /** The loop over one host's downloads, left at the first complete chain. */
  method CorrelateHost(lib: Library, host: string, hostEvents: seq<Event>, hostAlerts: seq<Alert>)
    returns (found: seq<Incident>)
    ensures found == HostIncident(lib, host, hostEvents, hostAlerts)
  {
    var downloads := Filter(hostEvents, IsDownload());
    ghost var executed := Executed(lib, hostEvents);
    found := [];
    for i := 0 to |downloads|
      invariant found == []
      invariant First(hostAlerts, OfRule(R004)).Some? && First(hostAlerts, OfRule(R005)).Some? ==>
        First(downloads, executed) == First(downloads[i..], executed)
    {
      var download := downloads[i];
      assert downloads[i..][0] == download && downloads[i..][1..] == downloads[i + 1..];
      var execution := FindRelatedExecution(lib, download, hostEvents);
      var beacon, outbound := First(hostAlerts, OfRule(R004)), First(hostAlerts, OfRule(R005));
      if execution.None? || beacon.None? || outbound.None? {
        continue;
      }
      assert executed(download);
      found := [NewIncident(host, hostAlerts, download, execution.value, beacon.value, outbound.value)];
      return;
    }
    if First(hostAlerts, OfRule(R004)).Some? && First(hostAlerts, OfRule(R005)).Some? {
      assert First(downloads[|downloads|..], executed).None?;
    }
  }

  method Append(incidents: seq<Incident>, found: seq<Incident>, ghost before: seq<Incident>)
    returns (more: seq<Incident>)
    requires |found| <= 1 && incidents == NumberedIncidents(before)
    ensures more == NumberedIncidents(before + found)
  {
    if found == [] {
      assert before + found == before;
      return incidents;
    }
    NumberedSnoc(before, found[0]);
    assert found == [found[0]];
    more := incidents + [found[0].(id := "incident-" + ThreeDigits(|incidents| + 1))];
  }

  /** One host of the grouped events, with the alerts grouped for it or none. */
  method CorrelateGroup(lib: Library, events: seq<Event>, alerts: seq<Alert>, host: string, hostEvents: seq<Event>,
                        alertsByHost: map<string, seq<Alert>>, ghost alertOrder: seq<string>)
    returns (found: seq<Incident>)
    requires hostEvents == Members(events, HostOf(), host) && Grouped(alerts, AlertHost(), alertOrder, alertsByHost)
    ensures found == IncidentsFor(lib, events, alerts)(host) && |found| <= 1
  {
    var hostAlerts := if host in alertsByHost then alertsByHost[host] else [];
    if host !in alertsByHost {
      NoMembers(alerts, AlertHost(), host);
    }
    found := CorrelateHost(lib, host, SortBy(hostEvents, Beacons.TimeLe()), hostAlerts);
  }

  method BuildIncidents(lib: Library, events: seq<Event>, alerts: seq<Alert>) returns (incidents: seq<Incident>)
    ensures incidents == Incidents(lib, events, alerts)
  {
    var order, eventsByHost := GroupBy(events, HostOf());
    var alertOrder, alertsByHost := GroupBy(alerts, AlertHost());
    incidents := [];
    ghost var f := IncidentsFor(lib, events, alerts);
    for i := 0 to |order|
      invariant incidents == NumberedIncidents(FlatMap(order[..i], f))
    {
      FlatMapStep(order, i, f);
      assert order[i] in order;
      var found := CorrelateGroup(lib, events, alerts, order[i], eventsByHost[order[i]], alertsByHost, alertOrder);
      incidents := Append(incidents, found, FlatMap(order[..i], f));
    }
    TakeAll(order);
  }

  // ---------------------------------------------------------------- which hosts have an incident

  ghost predicate HasRule(alerts: seq<Alert>, host: string, rule: Rule) {
    exists k :: 0 <= k < |alerts| && alerts[k].host == host && alerts[k].rule == rule
  }

  /** Event i is a download and event j its execution, both on the host. */
  ghost predicate Chain(lib: Library, events: seq<Event>, host: string, i: nat, j: nat) {
    && i < |events| && j < |events|
    && events[i].host == host && events[j].host == host
    && events[i].kind == "file_download" && Follows(lib, events[i], events[j])
  }

  ghost predicate SomeChain(lib: Library, events: seq<Event>, host: string) {
    exists i: nat, j: nat :: Chain(lib, events, host, i, j)
  }

  function HostFollows(lib: Library, host: string, download: Event): Event -> bool {
    (event: Event) => event.host == host && Follows(lib, download, event)
  }

  function ChainStart(lib: Library, events: seq<Event>, host: string): Event -> bool {
    (event: Event) =>
      event.host == host && event.kind == "file_download" && First(events, HostFollows(lib, host, event)).Some?
  }

  lemma FirstOnHost(lib: Library, events: seq<Event>, host: string, download: Event)
    ensures First(Members(events, HostOf(), host), FollowsFrom(lib, download))
      == First(events, HostFollows(lib, host, download))
  {
    FirstFiltered(events, HasKey(HostOf(), host), FollowsFrom(lib, download), HostFollows(lib, host, download));
  }

  function HostDownload(host: string): Event -> bool {
    (event: Event) => event.host == host && event.kind == "file_download"
  }

  lemma {:induction false} FilterTwice<T>(xs: seq<T>, p: T -> bool, q: T -> bool, both: T -> bool)
    requires forall x <- xs :: both(x) == (p(x) && q(x))
    ensures Filter(Filter(xs, p), q) == Filter(xs, both)
  {
    if xs != [] {
      assert xs[0] in xs;
      FilterTwice(xs[1..], p, q, both);
      ConsTail(xs[0], Filter(xs[1..], p));
    }
  }

  lemma FirstDownload(lib: Library, events: seq<Event>, host: string)
    ensures var hostEvents := Members(events, HostOf(), host);
      First(Filter(hostEvents, IsDownload()), Executed(lib, hostEvents)) == First(events, ChainStart(lib, events, host))
  {
    var hostEvents := Members(events, HostOf(), host);
    FilterTwice(events, HasKey(HostOf(), host), IsDownload(), HostDownload(host));
    forall event | event in events
      ensures ChainStart(lib, events, host)(event) == (HostDownload(host)(event) && Executed(lib, hostEvents)(event))
    {
      FirstOnHost(lib, events, host, event);
    }
    FirstFiltered(events, HostDownload(host), Executed(lib, hostEvents), ChainStart(lib, events, host));
  }

  lemma FirstOfRule(alerts: seq<Alert>, host: string, rule: Rule)
    ensures First(Members(alerts, AlertHost(), host), OfRule(rule)).Some? <==> HasRule(alerts, host, rule)
    ensures First(Members(alerts, AlertHost(), host), OfRule(rule)).Some? ==>
      var alert := First(Members(alerts, AlertHost(), host), OfRule(rule)).value;
      alert in alerts && alert.host == host && alert.rule == rule
  {
    var mine := Members(alerts, AlertHost(), host);
    var at := FirstAt(mine, OfRule(rule));
    if at < |mine| {
      MembersIff(alerts, AlertHost(), host, mine[at]);
    }
    if HasRule(alerts, host, rule) {
      var k :| 0 <= k < |alerts| && alerts[k].host == host && alerts[k].rule == rule;
      MembersIff(alerts, AlertHost(), host, alerts[k]);
      var m :| 0 <= m < |mine| && mine[m] == alerts[k];
    }
  }

  /** The chain an incident names: the earliest download that was run, and its earliest execution. */
  ghost predicate Earliest(lib: Library, events: seq<Event>, host: string, i: nat, j: nat) {
    && Chain(lib, events, host, i, j)
    && (forall i': nat, j': nat :: Chain(lib, events, host, i', j') ==> i <= i')
    && (forall j': nat :: Chain(lib, events, host, i, j') ==> j <= j')
  }

  lemma ChainOrNone(lib: Library, events: seq<Event>, host: string) returns (i: nat, j: nat)
    ensures i < |events| <==> First(events, ChainStart(lib, events, host)).Some?
    ensures i < |events| ==> First(events, ChainStart(lib, events, host)) == Some(events[i])
    ensures i < |events| ==>
      Earliest(lib, events, host, i, j) && First(events, HostFollows(lib, host, events[i])) == Some(events[j])
    ensures i >= |events| ==> !SomeChain(lib, events, host)
  {
    i := FirstAt(events, ChainStart(lib, events, host));
    j := 0;
    forall i': nat, j': nat | Chain(lib, events, host, i', j')
      ensures i <= i' && i < |events|
    {
      var k := FirstAt(events, HostFollows(lib, host, events[i']));
      assert ChainStart(lib, events, host)(events[i']);
    }
    if i < |events| {
      j := FirstAt(events, HostFollows(lib, host, events[i]));
    }
  }

  /** What an incident of the host says about the events and alerts. */
  ghost predicate FitsHost(lib: Library, events: seq<Event>, alerts: seq<Alert>, host: string, incident: Incident) {
    && incident.host == host
    && incident.score == IncidentScore(Members(alerts, AlertHost(), host))
    && incident.severity == SeverityOf(incident.score)
    && (exists i: nat, j: nat ::
          Earliest(lib, events, host, i, j) && incident.download == events[i].id && incident.execution == events[j].id)
    && NamesAlert(alerts, host, R004, incident.beaconEvents)
    && NamesAlert(alerts, host, R005, incident.outboundEvents)
  }

  ghost predicate NamesAlert(alerts: seq<Alert>, host: string, rule: Rule, eventIds: seq<string>) {
    exists alert <- alerts :: alert.host == host && alert.rule == rule && alert.eventIds == eventIds
  }

  function HostOfIncident(): Incident -> string { (incident: Incident) => incident.host }

  /** Everything promised about the piece of one host. */
  ghost predicate Describes(lib: Library, events: seq<Event>, alerts: seq<Alert>, host: string, found: seq<Incident>) {
    && |found| <= 1
    && (found != [] <==> (HasRule(alerts, host, R004) && HasRule(alerts, host, R005) && SomeChain(lib, events, host)))
    && (found != [] ==> FitsHost(lib, events, alerts, host, found[0]))
  }

  /** The host's piece from the answers of its four searches. */
  function Piece(host: string, mine: seq<Alert>, beacon: Option<Alert>, outbound: Option<Alert>,
                 download: Option<Event>, execution: Option<Event>): seq<Incident>
  {
    if beacon.None? || outbound.None? || download.None? || execution.None? then []
    else [NewIncident(host, mine, download.value, execution.value, beacon.value, outbound.value)]
  }

  function ExecutionOf(lib: Library, events: seq<Event>, host: string, download: Option<Event>): Option<Event> {
    if download.None? then None else First(events, HostFollows(lib, host, download.value))
  }

  /** On events in time order, the host's searches are searches of the whole list. */
  lemma PieceOnAll(lib: Library, events: seq<Event>, alerts: seq<Alert>, host: string)
    requires Sorted(events, Beacons.TimeLe())
    ensures var mine := Members(alerts, AlertHost(), host);
      var download := First(events, ChainStart(lib, events, host));
      IncidentsFor(lib, events, alerts)(host)
        == Piece(host, mine, First(mine, OfRule(R004)), First(mine, OfRule(R005)), download,
                 ExecutionOf(lib, events, host, download))
  {
    var hostEvents := Members(events, HostOf(), host);
    FilterSorted(events, HasKey(HostOf(), host), Beacons.TimeLe());
    SortByIdentity(hostEvents, Beacons.TimeLe());
    FirstDownload(lib, events, host);
    var download := First(events, ChainStart(lib, events, host));
    if download.Some? {
      FirstOnHost(lib, events, host, download.value);
    }
  }

  lemma PieceDescribes(lib: Library, events: seq<Event>, alerts: seq<Alert>, host: string, mine: seq<Alert>,
                       beacon: Option<Alert>, outbound: Option<Alert>, download: Option<Event>,
                           execution: Option<Event>)
    requires mine == Members(alerts, AlertHost(), host)
    requires beacon == First(mine, OfRule(R004)) && outbound == First(mine, OfRule(R005))
    requires download == First(events, ChainStart(lib, events, host))
      && execution == ExecutionOf(lib, events, host, download)
    ensures Describes(lib, events, alerts, host, Piece(host, mine, beacon, outbound, download, execution))
  {
    FirstOfRule(alerts, host, R004);
    FirstOfRule(alerts, host, R005);
    var i, j := ChainOrNone(lib, events, host);
    if i < |events| {
      assert Chain(lib, events, host, i, j);
    }
  }

  lemma HostIncidentExact(lib: Library, events: seq<Event>, alerts: seq<Alert>, host: string)
    requires Sorted(events, Beacons.TimeLe())
    ensures Describes(lib, events, alerts, host, IncidentsFor(lib, events, alerts)(host))
  {
    PieceOnAll(lib, events, alerts, host);
    var mine := Members(alerts, AlertHost(), host);
    var download := First(events, ChainStart(lib, events, host));
    PieceDescribes(lib, events, alerts, host, mine, First(mine, OfRule(R004)), First(mine, OfRule(R005)), download,
                   ExecutionOf(lib, events, host, download));
  }

  lemma {:induction false} PiecesOnePerHost(hosts: seq<string>, f: string -> seq<Incident>)
    requires Distinct(hosts)
    requires forall host <- hosts :: |f(host)| <= 1 && (f(host) != [] ==> f(host)[0].host == host)
    ensures Distinct(Map(FlatMap(hosts, f), HostOfIncident()))
  {
    if hosts != [] {
      var n := |hosts| - 1;
      var front, last := FlatMap(hosts[..n], f), f(hosts[n]);
      PiecesOnePerHost(hosts[..n], f);
      forall i | 0 <= i < |front|
        ensures front[i].host != hosts[n]
      {
        assert front[i] in front;
        FlatMapIff(hosts[..n], f, front[i]);
        var k :| 0 <= k < n && front[i] in f(hosts[..n][k]);
      }
    }
  }

  ghost predicate HasIncident(incidents: seq<Incident>, host: string) {
    exists k :: 0 <= k < |incidents| && incidents[k].host == host
  }

  /** Pieces of at most one incident each, put together for distinct hosts. */
  lemma PiecesTogether(hosts: seq<string>, f: string -> seq<Incident>, fits: (string, Incident) -> bool, host: string)
    requires Distinct(hosts)
    requires forall h :: |f(h)| <= 1 && (f(h) != [] ==> f(h)[0].host == h && fits(h, f(h)[0]) && h in hosts)
    ensures HasIncident(FlatMap(hosts, f), host) <==> f(host) != []
    ensures Distinct(Map(FlatMap(hosts, f), HostOfIncident()))
    ensures forall k :: 0 <= k < |FlatMap(hosts, f)| ==> fits(FlatMap(hosts, f)[k].host, FlatMap(hosts, f)[k])
  {
    var pieces := FlatMap(hosts, f);
    PiecesOnePerHost(hosts, f);
    forall k | 0 <= k < |pieces|
      ensures f(pieces[k].host) == [pieces[k]]
    {
      FlatMapIff(hosts, f, pieces[k]);
      var h :| 0 <= h < |hosts| && pieces[k] in f(hosts[h]);
    }
    if f(host) != [] {
      FlatMapIff(hosts, f, f(host)[0]);
      var h :| 0 <= h < |hosts| && hosts[h] == host;
      assert f(host)[0] in f(hosts[h]);
      var k :| 0 <= k < |pieces| && pieces[k] == f(host)[0];
    }
  }

  lemma ChainHostSeen(lib: Library, events: seq<Event>, host: string)
    requires SomeChain(lib, events, host)
    ensures host in Keys(events, HostOf())
  {
    var i: nat, j: nat :| Chain(lib, events, host, i, j);
    KeysIff(events, HostOf(), host);
    assert HostOf()(events[i]) == Some(host);
  }

  lemma NumberingFits(lib: Library, events: seq<Event>, alerts: seq<Alert>, incidents: seq<Incident>)
    requires forall k :: 0 <= k < |incidents| ==> FitsHost(lib, events, alerts, incidents[k].host, incidents[k])
    ensures var numbered := NumberedIncidents(incidents);
      forall k :: 0 <= k < |numbered| ==> FitsHost(lib, events, alerts, numbered[k].host, numbered[k])
  {
    var numbered := NumberedIncidents(incidents);
    forall k | 0 <= k < |numbered|
      ensures FitsHost(lib, events, alerts, numbered[k].host, numbered[k])
    {
      NumberFits(lib, events, alerts, incidents[k], numbered[k]);
    }
  }

  lemma NumberFits(lib: Library, events: seq<Event>, alerts: seq<Alert>, incident: Incident, numbered: Incident)
    requires FitsHost(lib, events, alerts, incident.host, incident) && numbered == incident.(id := numbered.id)
    ensures FitsHost(lib, events, alerts, numbered.host, numbered)
  {
    var i, j := FittingChain(lib, events, alerts, incident.host, incident);
  }

  lemma NumberingKeeps(incidents: seq<Incident>, host: string)
    ensures HasIncident(NumberedIncidents(incidents), host) <==> HasIncident(incidents, host)
    ensures Map(NumberedIncidents(incidents), HostOfIncident()) == Map(incidents, HostOfIncident())
  {
    assert forall k :: 0 <= k < |incidents| ==> NumberedIncidents(incidents)[k].host == incidents[k].host;
    if HasIncident(incidents, host) {
      var k :| 0 <= k < |incidents| && incidents[k].host == host;
      assert NumberedIncidents(incidents)[k].host == host;
    }
  }

  /** Every host's piece is as described, and only hosts of the events have one. */
  ghost predicate AllDescribed(lib: Library, events: seq<Event>, alerts: seq<Alert>, hosts: seq<string>,
                               f: string -> seq<Incident>) {
    forall h :: Describes(lib, events, alerts, h, f(h)) && (f(h) != [] ==> h in hosts)
  }

  lemma PiecesDescribed(lib: Library, events: seq<Event>, alerts: seq<Alert>)
    requires Sorted(events, Beacons.TimeLe())
    ensures AllDescribed(lib, events, alerts, Keys(events, HostOf()), IncidentsFor(lib, events, alerts))
  {
    var f := IncidentsFor(lib, events, alerts);
    forall h
      ensures Describes(lib, events, alerts, h, f(h)) && (f(h) != [] ==> h in Keys(events, HostOf()))
    {
      HostIncidentExact(lib, events, alerts, h);
      if f(h) != [] {
        ChainHostSeen(lib, events, h);
      }
    }
  }

  lemma DescribedTogether(lib: Library, events: seq<Event>, alerts: seq<Alert>, hosts: seq<string>,
                          f: string -> seq<Incident>, host: string)
    requires Distinct(hosts) && AllDescribed(lib, events, alerts, hosts, f)
    ensures HasIncident(FlatMap(hosts, f), host)
      <==> (HasRule(alerts, host, R004) && HasRule(alerts, host, R005) && SomeChain(lib, events, host))
    ensures Distinct(Map(FlatMap(hosts, f), HostOfIncident()))
    ensures forall k :: 0 <= k < |FlatMap(hosts, f)| ==>
      FitsHost(lib, events, alerts, FlatMap(hosts, f)[k].host, FlatMap(hosts, f)[k])
  {
    var fits := (h: string, incident: Incident) => FitsHost(lib, events, alerts, h, incident);
    assert Describes(lib, events, alerts, host, f(host));
    forall h
      ensures |f(h)| <= 1 && (f(h) != [] ==> f(h)[0].host == h && fits(h, f(h)[0]) && h in hosts)
    {
      assert Describes(lib, events, alerts, h, f(h));
    }
    PiecesTogether(hosts, f, fits, host);
  }

  /**
   * A host has an incident exactly when it has an R004 and an R005 alert and some download was run within fifteen
   * minutes; it has at most one, and that one names the earliest such download and its earliest execution.
   */
  lemma IncidentsExact(lib: Library, events: seq<Event>, alerts: seq<Alert>, host: string)
    requires Sorted(events, Beacons.TimeLe())
    ensures HasIncident(Incidents(lib, events, alerts), host)
      <==> (HasRule(alerts, host, R004) && HasRule(alerts, host, R005) && SomeChain(lib, events, host))
    ensures Distinct(Map(Incidents(lib, events, alerts), HostOfIncident()))
    ensures forall k :: 0 <= k < |Incidents(lib, events, alerts)| ==>
      FitsHost(lib, events, alerts, Incidents(lib, events, alerts)[k].host, Incidents(lib, events, alerts)[k])
  {
    var hosts, f := Keys(events, HostOf()), IncidentsFor(lib, events, alerts);
    KeysDistinct(events, HostOf());
    PiecesDescribed(lib, events, alerts);
    DescribedTogether(lib, events, alerts, hosts, f, host);
    NumberingFits(lib, events, alerts, FlatMap(hosts, f));
    NumberingKeeps(FlatMap(hosts, f), host);
  }

  lemma EarliestUnique(lib: Library, events: seq<Event>, host: string, i: nat, j: nat, i': nat, j': nat)
    requires Earliest(lib, events, host, i, j) && Earliest(lib, events, host, i', j')
    ensures i == i' && j == j'
  {
    assert Chain(lib, events, host, i, j) && Chain(lib, events, host, i', j');
  }

  /** The earliest chain that an incident names. */
  lemma IncidentChain(lib: Library, events: seq<Event>, alerts: seq<Alert>, k: nat) returns (i: nat, j: nat)
    requires Sorted(events, Beacons.TimeLe()) && k < |Incidents(lib, events, alerts)|
    ensures var incident := Incidents(lib, events, alerts)[k];
      && Earliest(lib, events, incident.host, i, j)
      && incident.download == events[i].id && incident.execution == events[j].id
  {
    var incident := Incidents(lib, events, alerts)[k];
    IncidentsExact(lib, events, alerts, incident.host);
    i, j := FittingChain(lib, events, alerts, incident.host, incident);
  }

  lemma FittingChain(lib: Library, events: seq<Event>, alerts: seq<Alert>, host: string, incident: Incident)
    returns (i: nat, j: nat)
    requires FitsHost(lib, events, alerts, host, incident)
    ensures Earliest(lib, events, host, i, j) && incident.download == events[i].id && incident.execution == events[j].id
  {
    i, j :|
      Earliest(lib, events, host, i, j) && incident.download == events[i].id && incident.execution == events[j].id;
  }
}
