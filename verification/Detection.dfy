/** The detection pipeline as a whole (src/detection_engine.py:113-173, 265-303). */
module Detection {
  import opened Prelude
  import opened Json
  import opened EventSchema
  import opened Rules
  import opened Grouping
  import opened Beacons
  import opened Correlation
  import opened Verdicts
  import opened TacticCounts

  /** Canonical order: time, then id. */
  function EventOrder(): (Event, Event) -> bool {
    (a: Event, b: Event) => a.time < b.time || (a.time == b.time && TextLe(a.id, b.id))
  }

  function Viewer(lib: Library): Fields -> Event { (event: Fields) => View(lib, event) }

  function Canonical(lib: Library, valid: seq<Fields>): seq<Event> { SortBy(Map(valid, Viewer(lib)), EventOrder()) }

  function Detect(lib: Library, db: Signatures, events: seq<Event>): seq<Alert> {
    Numbered(EventAlerts(lib, db, events) + BeaconAlerts(lib, events))
  }

  method DetectAlerts(lib: Library, db: Signatures, events: seq<Event>) returns (alerts: seq<Alert>)
    ensures alerts == Detect(lib, db, events)
  {
    alerts := [];
    ghost var f := AlertsFor(lib, db);
    for i := 0 to |events|
      invariant alerts == FlatMap(events[..i], f)
    {
      FlatMapStep(events, i, f);
      alerts := AddEventAlerts(FiresOn(lib, db, events[i]), alerts, events[i]);
    }
    assert events[..|events|] == events;
    var beacons := DetectBeaconing(lib, events);
    alerts := NumberAlerts(alerts + beacons);
  }

  method NumberAlerts(alerts: seq<Alert>) returns (numbered: seq<Alert>)
    ensures numbered == Numbered(alerts)
  {
    numbered := alerts;
    for i := 0 to |alerts|
      invariant |numbered| == |alerts|
      invariant forall k :: 0 <= k < i ==> numbered[k] == Numbered(alerts)[k]
      invariant forall k :: i <= k < |alerts| ==> numbered[k] == alerts[k]
    {
      numbered := numbered[i := numbered[i].(id := "alert-" + ThreeDigits(i + 1),
                                             severity := SeverityOf(numbered[i].score))];
    }
  }

  // ---------------------------------------------------------------- the analysis

  datatype Findings = Findings(
    events: seq<Event>, alerts: seq<Alert>, incidents: seq<Incident>, endpoints: seq<Endpoint>, state: State,
    tactics: seq<TacticCount>, decision: Decision)

  datatype Analysis =
    | NoValidEvents(letters: seq<DlqEvent>)
    | Analyzed(findings: Findings, dlq: seq<DlqEvent>, privacy: seq<PrivacyAction>)

  function FindingsOn(lib: Library, db: Signatures, events: seq<Event>, deadLetters: nat): Findings {
    var alerts := Detect(lib, db, events);
    var incidents := Incidents(lib, events, alerts);
    var endpoints := EndpointRisk(events, alerts, incidents);
    Findings(events, alerts, incidents, endpoints, StateOf(endpoints), Distribution(alerts, incidents),
             Decide(endpoints, incidents, deadLetters))
  }

  ghost function Analyze(lib: Library, db: Signatures, raw: seq<Fields>): Analysis {
    var clean := Clean(lib, raw);
    var valid, dlq := ValidEvents(lib, clean), DlqEvents(lib, clean);
    if valid == [] then NoValidEvents(if |dlq| <= 10 then dlq else dlq[..10])
    else Analyzed(FindingsOn(lib, db, Canonical(lib, valid), |dlq|), dlq, PrivacyActions(lib, raw))
  }

  lemma AnalyzedFindings(lib: Library, db: Signatures, raw: seq<Fields>, events: seq<Event>) returns (letters: nat)
    requires events == Canonical(lib, ValidEvents(lib, Clean(lib, raw)))
    ensures Analyze(lib, db, raw).Analyzed? ==>
      Analyze(lib, db, raw).findings == FindingsOn(lib, db, events, letters)
  {
    letters := |DlqEvents(lib, Clean(lib, raw))|;
  }

  method AnalyzeEvents(lib: Library, db: Signatures, raw: seq<Fields>) returns (analysis: Analysis)
    ensures analysis == Analyze(lib, db, raw)
  {
    var valid, dlq, privacy := ValidateAndSanitize(lib, raw);
    if valid == [] {
      return NoValidEvents(if |dlq| <= 10 then dlq else dlq[..10]);
    }
    var events := Canonical(lib, valid);
    var alerts := DetectAlerts(lib, db, events);
    var incidents := BuildIncidents(lib, events, alerts);
    var endpoints := BuildEndpointRisk(events, alerts, incidents);
    var tactics := BuildMitreDistribution(alerts, incidents);
    var findings := Findings(events, alerts, incidents, endpoints, StateOf(endpoints), tactics,
                             Decide(endpoints, incidents, |dlq|));
    return Analyzed(findings, dlq, privacy);
  }

  // ---------------------------------------------------------------- order independence

  lemma EventOrderTotal()
    ensures TotalPreorder(EventOrder())
  {
    TextOrderTotal();
    assert forall a, b :: TextOrder()(a, b) == TextLe(a, b);
  }

  function TextId(lib: Library): Fields -> string { (event: Fields) => Text(lib, IdOf(event)) }

  lemma UniqueIds(events: seq<Event>)
    requires Distinct(Map(events, IdOfEvent()))
    ensures forall x, y :: x in events && y in events && EventOrder()(x, y) && EventOrder()(y, x) ==> x == y
  {
    var ids := Map(events, IdOfEvent());
    forall x, y | x in events && y in events && EventOrder()(x, y) && EventOrder()(y, x)
      ensures x == y
    {
      TextLeAntisymmetric(x.id, y.id);
      var i :| 0 <= i < |events| && events[i] == x;
      var j :| 0 <= j < |events| && events[j] == y;
      assert ids[i] == ids[j];
      if i < j || j < i {
        assert false;
      }
    }
  }

  /** Two arrangements of the same events with different ids have one canonical order. */
  lemma CanonicalUnique(xs: seq<Event>, ys: seq<Event>)
    requires multiset(xs) == multiset(ys) && Distinct(Map(xs, IdOfEvent()))
    ensures SortBy(xs, EventOrder()) == SortBy(ys, EventOrder())
  {
    EventOrderTotal();
    var a, b := SortBy(xs, EventOrder()), SortBy(ys, EventOrder());
    SortByCorrect(xs, EventOrder());
    SortByCorrect(ys, EventOrder());
    MapPermuted(xs, a, IdOfEvent());
    DistinctPermuted(Map(xs, IdOfEvent()), Map(a, IdOfEvent()));
    UniqueIds(a);
    SortedUnique(a, b, EventOrder());
  }

  lemma ViewIds(lib: Library, events: seq<Fields>)
    ensures Map(Map(events, Viewer(lib)), IdOfEvent()) == Map(events, TextId(lib))
  {
  }

  /** Well-formed events of the input have text ids. */
  ghost predicate TextIds(lib: Library, raw: seq<Fields>) {
    forall event <- Clean(lib, raw) :: LocallyValid(lib, event) ==> IdOf(event).Str?
  }

  ghost predicate SameResult(a: Analysis, b: Analysis) {
    a.Analyzed? == b.Analyzed? && (a.Analyzed? ==> a.findings == b.findings)
  }

  ghost predicate Rearranged(raw: seq<Fields>, raw': seq<Fields>) { multiset(raw) == multiset(raw') }

  /** Every order of the same raw events gives the same findings. */
  ghost predicate OrderFree(lib: Library, db: Signatures, raw: seq<Fields>) {
    forall raw' :: Rearranged(raw, raw') ==> SameResult(Analyze(lib, db, raw), Analyze(lib, db, raw'))
  }

  lemma CleanRearranged(lib: Library, raw: seq<Fields>, raw': seq<Fields>)
    requires Rearranged(raw, raw')
    ensures forall event :: event in Clean(lib, raw) <==> event in Clean(lib, raw')
    ensures |raw| == |raw'|
  {
    MapPermuted(raw, raw', Cleaner(lib));
    assert |multiset(raw)| == |raw| && |multiset(raw')| == |raw'|;
    forall event
      ensures event in Clean(lib, raw) <==> event in Clean(lib, raw')
    {
      assert event in Clean(lib, raw) <==> event in multiset(Clean(lib, raw));
      assert event in Clean(lib, raw') <==> event in multiset(Clean(lib, raw'));
    }
  }

  lemma ValidRearranged(lib: Library, raw: seq<Fields>, raw': seq<Fields>)
    requires Rearranged(raw, raw') && RepeatsAgree(lib, Clean(lib, raw))
    ensures multiset(ValidEvents(lib, Clean(lib, raw))) == multiset(ValidEvents(lib, Clean(lib, raw')))
  {
    var clean, clean' := Clean(lib, raw), Clean(lib, raw');
    CleanRearranged(lib, raw, raw');
    KeptIdsDistinct(lib, clean);
    KeptIdsDistinct(lib, clean');
    DistinctByKey(ValidEvents(lib, clean), IdOf);
    DistinctByKey(ValidEvents(lib, clean'), IdOf);
    forall event
      ensures event in ValidEvents(lib, clean) <==> event in ValidEvents(lib, clean')
    {
      RepeatsKeepOne(lib, clean, event);
      RepeatsKeepOne(lib, clean', event);
    }
    SameElements(ValidEvents(lib, clean), ValidEvents(lib, clean'));
  }

  lemma TextIdsDistinct(lib: Library, raw: seq<Fields>)
    requires TextIds(lib, raw)
    ensures Distinct(Map(ValidEvents(lib, Clean(lib, raw)), TextId(lib)))
  {
    var valid := ValidEvents(lib, Clean(lib, raw));
    var ids, texts := Map(valid, IdOf), Map(valid, TextId(lib));
    KeptIdsDistinct(lib, Clean(lib, raw));
    forall i | 0 <= i < |valid|
      ensures ids[i] == Str(texts[i])
    {
      assert valid[i] in valid;
      ValidFrom(lib, Clean(lib, raw), valid[i]);
    }
    forall i, j | 0 <= i < j < |valid|
      ensures texts[i] != texts[j]
    {
      assert ids[i] != ids[j];
    }
  }

  /** Repeats that are copies change nothing, in whatever order events arrive. */
  lemma CopiesAreOrderFree(lib: Library, db: Signatures, raw: seq<Fields>, raw': seq<Fields>)
    requires TextIds(lib, raw) && Rearranged(raw, raw') && RepeatsAgree(lib, Clean(lib, raw))
    ensures SameResult(Analyze(lib, db, raw), Analyze(lib, db, raw'))
  {
    var clean, clean' := Clean(lib, raw), Clean(lib, raw');
    var valid, valid' := ValidEvents(lib, clean), ValidEvents(lib, clean');
    ValidRearranged(lib, raw, raw');
    TextIdsDistinct(lib, raw);
    CleanRearranged(lib, raw, raw');
    SplitRejoins(lib, clean);
    SplitRejoins(lib, clean');
    assert |valid| == |multiset(valid)| == |multiset(valid')| == |valid'|;
    MapPermuted(valid, valid', Viewer(lib));
    ViewIds(lib, valid);
    CanonicalUnique(Map(valid, Viewer(lib)), Map(valid', Viewer(lib)));
  }

  lemma CanonicalHas(lib: Library, valid: seq<Fields>, event: Fields)
    ensures View(lib, event) in Canonical(lib, valid) <==> event in valid
  {
    var views, events := Map(valid, Viewer(lib)), Canonical(lib, valid);
    EventOrderTotal();
    SortByCorrect(views, EventOrder());
    assert View(lib, event) in events <==> View(lib, event) in multiset(events);
    assert View(lib, event) in views <==> View(lib, event) in multiset(views);
    if event in valid {
      var i :| 0 <= i < |valid| && valid[i] == event;
      assert views[i] == View(lib, event);
    }
    if View(lib, event) in views {
      var i :| 0 <= i < |views| && views[i] == View(lib, event);
      assert valid[i] == views[i].fields == event;
    }
  }

  /** An order of the events in which event i comes first. */
  lemma MovedToFront(lib: Library, raw: seq<Fields>, i: nat) returns (raw': seq<Fields>)
    requires i < |raw|
    ensures Rearranged(raw, raw') && raw' != [] && raw'[0] == raw[i]
  {
    raw' := [raw[i]] + (raw[..i] + raw[i + 1..]);
    CutAt(raw, i);
    SplitCount(raw[..i], raw[i], raw[i + 1..]);
    SplitCount([], raw[i], raw[..i] + raw[i + 1..]);
    Reinsert(raw[i], raw[..i] + raw[i + 1..], raw[..i], raw[i + 1..]);
  }

  /** A well-formed event that comes first is analysed. */
  lemma FrontAnalyzed(lib: Library, db: Signatures, raw: seq<Fields>)
    requires raw != [] && LocallyValid(lib, Clean(lib, raw)[0])
    ensures var analysis := Analyze(lib, db, raw);
      analysis.Analyzed? && View(lib, Clean(lib, raw)[0]) in analysis.findings.events
  {
    var clean := Clean(lib, raw);
    KeptIn(lib, clean, 0);
    assert KeptAt(lib, clean, 0);
    CanonicalHas(lib, ValidEvents(lib, clean), clean[0]);
  }

  /** An event of the input that some order analyses is analysed in every order, when the order does not matter. */
  lemma OrderFreeKeeps(lib: Library, db: Signatures, raw: seq<Fields>, i: nat)
    requires OrderFree(lib, db, raw) && i < |raw| && LocallyValid(lib, Clean(lib, raw)[i])
    ensures Clean(lib, raw)[i] in ValidEvents(lib, Clean(lib, raw))
  {
    var raw' := MovedToFront(lib, raw, i);
    FrontAnalyzed(lib, db, raw');
    assert Rearranged(raw, raw');
    assert SameResult(Analyze(lib, db, raw), Analyze(lib, db, raw'));
    CanonicalHas(lib, ValidEvents(lib, Clean(lib, raw)), Clean(lib, raw)[i]);
  }

  /**
   * The order in which events arrive does not matter, to events, alerts with their ids and order, incidents, endpoint
   * risk, state, tactic counts and decision, exactly when well-formed events that share an id are copies of one event.
   */
  lemma OrderIndependence(lib: Library, db: Signatures, raw: seq<Fields>)
    requires TextIds(lib, raw)
    ensures OrderFree(lib, db, raw) <==> RepeatsAgree(lib, Clean(lib, raw))
  {
    var clean := Clean(lib, raw);
    if RepeatsAgree(lib, clean) {
      forall raw' | Rearranged(raw, raw')
        ensures SameResult(Analyze(lib, db, raw), Analyze(lib, db, raw'))
      {
        CopiesAreOrderFree(lib, db, raw, raw');
      }
    }
    if OrderFree(lib, db, raw) {
      KeptIdsDistinct(lib, clean);
      forall x, y | x in clean && y in clean && LocallyValid(lib, x) && LocallyValid(lib, y) && IdOf(x) == IdOf(y)
        ensures x == y
      {
        var i :| 0 <= i < |clean| && clean[i] == x;
        var j :| 0 <= j < |clean| && clean[j] == y;
        OrderFreeKeeps(lib, db, raw, i);
        OrderFreeKeeps(lib, db, raw, j);
        SameKeySameElement(ValidEvents(lib, clean), IdOf, x, y);
      }
    }
  }

  /** Analysed events have different ids when the valid ones do. */
  lemma CanonicalDiffer(lib: Library, valid: seq<Fields>)
    requires Distinct(Map(valid, TextId(lib)))
    ensures Distinct(Map(Canonical(lib, valid), IdOfEvent()))
  {
    var views := Map(valid, Viewer(lib));
    EventOrderTotal();
    SortByCorrect(views, EventOrder());
    ViewIds(lib, valid);
    MapPermuted(views, Canonical(lib, valid), IdOfEvent());
    DistinctPermuted(Map(views, IdOfEvent()), Map(Canonical(lib, valid), IdOfEvent()));
  }

  /** Well-formed events whose ids read alike are copies of one event. */
  ghost predicate TextRepeatsAgree(lib: Library, raw: seq<Fields>) {
    forall x, y :: x in Clean(lib, raw) && y in Clean(lib, raw) && ReadAlike(lib, x, y) ==> x == y
  }

  ghost predicate ReadAlike(lib: Library, x: Fields, y: Fields) {
    LocallyValid(lib, x) && LocallyValid(lib, y) && TextId(lib)(x) == TextId(lib)(y)
  }

  /** Then repeated ids are copies, and the ids of valid events all read differently. */
  lemma TextRepeatsKept(lib: Library, raw: seq<Fields>)
    requires TextRepeatsAgree(lib, raw)
    ensures RepeatsAgree(lib, Clean(lib, raw))
    ensures Distinct(Map(ValidEvents(lib, Clean(lib, raw)), TextId(lib)))
  {
    var clean := Clean(lib, raw);
    forall x, y | x in clean && y in clean && LocallyValid(lib, x) && LocallyValid(lib, y) && IdOf(x) == IdOf(y)
      ensures x == y
    {
      assert ReadAlike(lib, x, y);
    }
    KeptIdsDistinct(lib, clean);
    DistinctByKey(ValidEvents(lib, clean), IdOf);
    KeptTextsDiffer(lib, raw, ValidEvents(lib, clean));
  }

  lemma KeptTextsDiffer(lib: Library, raw: seq<Fields>, valid: seq<Fields>)
    requires TextRepeatsAgree(lib, raw) && Distinct(valid)
    requires forall event <- valid :: event in ValidEvents(lib, Clean(lib, raw))
    ensures Distinct(Map(valid, TextId(lib)))
  {
    var texts := Map(valid, TextId(lib));
    forall i, j | 0 <= i < j < |valid|
      ensures texts[i] != texts[j]
    {
      assert valid[i] in valid && valid[j] in valid;
      ValidFrom(lib, Clean(lib, raw), valid[i]);
      ValidFrom(lib, Clean(lib, raw), valid[j]);
      assert !ReadAlike(lib, valid[i], valid[j]);
    }
  }

  // ---------------------------------------------------------------- alerts come from the events

  /** What every alert of the detector satisfies. */
  ghost predicate Grounded(events: seq<Event>, alert: Alert) {
    && alert.score == Score(alert.rule) && alert.tactics == Tactics(alert.rule)
    && alert.host in Keys(events, HostOf())
    && alert.eventIds != []
    && forall id <- alert.eventIds :: exists event <- events :: event.id == id && event.host == alert.host
  }

  lemma HostSeen(events: seq<Event>, event: Event)
    requires event in events
    ensures event.host in Keys(events, HostOf())
  {
    KeysIff(events, HostOf(), event.host);
    var i :| 0 <= i < |events| && events[i] == event;
    assert HostOf()(events[i]) == Some(event.host);
  }

  lemma EventAlertGrounded(lib: Library, db: Signatures, events: seq<Event>, alert: Alert)
    requires alert in EventAlerts(lib, db, events)
    ensures Grounded(events, alert) && alert.rule != R004
  {
    EventAlertsIff(lib, db, events, alert);
    var i :| 0 <= i < |events| && Causes(lib, db, events[i], alert);
    HostSeen(events, events[i]);
  }

  lemma SeriesGrounded(events: seq<Event>, group: seq<Event>, host: string, verdict: Option<Beacon>)
    requires group != [] && forall i :: 0 <= i < |group| ==> group[i] in events && group[i].host == host
    ensures Grounded(events, NewAlert(R004, host, Map(SortBy(group, TimeLe()), IdOfEvent()), verdict))
  {
    var series := SortBy(group, TimeLe());
    assert TotalPreorder(TimeLe());
    SortByCorrect(group, TimeLe());
    assert |multiset(series)| == |multiset(group)|;
    forall i | 0 <= i < |series|
      ensures series[i] in events && series[i].host == host
    {
      assert series[i] in multiset(group);
    }
    HostSeen(events, series[0]);
  }

  lemma BeaconAlertGrounded(lib: Library, events: seq<Event>, alert: Alert)
    requires alert in BeaconAlerts(lib, events)
    ensures Grounded(events, alert) && alert.rule == R004
  {
    var key := KeyOf(lib);
    var keys, f := Keys(events, key), GroupAlert(events, key);
    FlatMapIff(keys, f, alert);
    var k :| 0 <= k < |keys| && alert in f(keys[k]);
    BeaconOfGroup(lib, events, keys[k], Members(events, key, keys[k]), alert);
  }

  lemma BeaconOfGroup(lib: Library, events: seq<Event>, k: GroupKey, group: seq<Event>, alert: Alert)
    requires group == Members(events, KeyOf(lib), k) && alert in BeaconAlert(k, group)
    ensures Grounded(events, alert) && alert.rule == R004
  {
    forall i | 0 <= i < |group|
      ensures group[i] in events && group[i].host == k.host
    {
      MembersIff(events, KeyOf(lib), k, group[i]);
    }
    SeriesGrounded(events, group, k.host, Verdict(Map(SortBy(group, TimeLe()), TimeOf())));
  }

  /** Every alert has its rule's score, lies on a host of the events, and names events of that host only. */
  lemma AlertsGrounded(lib: Library, db: Signatures, events: seq<Event>, i: nat)
    requires i < |Detect(lib, db, events)|
    ensures Grounded(events, Detect(lib, db, events)[i])
    ensures Detect(lib, db, events)[i].severity == SeverityOf(Detect(lib, db, events)[i].score)
  {
    var single, beacons := EventAlerts(lib, db, events), BeaconAlerts(lib, events);
    var plain := (single + beacons)[i];
    if i < |single| {
      assert plain == single[i];
      EventAlertGrounded(lib, db, events, plain);
    } else {
      assert plain == beacons[i - |single|];
      BeaconAlertGrounded(lib, events, plain);
    }
  }

  // ---------------------------------------------------------------- the verdict holds together

  lemma ScoresInRange(events: seq<Event>, alerts: seq<Alert>, incidents: seq<Incident>, row: Endpoint)
    requires row in EndpointRisk(events, alerts, incidents)
    requires forall k :: 0 <= k < |incidents| ==> incidents[k].score <= 100
    ensures row.score <= 100 && row.severity == SeverityOf(row.score)
  {
    RowIff(events, alerts, incidents, row);
    BonusIs(incidents, row.host);
  }

  /** The row of a host with a beacon and a large transfer. */
  lemma IncidentHostRow(events: seq<Event>, alerts: seq<Alert>, incidents: seq<Incident>, host: string) returns (k: nat)
    requires Scored(alerts) && HasRule(alerts, host, R004) && HasRule(alerts, host, R005)
      && host in Keys(events, HostOf())
    ensures var rows := EndpointRisk(events, alerts, incidents);
      k < |rows| && rows[k].host == host && rows[k].score >= 71
  {
    var row := HostRow(alerts, incidents, host);
    RowIff(events, alerts, incidents, row);
    CorrelatedScores(alerts, host);
    k :| 0 <= k < |EndpointRisk(events, alerts, incidents)| && EndpointRisk(events, alerts, incidents)[k] == row;
  }

  ghost predicate RowAtLeast(rows: seq<Endpoint>, host: string, floor: nat) {
    exists k :: 0 <= k < |rows| && rows[k].host == host && rows[k].score >= floor
  }

  ghost predicate Coherent(f: Findings, deadLetters: nat) {
    && (forall k :: 0 <= k < |f.endpoints| ==> f.endpoints[k].score <= 100)
    && (forall k :: 0 <= k < |f.incidents| ==>
          69 <= f.incidents[k].score <= 100 && RowAtLeast(f.endpoints, f.incidents[k].host, 71))
    && (f.incidents != [] ==> f.state != Green)
    && (f.state == Red <==> AnyCritical(f.endpoints))
    && (f.decision == NeedsSecurityReview <==> (f.state == Red || f.incidents != []))
    && (f.decision == NeedsSchemaReview <==> (f.state != Red && f.incidents == [] && deadLetters > 0))
    && Sum(f.endpoints, AlertsOfRow()) == |f.alerts|
    && Sum(f.endpoints, IncidentsOfRow()) == |f.incidents|
    && Sum(f.tactics, CountOfRow()) == |Mentions(f.alerts, f.incidents)|
  }

  lemma IncidentScores(lib: Library, db: Signatures, events: seq<Event>, f: Findings, k: nat)
    requires Sorted(events, TimeLe()) && k < |f.incidents|
    requires f.alerts == Detect(lib, db, events) && f.incidents == Incidents(lib, events, f.alerts)
    requires f.endpoints == EndpointRisk(events, f.alerts, f.incidents)
    ensures 69 <= f.incidents[k].score <= 100 && f.incidents[k].host in Keys(events, HostOf())
    ensures RowAtLeast(f.endpoints, f.incidents[k].host, 71)
  {
    var host := f.incidents[k].host;
    IncidentsExact(lib, events, f.alerts, host);
    assert FitsHost(lib, events, f.alerts, host, f.incidents[k]);
    assert HasIncident(f.incidents, host);
    forall i | 0 <= i < |f.alerts|
      ensures f.alerts[i].score == Score(f.alerts[i].rule)
    {
      AlertsGrounded(lib, db, events, i);
    }
    CorrelatedScores(f.alerts, host);
    ChainHostSeen(lib, events, host);
    var row := IncidentHostRow(events, f.alerts, f.incidents, host);
  }

  /** The state and the decision follow from the scores. */
  lemma StateFromScores(f: Findings, deadLetters: nat)
    requires f.state == StateOf(f.endpoints) && f.decision == Decide(f.endpoints, f.incidents, deadLetters)
    requires forall k :: 0 <= k < |f.endpoints| ==>
      f.endpoints[k].score <= 100 && f.endpoints[k].severity == SeverityOf(f.endpoints[k].score)
    requires forall k :: 0 <= k < |f.incidents| ==>
      69 <= f.incidents[k].score <= 100 && RowAtLeast(f.endpoints, f.incidents[k].host, 71)
    requires Sum(f.endpoints, AlertsOfRow()) == |f.alerts| && Sum(f.endpoints, IncidentsOfRow()) == |f.incidents|
    requires Sum(f.tactics, CountOfRow()) == |Mentions(f.alerts, f.incidents)|
    ensures Coherent(f, deadLetters)
  {
    HighestBound(f.endpoints, 80);
    HighestBound(f.endpoints, 50);
    if f.incidents != [] {
      assert RowAtLeast(f.endpoints, f.incidents[0].host, 71);
    }
  }

  /**
   * Scores lie in 0..100; an incident scores at least 69 and its host at least 71, so the fleet is not green; red means
   * exactly that some endpoint is critical; and every alert, incident and tactic mention is counted once.
   */
  lemma VerdictCoherent(lib: Library, db: Signatures, events: seq<Event>, deadLetters: nat)
    requires Sorted(events, TimeLe())
    ensures Coherent(FindingsOn(lib, db, events, deadLetters), deadLetters)
  {
    var f := FindingsOn(lib, db, events, deadLetters);
    forall k | 0 <= k < |f.incidents|
      ensures 69 <= f.incidents[k].score <= 100 && RowAtLeast(f.endpoints, f.incidents[k].host, 71)
      ensures f.incidents[k].host in Keys(events, HostOf())
    {
      IncidentScores(lib, db, events, f, k);
    }
    forall k | 0 <= k < |f.endpoints|
      ensures f.endpoints[k].score <= 100 && f.endpoints[k].severity == SeverityOf(f.endpoints[k].score)
    {
      ScoresInRange(events, f.alerts, f.incidents, f.endpoints[k]);
    }
    forall i | 0 <= i < |f.alerts|
      ensures f.alerts[i].host in Keys(events, HostOf())
    {
      AlertsGrounded(lib, db, events, i);
    }
    RowsCountEverything(events, f.alerts, f.incidents);
    DistributionExact(f.alerts, f.incidents);
    StateFromScores(f, deadLetters);
  }

  lemma CanonicalInTimeOrder(lib: Library, valid: seq<Fields>)
    ensures Sorted(Canonical(lib, valid), TimeLe())
  {
    EventOrderTotal();
    SortByCorrect(Map(valid, Viewer(lib)), EventOrder());
  }

  /** The verdict of every analysis holds together. */
  lemma AnalysisCoherent(lib: Library, db: Signatures, raw: seq<Fields>)
    ensures var analysis := Analyze(lib, db, raw);
      analysis.Analyzed? ==> Coherent(analysis.findings, |analysis.dlq|)
  {
    var clean := Clean(lib, raw);
    CanonicalInTimeOrder(lib, ValidEvents(lib, clean));
    VerdictCoherent(lib, db, Canonical(lib, ValidEvents(lib, clean)), |DlqEvents(lib, clean)|);
  }

  // ---------------------------------------------------------------- alerts and events

  /** The same but for number and severity, which are given last. */
  ghost predicate SameAlert(a: Alert, b: Alert) {
    a == b.(id := a.id, severity := a.severity)
  }

  /** Every alert is the numbered form of one raised by a single event or, for R004 alone, by a group. */
  lemma PlainAlert(lib: Library, db: Signatures, events: seq<Event>, i: nat) returns (plain: Alert)
    requires i < |Detect(lib, db, events)|
    ensures SameAlert(plain, Detect(lib, db, events)[i])
    ensures plain in (if plain.rule == R004 then BeaconAlerts(lib, events) else EventAlerts(lib, db, events))
  {
    var single, beacons := EventAlerts(lib, db, events), BeaconAlerts(lib, events);
    plain := (single + beacons)[i];
    if i < |single| {
      assert plain == single[i];
      EventAlertGrounded(lib, db, events, plain);
    } else {
      assert plain == beacons[i - |single|];
      BeaconAlertGrounded(lib, events, plain);
    }
  }

  lemma Announced(lib: Library, db: Signatures, events: seq<Event>, plain: Alert) returns (i: nat)
    requires plain in EventAlerts(lib, db, events) || plain in BeaconAlerts(lib, events)
    ensures i < |Detect(lib, db, events)| && SameAlert(plain, Detect(lib, db, events)[i])
  {
    var single, beacons := EventAlerts(lib, db, events), BeaconAlerts(lib, events);
    if plain in single {
      i :| 0 <= i < |single| && single[i] == plain;
      assert (single + beacons)[i] == plain;
    } else {
      var j :| 0 <= j < |beacons| && beacons[j] == plain;
      i := |single| + j;
      assert (single + beacons)[i] == plain;
    }
  }

  /** The event lies on the host and raises the rule of large transfers. */
  predicate Transfers(lib: Library, db: Signatures, host: string, event: Event) {
    event.host == host && Raises(lib, db, R005, event)
  }

  ghost predicate SomePeriodic(lib: Library, events: seq<Event>, host: string) {
    exists k: GroupKey :: k.host == host && PeriodicGroup(lib, events, k)
  }

  ghost predicate SomeTransfer(lib: Library, db: Signatures, events: seq<Event>, host: string) {
    exists i :: 0 <= i < |events| && Transfers(lib, db, host, events[i])
  }

  lemma BeaconRuleIff(lib: Library, db: Signatures, events: seq<Event>, host: string)
    ensures HasRule(Detect(lib, db, events), host, R004) <==> SomePeriodic(lib, events, host)
  {
    var alerts := Detect(lib, db, events);
    if HasRule(alerts, host, R004) {
      var i :| 0 <= i < |alerts| && alerts[i].host == host && alerts[i].rule == R004;
      var plain := PlainAlert(lib, db, events, i);
      BeaconAlertsSound(lib, events, plain);
      var k :| k in Keys(events, KeyOf(lib)) && ReportsGroup(lib, events, k, plain);
      assert PeriodicGroup(lib, events, k);
    }
    if SomePeriodic(lib, events, host) {
      var k: GroupKey :| k.host == host && PeriodicGroup(lib, events, k);
      var plain := GroupGetsAlert(lib, events, k);
      var i := Announced(lib, db, events, plain);
    }
  }

  lemma TransferRuleIff(lib: Library, db: Signatures, events: seq<Event>, host: string)
    ensures HasRule(Detect(lib, db, events), host, R005) <==> SomeTransfer(lib, db, events, host)
  {
    var alerts := Detect(lib, db, events);
    if HasRule(alerts, host, R005) {
      var i :| 0 <= i < |alerts| && alerts[i].host == host && alerts[i].rule == R005;
      var plain := PlainAlert(lib, db, events, i);
      EventAlertsIff(lib, db, events, plain);
      var e :| 0 <= e < |events| && Causes(lib, db, events[e], plain);
      assert Transfers(lib, db, host, events[e]);
    }
    if SomeTransfer(lib, db, events, host) {
      var e :| 0 <= e < |events| && Transfers(lib, db, host, events[e]);
      var plain := EventAlert(R005, events[e]);
      assert Causes(lib, db, events[e], plain);
      EventAlertsIff(lib, db, events, plain);
      var i := Announced(lib, db, events, plain);
    }
  }

  // ---------------------------------------------------------------- what an analysis reports

  /** Every R004 alert of an analysis reports one whole group of its events. */
  ghost predicate BeaconsSound(lib: Library, f: Findings) {
    forall i :: 0 <= i < |f.alerts| && f.alerts[i].rule == R004 ==> ReportsSome(lib, f.events, f.alerts[i])
  }

  /** An R004 alert of the analysis names an event of the group. */
  ghost predicate BeaconNamed(lib: Library, f: Findings, k: GroupKey) {
    exists i :: 0 <= i < |f.alerts| && f.alerts[i].rule == R004 && NamesGroup(lib, f.events, k, f.alerts[i])
  }

  ghost predicate BeaconsExact(lib: Library, f: Findings) {
    forall k :: BeaconNamed(lib, f, k) <==> PeriodicGroup(lib, f.events, k)
  }

  /** A periodic group, a large transfer, and a download that was run, all on the host. */
  ghost predicate Complete(lib: Library, db: Signatures, events: seq<Event>, host: string) {
    SomePeriodic(lib, events, host) && SomeTransfer(lib, db, events, host) && SomeChain(lib, events, host)
  }

  /**
   * A host of an analysis has an incident exactly when its events are complete, at most one, and that one names the
   * earliest chain.
   */
  ghost predicate IncidentsSound(lib: Library, db: Signatures, f: Findings) {
    && (forall host :: HasIncident(f.incidents, host) <==> Complete(lib, db, f.events, host))
    && Distinct(Map(f.incidents, HostOfIncident()))
    && forall k :: 0 <= k < |f.incidents| ==> FitsHost(lib, f.events, f.alerts, f.incidents[k].host, f.incidents[k])
  }

  lemma BeaconsOf(lib: Library, db: Signatures, events: seq<Event>, deadLetters: nat)
    ensures BeaconsSound(lib, FindingsOn(lib, db, events, deadLetters))
  {
    var alerts := Detect(lib, db, events);
    forall i | 0 <= i < |alerts| && alerts[i].rule == R004
      ensures ReportsSome(lib, events, alerts[i])
    {
      var plain := PlainAlert(lib, db, events, i);
      BeaconAlertsSound(lib, events, plain);
      var k :| k in Keys(events, KeyOf(lib)) && ReportsGroup(lib, events, k, plain);
      assert ReportsGroup(lib, events, k, alerts[i]);
    }
  }

  lemma BeaconNamedIff(lib: Library, db: Signatures, events: seq<Event>, deadLetters: nat, k: GroupKey)
    requires Distinct(Map(events, IdOfEvent()))
    ensures BeaconNamed(lib, FindingsOn(lib, db, events, deadLetters), k) <==> PeriodicGroup(lib, events, k)
  {
    var f := FindingsOn(lib, db, events, deadLetters);
    ReportedIff(lib, events, k);
    if BeaconNamed(lib, f, k) {
      NamedIsReported(lib, db, events, k);
    }
    if Reported(lib, events, k) {
      var plain :| plain in BeaconAlerts(lib, events) && NamesGroup(lib, events, k, plain);
      BeaconAlertGrounded(lib, events, plain);
      var i := Announced(lib, db, events, plain);
      SameNames(lib, events, k, plain, f.alerts[i]);
    }
  }

  lemma SameNames(lib: Library, events: seq<Event>, k: GroupKey, a: Alert, b: Alert)
    requires SameAlert(a, b)
    ensures NamesGroup(lib, events, k, a) <==> NamesGroup(lib, events, k, b)
  {
  }

  lemma NamedIsReported(lib: Library, db: Signatures, events: seq<Event>, k: GroupKey)
    requires var alerts := Detect(lib, db, events);
      exists i :: 0 <= i < |alerts| && alerts[i].rule == R004 && NamesGroup(lib, events, k, alerts[i])
    ensures Reported(lib, events, k)
  {
    var alerts := Detect(lib, db, events);
    var i :| 0 <= i < |alerts| && alerts[i].rule == R004 && NamesGroup(lib, events, k, alerts[i]);
    var plain := PlainAlert(lib, db, events, i);
    SameNames(lib, events, k, plain, alerts[i]);
  }

  /** On events in time order, a host has an incident exactly when its events are complete. */
  lemma IncidentIff(lib: Library, db: Signatures, events: seq<Event>, host: string)
    requires Sorted(events, TimeLe())
    ensures HasIncident(Incidents(lib, events, Detect(lib, db, events)), host) <==> Complete(lib, db, events, host)
  {
    IncidentsExact(lib, events, Detect(lib, db, events), host);
    BeaconRuleIff(lib, db, events, host);
    TransferRuleIff(lib, db, events, host);
  }

  lemma IncidentsOf(lib: Library, db: Signatures, events: seq<Event>, deadLetters: nat)
    requires Sorted(events, TimeLe())
    ensures IncidentsSound(lib, db, FindingsOn(lib, db, events, deadLetters))
  {
    forall host
      ensures HasIncident(Incidents(lib, events, Detect(lib, db, events)), host) <==> Complete(lib, db, events, host)
    {
      IncidentIff(lib, db, events, host);
    }
    IncidentsExact(lib, events, Detect(lib, db, events), "");
  }

  /**
   * Beacons and incidents of every analysis of raw events are sound, and incidents complete; when ids are text, so are
   * beacons.
   */
  lemma AnalysisReports(lib: Library, db: Signatures, raw: seq<Fields>)
    ensures var analysis := Analyze(lib, db, raw);
      analysis.Analyzed? ==>
        && BeaconsSound(lib, analysis.findings) && IncidentsSound(lib, db, analysis.findings)
        && (TextIds(lib, raw) ==> BeaconsExact(lib, analysis.findings))
  {
    var valid, dlq := ValidEvents(lib, Clean(lib, raw)), DlqEvents(lib, Clean(lib, raw));
    var events := Canonical(lib, valid);
    CanonicalInTimeOrder(lib, valid);
    BeaconsOf(lib, db, events, |dlq|);
    IncidentsOf(lib, db, events, |dlq|);
    if TextIds(lib, raw) {
      TextIdsDistinct(lib, raw);
      CanonicalDiffer(lib, valid);
      forall k
        ensures BeaconNamed(lib, FindingsOn(lib, db, events, |dlq|), k) <==> PeriodicGroup(lib, events, k)
      {
        BeaconNamedIff(lib, db, events, |dlq|, k);
      }
    }
  }
}
