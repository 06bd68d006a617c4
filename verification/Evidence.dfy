/** The fixed evidence sentence of an incident that its transfer came after its execution
    (src/detection_engine.py:644-704). */
module Evidence {
  import opened Prelude
  import opened Json
  import opened EventSchema
  import opened Rules
  import opened Grouping
  import opened Beacons
  import opened Correlation
  import opened Detection

  /** "large outbound transfer occurred after execution", read of the events that the incident's stages name. */
  ghost predicate TransferAfter(events: seq<Event>, incident: Incident) {
    forall transfer, execution ::
      transfer in events && execution in events && transfer.id in incident.outboundEvents
        && execution.id == incident.execution
      ==> transfer.time > execution.time
  }

  /** No event of the host raises R005 up to the time. */
  ghost predicate NoneBefore(lib: Library, db: Signatures, events: seq<Event>, host: string, time: int) {
    forall transfer <- events :: Transfers(lib, db, host, transfer) ==> transfer.time > time
  }

  // ---------------------------------------------------------------- the transfer alert of a host

  function TransferOf(host: string): Alert -> bool { (alert: Alert) => alert.host == host && alert.rule == R005 }

  function TransfersOn(lib: Library, db: Signatures, host: string): Event -> bool {
    (event: Event) => Transfers(lib, db, host, event)
  }

  lemma {:induction false} FirstAppend<T>(xs: seq<T>, ys: seq<T>, p: T -> bool)
    ensures First(xs + ys, p) == if First(xs, p).Some? then First(xs, p) else First(ys, p)
  {
    if xs == [] {
      assert xs + ys == ys;
    } else {
      assert (xs + ys)[0] == xs[0] && (xs + ys)[1..] == xs[1..] + ys;
      FirstAppend(xs[1..], ys, p);
    }
  }

  /** Searching the pieces of a list: the answer lies in the piece of the first element whose piece has one. */
  lemma {:induction false} FirstInPieces<S, T>(xs: seq<S>, f: S -> seq<T>, p: T -> bool, q: S -> bool)
    requires forall x <- xs :: q(x) == First(f(x), p).Some?
    ensures First(FlatMap(xs, f), p) == if First(xs, q).Some? then First(f(First(xs, q).value), p) else None
  {
    if xs != [] {
      var n := |xs| - 1;
      var front := xs[..n];
      assert xs == front + [xs[n]];
      FirstInPieces(front, f, p, q);
      FirstAppend(FlatMap(front, f), f(xs[n]), p);
      FirstAppend(front, [xs[n]], q);
      var at := FirstAt(front, q);
    }
  }

  /** The transfer alert of one event, if it raises one on the host. */
  lemma TransferOfEvent(lib: Library, db: Signatures, host: string, event: Event)
    ensures First(AlertsOf(lib, db, event), TransferOf(host))
      == if Transfers(lib, db, host, event) then Some(EventAlert(R005, event)) else None
  {
    var alerts, p := AlertsOf(lib, db, event), TransferOf(host);
    var at := FirstAt(alerts, p);
    if at < |alerts| {
      AlertsOfIff(lib, db, event, alerts[at]);
    }
    if Transfers(lib, db, host, event) {
      AlertsOfIff(lib, db, event, EventAlert(R005, event));
      var k :| 0 <= k < |alerts| && alerts[k] == EventAlert(R005, event);
    }
  }

  lemma {:induction false} FirstNumbered(alerts: seq<Alert>, numbered: seq<Alert>, host: string)
    requires |numbered| == |alerts|
    requires forall i :: 0 <= i < |alerts| ==>
      numbered[i].host == alerts[i].host && numbered[i].rule == alerts[i].rule
        && numbered[i].eventIds == alerts[i].eventIds
    ensures First(numbered, TransferOf(host)).Some? == First(alerts, TransferOf(host)).Some?
    ensures First(alerts, TransferOf(host)).Some? ==>
      First(numbered, TransferOf(host)).value.eventIds == First(alerts, TransferOf(host)).value.eventIds
  {
    if alerts != [] {
      FirstNumbered(alerts[1..], numbered[1..], host);
    }
  }

  lemma NoTransferBeacons(lib: Library, events: seq<Event>, host: string)
    ensures First(BeaconAlerts(lib, events), TransferOf(host)).None?
  {
    var beacons := BeaconAlerts(lib, events);
    var at := FirstAt(beacons, TransferOf(host));
    if at < |beacons| {
      BeaconAlertGrounded(lib, events, beacons[at]);
    }
  }

  /** The first R005 alert of a host names the first event of the host that raises the rule. */
  lemma FirstTransferAlert(lib: Library, db: Signatures, events: seq<Event>, host: string)
    ensures var alert := First(Members(Detect(lib, db, events), AlertHost(), host), OfRule(R005));
      var event := First(events, TransfersOn(lib, db, host));
      alert.Some? == event.Some? && (alert.Some? ==> alert.value.eventIds == [event.value.id])
  {
    var alerts, single, beacons := Detect(lib, db, events), EventAlerts(lib, db, events), BeaconAlerts(lib, events);
    FirstFiltered(alerts, HasKey(AlertHost(), host), OfRule(R005), TransferOf(host));
    FirstNumbered(single + beacons, alerts, host);
    FirstAppend(single, beacons, TransferOf(host));
    NoTransferBeacons(lib, events, host);
    forall event | event in events
      ensures TransfersOn(lib, db, host)(event) == First(AlertsFor(lib, db)(event), TransferOf(host)).Some?
    {
      TransferOfEvent(lib, db, host, event);
    }
    FirstInPieces(events, AlertsFor(lib, db), TransferOf(host), TransfersOn(lib, db, host));
    var event := First(events, TransfersOn(lib, db, host));
    if event.Some? {
      var at := FirstAt(events, TransfersOn(lib, db, host));
      TransferOfEvent(lib, db, host, event.value);
    }
  }

  // ---------------------------------------------------------------- the exact condition

  lemma PieceOutbound(lib: Library, events: seq<Event>, alerts: seq<Alert>, host: string, piece: Incident)
    requires piece in IncidentsFor(lib, events, alerts)(host)
    ensures var alert := First(Members(alerts, AlertHost(), host), OfRule(R005));
      piece.host == host && alert.Some? && piece.outboundEvents == alert.value.eventIds
  {
  }

  /** Event number first is the first transfer of the host, and the incident's transfer stage names it alone. */
  ghost predicate NamesFirst(lib: Library, db: Signatures, events: seq<Event>, incident: Incident, first: nat) {
    && first < |events| && incident.outboundEvents == [events[first].id]
    && Transfers(lib, db, incident.host, events[first])
    && forall i :: 0 <= i < first ==> !Transfers(lib, db, incident.host, events[i])
  }

  lemma PieceNamesFirst(lib: Library, db: Signatures, events: seq<Event>, alerts: seq<Alert>, host: string,
                        piece: Incident)
    returns (first: nat)
    requires alerts == Detect(lib, db, events) && piece in IncidentsFor(lib, events, alerts)(host)
    ensures NamesFirst(lib, db, events, piece, first)
  {
    PieceOutbound(lib, events, alerts, host, piece);
    FirstTransferAlert(lib, db, events, host);
    first := FirstAt(events, TransfersOn(lib, db, host));
  }

  /** The transfer stage of an incident names the first event of its host that raises R005. */
  lemma OutboundIsFirst(lib: Library, db: Signatures, events: seq<Event>, alerts: seq<Alert>, k: nat)
    returns (first: nat)
    requires alerts == Detect(lib, db, events) && k < |Incidents(lib, events, alerts)|
    ensures NamesFirst(lib, db, events, Incidents(lib, events, alerts)[k], first)
  {
    var hosts, f := Keys(events, HostOf()), IncidentsFor(lib, events, alerts);
    var piece := FlatMap(hosts, f)[k];
    FlatMapIff(hosts, f, piece);
    var h :| 0 <= h < |hosts| && piece in f(hosts[h]);
    first := PieceNamesFirst(lib, db, events, alerts, hosts[h], piece);
  }

  lemma SentenceIff(lib: Library, db: Signatures, events: seq<Event>, incident: Incident, first: nat, j: nat)
    requires Sorted(events, TimeLe()) && Distinct(Map(events, IdOfEvent()))
      && NamesFirst(lib, db, events, incident, first)
    requires j < |events| && incident.execution == events[j].id
    ensures TransferAfter(events, incident) <==> NoneBefore(lib, db, events, incident.host, events[j].time)
  {
    assert events[first] in events && events[first].id in incident.outboundEvents && events[j] in events;
    forall transfer | transfer in events
      ensures transfer.id in incident.outboundEvents ==> transfer == events[first]
      ensures Transfers(lib, db, incident.host, transfer) ==> events[first].time <= transfer.time
    {
      if transfer.id in incident.outboundEvents {
        SameIdSameEvent(events, transfer, events[first]);
      }
      var t :| 0 <= t < |events| && events[t] == transfer;
    }
    forall execution | execution in events && execution.id == incident.execution
      ensures execution == events[j]
    {
      SameIdSameEvent(events, execution, events[j]);
    }
  }

  /**
   * The code does not compare the two times. With (i, j) the earliest chain of a host, the sentence is true of the
   * host's incident exactly when no event of the host up to the time of event j raises R005.
   */
  lemma EvidenceIff(lib: Library, db: Signatures, events: seq<Event>, k: nat, i: nat, j: nat)
    requires Sorted(events, TimeLe()) && Distinct(Map(events, IdOfEvent()))
    requires k < |Incidents(lib, events, Detect(lib, db, events))|
    requires Earliest(lib, events, Incidents(lib, events, Detect(lib, db, events))[k].host, i, j)
    ensures var incident := Incidents(lib, events, Detect(lib, db, events))[k];
      TransferAfter(events, incident) <==> NoneBefore(lib, db, events, incident.host, events[j].time)
  {
    var alerts := Detect(lib, db, events);
    var first := OutboundIsFirst(lib, db, events, alerts, k);
    var i', j' := IncidentChain(lib, events, alerts, k);
    EarliestUnique(lib, events, Incidents(lib, events, alerts)[k].host, i, j, i', j');
    SentenceIff(lib, db, events, Incidents(lib, events, alerts)[k], first, j);
  }

  /** The host has an incident of which the sentence is false. */
  ghost predicate FalseSentence(events: seq<Event>, incidents: seq<Incident>, host: string) {
    exists k :: 0 <= k < |incidents| && incidents[k].host == host && !TransferAfter(events, incidents[k])
  }

  /** The host has a periodic group, and a large transfer no later than the execution of its earliest chain. */
  ghost predicate TransferTooEarly(lib: Library, db: Signatures, events: seq<Event>, host: string) {
    && SomePeriodic(lib, events, host)
    && exists i: nat, j: nat ::
         Earliest(lib, events, host, i, j) && !NoneBefore(lib, db, events, host, events[j].time)
  }

  /** Which hosts get an incident with a false sentence, on the events alone. */
  lemma FalseSentenceIff(lib: Library, db: Signatures, events: seq<Event>, host: string)
    requires Sorted(events, TimeLe()) && Distinct(Map(events, IdOfEvent()))
    ensures FalseSentence(events, Incidents(lib, events, Detect(lib, db, events)), host)
      <==> TransferTooEarly(lib, db, events, host)
  {
    var incidents := Incidents(lib, events, Detect(lib, db, events));
    if FalseSentence(events, incidents, host) {
      var k :| 0 <= k < |incidents| && incidents[k].host == host && !TransferAfter(events, incidents[k]);
      FalseMeansEarly(lib, db, events, k);
    }
    if TransferTooEarly(lib, db, events, host) {
      EarlyMeansFalse(lib, db, events, host);
    }
  }

  lemma FalseMeansEarly(lib: Library, db: Signatures, events: seq<Event>, k: nat)
    requires Sorted(events, TimeLe()) && Distinct(Map(events, IdOfEvent()))
    requires k < |Incidents(lib, events, Detect(lib, db, events))|
      && !TransferAfter(events, Incidents(lib, events, Detect(lib, db, events))[k])
    ensures TransferTooEarly(lib, db, events, Incidents(lib, events, Detect(lib, db, events))[k].host)
  {
    var alerts := Detect(lib, db, events);
    IncidentIff(lib, db, events, Incidents(lib, events, alerts)[k].host);
    var i, j := IncidentChain(lib, events, alerts, k);
    EvidenceIff(lib, db, events, k, i, j);
  }

  lemma EarlyMeansFalse(lib: Library, db: Signatures, events: seq<Event>, host: string)
    requires Sorted(events, TimeLe()) && Distinct(Map(events, IdOfEvent()))
    requires TransferTooEarly(lib, db, events, host)
    ensures FalseSentence(events, Incidents(lib, events, Detect(lib, db, events)), host)
  {
    var incidents := Incidents(lib, events, Detect(lib, db, events));
    var i: nat, j: nat :|
      Earliest(lib, events, host, i, j) && !NoneBefore(lib, db, events, host, events[j].time);
    EarlyTransferCompletes(lib, db, events, host, i, j);
    IncidentIff(lib, db, events, host);
    var k :| 0 <= k < |incidents| && incidents[k].host == host;
    EvidenceIff(lib, db, events, k, i, j);
  }

  lemma EarlyTransferCompletes(lib: Library, db: Signatures, events: seq<Event>, host: string, i: nat, j: nat)
    requires SomePeriodic(lib, events, host) && Earliest(lib, events, host, i, j)
      && !NoneBefore(lib, db, events, host, events[j].time)
    ensures Complete(lib, db, events, host)
  {
    var transfer :| transfer in events && Transfers(lib, db, host, transfer);
    var t :| 0 <= t < |events| && events[t] == transfer;
    assert Chain(lib, events, host, i, j);
  }

  /** What the sentence is worth in an analysis. */
  ghost predicate EvidenceExact(lib: Library, db: Signatures, f: Findings) {
    && (forall k, i: nat, j: nat :: 0 <= k < |f.incidents| && Earliest(lib, f.events, f.incidents[k].host, i, j) ==>
          TransferAfter(f.events, f.incidents[k])
          == NoneBefore(lib, db, f.events, f.incidents[k].host, f.events[j].time))
    && (forall host :: FalseSentence(f.events, f.incidents, host) <==> TransferTooEarly(lib, db, f.events, host))
  }

  lemma EvidenceOf(lib: Library, db: Signatures, events: seq<Event>, deadLetters: nat)
    requires Sorted(events, TimeLe()) && Distinct(Map(events, IdOfEvent()))
    ensures EvidenceExact(lib, db, FindingsOn(lib, db, events, deadLetters))
  {
    var incidents := Incidents(lib, events, Detect(lib, db, events));
    forall k, i: nat, j: nat | 0 <= k < |incidents| && Earliest(lib, events, incidents[k].host, i, j)
      ensures TransferAfter(events, incidents[k])
        <==> NoneBefore(lib, db, events, incidents[k].host, events[j].time)
    {
      EvidenceIff(lib, db, events, k, i, j);
    }
    forall host
      ensures FalseSentence(events, incidents, host) <==> TransferTooEarly(lib, db, events, host)
    {
      FalseSentenceIff(lib, db, events, host);
    }
  }

  /** The same of every analysis of raw events. */
  lemma AnalysisEvidence(lib: Library, db: Signatures, raw: seq<Fields>)
    requires TextIds(lib, raw)
    ensures var analysis := Analyze(lib, db, raw);
      analysis.Analyzed? ==> EvidenceExact(lib, db, analysis.findings)
  {
    var valid, dlq := ValidEvents(lib, Clean(lib, raw)), DlqEvents(lib, Clean(lib, raw));
    TextIdsDistinct(lib, raw);
    CanonicalDiffer(lib, valid);
    CanonicalInTimeOrder(lib, valid);
    EvidenceOf(lib, db, Canonical(lib, valid), |dlq|);
  }

  // ---------------------------------------------------------------- raw events whose transfer came first

  const HOST := "endpoint"
  const ADDRESS := "198.51.111.7"

  const TIMES: seq<string> := [
    "1999-12-12T12:11:11Z", "1999-12-12T12:12:11Z", "1999-12-12T12:13:11Z", "1999-12-12T12:14:11Z",
    "1999-12-12T12:15:11Z", "1999-12-12T12:15:12Z"]

  /** Seconds since 1970 of the first time. */
  const START := 945_000_671

  function Offset(i: nat): nat { if i < 5 then 60 * i else 241 }

  /** The library reads these six times as what they are. */
  ghost predicate ReadsTimes(lib: Library) {
    forall i :: 0 <= i < 6 ==> lib.parseTime(TIMES[i]) == Some((START + Offset(i)) * MICROSECONDS_PER_SECOND)
  }

  function Header(id: string, kind: string, time: string): Fields {
    [ ("event_id", Str(id)), ("event_time", Str(time)), ("received_time", Str(time)), ("host_id", Str(HOST)),
      ("event_type", Str(kind)), ("source", Str("agent")), ("payload_version", Str("v1")) ]
  }

  function Transfer(): Fields { [("dst_ip", Str(ADDRESS)), ("bytes_out", Num(LARGE_OUTBOUND_BYTES))] }

  function Hash(): Fields { [("hash_sha256", Str("deadbeef"))] }

  // The six events by number: four connections, a download, its execution.

  function Id(i: nat): string
    requires i < 6
  {
    if i == 0 then "first" else if i == 1 then "second" else if i == 2 then "third" else if i == 3 then "fourth"
    else if i == 4 then "download" else "run"
  }

  function Kind(i: nat): string {
    if i < 4 then "network_connection" else if i == 4 then "file_download" else "process_start"
  }

  function Details(i: nat): Fields { if i < 4 then Transfer() else Hash() }

  function RawEvent(i: nat): Fields
    requires i < 6
  {
    Header(Id(i), Kind(i), TIMES[i]) + Details(i)
  }

  /** Four large transfers at one-minute steps, then a download and its execution. */
  function EarlyTransfer(): seq<Fields> { seq(6, i requires 0 <= i < 6 => RawEvent(i)) }

  // ---------------------------------------------------------------- reading them

  lemma HeaderRead(i: nat)
    requires i < 6
    ensures var e := RawEvent(i);
      && Get(e, "event_id") == Some(Str(Id(i))) && Get(e, "event_time") == Some(Str(TIMES[i]))
      && Get(e, "received_time") == Some(Str(TIMES[i])) && Get(e, "host_id") == Some(Str(HOST))
      && Get(e, "event_type") == Some(Str(Kind(i))) && Has(e, "source") && Has(e, "payload_version")
  {
    var header := Header(Id(i), Kind(i), TIMES[i]);
    forall n | 0 <= n < 7
      ensures Get(RawEvent(i), header[n].0) == Some(header[n].1)
    {
      GetAt(header, n);
      GetAppend(header, Details(i), header[n].0);
    }
    assert header[0].0 == "event_id" && header[1].0 == "event_time" && header[2].0 == "received_time";
    assert header[3].0 == "host_id" && header[4].0 == "event_type" && header[5].0 == "source";
    assert header[6].0 == "payload_version";
  }

  lemma DetailRead(i: nat, key: string)
    requires i < 6 && forall n :: 0 <= n < 7 ==> Header("", "", "")[n].0 != key
    ensures Get(RawEvent(i), key) == Get(Details(i), key)
  {
    var header := Header(Id(i), Kind(i), TIMES[i]);
    forall n | 0 <= n < 7
      ensures header[n].0 != key
    {
      assert header[n].0 == Header("", "", "")[n].0;
    }
    GetNone(header, key);
    GetAppend(header, Details(i), key);
  }

  // ---------------------------------------------------------------- nothing in them is masked or rejected

  lemma LettersMasked(isDigit: char -> bool, s: string)
    requires Privacy.DecimalClass(isDigit)
    requires forall i :: 0 <= i < |s| ==> s[i] < 128 as char && !Privacy.IsAsciiDigit(s[i]) && s[i] != '@'
    ensures Privacy.FullyMasked(isDigit, s)
  {
    forall i | 0 <= i < |s|
      ensures !Privacy.DigitRun(isDigit, s, i)
    {
      assert !isDigit(s[i]);
    }
    Privacy.NothingToMask(isDigit, s);
  }

  /** A time of day written with two digits between separators. */
  lemma TimeMasked(isDigit: char -> bool, s: string)
    requires Privacy.DecimalClass(isDigit) && |s| == 20
    requires forall i :: 0 <= i < |s| ==> s[i] != '@' && s[i] != '0'
    requires s[4] == '-' && s[7] == '-' && s[10] == 'T' && s[13] == ':' && s[16] == ':' && s[19] == 'Z'
    ensures Privacy.FullyMasked(isDigit, s)
  {
    forall i | 0 <= i < |s|
      ensures !Privacy.DigitRun(isDigit, s, i)
    {
      var k := if i <= 4 then 4 else if i <= 7 then 7 else if i <= 10 then 10 else if i <= 13 then 13 else 16;
      assert i + 6 <= 20 ==> i <= k < i + 6 && !isDigit(s[k]);
    }
    Privacy.NothingToMask(isDigit, s);
  }

  lemma TimesMasked(isDigit: char -> bool, i: nat)
    requires Privacy.DecimalClass(isDigit) && i < 6
    ensures Privacy.FullyMasked(isDigit, TIMES[i])
  {
    TimeMasked(isDigit, TIMES[i]);
  }

  lemma AddressMasked(isDigit: char -> bool)
    requires Privacy.DecimalClass(isDigit)
    ensures Privacy.FullyMasked(isDigit, ADDRESS) && Privacy.FullyMasked(isDigit, "v1")
  {
    forall i | 0 <= i < |ADDRESS|
      ensures !Privacy.DigitRun(isDigit, ADDRESS, i)
    {
      var k := if i <= 3 then 3 else 6;
      assert i + 6 <= |ADDRESS| ==> i <= k < i + 6 && ADDRESS[k] == '.';
    }
    Privacy.NothingToMask(isDigit, ADDRESS);
    Privacy.NothingToMask(isDigit, "v1");
  }

  lemma HeaderMasked(isDigit: char -> bool, i: nat)
    requires Privacy.DecimalClass(isDigit) && i < 6
    ensures Privacy.Sanitized(isDigit, Header(Id(i), Kind(i), TIMES[i]))
  {
    LettersMasked(isDigit, Id(i));
    LettersMasked(isDigit, Kind(i));
    LettersMasked(isDigit, HOST);
    LettersMasked(isDigit, "agent");
    AddressMasked(isDigit);
    TimesMasked(isDigit, i);
  }

  lemma DetailsMasked(isDigit: char -> bool, i: nat)
    requires Privacy.DecimalClass(isDigit)
    ensures Privacy.Sanitized(isDigit, Details(i))
  {
    LettersMasked(isDigit, "deadbeef");
    AddressMasked(isDigit);
  }

  lemma RawUnchanged(lib: Library, i: nat)
    requires Privacy.DecimalClass(lib.isDigit) && i < 6
    ensures Privacy.Sanitize(lib.isDigit, RawEvent(i)) == RawEvent(i)
  {
    var header, details := Header(Id(i), Kind(i), TIMES[i]), Details(i);
    HeaderMasked(lib.isDigit, i);
    DetailsMasked(lib.isDigit, i);
    forall n | 0 <= n < |RawEvent(i)|
      ensures Privacy.FieldSanitized(lib.isDigit, RawEvent(i)[n])
    {
      assert RawEvent(i)[n] == if n < |header| then header[n] else details[n - |header|];
    }
    Privacy.MasksEmptyIff(lib.isDigit, RawEvent(i));
  }

  lemma RawWellFormed(lib: Library, i: nat)
    requires ReadsTimes(lib) && i < 6
    ensures LocallyValid(lib, RawEvent(i))
  {
    HeaderRead(i);
  }

  lemma IdsDifferent(i: nat, j: nat)
    requires i < j < 6
    ensures Id(i) != Id(j)
  {
  }

  /** The program's view of event number i. */
  function EventAt(i: nat): Event
    requires i < 6
  {
    Event(Id(i), HOST, Kind(i), (START + Offset(i)) * MICROSECONDS_PER_SECOND, RawEvent(i))
  }

  function EarlyEvents(): seq<Event> { seq(6, i requires 0 <= i < 6 => EventAt(i)) }

  lemma RawViewed(lib: Library, i: nat)
    requires ReadsTimes(lib) && i < 6
    ensures View(lib, RawEvent(i)) == EventAt(i)
  {
    HeaderRead(i);
  }

  lemma EarlyTransferClean(lib: Library)
    requires Privacy.DecimalClass(lib.isDigit)
    ensures Clean(lib, EarlyTransfer()) == EarlyTransfer()
  {
    forall i | 0 <= i < 6
      ensures Cleaner(lib)(EarlyTransfer()[i]) == EarlyTransfer()[i]
    {
      RawUnchanged(lib, i);
    }
  }

  lemma EarlyTransferWellFormed(lib: Library)
    requires ReadsTimes(lib)
    ensures Filter(EarlyTransfer(), WellFormed(lib)) == EarlyTransfer()
  {
    var raw := EarlyTransfer();
    forall event | event in raw
      ensures WellFormed(lib)(event)
    {
      var i :| 0 <= i < 6 && raw[i] == event;
      RawWellFormed(lib, i);
    }
    FilterAll(raw, WellFormed(lib));
  }

  lemma RawIdsDiffer(i: nat, j: nat)
    requires i < j < 6
    ensures IdOf(RawEvent(i)) != IdOf(RawEvent(j))
  {
    HeaderRead(i);
    HeaderRead(j);
    IdsDifferent(i, j);
  }

  lemma EarlyTransferIds()
    ensures Distinct(Map(EarlyTransfer(), IdOf))
  {
    var ids := Map(EarlyTransfer(), IdOf);
    forall i, j | 0 <= i < j < 6
      ensures ids[i] != ids[j]
    {
      RawIdsDiffer(i, j);
    }
  }

  lemma EarlyTransferValid(lib: Library)
    requires ReadsTimes(lib)
    ensures ValidEvents(lib, EarlyTransfer()) == EarlyTransfer()
  {
    EarlyTransferWellFormed(lib);
    EarlyTransferIds();
    NoRepeatsKeepsAll(lib, EarlyTransfer());
  }

  lemma EarlyEventsInOrder()
    ensures Sorted(EarlyEvents(), EventOrder()) && Sorted(EarlyEvents(), TimeLe())
    ensures Distinct(Map(EarlyEvents(), IdOfEvent()))
  {
    var ids := Map(EarlyEvents(), IdOfEvent());
    forall i, j | 0 <= i < j < 6
      ensures ids[i] != ids[j]
    {
      IdsDifferent(i, j);
    }
  }

  lemma EarlyTransferCanonical(lib: Library)
    requires ReadsTimes(lib)
    ensures Canonical(lib, EarlyTransfer()) == EarlyEvents()
  {
    var views := Map(EarlyTransfer(), Viewer(lib));
    forall i | 0 <= i < 6
      ensures views[i] == EarlyEvents()[i]
    {
      RawViewed(lib, i);
    }
    assert views == EarlyEvents();
    EarlyEventsInOrder();
    SortByIdentity(EarlyEvents(), EventOrder());
  }

  lemma EarlyTransferAnalyzed(lib: Library, db: Signatures)
    requires Privacy.DecimalClass(lib.isDigit) && ReadsTimes(lib)
    ensures Analyze(lib, db, EarlyTransfer()).Analyzed?
    ensures Analyze(lib, db, EarlyTransfer()).findings
      == FindingsOn(lib, db, EarlyEvents(), |DlqEvents(lib, EarlyTransfer())|)
  {
    EarlyTransferClean(lib);
    EarlyTransferValid(lib);
    EarlyTransferCanonical(lib);
    assert EarlyTransfer() != [];
  }

  // ---------------------------------------------------------------- what the detector finds in them

  function Group(): GroupKey { GroupKey(HOST, "unknown", ADDRESS) }

  lemma {:induction false} NoneOf(event: Fields, keys: seq<string>)
    requires forall i :: 0 <= i < |keys| ==> Get(event, keys[i]) == None
    ensures FirstTruthy(event, keys) == None
  {
    if keys != [] {
      NoneOf(event, keys[1..]);
    }
  }

  lemma TransferLacks(i: nat, key: string)
    requires i < 4 && key in ["query", "dst_domain", "source_domain", "sni", "url", "object_url", "process_name"]
    ensures Get(RawEvent(i), key) == None
  {
    DetailRead(i, key);
    GetNone(Transfer(), key);
  }

  lemma NoNames(e: Fields)
    requires Get(e, "query") == None && Get(e, "dst_domain") == None && Get(e, "source_domain") == None
      && Get(e, "sni") == None
    ensures FirstTruthy(e, ["query", "dst_domain", "source_domain", "sni"]) == None
  {
    NoneOf(e, ["query", "dst_domain", "source_domain", "sni"]);
  }

  lemma TransferNoName(i: nat)
    requires i < 4
    ensures FirstTruthy(RawEvent(i), ["query", "dst_domain", "source_domain", "sni"]) == None
  {
    TransferLacks(i, "query");
    TransferLacks(i, "dst_domain");
    TransferLacks(i, "source_domain");
    TransferLacks(i, "sni");
    NoNames(RawEvent(i));
  }

  lemma TransferNoUrl(i: nat)
    requires i < 4
    ensures FirstTruthy(RawEvent(i), ["url", "object_url"]) == None
  {
    TransferLacks(i, "url");
    TransferLacks(i, "object_url");
    NoneOf(RawEvent(i), ["url", "object_url"]);
  }

  lemma TransferNoDomain(lib: Library, i: nat)
    requires i < 4
    ensures EventDomain(lib, RawEvent(i)) == ""
  {
    TransferNoName(i);
    TransferNoUrl(i);
  }

  lemma TransferDestination(lib: Library, i: nat)
    requires i < 4
    ensures Destination(lib, EventAt(i)) == ADDRESS
  {
    TransferNoDomain(lib, i);
    DetailRead(i, "dst_ip");
    GetAt(Transfer(), 0);
    assert FirstTruthy(RawEvent(i), ["dst_ip"]) == Some(Str(ADDRESS));
  }

  lemma TransferGrouped(lib: Library, i: nat)
    requires i < 4
    ensures KeyOf(lib)(EventAt(i)) == Some(Group())
  {
    TransferDestination(lib, i);
    TransferLacks(i, "process_name");
    NoneOf(RawEvent(i), ["process_name"]);
  }

  lemma FirstTransfers(lib: Library, db: Signatures)
    ensures Transfers(lib, db, HOST, EventAt(0))
  {
    var e := RawEvent(0);
    DetailRead(0, "bytes_out");
    GetAt(Transfer(), 1);
    assert FirstTruthy(e, ["bytes_out", "byte_count_out"]) == Some(Num(LARGE_OUTBOUND_BYTES));
    assert Tried("network_connection")[1] == R005;
  }

  lemma OthersUngrouped(lib: Library, i: nat)
    requires 4 <= i < 6
    ensures KeyOf(lib)(EventAt(i)) == None
  {
  }

  lemma EarlyGroup(lib: Library)
    ensures Members(EarlyEvents(), KeyOf(lib), Group()) == EarlyEvents()[..4]
  {
    var events, keep := EarlyEvents(), HasKey(KeyOf(lib), Group());
    var front, back := events[..4], events[4..];
    assert events == front + back;
    forall event | event in front
      ensures keep(event)
    {
      var i :| 0 <= i < 4 && event == front[i];
      TransferGrouped(lib, i);
    }
    forall event | event in back
      ensures !keep(event)
    {
      var i :| 0 <= i < 2 && event == back[i];
      OthersUngrouped(lib, i + 4);
    }
    SplitMembers(front, back, keep);
  }

  lemma SplitMembers(front: seq<Event>, back: seq<Event>, keep: Event -> bool)
    requires (forall event <- front :: keep(event)) && forall event <- back :: !keep(event)
    ensures Filter(front + back, keep) == front
  {
    FilterAppend(front, back, keep);
    FilterAll(front, keep);
    FilterNone(back, keep);
  }

  lemma EarlyPeriodic(lib: Library)
    ensures SomePeriodic(lib, EarlyEvents(), HOST)
  {
    EarlyGroup(lib);
    EarlyTimes();
    assert PeriodicGroup(lib, EarlyEvents(), Group()) && Group().host == HOST;
  }

  lemma EarlyTimes()
    ensures SeriesVerdict(Map(EarlyEvents()[..4], TimeOf())).Some?
  {
    var start := START * MICROSECONDS_PER_SECOND;
    forall i | 0 <= i < 4
      ensures EarlyEvents()[..4][i].time == Even(start, 60, 4)[i]
    {
    }
    assert Map(EarlyEvents()[..4], TimeOf()) == Even(start, 60, 4);
    EvenVerdict(start, 60, 4);
  }

  lemma EarlyChain(lib: Library)
    ensures Chain(lib, EarlyEvents(), HOST, 4, 5)
  {
    DetailRead(4, "hash_sha256");
    DetailRead(5, "hash_sha256");
    GetAt(Hash(), 0);
    assert SameFile(lib, EventAt(4), EventAt(5));
  }

  /** The first event is a large transfer, and the only process start is the last event. */
  lemma EarlyTooEarly(lib: Library, db: Signatures)
    ensures TransferTooEarly(lib, db, EarlyEvents(), HOST)
  {
    var events := EarlyEvents();
    EarlyPeriodic(lib);
    EarlyChain(lib);
    var i, j := ChainOrNone(lib, events, HOST);
    assert events[j].kind == "process_start";
    FirstTransfers(lib, db);
    assert events[0] in events && events[0].time <= events[j].time;
  }

  lemma EarlyIncident(lib: Library, db: Signatures) returns (k: nat)
    ensures var incidents := Incidents(lib, EarlyEvents(), Detect(lib, db, EarlyEvents()));
      k < |incidents| && !TransferAfter(EarlyEvents(), incidents[k])
  {
    EarlyEventsInOrder();
    EarlyTooEarly(lib, db);
    FalseSentenceIff(lib, db, EarlyEvents(), HOST);
    var incidents := Incidents(lib, EarlyEvents(), Detect(lib, db, EarlyEvents()));
    k :| 0 <= k < |incidents| && incidents[k].host == HOST && !TransferAfter(EarlyEvents(), incidents[k]);
  }

  /** Raw events on which the sentence fails: the analysis has an incident whose transfer came before its execution. */
  lemma TransferFirst(lib: Library, db: Signatures) returns (k: nat)
    requires Privacy.DecimalClass(lib.isDigit) && ReadsTimes(lib)
    ensures var analysis := Analyze(lib, db, EarlyTransfer());
      && analysis.Analyzed? && k < |analysis.findings.incidents|
      && !TransferAfter(analysis.findings.events, analysis.findings.incidents[k])
  {
    EarlyTransferAnalyzed(lib, db);
    k := EarlyIncident(lib, db);
  }
}
