/** Expansion of compact flow specifications, and what the beacon rule makes of it
    (src/sample_loader.py:72-106, src/detection_engine.py:576-620). */
module SampleLoader {
  import opened Prelude
  import opened Json
  import opened EventSchema
  import opened Rules
  import opened Grouping
  import opened Beacons
  import Detection

  /** A flow specification; None and the empty cycle stand for absent keys. start is in microseconds. */
  datatype FlowSpec = FlowSpec(
    host: string, start: int, count: Option<int>, interval: Option<int>, delay: Option<int>, prefix: Option<string>,
    kind: Option<string>, source: Option<string>, version: Option<string>, process: Option<string>,
    domainCycle: seq<string>, domain: Option<string>, ipCycle: seq<string>, ip: Option<string>, port: Option<int>,
    protocol: Option<string>, bytesOut: Option<int>, bytesIn: Option<int>, duration: Option<int>, asn: Option<string>)
  {
    function Count(): nat { if Else(count, 0) > 0 then Else(count, 0) else 0 }

    function Interval(): int { Else(interval, 60) }

    function Kind(): string { Else(kind, "network_connection") }

    function ProcessName(): string { Else(process, "chrome.exe") }

    function Domains(): (cycle: seq<string>)
      ensures cycle != []
    {
      if domainCycle != [] then domainCycle else [Else(domain, "intranet.company.test")]
    }

    function Ips(): (cycle: seq<string>)
      ensures cycle != []
    {
      if ipCycle != [] then ipCycle else [Else(ip, "10.10.10.10")]
    }

    /** Seconds for one turn of the destination cycle. */
    function Turn(): int { |Domains()| * Interval() }

    function TimeAt(index: nat): int { start + Interval() * index * MICROSECONDS_PER_SECOND }
  }

  /** spec.get(key, default) */
  function Else<T>(given: Option<T>, default: T): T { if given.Some? then given.value else default }

  /** isoformat(timespec="seconds"): the text of a time, its fraction of a second dropped. */
  type Format = int -> string

  ghost predicate Reads(lib: Library, format: Format) {
    forall t :: lib.parseTime(format(t)) == Some(t - t % MICROSECONDS_PER_SECOND)
  }

  function FlowEvent(format: Format, spec: FlowSpec, index: nat): Fields {
    [ ("event_id", Str(Else(spec.prefix, "generated-flow") + "-" + ThreeDigits(index + 1))),
      ("event_time", Str(format(spec.TimeAt(index)))),
      ("received_time", Str(format(spec.TimeAt(index) + Else(spec.delay, 2) * MICROSECONDS_PER_SECOND))),
      ("host_id", Str(spec.host)),
      ("event_type", Str(spec.Kind())),
      ("source", Str(Else(spec.source, "agent"))),
      ("payload_version", Str(Else(spec.version, "v1"))),
      ("process_name", Str(spec.ProcessName())),
      ("dst_domain", Str(spec.Domains()[index % |spec.Domains()|])),
      ("dst_ip", Str(spec.Ips()[index % |spec.Ips()|])),
      ("dst_port", Num(Else(spec.port, 443))),
      ("protocol", Str(Else(spec.protocol, "tcp"))),
      ("bytes_out", Num(Else(spec.bytesOut, 18_000))),
      ("bytes_in", Num(Else(spec.bytesIn, 82_000))),
      ("duration_ms", Num(Else(spec.duration, 3_200))),
      ("destination_asn", Str(Else(spec.asn, "AS15169"))) ]
  }

  function Flow(format: Format, spec: FlowSpec): seq<Fields> {
    seq(spec.Count(), i requires 0 <= i < spec.Count() => FlowEvent(format, spec, i))
  }

  function FlowOf(format: Format): FlowSpec -> seq<Fields> { (spec: FlowSpec) => Flow(format, spec) }

  lemma FlowSnoc(format: Format, spec: FlowSpec, index: nat)
    requires index < spec.Count()
    ensures Flow(format, spec)[..index + 1] == Flow(format, spec)[..index] + [FlowEvent(format, spec, index)]
  {
    var flow := Flow(format, spec);
    assert flow[..index + 1] == flow[..index] + [flow[index]];
  }

  /** Every flow, one event per index. */
  method ExpandGeneratedFlows(format: Format, specs: seq<FlowSpec>) returns (events: seq<Fields>)
    ensures events == FlatMap(specs, FlowOf(format))
  {
    events := [];
    ghost var f := FlowOf(format);
    for s := 0 to |specs|
      invariant events == FlatMap(specs[..s], f)
    {
      FlatMapStep(specs, s, f);
      ghost var before := events;
      var spec := specs[s];
      for index := 0 to spec.Count()
        invariant events == before + Flow(format, spec)[..index]
      {
        FlowSnoc(format, spec, index);
        events := events + [FlowEvent(format, spec, index)];
      }
      assert Flow(format, spec)[..spec.Count()] == Flow(format, spec);
    }
    assert specs[..|specs|] == specs;
  }

  // ---------------------------------------------------------------- reading a generated event

  lemma FlowId(format: Format, spec: FlowSpec, index: nat)
    ensures Get(FlowEvent(format, spec, index), "event_id")
         == Some(Str(Else(spec.prefix, "generated-flow") + "-" + ThreeDigits(index + 1)))
  {
    GetAt(FlowEvent(format, spec, index), 0);
  }

  lemma FlowTimes(format: Format, spec: FlowSpec, index: nat)
    ensures var e := FlowEvent(format, spec, index);
      && Get(e, "event_time") == Some(Str(format(spec.TimeAt(index))))
      && Get(e, "received_time") == Some(Str(format(spec.TimeAt(index)
           + Else(spec.delay, 2) * MICROSECONDS_PER_SECOND)))
  {
    var e := FlowEvent(format, spec, index);
    GetAt(e, 1);
    GetAt(e, 2);
  }

  lemma FlowHost(format: Format, spec: FlowSpec, index: nat)
    ensures Get(FlowEvent(format, spec, index), "host_id") == Some(Str(spec.host))
  {
    GetAt(FlowEvent(format, spec, index), 3);
  }

  lemma FlowKind(format: Format, spec: FlowSpec, index: nat)
    ensures Get(FlowEvent(format, spec, index), "event_type") == Some(Str(spec.Kind()))
  {
    GetAt(FlowEvent(format, spec, index), 4);
  }

  lemma FlowSource(format: Format, spec: FlowSpec, index: nat)
    ensures Has(FlowEvent(format, spec, index), "source") && Has(FlowEvent(format, spec, index), "payload_version")
  {
    var e := FlowEvent(format, spec, index);
    GetAt(e, 5);
    GetAt(e, 6);
  }

  lemma FlowProcess(format: Format, spec: FlowSpec, index: nat)
    ensures Get(FlowEvent(format, spec, index), "process_name") == Some(Str(spec.ProcessName()))
  {
    GetAt(FlowEvent(format, spec, index), 7);
  }

  lemma FlowDomain(format: Format, spec: FlowSpec, index: nat)
    ensures Get(FlowEvent(format, spec, index), "dst_domain") == Some(Str(spec.Domains()[index % |spec.Domains()|]))
  {
    GetAt(FlowEvent(format, spec, index), 8);
  }

  lemma FlowQuery(format: Format, spec: FlowSpec, index: nat)
    ensures Get(FlowEvent(format, spec, index), "query") == None
  {
    GetNone(FlowEvent(format, spec, index), "query");
  }

  /** Generated events pass validation whenever their type is a supported one, and their ids differ within a flow. */
  lemma FlowValid(lib: Library, format: Format, spec: FlowSpec, index: nat, other: nat)
    requires Reads(lib, format) && spec.Kind() in SUPPORTED_TYPES
    ensures LocallyValid(lib, FlowEvent(format, spec, index))
    ensures index != other ==> IdOf(FlowEvent(format, spec, index)) != IdOf(FlowEvent(format, spec, other))
  {
    FlowWellFormed(lib, format, spec, index);
    FlowIdsDiffer(format, spec, index, other);
  }

  lemma FlowWellFormed(lib: Library, format: Format, spec: FlowSpec, index: nat)
    requires Reads(lib, format) && spec.Kind() in SUPPORTED_TYPES
    ensures LocallyValid(lib, FlowEvent(format, spec, index))
  {
    FlowId(format, spec, index);
    FlowTimes(format, spec, index);
    FlowHost(format, spec, index);
    FlowKind(format, spec, index);
    FlowSource(format, spec, index);
  }

  lemma IdsApart(e: Fields, other: Fields, prefix: string, a: nat, b: nat)
    requires Get(e, "event_id") == Some(Str(prefix + ThreeDigits(a)))
    requires Get(other, "event_id") == Some(Str(prefix + ThreeDigits(b)))
    ensures a != b ==> IdOf(e) != IdOf(other)
  {
    if a != b {
      NumberedApart(prefix, a, b);
    }
  }

  lemma FlowIdsDiffer(format: Format, spec: FlowSpec, index: nat, other: nat)
    ensures index != other ==> IdOf(FlowEvent(format, spec, index)) != IdOf(FlowEvent(format, spec, other))
  {
    var prefix := Else(spec.prefix, "generated-flow") + "-";
    FlowId(format, spec, index);
    FlowId(format, spec, other);
    IdsApart(FlowEvent(format, spec, index), FlowEvent(format, spec, other), prefix, index + 1, other + 1);
  }

  // ---------------------------------------------------------------- the groups of a cyclic flow

  /** Destinations of the cycle as the detector compares them. */
  function DestinationAt(lib: Library, spec: FlowSpec, j: nat): string
    requires j < |spec.Domains()|
  {
    Lower(lib, spec.Domains()[j])
  }

  function FlowKey(lib: Library, spec: FlowSpec, j: nat): GroupKey
    requires j < |spec.Domains()|
  {
    GroupKey(spec.host, if spec.ProcessName() == "" then "unknown" else spec.ProcessName(), DestinationAt(lib, spec, j))
  }

  /** A flow of connections to different non-empty destinations, forward in time. */
  ghost predicate Cyclic(lib: Library, spec: FlowSpec) {
    && spec.Kind() == "network_connection" && spec.Interval() >= 0
    && (forall i :: 0 <= i < |spec.Domains()| ==> DestinationAt(lib, spec, i) != "")
    && (forall i, j :: 0 <= i < j < |spec.Domains()| ==> DestinationAt(lib, spec, i) != DestinationAt(lib, spec, j))
  }

  function Truncated(t: int): int { t - t % MICROSECONDS_PER_SECOND }

  /** The detector's reading of event index: its group is that of its place in the cycle, its time is on the grid. */
  lemma FlowEventRead(lib: Library, format: Format, spec: FlowSpec, index: nat)
    requires Reads(lib, format) && Cyclic(lib, spec)
    ensures var event := View(lib, FlowEvent(format, spec, index));
      && KeyOf(lib)(event) == Some(FlowKey(lib, spec, index % |spec.Domains()|))
      && event.time == Truncated(spec.TimeAt(index))
  {
    FlowTimes(format, spec, index);
    FlowHost(format, spec, index);
    FlowKind(format, spec, index);
    FlowProcess(format, spec, index);
    FlowDomain(format, spec, index);
    FlowQuery(format, spec, index);
    var e := FlowEvent(format, spec, index);
    var domain := spec.Domains()[index % |spec.Domains()|];
    assert DestinationAt(lib, spec, index % |spec.Domains()|) != "";
    DomainRead(lib, e, domain);
    ProcessRead(lib, View(lib, e), spec.ProcessName());
  }

  lemma DifferentKeys(lib: Library, spec: FlowSpec, a: nat, b: nat)
    requires Cyclic(lib, spec) && a < |spec.Domains()| && b < |spec.Domains()|
    ensures FlowKey(lib, spec, a) == FlowKey(lib, spec, b) <==> a == b
  {
    if a < b {
      assert DestinationAt(lib, spec, a) != DestinationAt(lib, spec, b);
    } else if b < a {
      assert DestinationAt(lib, spec, b) != DestinationAt(lib, spec, a);
    }
  }

  lemma DomainRead(lib: Library, e: Fields, domain: string)
    requires Get(e, "query") == None && Get(e, "dst_domain") == Some(Str(domain)) && Lower(lib, domain) != ""
    ensures EventDomain(lib, e) == Lower(lib, domain)
  {
    assert domain != "";
    var keys := ["query", "dst_domain", "source_domain", "sni"];
    assert keys[0] == "query" && keys[1..] == ["dst_domain", "source_domain", "sni"];
    assert FirstTruthy(e, keys) == FirstTruthy(e, keys[1..]) == Some(Str(domain));
  }

  lemma ProcessRead(lib: Library, event: Event, name: string)
    requires Get(event.fields, "process_name") == Some(Str(name))
    ensures Process(lib, event) == if name == "" then "unknown" else name
  {
    var keys := ["process_name"];
    assert keys[0] == "process_name" && keys[1..] == [];
    assert Look(event.fields, "process_name") == Str(name);
    assert FirstTruthy(event.fields, keys) == if name == "" then None else Some(Str(name));
  }

  /** Indices of the flow that fall on destination j. */
  function Share(count: nat, m: nat, j: nat): seq<nat>
    requires m > 0
  {
    if count == 0 then [] else Share(count - 1, m, j) + (if (count - 1) % m == j then [count - 1] else [])
  }

  lemma NextRemainder(n: nat, m: nat)
    requires m > 0
    ensures n % m == m - 1 ==> (n + 1) / m == n / m + 1 && (n + 1) % m == 0
    ensures n % m != m - 1 ==> (n + 1) / m == n / m && (n + 1) % m == n % m + 1
  {
    var q, r := n / m, n % m;
    assert n == m * q + r;
    if r == m - 1 {
      assert n + 1 == m * (q + 1);
      QuotientIs(n + 1, m, q + 1, 0);
    } else {
      QuotientIs(n + 1, m, q, r + 1);
    }
  }

  lemma QuotientIs(n: int, m: nat, q: int, r: nat)
    requires m > 0 && n == m * q + r && r < m
    ensures n / m == q && n % m == r
  {
    var d := n / m - q;
    assert m * d == r - n % m;
    TimesAtLeast(m, d);
  }

  lemma TimesAtLeast(m: nat, d: int)
    ensures d >= 1 ==> m * d >= m
    ensures d <= -1 ==> m * d <= -(m as int)
  {
    assert m * d == m * (d - 1) + m == m * (d + 1) - m;
  }

  lemma QuotientRemainder(n: nat, m: nat)
    requires m > 0
    ensures n == m * (n / m) + n % m && n % m < m
  {
  }

  lemma ShareGrows(share: seq<nat>, n: nat, m: nat, j: nat, q: nat, r: nat)
    requires n == m * q + r && |share| == q + (if r > j then 1 else 0)
    requires forall t :: 0 <= t < |share| ==> share[t] == j + m * t
    ensures var next := share + (if r == j then [n] else []);
      |next| == q + (if r >= j then 1 else 0) && forall t :: 0 <= t < |next| ==> next[t] == j + m * t
  {
  }

  /** The share is j, j + m, j + 2m, ... with one element for each turn of the cycle that reaches j. */
  lemma {:induction false} ShareIs(count: nat, m: nat, j: nat)
    requires j < m
    ensures |Share(count, m, j)| == count / m + (if count % m > j then 1 else 0)
    ensures forall t :: 0 <= t < |Share(count, m, j)| ==> Share(count, m, j)[t] == j + m * t
  {
    if count > 0 {
      var n := count - 1;
      ShareIs(n, m, j);
      QuotientRemainder(n, m);
      ShareGrows(Share(n, m, j), n, m, j, n / m, n % m);
      NextRemainder(n, m);
    }
  }

  function Tabulate<T>(n: nat, f: nat -> T): seq<T> { seq(n, i requires 0 <= i < n => f(i)) }

  lemma TabulateSnoc<T>(n: nat, f: nat -> T)
    ensures Tabulate(n + 1, f) == Tabulate(n, f) + [f(n)]
  {
  }

  function Views(lib: Library, format: Format, spec: FlowSpec, n: nat): seq<Event> {
    Tabulate(n, ViewAt(lib, format, spec))
  }

  function ViewAt(lib: Library, format: Format, spec: FlowSpec): nat -> Event {
    (i: nat) => View(lib, FlowEvent(format, spec, i))
  }

  /** Destination j's group holds exactly the events of its share. */
  lemma {:induction false} FlowGroup(lib: Library, format: Format, spec: FlowSpec, n: nat, j: nat)
    requires Reads(lib, format) && Cyclic(lib, spec) && j < |spec.Domains()|
    ensures Members(Views(lib, format, spec, n), KeyOf(lib), FlowKey(lib, spec, j))
      == Map(Share(n, |spec.Domains()|, j), ViewAt(lib, format, spec))
  {
    if n > 0 {
      var key, k := KeyOf(lib), FlowKey(lib, spec, j);
      var front, last := Views(lib, format, spec, n - 1), View(lib, FlowEvent(format, spec, n - 1));
      FlowGroup(lib, format, spec, n - 1, j);
      ViewsSnoc(lib, format, spec, n - 1);
      MembersSnoc(front, last, key, k);
      InGroupIff(lib, format, spec, n - 1, j);
      ShareMap(n - 1, |spec.Domains()|, j, ViewAt(lib, format, spec));
    }
  }

  lemma ShareMap<T>(n: nat, m: nat, j: nat, f: nat -> T)
    requires m > 0
    ensures Map(Share(n + 1, m, j), f) == Map(Share(n, m, j), f) + (if n % m == j then [f(n)] else [])
  {
    var next: seq<nat> := if n % m == j then [n] else [];
    MapAppend(Share(n, m, j), next, f);
  }

  lemma InGroupIff(lib: Library, format: Format, spec: FlowSpec, index: nat, j: nat)
    requires Reads(lib, format) && Cyclic(lib, spec) && j < |spec.Domains()|
    ensures KeyOf(lib)(View(lib, FlowEvent(format, spec, index))) == Some(FlowKey(lib, spec, j))
      <==> index % |spec.Domains()| == j
  {
    FlowEventRead(lib, format, spec, index);
    DifferentKeys(lib, spec, index % |spec.Domains()|, j);
  }

  lemma ViewsSnoc(lib: Library, format: Format, spec: FlowSpec, n: nat)
    ensures Views(lib, format, spec, n + 1) == Views(lib, format, spec, n) + [ViewAt(lib, format, spec)(n)]
  {
    TabulateSnoc(n, ViewAt(lib, format, spec));
  }

  // ---------------------------------------------------------------- the times of a group

  lemma TurnForward(spec: FlowSpec)
    requires spec.Interval() >= 0
    ensures spec.Turn() >= 0
  {
  }

  /** The times of destination j's group form an even series with the cycle's step. */
  lemma ShareTimes(lib: Library, format: Format, spec: FlowSpec, j: nat)
    requires Reads(lib, format) && Cyclic(lib, spec) && j < |spec.Domains()|
    ensures var share := Share(spec.Count(), |spec.Domains()|, j);
      Map(Map(share, ViewAt(lib, format, spec)), TimeOf())
        == Even(Truncated(spec.TimeAt(j)), spec.Turn(), |share|)
  {
    var m, d := |spec.Domains()|, spec.Interval();
    var share := Share(spec.Count(), m, j);
    ShareIs(spec.Count(), m, j);
    var times := Map(Map(share, ViewAt(lib, format, spec)), TimeOf());
    forall t | 0 <= t < |share|
      ensures times[t] == Even(Truncated(spec.TimeAt(j)), spec.Turn(), |share|)[t]
    {
      FlowEventRead(lib, format, spec, share[t]);
      GridTime(spec, j, m, t);
    }
  }

  lemma GridTime(spec: FlowSpec, j: nat, m: nat, t: nat)
    ensures Truncated(spec.TimeAt(j + m * t)) == Truncated(spec.TimeAt(j))
      + m * spec.Interval() * t * MICROSECONDS_PER_SECOND
  {
    var d := spec.Interval();
    assert d * (j + m * t) == d * j + m * d * t;
    TruncatedShift(spec.TimeAt(j), m * d * t);
  }

  lemma TruncatedShift(t: int, seconds: int)
    ensures Truncated(t + seconds * MICROSECONDS_PER_SECOND) == Truncated(t) + seconds * MICROSECONDS_PER_SECOND
  {
  }

  // ---------------------------------------------------------------- detection of a cyclic flow

  /** events are the flow and others in any order, and no other event is in one of the flow's groups. */
  ghost predicate Carries(lib: Library, format: Format, spec: FlowSpec, events: seq<Event>, others: seq<Event>) {
    && multiset(events) == multiset(Views(lib, format, spec, spec.Count()) + others)
    && forall o <- others :: forall j :: 0 <= j < |spec.Domains()| ==> KeyOf(lib)(o) != Some(FlowKey(lib, spec, j))
  }

  lemma CarriedGroup(lib: Library, format: Format, spec: FlowSpec, events: seq<Event>, others: seq<Event>, j: nat)
    requires Reads(lib, format) && Cyclic(lib, spec) && j < |spec.Domains()|
      && Carries(lib, format, spec, events, others)
    ensures var group := Members(events, KeyOf(lib), FlowKey(lib, spec, j));
      var share := Share(spec.Count(), |spec.Domains()|, j);
      && |group| == |share|
      && SeriesVerdict(Map(group, TimeOf())) == SeriesVerdict(Even(Truncated(spec.TimeAt(j)), spec.Turn(), |share|))
  {
    var flow, k := Views(lib, format, spec, spec.Count()), FlowKey(lib, spec, j);
    var keep := HasKey(KeyOf(lib), k);
    var group, mine := Filter(events, keep), Filter(flow, keep);
    FilterPermuted(events, flow + others, keep);
    FilterAppend(flow, others, keep);
    FilterNone(others, keep);
    assert mine + [] == mine;
    assert |group| == |multiset(group)| == |multiset(mine)| == |mine|;
    FlowGroup(lib, format, spec, spec.Count(), j);
    ShareTimes(lib, format, spec, j);
    MapPermuted(mine, group, TimeOf());
    SeriesVerdictInvariant(Map(mine, TimeOf()), Map(group, TimeOf()), 0);
  }

  /** What the beacon rule finds in destination j's group of n events. */
  lemma FlowVerdict(lib: Library, format: Format, spec: FlowSpec, events: seq<Event>, others: seq<Event>, j: nat)
    returns (verdict: Option<Beacon>, n: nat, turn: nat)
    requires Reads(lib, format) && Cyclic(lib, spec) && j < |spec.Domains()|
      && Carries(lib, format, spec, events, others)
    ensures verdict == SeriesVerdict(Map(Members(events, KeyOf(lib), FlowKey(lib, spec, j)), TimeOf()))
    ensures n == |Members(events, KeyOf(lib), FlowKey(lib, spec, j))| == |Share(spec.Count(), |spec.Domains()|, j)|
    ensures turn == spec.Turn()
    ensures n >= 4 ==> verdict == if turn <= MAX_INTERVAL then Some(Beacon(turn, n - 1, n)) else None
  {
    TurnForward(spec);
    n, turn := |Share(spec.Count(), |spec.Domains()|, j)|, spec.Turn();
    var start := Truncated(spec.TimeAt(j));
    verdict := SeriesVerdict(Even(start, turn, n));
    CarriedGroup(lib, format, spec, events, others, j);
    if n >= 4 {
      EvenVerdict(start, turn, n);
    }
  }

  /**
   * Events with different ids: an event of destination j is named by a beacon alert exactly when at least four events
   * fall on it and one turn of the cycle takes at most two minutes, and that alert's interval is the turn.
   */
  lemma CyclicFlowDetected(lib: Library, format: Format, spec: FlowSpec, events: seq<Event>, others: seq<Event>, j: nat)
    requires Reads(lib, format) && Cyclic(lib, spec) && j < |spec.Domains()|
      && Carries(lib, format, spec, events, others)
    requires Distinct(Map(events, IdOfEvent()))
    ensures Reported(lib, events, FlowKey(lib, spec, j))
      <==> (|Share(spec.Count(), |spec.Domains()|, j)| >= 4 && spec.Turn() <= MAX_INTERVAL)
    ensures forall alert <- BeaconAlerts(lib, events) :: NamesGroup(lib, events, FlowKey(lib, spec, j), alert) ==>
      alert.beacon.Some? && alert.beacon.value.interval == spec.Turn()
  {
    var k := FlowKey(lib, spec, j);
    var verdict, n, turn := FlowVerdict(lib, format, spec, events, others, j);
    ReportedIff(lib, events, k);
    forall alert | alert in BeaconAlerts(lib, events) && NamesGroup(lib, events, k, alert)
      ensures ReportsGroup(lib, events, k, alert)
    {
      NamedGroup(lib, events, k, alert);
    }
  }

  // ---------------------------------------------------------------- detection in raw input

  /** Masking finds nothing to change in the flow. */
  ghost predicate Unmasked(lib: Library, format: Format, spec: FlowSpec) {
    Privacy.DecimalClass(lib.isDigit) && forall e <- Flow(format, spec) :: Privacy.Sanitized(lib.isDigit, e)
  }

  /**
   * The input contains the flow, its events perhaps several times, and no other well-formed event of the input is in
   * one of the flow's groups.
   */
  ghost predicate Loads(lib: Library, format: Format, spec: FlowSpec, raw: seq<Fields>) {
    && (forall e <- Flow(format, spec) :: e in raw)
    && forall e <- Clean(lib, raw) :: LocallyValid(lib, e) && e !in Flow(format, spec) ==>
         forall j :: 0 <= j < |spec.Domains()| ==> KeyOf(lib)(View(lib, e)) != Some(FlowKey(lib, spec, j))
  }

  lemma FlowViews(lib: Library, format: Format, spec: FlowSpec)
    ensures Map(Flow(format, spec), Detection.Viewer(lib)) == Views(lib, format, spec, spec.Count())
  {
  }

  lemma FlowDistinct(format: Format, spec: FlowSpec)
    ensures Distinct(Flow(format, spec))
  {
    var flow := Flow(format, spec);
    forall i, j | 0 <= i < j < |flow|
      ensures flow[i] != flow[j]
    {
      FlowIdsDiffer(format, spec, i, j);
    }
  }

  lemma FlowIsValid(lib: Library, format: Format, spec: FlowSpec, raw: seq<Fields>, e: Fields)
    requires Reads(lib, format) && Cyclic(lib, spec) && Unmasked(lib, format, spec) && Loads(lib, format, spec, raw)
    requires RepeatsAgree(lib, Clean(lib, raw)) && e in Flow(format, spec)
    ensures e in ValidEvents(lib, Clean(lib, raw))
  {
    var i :| 0 <= i < |Flow(format, spec)| && Flow(format, spec)[i] == e;
    FlowValid(lib, format, spec, i, i);
    Privacy.MasksEmptyIff(lib.isDigit, e);
    assert e in raw;
    var r :| 0 <= r < |raw| && raw[r] == e;
    assert Clean(lib, raw)[r] == e;
    RepeatsKeepOne(lib, Clean(lib, raw), e);
  }

  function Outside(flow: seq<Fields>): Fields -> bool { (e: Fields) => e !in flow }

  /** A list without repetitions is a part of it and the others, rearranged. */
  lemma PartAndOthers(valid: seq<Fields>, flow: seq<Fields>)
    requires Distinct(valid) && Distinct(flow) && forall e <- flow :: e in valid
    ensures multiset(valid) == multiset(flow + Filter(valid, Outside(flow)))
  {
    var others := Filter(valid, Outside(flow));
    FilterDistinct(valid, Outside(flow));
    forall e
      ensures e in others <==> e in valid && e !in flow
    {
      if e in valid && e !in flow {
        FilterHas(valid, Outside(flow), e);
      }
    }
    DistinctAppend(flow, others);
    SameElements(valid, flow + others);
  }

  /** The valid events other than the flow's, as the detector reads them. */
  ghost function OtherEvents(lib: Library, format: Format, spec: FlowSpec, raw: seq<Fields>): seq<Event> {
    Map(Filter(ValidEvents(lib, Clean(lib, raw)), Outside(Flow(format, spec))), Detection.Viewer(lib))
  }

  /** The valid events are the flow and the others, rearranged. */
  lemma ValidCarries(lib: Library, format: Format, spec: FlowSpec, raw: seq<Fields>)
    requires Reads(lib, format) && Cyclic(lib, spec) && Unmasked(lib, format, spec) && Loads(lib, format, spec, raw)
    requires RepeatsAgree(lib, Clean(lib, raw))
    ensures multiset(Map(ValidEvents(lib, Clean(lib, raw)), Detection.Viewer(lib)))
      == multiset(Views(lib, format, spec, spec.Count()) + OtherEvents(lib, format, spec, raw))
  {
    var valid, flow, view := ValidEvents(lib, Clean(lib, raw)), Flow(format, spec), Detection.Viewer(lib);
    KeptIdsDistinct(lib, Clean(lib, raw));
    DistinctByKey(valid, IdOf);
    FlowDistinct(format, spec);
    forall e | e in flow
      ensures e in valid
    {
      FlowIsValid(lib, format, spec, raw, e);
    }
    PartAndOthers(valid, flow);
    FlowViews(lib, format, spec);
    MapPermuted(valid, flow + Filter(valid, Outside(flow)), view);
    MapAppend(flow, Filter(valid, Outside(flow)), view);
  }

  lemma OthersApart(lib: Library, format: Format, spec: FlowSpec, raw: seq<Fields>)
    requires Loads(lib, format, spec, raw)
    ensures forall o <- OtherEvents(lib, format, spec, raw) ::
      forall k :: 0 <= k < |spec.Domains()| ==> KeyOf(lib)(o) != Some(FlowKey(lib, spec, k))
  {
    var valid, outside := ValidEvents(lib, Clean(lib, raw)), Outside(Flow(format, spec));
    forall o | o in OtherEvents(lib, format, spec, raw)
      ensures forall k :: 0 <= k < |spec.Domains()| ==> KeyOf(lib)(o) != Some(FlowKey(lib, spec, k))
    {
      var i :| 0 <= i < |OtherEvents(lib, format, spec, raw)| && OtherEvents(lib, format, spec, raw)[i] == o;
      var e := Filter(valid, outside)[i];
      assert e in Filter(valid, outside);
      ValidFrom(lib, Clean(lib, raw), e);
    }
  }

  lemma LoadedCarries(lib: Library, format: Format, spec: FlowSpec, raw: seq<Fields>)
    requires Reads(lib, format) && Cyclic(lib, spec) && Unmasked(lib, format, spec) && Loads(lib, format, spec, raw)
    requires Detection.TextRepeatsAgree(lib, raw)
    ensures var events := Detection.Canonical(lib, ValidEvents(lib, Clean(lib, raw)));
      && Carries(lib, format, spec, events, OtherEvents(lib, format, spec, raw))
      && Distinct(Map(events, IdOfEvent()))
  {
    var valid := ValidEvents(lib, Clean(lib, raw));
    Detection.TextRepeatsKept(lib, raw);
    Detection.CanonicalDiffer(lib, valid);
    ValidCarries(lib, format, spec, raw);
    Detection.EventOrderTotal();
    SortByCorrect(Map(valid, Detection.Viewer(lib)), Detection.EventOrder());
    OthersApart(lib, format, spec, raw);
  }

  /** Each R004 alert of the analysis that names an event of the group has the interval. */
  ghost predicate NamedWith(lib: Library, f: Detection.Findings, k: GroupKey, interval: int) {
    forall i :: 0 <= i < |f.alerts| && f.alerts[i].rule == R004 && NamesGroup(lib, f.events, k, f.alerts[i]) ==>
      f.alerts[i].beacon.Some? && f.alerts[i].beacon.value.interval == interval
  }

  /**
   * An R004 alert names an event of destination j exactly when at least four events fall on it and one turn takes at
   * most two minutes, and its interval is the turn.
   */
  ghost predicate DetectedExactly(lib: Library, spec: FlowSpec, f: Detection.Findings, j: nat)
    requires j < |spec.Domains()|
  {
    var k := FlowKey(lib, spec, j);
    && Detection.BeaconNamed(lib, f, k)
         == (|Share(spec.Count(), |spec.Domains()|, j)| >= 4 && spec.Turn() <= MAX_INTERVAL)
    && NamedWith(lib, f, k, spec.Turn())
  }

  lemma NamedIntervals(lib: Library, db: Signatures, events: seq<Event>, letters: nat, k: GroupKey, interval: int)
    requires forall alert <- BeaconAlerts(lib, events) :: NamesGroup(lib, events, k, alert) ==>
      alert.beacon.Some? && alert.beacon.value.interval == interval
    ensures NamedWith(lib, Detection.FindingsOn(lib, db, events, letters), k, interval)
  {
    var alerts := Detection.Detect(lib, db, events);
    forall i | 0 <= i < |alerts| && alerts[i].rule == R004 && NamesGroup(lib, events, k, alerts[i])
      ensures alerts[i].beacon.Some? && alerts[i].beacon.value.interval == interval
    {
      var plain := Detection.PlainAlert(lib, db, events, i);
      Detection.SameNames(lib, events, k, plain, alerts[i]);
    }
  }

  /** The flow in the findings on events that carry it. */
  lemma FlowInFindings(lib: Library, db: Signatures, format: Format, spec: FlowSpec, events: seq<Event>,
                       others: seq<Event>, letters: nat, j: nat)
    requires Reads(lib, format) && Cyclic(lib, spec) && j < |spec.Domains()|
      && Carries(lib, format, spec, events, others) && Distinct(Map(events, IdOfEvent()))
    ensures DetectedExactly(lib, spec, Detection.FindingsOn(lib, db, events, letters), j)
  {
    CyclicFlowDetected(lib, format, spec, events, others, j);
    Detection.BeaconNamedIff(lib, db, events, letters, FlowKey(lib, spec, j));
    ReportedIff(lib, events, FlowKey(lib, spec, j));
    NamedIntervals(lib, db, events, letters, FlowKey(lib, spec, j), spec.Turn());
  }

  /** The same for every analysis of raw input that contains the flow anywhere, events perhaps delivered twice. */
  lemma LoadedFlowDetected(lib: Library, db: Signatures, format: Format, spec: FlowSpec, raw: seq<Fields>, j: nat)
    requires Reads(lib, format) && Cyclic(lib, spec) && Unmasked(lib, format, spec) && j < |spec.Domains()|
    requires Loads(lib, format, spec, raw) && Detection.TextRepeatsAgree(lib, raw)
    ensures var a := Detection.Analyze(lib, db, raw);
      a.Analyzed? ==> DetectedExactly(lib, spec, a.findings, j)
  {
    var events := Detection.Canonical(lib, ValidEvents(lib, Clean(lib, raw)));
    LoadedCarries(lib, format, spec, raw);
    var letters := Detection.AnalyzedFindings(lib, db, raw, events);
    FlowInFindings(lib, db, format, spec, events, OtherEvents(lib, format, spec, raw), letters, j);
  }
}
