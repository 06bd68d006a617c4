/** What validation accepts and what its error records and privacy records say, in field names
    (src/detection_engine.py:136-262, src/config.py:50-92), and generated events (src/sample_loader.py:72-106). */
module Intake {
  import opened Prelude
  import opened Json
  import opened EventSchema
  import opened Rules
  import opened Detection
  import opened Scores
  import opened SampleLoader
  import Privacy

  /** The event has the key. */
  predicate Given(event: Fields, key: string) { exists i :: 0 <= i < |event| && event[i].0 == key }

  lemma {:induction false} GivenIff(event: Fields, key: string)
    ensures Has(event, key) <==> Given(event, key)
    ensures Given(event, key) ==> exists i :: 0 <= i < |event| && event[i] == (key, Look(event, key))
    ensures !Given(event, key) ==> Look(event, key) == Null
  {
    if event != [] {
      GivenIff(event[1..], key);
      if Given(event[1..], key) {
        var i :| 0 <= i < |event[1..]| && event[1..][i] == (key, Look(event[1..], key));
        assert event[i + 1] == (key, Look(event[1..], key));
      } else {
        assert forall i :: 1 <= i < |event| ==> event[i] == event[1..][i - 1];
      }
      if event[0].0 == key {
        assert event[0] == (key, Look(event, key));
      }
    }
  }

  // ---------------------------------------------------------------- well-formed events

  predicate Required(name: string) {
    name in ["event_id", "event_time", "event_type", "host_id", "payload_version", "received_time", "source"]
  }

  predicate Supported(kind: string) {
    kind in ["process_start", "process_stop", "file_download", "dns_query", "network_connection", "flow_summary",
             "vpn_tunnel", "autorun_entry", "usb_event", "http_request", "decryption_event", "application_action",
             "signature_match", "response_action", "ai_prediction", "pipeline_delivery"]
  }

  /** A type that is given must be a supported one, unless it is null, false, zero or empty. */
  predicate TypeOk(event: Fields) {
    var kind := Look(event, "event_type");
    (kind.Str? && Supported(kind.text)) || kind in [Null, Bool(false), Num(0), Real(0.0), Str(""), List([]), Obj(map[])]
  }

  /** A time that is given must be readable from its text. */
  predicate TimeOk(lib: Library, event: Fields, key: string) {
    var given := Look(event, key);
    Given(event, key) ==> lib.parseTime(if given.Str? then given.text else lib.str(given)).Some?
  }

  lemma SupportedIff(kind: string)
    ensures kind in SUPPORTED_TYPES <==> Supported(kind)
  {
  }

  lemma FalseIff(v: Value)
    ensures !Truthy(v) <==> v in [Null, Bool(false), Num(0), Real(0.0), Str(""), List([]), Obj(map[])]
  {
  }

  lemma TypeIff(event: Fields)
    ensures TypeFits(event) <==> TypeOk(event)
  {
    var kind := Look(event, "event_type");
    FalseIff(kind);
    if kind.Str? {
      SupportedIff(kind.text);
    }
  }

  lemma TimeIff(lib: Library, event: Fields, key: string)
    ensures TimeFits(lib, event, key) <==> TimeOk(lib, event, key)
  {
    GivenIff(event, key);
  }

  /** Well formed: the seven required fields, a supported type, two readable times. */
  lemma WellFormedIff(lib: Library, event: Fields)
    ensures LocallyValid(lib, event) <==>
      && (forall name: string :: Required(name) ==> Given(event, name))
      && TypeOk(event) && TimeOk(lib, event, "event_time") && TimeOk(lib, event, "received_time")
  {
    TypeIff(event);
    TimeIff(lib, event, "event_time");
    TimeIff(lib, event, "received_time");
    forall name: string
      ensures Has(event, name) <==> Given(event, name)
      ensures Required(name) <==> name in REQUIRED_FIELDS
    {
      GivenIff(event, name);
    }
  }

  // ---------------------------------------------------------------- the errors of a dead letter

  function Absence(event: Fields, name: string): seq<string> { if Given(event, name) then [] else [name] }

  /** The required fields the event lacks, in alphabetical order. */
  function Absent(event: Fields): seq<string> {
    Absence(event, "event_id")
    + (Absence(event, "event_time")
       + (Absence(event, "event_type")
          + (Absence(event, "host_id")
             + (Absence(event, "payload_version") + (Absence(event, "received_time") + Absence(event, "source"))))))
  }

  lemma MissingCons(event: Fields, name: string, names: seq<string>)
    ensures Missing(event, [name] + names) == Absence(event, name) + Missing(event, names)
  {
    GivenIff(event, name);
    ConsTail(name, names);
  }

  lemma MissingLast(event: Fields)
    ensures Missing(event, ["payload_version", "received_time", "source"])
         == Absence(event, "payload_version") + (Absence(event, "received_time") + Absence(event, "source"))
  {
    MissingCons(event, "payload_version", ["received_time", "source"]);
    MissingCons(event, "received_time", ["source"]);
    MissingCons(event, "source", []);
    assert ["payload_version", "received_time", "source"] == ["payload_version"] + ["received_time", "source"];
    assert ["received_time", "source"] == ["received_time"] + ["source"] && ["source"] == ["source"] + [];
  }

  lemma MissingAre(event: Fields)
    ensures Missing(event, REQUIRED_FIELDS) == Absent(event)
  {
    var last := ["payload_version", "received_time", "source"];
    var (fourth, third) := (["host_id"] + last, ["event_type"] + (["host_id"] + last));
    var second := ["event_time"] + third;
    MissingLast(event);
    MissingCons(event, "host_id", last);
    MissingCons(event, "event_type", fourth);
    MissingCons(event, "event_time", third);
    MissingCons(event, "event_id", second);
    assert REQUIRED_FIELDS == ["event_id"] + second;
  }

  /** The error applies to the event, given the ids of the events accepted so far. */
  predicate Applies(lib: Library, event: Fields, seen: set<Value>, error: SchemaError) {
    match error
    case MissingFields(names) => names == Absent(event) && names != []
    case DuplicateId(id) => id == Look(event, "event_id") && id in seen
    case UnsupportedType(kind) => kind == Look(event, "event_type") && !TypeOk(event)
    case BadTime(field) => field in ["event_time", "received_time"] && !TimeOk(lib, event, field)
  }

  function Rank(error: SchemaError): nat {
    match error
    case MissingFields(_) => 0
    case DuplicateId(_) => 1
    case UnsupportedType(_) => 2
    case BadTime(field) => if field == "event_time" then 3 else 4
  }

  ghost predicate Ranked(errors: seq<SchemaError>) {
    forall i, j :: 0 <= i < j < |errors| ==> Rank(errors[i]) < Rank(errors[j])
  }

  ghost predicate RankedBelow(errors: seq<SchemaError>, rank: nat) {
    Ranked(errors) && forall error <- errors :: Rank(error) < rank
  }

  lemma RankedNext(errors: seq<SchemaError>, next: seq<SchemaError>, rank: nat)
    requires RankedBelow(errors, rank) && |next| <= 1 && forall error <- next :: Rank(error) == rank
    ensures RankedBelow(errors + next, rank + 1)
  {
  }

  /** The errors of the first three kinds, and those about times. */
  lemma FirstErrors(event: Fields, seen: set<Value>, missing: seq<SchemaError>, repeated: seq<SchemaError>,
                    kind: seq<SchemaError>)
    requires missing == if Absent(event) != [] then [MissingFields(Absent(event))] else []
    requires repeated == if Look(event, "event_id") in seen then [DuplicateId(Look(event, "event_id"))] else []
    requires kind == if TypeOk(event) then [] else [UnsupportedType(Look(event, "event_type"))]
    ensures RankedBelow(missing + repeated + kind, 3)
  {
    RankedNext([], missing, 0);
    assert [] + missing == missing;
    RankedNext(missing, repeated, 1);
    RankedNext(missing + repeated, kind, 2);
  }

  /** The errors of the three kinds and of the two times. */
  lemma ErrorParts(lib: Library, event: Fields, seen: set<Value>)
    returns (missing: seq<SchemaError>, repeated: seq<SchemaError>, kind: seq<SchemaError>, time: seq<SchemaError>,
             receipt: seq<SchemaError>)
    ensures missing == if Absent(event) != [] then [MissingFields(Absent(event))] else []
    ensures repeated == if Look(event, "event_id") in seen then [DuplicateId(Look(event, "event_id"))] else []
    ensures kind == if TypeOk(event) then [] else [UnsupportedType(Look(event, "event_type"))]
    ensures time == if TimeOk(lib, event, "event_time") then [] else [BadTime("event_time")]
    ensures receipt == if TimeOk(lib, event, "received_time") then [] else [BadTime("received_time")]
    ensures SchemaErrors(lib, event, seen) == missing + repeated + kind + time + receipt
  {
    MissingAre(event);
    TypeIff(event);
    TimeIff(lib, event, "event_time");
    TimeIff(lib, event, "received_time");
    missing := if Absent(event) != [] then [MissingFields(Absent(event))] else [];
    repeated := if Look(event, "event_id") in seen then [DuplicateId(Look(event, "event_id"))] else [];
    kind := if TypeOk(event) then [] else [UnsupportedType(Look(event, "event_type"))];
    time := if TimeOk(lib, event, "event_time") then [] else [BadTime("event_time")];
    receipt := if TimeOk(lib, event, "received_time") then [] else [BadTime("received_time")];
  }

  lemma ErrorsRanked(lib: Library, event: Fields, seen: set<Value>)
    ensures Ranked(SchemaErrors(lib, event, seen))
  {
    var missing, repeated, kind, time, receipt := ErrorParts(lib, event, seen);
    FirstErrors(event, seen, missing, repeated, kind);
    RankedNext(missing + repeated + kind, time, 3);
    RankedNext(missing + repeated + kind + time, receipt, 4);
  }

  /** The errors of an event are exactly those that apply, each once, in this order. */
  lemma ErrorsAre(lib: Library, event: Fields, seen: set<Value>, error: SchemaError)
    ensures error in SchemaErrors(lib, event, seen) <==> Applies(lib, event, seen, error)
    ensures Ranked(SchemaErrors(lib, event, seen))
  {
    var missing, repeated, kind, time, receipt := ErrorParts(lib, event, seen);
    EachKind(lib, event, seen, error, missing, repeated, kind, time + receipt);
    AppendAssociative(missing + repeated + kind, time, receipt);
    ErrorsRanked(lib, event, seen);
  }

  lemma EachKind(lib: Library, event: Fields, seen: set<Value>, error: SchemaError, missing: seq<SchemaError>,
                 repeated: seq<SchemaError>, kind: seq<SchemaError>, times: seq<SchemaError>)
    requires missing == if Absent(event) != [] then [MissingFields(Absent(event))] else []
    requires repeated == if Look(event, "event_id") in seen then [DuplicateId(Look(event, "event_id"))] else []
    requires kind == if TypeOk(event) then [] else [UnsupportedType(Look(event, "event_type"))]
    requires times == (if TimeOk(lib, event, "event_time") then [] else [BadTime("event_time")])
                      + (if TimeOk(lib, event, "received_time") then [] else [BadTime("received_time")])
    ensures error in missing + repeated + kind + times <==> Applies(lib, event, seen, error)
  {
    assert error in missing + repeated + kind + times
      <==> error in missing || error in repeated || error in kind || error in times;
  }

  // ---------------------------------------------------------------- privacy records

  /** The record of a masked event: its id or its place, and what was done to which field. */
  lemma PrivacyRecord(lib: Library, event: Fields, index: nat)
    ensures var (masks, clean) := (Privacy.Masks(lib.isDigit, event), Privacy.Sanitize(lib.isDigit, event));
      var records := ActionFor(lib, event, index);
      && (masks == [] ==> records == [])
      && (masks != [] ==>
        && |records| == 1
        && records[0].id == (if Given(clean, "event_id") then Look(clean, "event_id")
                             else Str("index-" + Decimal(index)))
        && |records[0].fields| == |records[0].actions| == |masks|
        && forall k :: 0 <= k < |masks| ==>
             Privacy.Mask(records[0].fields[k], records[0].actions[k]) == masks[k])
  {
    GivenIff(Privacy.Sanitize(lib.isDigit, event), "event_id");
  }

  // ---------------------------------------------------------------- the events analysed

  function AsText(lib: Library, v: Value): string { if v.Str? then v.text else lib.str(v) }

  /** An analysed event keeps its dictionary, and reads its id, host, type and time there. */
  lemma EventRead(lib: Library, fields: Fields)
    requires LocallyValid(lib, fields)
    ensures var event := View(lib, fields);
      && event.fields == fields
      && event.id == AsText(lib, Look(fields, "event_id")) && event.host == AsText(lib, Look(fields, "host_id"))
      && event.kind == AsText(lib, Look(fields, "event_type"))
      && lib.parseTime(AsText(lib, Look(fields, "event_time"))) == Some(event.time)
  {
    assert "event_time" in REQUIRED_FIELDS by {
      assert REQUIRED_FIELDS[1] == "event_time";
    }
  }

  /** Events are analysed by time, and those of one time by id. */
  predicate Before(a: Event, b: Event) {
    a.time < b.time || (a.time == b.time && (a.id == b.id || Earlier(a.id, b.id)))
  }

  /** The shorter of two texts that agree so far, otherwise the one with the smaller next character. */
  predicate Earlier(a: string, b: string) {
    exists k :: 0 <= k <= |a| && k < |b| && a[..k] == b[..k] && (k == |a| || a[k] < b[k])
  }

  lemma EventsOrdered(lib: Library, valid: seq<Fields>)
    ensures var events := Canonical(lib, valid);
      && multiset(events) == multiset(Map(valid, Viewer(lib)))
      && forall i, j :: 0 <= i < j < |events| ==> Before(events[i], events[j])
  {
    EventOrderTotal();
    SortByCorrect(Map(valid, Viewer(lib)), EventOrder());
    var events := Canonical(lib, valid);
    forall i, j | 0 <= i < j < |events|
      ensures Before(events[i], events[j])
    {
      assert EventOrder()(events[i], events[j]);
      TextLeBefore(events[i].id, events[j].id);
      if TextBefore(events[i].id, events[j].id) {
        var k: nat :| PartsAt(events[i].id, events[j].id, k);
      }
    }
  }

  // ---------------------------------------------------------------- generated events

  /** A generated event has these sixteen fields in this order; the defaults stand for what a specification omits. */
  lemma GeneratedFields(format: Format, spec: FlowSpec, index: nat)
    ensures var e := FlowEvent(format, spec, index);
      && Map(e, (field: (string, Value)) => field.0)
         == ["event_id", "event_time", "received_time", "host_id", "event_type", "source", "payload_version",
             "process_name", "dst_domain", "dst_ip", "dst_port", "protocol", "bytes_out", "bytes_in", "duration_ms",
             "destination_asn"]
      && e[3].1 == Str(spec.host)
  {
  }

  /** The place of an index in a cycle. */
  ghost predicate InTurn(cycle: seq<string>, index: nat, v: Value) {
    exists turn: nat, j: nat :: TurnAt(cycle, index, v, turn, j)
  }

  predicate TurnAt(cycle: seq<string>, index: nat, v: Value, turn: nat, j: nat) {
    j < |cycle| && index == turn * |cycle| + j && v == Str(cycle[j])
  }

  /** Times advance by the interval, and receipt follows after the delay. */
  lemma GeneratedTimes(format: Format, spec: FlowSpec, index: nat)
    ensures var (e, step) := (FlowEvent(format, spec, index), if spec.interval.Some? then spec.interval.value else 60);
      var (at, wait) := (spec.start + step * index * 1_000_000, if spec.delay.Some? then spec.delay.value else 2);
      e[1].1 == Str(format(at)) && e[2].1 == Str(format(at + wait * 1_000_000))
  {
  }

  /** Destinations and addresses go round, each at its own pace. */
  lemma GeneratedCycles(format: Format, spec: FlowSpec, index: nat)
    ensures spec.domainCycle != [] ==> InTurn(spec.domainCycle, index, FlowEvent(format, spec, index)[8].1)
    ensures spec.ipCycle != [] ==> InTurn(spec.ipCycle, index, FlowEvent(format, spec, index)[9].1)
  {
    var e := FlowEvent(format, spec, index);
    if spec.domainCycle != [] {
      InCycle(spec.domainCycle, index, e[8].1);
    }
    if spec.ipCycle != [] {
      InCycle(spec.ipCycle, index, e[9].1);
    }
  }

  lemma InCycle(cycle: seq<string>, index: nat, v: Value)
    requires cycle != [] && v == Str(cycle[index % |cycle|])
    ensures InTurn(cycle, index, v)
  {
    var (turn, j) := (index / |cycle|, index % |cycle|);
    assert TurnAt(cycle, index, v, turn, j);
  }

  ghost predicate TextOr(given: Option<string>, default: string, v: Value) {
    v == Str(if given.Some? then given.value else default)
  }

  ghost predicate NumberOr(given: Option<int>, default: int, v: Value) {
    v == Num(if given.Some? then given.value else default)
  }

  /** The texts of a generated event, and below its numbers, given or by default. */
  lemma GeneratedTexts(format: Format, spec: FlowSpec, index: nat)
    ensures var e := FlowEvent(format, spec, index);
      && e[0].1 == Str((if spec.prefix.Some? then spec.prefix.value else "generated-flow") + "-"
                       + ThreeDigits(index + 1))
      && TextOr(spec.kind, "network_connection", e[4].1) && TextOr(spec.source, "agent", e[5].1)
      && TextOr(spec.version, "v1", e[6].1) && TextOr(spec.process, "chrome.exe", e[7].1)
      && TextOr(spec.protocol, "tcp", e[11].1) && TextOr(spec.asn, "AS15169", e[15].1)
  {
  }

  lemma GeneratedNumbers(format: Format, spec: FlowSpec, index: nat)
    ensures var e := FlowEvent(format, spec, index);
      && NumberOr(spec.port, 443, e[10].1) && NumberOr(spec.bytesOut, 18_000, e[12].1)
      && NumberOr(spec.bytesIn, 82_000, e[13].1) && NumberOr(spec.duration, 3_200, e[14].1)
  {
  }

  /** Without a cycle of its own, a flow goes to one destination and one address. */
  lemma GeneratedTargets(format: Format, spec: FlowSpec, index: nat)
    ensures var e := FlowEvent(format, spec, index);
      && (spec.domainCycle == [] ==> TextOr(spec.domain, "intranet.company.test", e[8].1))
      && (spec.ipCycle == [] ==> TextOr(spec.ip, "10.10.10.10", e[9].1))
  {
  }

  /** A flow has as many events as it asks for, numbered from 1; none for a count that is absent or not positive. */
  lemma GeneratedCount(format: Format, spec: FlowSpec)
    ensures var n := if spec.count.Some? && spec.count.value > 0 then spec.count.value else 0;
      |Flow(format, spec)| == n && forall i :: 0 <= i < n ==> Flow(format, spec)[i] == FlowEvent(format, spec, i)
  {
  }
}
