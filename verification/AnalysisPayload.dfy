/** The payload an analysis hands to the store, and what becomes of it there
    (src/detection_engine.py:136-173, 650-706, 853-903; src/service_store_rows.py:180-229). */
module AnalysisPayload {
  import opened Prelude
  import opened Json
  import opened EventSchema
  import opened Rules
  import opened Grouping
  import opened Correlation
  import Detection
  import Rows = StoreRows
  import Runs = RunStore

  function TextJson(): string -> Value { (s: string) => Str(s) }

  function EventObject(): Event -> Rows.Object {
    (e: Event) => map["event_id" := Str(e.id), "host_id" := Str(e.host), "event_type" := Str(e.kind)]
  }

  function AlertObject(): Alert -> Rows.Object {
    (a: Alert) => map["alert_id" := Str(a.id), "host_id" := Str(a.host),
                      "event_ids" := List(Map(a.eventIds, TextJson()))]
  }

  /** The stages of the sequence: download, execution, beacon, transfer. */
  function Stages(i: Incident): seq<Rows.Object> {
    [ map["stage" := Str("unknown_file_download"), "event_id" := Str(i.download)],
      map["stage" := Str("unsigned_process_execution"), "event_id" := Str(i.execution)],
      map["stage" := Str("periodic_external_connection"), "event_ids" := List(Map(i.beaconEvents, TextJson()))],
      map["stage" := Str("large_outbound_transfer"), "event_ids" := List(Map(i.outboundEvents, TextJson()))] ]
  }

  function IncidentObject(): Incident -> Rows.Object {
    (i: Incident) =>
      map["incident_id" := Str(i.id), "host_id" := Str(i.host), "detected_sequence" := ObjectList(Stages(i))]
  }

  function DlqObject(): DlqEvent -> Rows.Object {
    (d: DlqEvent) => map["index" := Num(d.index), "event_id" := d.id]
  }

  function AsValue(): Rows.Object -> Value { (o: Rows.Object) => Obj(o) }

  function ObjectList(objects: seq<Rows.Object>): Value { List(Map(objects, AsValue())) }

  function Payload(f: Detection.Findings, dlq: seq<DlqEvent>): Rows.Object {
    map["events" := ObjectList(Map(f.events, EventObject())),
        "alerts" := ObjectList(Map(f.alerts, AlertObject())),
        "incidents" := ObjectList(Map(f.incidents, IncidentObject())),
        "dlq_events" := ObjectList(Map(dlq, DlqObject()))]
  }

  // ---------------------------------------------------------------- reading the payload back

  lemma {:induction false} ObjectsBack(objects: seq<Rows.Object>)
    ensures Rows.JsonList(ObjectList(objects)) == objects
  {
    var items := Map(objects, AsValue());
    if objects != [] {
      assert items[1..] == Map(objects[1..], AsValue());
      ObjectsBack(objects[1..]);
    }
  }

  lemma {:induction false} TextsBack(ids: seq<string>)
    requires forall i :: 0 <= i < |ids| ==> ids[i] != ""
    ensures Rows.TextList(List(Map(ids, TextJson()))) == ids
  {
    var items := Map(ids, TextJson());
    if ids != [] {
      assert items[1..] == Map(ids[1..], TextJson());
      TextsBack(ids[1..]);
    }
  }

  lemma PayloadBack(f: Detection.Findings, dlq: seq<DlqEvent>)
    ensures var payload := Payload(f, dlq);
      && Rows.Events(payload) == Map(f.events, EventObject())
      && Rows.Alerts(payload) == Map(f.alerts, AlertObject())
      && Rows.Incidents(payload) == Map(f.incidents, IncidentObject())
  {
    ObjectsBack(Map(f.events, EventObject()));
    ObjectsBack(Map(f.alerts, AlertObject()));
    ObjectsBack(Map(f.incidents, IncidentObject()));
  }

  // ---------------------------------------------------------------- the save commits

  /** Events with different, non-empty ids. */
  ghost predicate Named(events: seq<Event>) {
    Distinct(Map(events, Beacons.IdOfEvent())) && forall i :: 0 <= i < |events| ==> events[i].id != ""
  }

  function FindingsOf(lib: Library, db: Signatures, events: seq<Event>, deadLetters: nat): Detection.Findings {
    Detection.FindingsOn(lib, db, events, deadLetters)
  }

  lemma EventIdsDiffer(f: Detection.Findings, dlq: seq<DlqEvent>)
    requires Named(f.events)
    ensures Runs.IdsDistinct(Rows.EventIds(Payload(f, dlq)))
  {
    PayloadBack(f, dlq);
    var ids := Rows.EventIds(Payload(f, dlq));
    assert forall i :: 0 <= i < |ids| ==> ids[i] == Map(f.events, Beacons.IdOfEvent())[i];
  }

  lemma AlertIdsDiffer(f: Detection.Findings, dlq: seq<DlqEvent>, alerts: seq<Alert>)
    requires f.alerts == Numbered(alerts)
    ensures Runs.IdsDistinct(Rows.AlertIds(Payload(f, dlq)))
  {
    PayloadBack(f, dlq);
    var ids := Rows.AlertIds(Payload(f, dlq));
    forall i, j | 0 <= i < j < |ids|
      ensures ids[i] != ids[j]
    {
      NumberedIdsDistinct(alerts, i, j);
    }
  }

  lemma IncidentIdsBack(f: Detection.Findings, dlq: seq<DlqEvent>)
    ensures var ids := Rows.IncidentIds(Payload(f, dlq));
      |ids| == |f.incidents| && forall i :: 0 <= i < |ids| ==> ids[i] == f.incidents[i].id
  {
    PayloadBack(f, dlq);
  }

  lemma IncidentIdsDiffer(f: Detection.Findings, dlq: seq<DlqEvent>, incidents: seq<Incident>)
    requires f.incidents == NumberedIncidents(incidents)
    ensures Runs.IdsDistinct(Rows.IncidentIds(Payload(f, dlq)))
  {
    IncidentIdsBack(f, dlq);
    forall i, j | 0 <= i < j < |f.incidents|
      ensures f.incidents[i].id != f.incidents[j].id
    {
      NumberedApart("incident-", i + 1, j + 1);
    }
  }

  /** The payload of an analysis never breaks a key or a reference: saving it commits. */
  lemma AnalysisSaves(lib: Library, db: Signatures, events: seq<Event>, dlq: seq<DlqEvent>, t: Runs.Tables,
                      ids: Runs.NewIds)
    requires Named(events) && Runs.Consistent(t)
    ensures var payload := Payload(FindingsOf(lib, db, events, |dlq|), dlq);
      Runs.Savable(t, ids, payload) ==> Runs.Save(t, ids, payload).Some?
  {
    var f := FindingsOf(lib, db, events, |dlq|);
    EventIdsDiffer(f, dlq);
    AlertIdsDiffer(f, dlq, EventAlerts(lib, db, events) + Beacons.BeaconAlerts(lib, events));
    IncidentIdsDiffer(f, dlq, FlatMap(Keys(events, HostOf()), IncidentsFor(lib, events, f.alerts)));
    if Runs.Savable(t, ids, Payload(f, dlq)) {
      Runs.SaveCommitsIff(t, ids, Payload(f, dlq));
    }
  }

  // ---------------------------------------------------------------- an incident is linked to its alerts

  lemma {:induction false} StageHas(stages: seq<Rows.Object>, k: nat, id: string)
    requires k < |stages|
    requires id in Rows.TextList(Rows.Field(stages[k], "event_ids"))
    ensures id in Rows.StageEventIds(stages)
  {
    var n := |stages| - 1;
    var own := Rows.TextField(stages[n], "event_id");
    var named := Rows.TextList(Rows.Field(stages[n], "event_ids"));
    assert Rows.StageEventIds(stages) == Rows.StageEventIds(stages[..n]) + (if own != "" then [own] else []) + named;
    if k < n {
      StageHas(stages[..n], k, id);
    }
  }

  /** The store reads the stages of an incident back, and finds no alert ids listed in it. */
  lemma StagesBack(incident: Incident, known: set<string>)
    ensures Rows.IncidentEventIds(IncidentObject()(incident)) == Rows.StageEventIds(Stages(incident))
    ensures Rows.ExplicitAlertIds(IncidentObject()(incident), known) == []
    ensures Rows.TextField(IncidentObject()(incident), "host_id") == incident.host
  {
    ObjectsBack(Stages(incident));
  }

  ghost predicate NonEmptyIds(ids: seq<string>) { ids != [] && forall k :: 0 <= k < |ids| ==> ids[k] != "" }

  lemma StageNames(incident: Incident, stage: nat, ids: seq<string>)
    requires (stage == 2 && ids == incident.beaconEvents) || (stage == 3 && ids == incident.outboundEvents)
    requires NonEmptyIds(ids)
    ensures ids[0] in Rows.StageEventIds(Stages(incident))
  {
    TextsBack(ids);
    var stages := Stages(incident);
    assert stages[stage]["event_ids"] == List(Map(ids, TextJson()));
    StageHas(stages, stage, ids[0]);
  }

  lemma AlertRelated(alert: Alert, host: string, eventIds: set<string>)
    requires alert.host == host && alert.id != "" && NonEmptyIds(alert.eventIds) && alert.eventIds[0] in eventIds
    ensures Rows.Related(AlertObject()(alert), host, eventIds)
  {
    TextsBack(alert.eventIds);
    assert Rows.AlertEventIds(AlertObject()(alert))[0] in eventIds;
  }

  /** An alert of the incident's host that names the events of one of its stages is among its links. */
  lemma AlertLinked(alerts: seq<Alert>, a: nat, incident: Incident, stage: nat)
    requires a < |alerts| && alerts[a].host == incident.host && alerts[a].id != "" && NonEmptyIds(alerts[a].eventIds)
    requires (stage == 2 && alerts[a].eventIds == incident.beaconEvents)
          || (stage == 3 && alerts[a].eventIds == incident.outboundEvents)
    ensures alerts[a].id in Rows.IncidentAlertIds(IncidentObject()(incident), Map(alerts, AlertObject()))
  {
    var objects := Map(alerts, AlertObject());
    StagesBack(incident, Rows.KnownAlertIds(objects));
    StageNames(incident, stage, alerts[a].eventIds);
    var ids := Rows.IncidentEventIds(IncidentObject()(incident));
    var eventIds := set e | e in ids;
    AlertRelated(alerts[a], incident.host, eventIds);
    assert Rows.TextField(objects[a], "alert_id") == alerts[a].id;
    Rows.RelatedKnown(objects, incident.host, eventIds, alerts[a].id);
  }

  lemma GroundedIdsNonEmpty(events: seq<Event>, alert: Alert)
    requires Named(events) && Detection.Grounded(events, alert)
    ensures NonEmptyIds(alert.eventIds)
  {
    forall k | 0 <= k < |alert.eventIds|
      ensures alert.eventIds[k] != ""
    {
      assert alert.eventIds[k] in alert.eventIds;
      var event :| event in events && event.id == alert.eventIds[k] && event.host == alert.host;
    }
  }

  lemma IncidentNames(lib: Library, events: seq<Event>, alerts: seq<Alert>, incidents: seq<Incident>, i: nat)
    requires Sorted(events, Beacons.TimeLe()) && incidents == Correlation.Incidents(lib, events, alerts)
      && i < |incidents|
    ensures NamesAlert(alerts, incidents[i].host, R004, incidents[i].beaconEvents)
    ensures NamesAlert(alerts, incidents[i].host, R005, incidents[i].outboundEvents)
  {
    IncidentsExact(lib, events, alerts, incidents[i].host);
    assert FitsHost(lib, events, alerts, incidents[i].host, incidents[i]);
  }

  /** An alert of this rule on the incident's host is among the incident's links. */
  ghost predicate LinkedByRule(alerts: seq<Alert>, incident: Incident, links: seq<string>, rule: Rule) {
    exists a :: 0 <= a < |alerts| && alerts[a].rule == rule && alerts[a].host == incident.host && alerts[a].id in links
  }

  lemma NamedAlertLinked(lib: Library, db: Signatures, events: seq<Event>, alerts: seq<Alert>, incident: Incident,
                         rule: Rule, stage: nat)
    requires Named(events) && alerts == Detection.Detect(lib, db, events)
    requires stage == 2 || stage == 3
    requires NamesAlert(alerts, incident.host, rule, if stage == 2 then incident.beaconEvents
      else incident.outboundEvents)
    ensures LinkedByRule(alerts, incident, Rows.IncidentAlertIds(IncidentObject()(incident),
                                                                 Map(alerts, AlertObject())), rule)
  {
    var wanted := if stage == 2 then incident.beaconEvents else incident.outboundEvents;
    var alert :| alert in alerts && alert.host == incident.host && alert.rule == rule && alert.eventIds == wanted;
    var a :| 0 <= a < |alerts| && alerts[a] == alert;
    Detection.AlertsGrounded(lib, db, events, a);
    GroundedIdsNonEmpty(events, alert);
    AlertLinked(alerts, a, incident, stage);
  }

  ghost predicate Linked(f: Detection.Findings, payload: Rows.Object, i: nat)
    requires i < |f.incidents| && |Rows.Incidents(payload)| == |f.incidents|
  {
    var links := Rows.IncidentAlertIds(Rows.Incidents(payload)[i], Rows.Alerts(payload));
    LinkedByRule(f.alerts, f.incidents[i], links, R004) && LinkedByRule(f.alerts, f.incidents[i], links, R005)
  }

  ghost predicate AllLinked(f: Detection.Findings, payload: Rows.Object) {
    |Rows.Incidents(payload)| == |f.incidents| && forall i :: 0 <= i < |f.incidents| ==> Linked(f, payload, i)
  }

  /** In the store, every incident is linked at least to its beacon alert and its transfer alert. */
  lemma IncidentsLinked(lib: Library, db: Signatures, events: seq<Event>, dlq: seq<DlqEvent>)
    requires Sorted(events, Beacons.TimeLe()) && Named(events)
    ensures var f := FindingsOf(lib, db, events, |dlq|); AllLinked(f, Payload(f, dlq))
  {
    var f := FindingsOf(lib, db, events, |dlq|);
    PayloadBack(f, dlq);
    forall i | 0 <= i < |f.incidents|
      ensures Linked(f, Payload(f, dlq), i)
    {
      IncidentNames(lib, events, f.alerts, f.incidents, i);
      NamedAlertLinked(lib, db, events, f.alerts, f.incidents[i], R004, 2);
      NamedAlertLinked(lib, db, events, f.alerts, f.incidents[i], R005, 3);
    }
  }

  // ---------------------------------------------------------------- from raw events

  /** Valid events that all have non-empty text ids. */
  ghost predicate NamedByText(lib: Library, raw: seq<Fields>) {
    forall event <- ValidEvents(lib, Clean(lib, raw)) :: IdOf(event).Str? && IdOf(event).text != ""
  }

  lemma CanonicalNamed(lib: Library, raw: seq<Fields>)
    requires NamedByText(lib, raw)
    ensures Named(Detection.Canonical(lib, ValidEvents(lib, Clean(lib, raw))))
  {
    var valid := ValidEvents(lib, Clean(lib, raw));
    var views := Map(valid, Detection.Viewer(lib));
    var events := Detection.Canonical(lib, valid);
    KeptIdsDistinct(lib, Clean(lib, raw));
    var ids := Map(valid, IdOf);
    forall i | 0 <= i < |valid|
      ensures ids[i] == Str(views[i].id) && views[i].id != ""
    {
      assert valid[i] in valid;
    }
    assert Distinct(Map(views, Beacons.IdOfEvent()));
    Detection.EventOrderTotal();
    SortByCorrect(views, Detection.EventOrder());
    MapPermuted(views, events, Beacons.IdOfEvent());
    DistinctPermuted(Map(views, Beacons.IdOfEvent()), Map(events, Beacons.IdOfEvent()));
    forall i | 0 <= i < |events|
      ensures events[i].id != ""
    {
      assert events[i] in multiset(views);
    }
  }

  /** With fresh generated ids, the save commits and the store stays consistent. */
  ghost predicate SavesWell(t: Runs.Tables, ids: Runs.NewIds, payload: Rows.Object) {
    Runs.Savable(t, ids, payload) ==>
      Runs.Save(t, ids, payload).Some? && Runs.Consistent(Runs.Save(t, ids, payload).value)
  }

  /** Analysing raw events with text ids and saving the result commits, stays consistent, and links every incident. */
  lemma AnalyzeThenSave(lib: Library, db: Signatures, raw: seq<Fields>, t: Runs.Tables, ids: Runs.NewIds)
    requires NamedByText(lib, raw) && Runs.Consistent(t)
    ensures var a := Detection.Analyze(lib, db, raw);
      a.Analyzed? ==> SavesWell(t, ids, Payload(a.findings, a.dlq)) && AllLinked(a.findings, Payload(a.findings, a.dlq))
  {
    var a := Detection.Analyze(lib, db, raw);
    if a.Analyzed? {
      CanonicalNamed(lib, raw);
      Detection.CanonicalInTimeOrder(lib, ValidEvents(lib, Clean(lib, raw)));
      IncidentsLinked(lib, db, a.findings.events, a.dlq);
      AnalysisSaves(lib, db, a.findings.events, a.dlq, t, ids);
      if Runs.Savable(t, ids, Payload(a.findings, a.dlq)) {
        Runs.SaveKeepsConsistent(t, ids, Payload(a.findings, a.dlq));
      }
    }
  }
}
