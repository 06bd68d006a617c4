/** What the store holds of an analysis once it is saved (src/detection_engine.py:136-172, 656-690, 850-903,
    src/service_store_rows.py:34-229). */
module AnalysisStored {
  import opened Prelude
  import opened Json
  import opened EventSchema
  import opened Rules
  import opened Correlation
  import opened AnalysisPayload
  import Detection
  import Rows = StoreRows
  import Runs = RunStore
  import Read = ReadBack

  function Texts(ids: seq<string>): Value { List(Map(ids, (id: string) => Str(id))) }

  // ---------------------------------------------------------------- the objects of the payload

  /** An event is written with its id, its host and its type. */
  ghost predicate WritesEvent(o: Rows.Object, e: Event) {
    o == map["event_id" := Str(e.id), "host_id" := Str(e.host), "event_type" := Str(e.kind)]
  }

  /** An alert with its id, its host and the events it names. */
  ghost predicate WritesAlert(o: Rows.Object, a: Alert) {
    o == map["alert_id" := Str(a.id), "host_id" := Str(a.host), "event_ids" := Texts(a.eventIds)]
  }

  /** An incident with its id, its host and four stages: download, execution, connections, transfer. */
  ghost predicate WritesIncident(o: Rows.Object, i: Incident) {
    o == map["incident_id" := Str(i.id), "host_id" := Str(i.host),
             "detected_sequence" := List([
               Obj(map["stage" := Str("unknown_file_download"), "event_id" := Str(i.download)]),
               Obj(map["stage" := Str("unsigned_process_execution"), "event_id" := Str(i.execution)]),
               Obj(map["stage" := Str("periodic_external_connection"), "event_ids" := Texts(i.beaconEvents)]),
               Obj(map["stage" := Str("large_outbound_transfer"), "event_ids" := Texts(i.outboundEvents)])])]
  }

  /** A dead letter with its place in the input and the id it was given, if any. */
  ghost predicate WritesLetter(o: Rows.Object, d: DlqEvent) { o == map["index" := Num(d.index), "event_id" := d.id] }

  lemma TextsAre(ids: seq<string>)
    ensures List(Map(ids, TextJson())) == Texts(ids)
  {
    assert Map(ids, TextJson()) == Map(ids, (id: string) => Str(id));
  }

  lemma AlertWritten(a: Alert)
    ensures WritesAlert(AlertObject()(a), a)
  {
    TextsAre(a.eventIds);
  }

  lemma IncidentWritten(i: Incident)
    ensures WritesIncident(IncidentObject()(i), i)
  {
    TextsAre(i.beaconEvents);
    TextsAre(i.outboundEvents);
    var stages := Stages(i);
    assert Map(stages, AsValue()) == [AsValue()(stages[0]), AsValue()(stages[1]), AsValue()(stages[2]),
                                      AsValue()(stages[3])];
  }

  /** The payload lists the events, alerts, incidents and dead letters of the analysis, in order. */
  ghost predicate Written(p: Rows.Object, f: Detection.Findings, dlq: seq<DlqEvent>) {
    && |Rows.Events(p)| == |f.events|
    && (forall i :: 0 <= i < |f.events| ==> WritesEvent(Rows.Events(p)[i], f.events[i]))
    && |Rows.Alerts(p)| == |f.alerts|
    && (forall i :: 0 <= i < |f.alerts| ==> WritesAlert(Rows.Alerts(p)[i], f.alerts[i]))
    && |Rows.Incidents(p)| == |f.incidents|
    && (forall i :: 0 <= i < |f.incidents| ==> WritesIncident(Rows.Incidents(p)[i], f.incidents[i]))
    && |Read.Letters(p)| == |dlq| && (forall i :: 0 <= i < |dlq| ==> WritesLetter(Read.Letters(p)[i], dlq[i]))
  }

  lemma PayloadWritten(f: Detection.Findings, dlq: seq<DlqEvent>)
    ensures Written(Payload(f, dlq), f, dlq)
  {
    PayloadBack(f, dlq);
    ObjectsBack(Map(dlq, DlqObject()));
    forall i | 0 <= i < |f.alerts|
      ensures WritesAlert(AlertObject()(f.alerts[i]), f.alerts[i])
    {
      AlertWritten(f.alerts[i]);
    }
    forall i | 0 <= i < |f.incidents|
      ensures WritesIncident(IncidentObject()(f.incidents[i]), f.incidents[i])
    {
      IncidentWritten(f.incidents[i]);
    }
  }

  // ---------------------------------------------------------------- the stored rows

  /** An analysis, the payload that lists it, and the tables before and after the save. */
  datatype SavedRun = SavedRun(payload: Rows.Object, findings: Detection.Findings, dlq: seq<DlqEvent>,
                               before: Runs.Tables, ids: Runs.NewIds, after: Runs.Tables)

  /** The transaction committed. */
  ghost predicate Stored(r: SavedRun) {
    Written(r.payload, r.findings, r.dlq) && Runs.Save(r.before, r.ids, r.payload) == Some(r.after)
  }

  ghost predicate HasEvent(s: Runs.Tables, run: string, e: Event) {
    [run, e.id] in s.events && WritesEvent(s.events[[run, e.id]].payload, e)
  }

  /** Every analysed event lies under its id. */
  lemma EventRowIs(r: SavedRun, i: nat)
    requires Stored(r) && i < |r.findings.events| && r.findings.events[i].id != ""
    ensures HasEvent(r.after, r.ids.run, r.findings.events[i])
  {
    var id := Read.EventStored(r.before, r.ids, r.payload, i);
    assert Read.HasText(Rows.Events(r.payload)[i], "event_id", r.findings.events[i].id);
  }

  lemma EventKnown(p: Rows.Object, f: Detection.Findings, dlq: seq<DlqEvent>, id: string)
    requires Written(p, f, dlq) && id != "" && exists i :: 0 <= i < |f.events| && f.events[i].id == id
    ensures Read.KnownEvent(p, id) && id in Rows.EventIdSet(p)
  {
    var i :| 0 <= i < |f.events| && f.events[i].id == id;
    var o := Rows.Events(p)[i];
    assert Read.HasText(o, "event_id", id);
    Read.SectionIff(p, "events", o);
    Read.KnownEventIff(p, id);
  }

  /** All events the alert names are analysed, and their ids are not empty. */
  ghost predicate NamesKnown(f: Detection.Findings, a: Alert) {
    a.eventIds != [] && forall id <- a.eventIds :: id != "" && exists i :: 0 <= i < |f.events| && f.events[i].id == id
  }

  lemma NamedBack(o: Rows.Object, a: Alert)
    requires WritesAlert(o, a) && forall id <- a.eventIds :: id != ""
    ensures Rows.AlertEventIds(o) == a.eventIds
  {
    TextsAre(a.eventIds);
    assert forall i :: 0 <= i < |a.eventIds| ==> a.eventIds[i] in a.eventIds;
    TextsBack(a.eventIds);
  }

  lemma FirstOfKnown(named: seq<string>, known: set<string>, k: nat)
    requires named != [] && named[0] in known && Read.FirstKnown(named, known, k)
    ensures k == 0
  {
  }

  ghost predicate HasAlert(s: Runs.Tables, run: string, a: Alert) {
    && [run, a.id] in s.alerts && WritesAlert(s.alerts[[run, a.id]].payload, a)
    && a.eventIds != [] && s.alerts[[run, a.id]].primaryEventId == Some(a.eventIds[0])
  }

  /** Every alert lies under its id, with the first event it names as its primary event. */
  lemma AlertRowIs(r: SavedRun, i: nat)
    requires Stored(r) && i < |r.findings.alerts| && r.findings.alerts[i].id != ""
      && NamesKnown(r.findings, r.findings.alerts[i])
    ensures HasAlert(r.after, r.ids.run, r.findings.alerts[i])
  {
    var (a, o) := (r.findings.alerts[i], Rows.Alerts(r.payload)[i]);
    var id, k := Read.AlertStored(r.before, r.ids, r.payload, i);
    assert Read.HasText(o, "alert_id", a.id);
    NamedBack(o, a);
    assert a.eventIds[0] in a.eventIds;
    EventKnown(r.payload, r.findings, r.dlq, a.eventIds[0]);
    if Read.FirstKnown(a.eventIds, Rows.EventIdSet(r.payload), k) {
      FirstOfKnown(a.eventIds, Rows.EventIdSet(r.payload), k);
    }
  }

  lemma PairRow(t: Runs.Tables, ids: Runs.NewIds, p: Rows.Object, s: Runs.Tables, i: nat, a: Alert, id: string)
    requires Runs.Save(t, ids, p) == Some(s) && i < |Rows.Alerts(p)| && WritesAlert(Rows.Alerts(p)[i], a)
    requires a.id != "" && id != "" && id in a.eventIds && Read.KnownEvent(p, id)
    ensures [ids.run, a.id, id] in s.alertEvents
  {
    var o := Rows.Alerts(p)[i];
    Read.SectionIff(p, "alerts", o);
    TextIn(a.eventIds, id);
    assert Read.HasText(o, "alert_id", a.id) && Read.NamesText(o, "event_ids", id);
    Read.PairStored(t, ids, p, o, a.id, id);
  }

  /** Each event that an alert names has a row that pairs them. */
  lemma PairRowIs(r: SavedRun, i: nat, id: string)
    requires Stored(r) && i < |r.findings.alerts| && r.findings.alerts[i].id != ""
      && NamesKnown(r.findings, r.findings.alerts[i]) && id in r.findings.alerts[i].eventIds
    ensures [r.ids.run, r.findings.alerts[i].id, id] in r.after.alertEvents
  {
    EventKnown(r.payload, r.findings, r.dlq, id);
    PairRow(r.before, r.ids, r.payload, r.after, i, r.findings.alerts[i], id);
  }

  ghost predicate HasLetter(s: Runs.Tables, run: string, d: DlqEvent, number: nat) {
    var key := [run, run + "-dlq-" + ThreeDigits(number)];
    key in s.dlq && WritesLetter(s.dlq[key].payload, d)
  }

  /** Every dead letter lies under the run and its number, from 1. */
  lemma LetterRowIs(r: SavedRun, i: nat)
    requires Stored(r) && i < |r.dlq|
    ensures HasLetter(r.after, r.ids.run, r.dlq[i], i + 1)
  {
    Read.LetterStored(r.before, r.ids, r.payload, i);
  }

  // ---------------------------------------------------------------- incidents and their links

  /** A stage of the incident names the event. */
  predicate InSequence(i: Incident, id: string) {
    id == i.download || id == i.execution || id in i.beaconEvents || id in i.outboundEvents
  }

  /** The alert is on the incident's host, if that has a name, and names an event of the incident. */
  predicate Shares(i: Incident, a: Alert) {
    (i.host == "" || a.host == i.host) && exists id <- a.eventIds :: id != "" && InSequence(i, id)
  }

  lemma {:induction false} TextIn(ids: seq<string>, id: string)
    ensures Str(id) in Texts(ids).items <==> id in ids
  {
    var items := Texts(ids).items;
    if id in ids {
      var k :| 0 <= k < |ids| && ids[k] == id;
      assert items[k] == Str(id);
    }
  }

  lemma SequenceIff(o: Rows.Object, i: Incident, id: string)
    requires WritesIncident(o, i)
    ensures Read.NamesEvent(o, id) <==> id != "" && InSequence(i, id)
  {
    var stages := o["detected_sequence"].items;
    TextIn(i.beaconEvents, id);
    TextIn(i.outboundEvents, id);
    forall k | 0 <= k < 4
      ensures stages[k].Obj? && Read.Lists(o, "detected_sequence", stages[k].members)
    {
      assert stages[k] in stages;
    }
    var first, second, third, last := stages[0].members, stages[1].members, stages[2].members, stages[3].members;
    assert id != "" && id == i.download ==> Read.HasText(first, "event_id", id);
    assert id != "" && id == i.execution ==> Read.HasText(second, "event_id", id);
    assert id != "" && id in i.beaconEvents ==> Read.NamesText(third, "event_ids", id);
    assert id != "" && id in i.outboundEvents ==> Read.NamesText(last, "event_ids", id);
  }

  lemma SharesIff(io: Rows.Object, i: Incident, ao: Rows.Object, a: Alert)
    requires WritesIncident(io, i) && WritesAlert(ao, a)
    ensures Read.SharesEvent(io, ao) <==> Shares(i, a)
  {
    forall id: string
      ensures Read.NamesEvent(io, id) <==> id != "" && InSequence(i, id)
      ensures Read.NamesText(ao, "event_ids", id) <==> id != "" && id in a.eventIds
    {
      SequenceIff(io, i, id);
      TextIn(a.eventIds, id);
    }
    assert (forall host :: Read.HasText(io, "host_id", host) ==> Read.HasText(ao, "host_id", host))
      <==> (i.host == "" || a.host == i.host) by {
      if i.host != "" {
        assert Read.HasText(io, "host_id", i.host);
      }
    }
  }

  lemma NamesNoAlert(o: Rows.Object, i: Incident)
    requires WritesIncident(o, i)
    ensures forall id :: !Read.NamesAlert(o, id)
    ensures Rows.Field(o, "alert_ids") == Null && Rows.TextField(o, "primary_alert_id") == ""
  {
  }

  ghost predicate SharedBy(f: Detection.Findings, i: Incident, id: string) {
    exists k :: 0 <= k < |f.alerts| && f.alerts[k].id == id && Shares(i, f.alerts[k])
  }

  lemma SharedByIff(f: Detection.Findings, p: Rows.Object, io: Rows.Object, i: Incident, id: string)
    requires WritesIncident(io, i) && |Rows.Alerts(p)| == |f.alerts| && id != ""
    requires forall k :: 0 <= k < |f.alerts| ==> WritesAlert(Rows.Alerts(p)[k], f.alerts[k])
    ensures Read.SharedAlert(p, io, id) <==> SharedBy(f, i, id)
  {
    if k :| 0 <= k < |f.alerts| && f.alerts[k].id == id && Shares(i, f.alerts[k]) {
      var ao := Rows.Alerts(p)[k];
      SharesIff(io, i, ao, f.alerts[k]);
      Read.SectionIff(p, "alerts", ao);
      assert Read.HasText(ao, "alert_id", id);
    }
    if Read.SharedAlert(p, io, id) {
      var ao: Rows.Object :|
        Read.Lists(p, "alerts", ao) && Read.HasText(ao, "alert_id", id) && Read.SharesEvent(io, ao);
      Read.SectionIff(p, "alerts", ao);
      var k :| 0 <= k < |f.alerts| && Rows.Alerts(p)[k] == ao;
      SharesIff(io, i, ao, f.alerts[k]);
    }
  }

  function LinksOf(p: Rows.Object, i: nat): seq<string>
    requires i < |Rows.Incidents(p)|
  {
    Rows.IncidentAlertIds(Rows.Incidents(p)[i], Rows.Alerts(p))
  }

  /** An incident is linked to exactly the alerts that share its host and an event with it. */
  lemma LinksAre(p: Rows.Object, f: Detection.Findings, dlq: seq<DlqEvent>, i: nat, id: string)
    requires Written(p, f, dlq) && i < |f.incidents| && id != ""
    ensures id in LinksOf(p, i) <==> SharedBy(f, f.incidents[i], id)
  {
    var io := Rows.Incidents(p)[i];
    NamesNoAlert(io, f.incidents[i]);
    Read.LinkedIff(p, io, id);
    SharedByIff(f, p, io, f.incidents[i], id);
  }

  ghost predicate AlertsNamed(f: Detection.Findings) { forall k :: 0 <= k < |f.alerts| ==> f.alerts[k].id != "" }

  /** The alert that comes first among those that share the incident's host and an event with it. */
  ghost predicate FirstShared(f: Detection.Findings, i: Incident, id: string) {
    exists k :: 0 <= k < |f.alerts| && f.alerts[k].id == id && Shares(i, f.alerts[k])
      && forall j :: 0 <= j < k ==> !Shares(i, f.alerts[j])
  }

  lemma PrimaryIs(p: Rows.Object, f: Detection.Findings, dlq: seq<DlqEvent>, i: nat)
    requires Written(p, f, dlq) && i < |f.incidents| && AlertsNamed(f)
    ensures LinksOf(p, i) != [] ==> FirstShared(f, f.incidents[i], LinksOf(p, i)[0])
    ensures LinksOf(p, i) == [] ==> forall k :: 0 <= k < |f.alerts| ==> !Shares(f.incidents[i], f.alerts[k])
  {
    var (io, linked) := (Rows.Incidents(p)[i], LinksOf(p, i));
    NamesNoAlert(io, f.incidents[i]);
    var k := Read.PrimaryAlertIs(p, io, linked);
    forall j | 0 <= j < |f.alerts|
      ensures Read.SharesEvent(io, Rows.Alerts(p)[j]) <==> Shares(f.incidents[i], f.alerts[j])
      ensures Read.HasText(Rows.Alerts(p)[j], "alert_id", f.alerts[j].id)
      ensures Shares(f.incidents[i], f.alerts[j]) ==> linked != []
    {
      SharesIff(io, f.incidents[i], Rows.Alerts(p)[j], f.alerts[j]);
      LinksAre(p, f, dlq, i, f.alerts[j].id);
    }
    if linked != [] {
      assert f.alerts[k].id == linked[0] && Shares(f.incidents[i], f.alerts[k]);
    }
  }

  ghost predicate HasIncident(s: Runs.Tables, run: string, i: Incident, f: Detection.Findings) {
    && [run, i.id] in s.incidents && WritesIncident(s.incidents[[run, i.id]].payload, i)
    && match s.incidents[[run, i.id]].primaryAlertId
       case None => forall k :: 0 <= k < |f.alerts| ==> !Shares(i, f.alerts[k])
       case Some(primary) => FirstShared(f, i, primary)
  }

  /** Every incident lies under its id; its primary alert is the first that shares its host and an event with it. */
  lemma IncidentRowIs(r: SavedRun, i: nat)
    requires Stored(r) && i < |r.findings.incidents| && r.findings.incidents[i].id != "" && AlertsNamed(r.findings)
    ensures HasIncident(r.after, r.ids.run, r.findings.incidents[i], r.findings)
  {
    var id := Read.IncidentStored(r.before, r.ids, r.payload, i);
    assert Read.HasText(Rows.Incidents(r.payload)[i], "incident_id", r.findings.incidents[i].id);
    PrimaryIs(r.payload, r.findings, r.dlq, i);
  }

  lemma LinkRow(t: Runs.Tables, ids: Runs.NewIds, p: Rows.Object, s: Runs.Tables, i: nat, incidentId: string,
                alertId: string)
    requires Runs.Save(t, ids, p) == Some(s) && i < |Rows.Incidents(p)|
    requires Read.HasText(Rows.Incidents(p)[i], "incident_id", incidentId) && alertId in LinksOf(p, i)
    ensures [ids.run, incidentId, alertId] in s.incidentAlerts
  {
    Read.SectionIff(p, "incidents", Rows.Incidents(p)[i]);
    Read.LinkStored(t, ids, p, Rows.Incidents(p)[i], incidentId, alertId);
  }

  lemma SharesLinked(p: Rows.Object, f: Detection.Findings, dlq: seq<DlqEvent>, i: nat, k: nat)
    requires Written(p, f, dlq) && i < |f.incidents| && f.incidents[i].id != ""
    requires k < |f.alerts| && f.alerts[k].id != "" && Shares(f.incidents[i], f.alerts[k])
    ensures f.alerts[k].id in LinksOf(p, i) && Read.HasText(Rows.Incidents(p)[i], "incident_id", f.incidents[i].id)
  {
    LinksAre(p, f, dlq, i, f.alerts[k].id);
  }

  /** Each alert that shares the incident's host and an event with it has a link row. */
  lemma LinkRowIs(r: SavedRun, i: nat, k: nat)
    requires Stored(r) && i < |r.findings.incidents| && r.findings.incidents[i].id != "" && AlertsNamed(r.findings)
    requires k < |r.findings.alerts| && Shares(r.findings.incidents[i], r.findings.alerts[k])
    ensures [r.ids.run, r.findings.incidents[i].id, r.findings.alerts[k].id] in r.after.incidentAlerts
  {
    SharesLinked(r.payload, r.findings, r.dlq, i, k);
    LinkRow(r.before, r.ids, r.payload, r.after, i, r.findings.incidents[i].id, r.findings.alerts[k].id);
  }

  // ---------------------------------------------------------------- from raw events

  ghost predicate EventsIn(f: Detection.Findings, run: string, s: Runs.Tables) {
    forall k :: 0 <= k < |f.events| ==> HasEvent(s, run, f.events[k])
  }

  ghost predicate AlertsIn(f: Detection.Findings, run: string, s: Runs.Tables) {
    forall k :: 0 <= k < |f.alerts| ==>
      && HasAlert(s, run, f.alerts[k])
      && forall id <- f.alerts[k].eventIds :: [run, f.alerts[k].id, id] in s.alertEvents
  }

  ghost predicate IncidentsIn(f: Detection.Findings, run: string, s: Runs.Tables) {
    && (forall k :: 0 <= k < |f.incidents| ==> HasIncident(s, run, f.incidents[k], f))
    && (forall k, a :: 0 <= k < |f.incidents| && 0 <= a < |f.alerts| && Shares(f.incidents[k], f.alerts[a]) ==>
          [run, f.incidents[k].id, f.alerts[a].id] in s.incidentAlerts)
  }

  ghost predicate LettersIn(dlq: seq<DlqEvent>, run: string, s: Runs.Tables) {
    forall k :: 0 <= k < |dlq| ==> HasLetter(s, run, dlq[k], k + 1)
  }

  /** The whole analysis is in the tables: every event, alert, incident and dead letter, and all pairs and links. */
  ghost predicate AllStored(f: Detection.Findings, dlq: seq<DlqEvent>, run: string, s: Runs.Tables) {
    EventsIn(f, run, s) && AlertsIn(f, run, s) && IncidentsIn(f, run, s) && LettersIn(dlq, run, s)
  }

  lemma GroundedKnown(f: Detection.Findings, a: Alert)
    requires Named(f.events) && Detection.Grounded(f.events, a)
    ensures NamesKnown(f, a)
  {
    forall id | id in a.eventIds
      ensures id != "" && exists i :: 0 <= i < |f.events| && f.events[i].id == id
    {
      var event :| event in f.events && event.id == id && event.host == a.host;
      var i :| 0 <= i < |f.events| && f.events[i] == event;
    }
  }

  /** Ids of an analysis are not empty, and its alerts name its events. */
  ghost predicate WellNamed(f: Detection.Findings) {
    && Named(f.events) && AlertsNamed(f) && (forall k :: 0 <= k < |f.alerts| ==> NamesKnown(f, f.alerts[k]))
    && (forall k :: 0 <= k < |f.incidents| ==> f.incidents[k].id != "")
  }

  lemma FindingsNamed(lib: Library, db: Signatures, events: seq<Event>, letters: nat)
    requires Named(events)
    ensures WellNamed(Detection.FindingsOn(lib, db, events, letters))
  {
    var f := Detection.FindingsOn(lib, db, events, letters);
    forall k | 0 <= k < |f.alerts|
      ensures f.alerts[k].id != "" && NamesKnown(f, f.alerts[k])
    {
      Detection.AlertsGrounded(lib, db, events, k);
      GroundedKnown(f, f.alerts[k]);
      AlertNumbered(lib, db, events, k);
    }
    forall k | 0 <= k < |f.incidents|
      ensures f.incidents[k].id != ""
    {
      IncidentNumbered(lib, events, f.alerts, k);
    }
  }

  lemma AlertNumbered(lib: Library, db: Signatures, events: seq<Event>, k: nat)
    requires k < |Detection.Detect(lib, db, events)|
    ensures Detection.Detect(lib, db, events)[k].id != ""
  {
  }

  lemma IncidentNumbered(lib: Library, events: seq<Event>, alerts: seq<Alert>, k: nat)
    requires k < |Incidents(lib, events, alerts)|
    ensures Incidents(lib, events, alerts)[k].id != ""
  {
  }

  lemma EverythingStored(r: SavedRun)
    requires Stored(r) && WellNamed(r.findings)
    ensures AllStored(r.findings, r.dlq, r.ids.run, r.after)
  {
    var (f, run, s) := (r.findings, r.ids.run, r.after);
    forall k | 0 <= k < |f.events|
      ensures HasEvent(s, run, f.events[k])
    {
      EventRowIs(r, k);
    }
    AlertsStored(r);
    IncidentsStored(r);
    forall k | 0 <= k < |r.dlq|
      ensures HasLetter(s, run, r.dlq[k], k + 1)
    {
      LetterRowIs(r, k);
    }
  }

  lemma AlertsStored(r: SavedRun)
    requires Stored(r) && WellNamed(r.findings)
    ensures AlertsIn(r.findings, r.ids.run, r.after)
  {
    var (f, run, s) := (r.findings, r.ids.run, r.after);
    forall k | 0 <= k < |f.alerts|
      ensures HasAlert(s, run, f.alerts[k])
      ensures forall id <- f.alerts[k].eventIds :: [run, f.alerts[k].id, id] in s.alertEvents
    {
      AlertRowIs(r, k);
      forall id | id in f.alerts[k].eventIds
        ensures [run, f.alerts[k].id, id] in s.alertEvents
      {
        PairRowIs(r, k, id);
      }
    }
  }

  lemma IncidentsStored(r: SavedRun)
    requires Stored(r) && WellNamed(r.findings)
    ensures IncidentsIn(r.findings, r.ids.run, r.after)
  {
    var (f, run, s) := (r.findings, r.ids.run, r.after);
    forall k | 0 <= k < |f.incidents|
      ensures HasIncident(s, run, f.incidents[k], f)
    {
      IncidentRowIs(r, k);
    }
    forall k, a | 0 <= k < |f.incidents| && 0 <= a < |f.alerts| && Shares(f.incidents[k], f.alerts[a])
      ensures [run, f.incidents[k].id, f.alerts[a].id] in s.incidentAlerts
    {
      LinkRowIs(r, k, a);
    }
  }

  /** The save of an analysis commits, keeps the store consistent and stores everything. */
  ghost predicate StoresWell(t: Runs.Tables, ids: Runs.NewIds, f: Detection.Findings, dlq: seq<DlqEvent>) {
    var saved := Runs.Save(t, ids, Payload(f, dlq));
    saved.Some? && Runs.Consistent(saved.value) && AllStored(f, dlq, ids.run, saved.value)
  }

  lemma SavedIsStored(t: Runs.Tables, ids: Runs.NewIds, f: Detection.Findings, dlq: seq<DlqEvent>)
    requires SavesWell(t, ids, Payload(f, dlq)) && Runs.Savable(t, ids, Payload(f, dlq)) && WellNamed(f)
    ensures StoresWell(t, ids, f, dlq)
  {
    PayloadWritten(f, dlq);
    EverythingStored(SavedRun(Payload(f, dlq), f, dlq, t, ids, Runs.Save(t, ids, Payload(f, dlq)).value));
  }

  /** Analysing raw events whose valid ids are texts and saving the result commits, and then everything is stored. */
  lemma AnalysisIsStored(lib: Library, db: Signatures, raw: seq<Fields>, t: Runs.Tables, ids: Runs.NewIds)
    requires NamedByText(lib, raw) && Runs.Consistent(t)
    ensures var a := Detection.Analyze(lib, db, raw);
      a.Analyzed? && Runs.Savable(t, ids, Payload(a.findings, a.dlq)) ==> StoresWell(t, ids, a.findings, a.dlq)
  {
    var a := Detection.Analyze(lib, db, raw);
    AnalyzeThenSave(lib, db, raw, t, ids);
    if a.Analyzed? && Runs.Savable(t, ids, Payload(a.findings, a.dlq)) {
      var events := Detection.Canonical(lib, ValidEvents(lib, Clean(lib, raw)));
      var letters := Detection.AnalyzedFindings(lib, db, raw, events);
      CanonicalNamed(lib, raw);
      FindingsNamed(lib, db, events, letters);
      SavedIsStored(t, ids, a.findings, a.dlq);
    }
  }
}
