/** Projection of an analysis payload onto relational rows (src/service_store_rows.py). */
module StoreRows {
  import opened Prelude
  import opened Json

  type Object = map<string, Value>

  function Field(o: Object, key: string): Value { if key in o then o[key] else Null }

  function TextValue(v: Value): string { if v.Str? then v.text else "" }

  function TextField(o: Object, key: string): string { TextValue(Field(o, key)) }

  /** The objects of a JSON list; anything else is dropped. */
  function Objects(items: seq<Value>): seq<Object> {
    if items == [] then []
    else if items[0].Obj? then [items[0].members] + Objects(items[1..])
    else Objects(items[1..])
  }

  function JsonList(v: Value): seq<Object> { if v.List? then Objects(v.items) else [] }

  function Texts(items: seq<Value>): seq<string> {
    if items == [] then []
    else if items[0].Str? && items[0].text != "" then [items[0].text] + Texts(items[1..])
    else Texts(items[1..])
  }

  /** The non-empty strings of a JSON list. */
  function TextList(v: Value): seq<string> { if v.List? then Texts(v.items) else [] }

  function Ids(objects: seq<Object>, key: string): seq<string> { Map(objects, (o: Object) => TextField(o, key)) }

  function Events(payload: Object): seq<Object> { JsonList(Field(payload, "events")) }

  function Alerts(payload: Object): seq<Object> { JsonList(Field(payload, "alerts")) }

  function Incidents(payload: Object): seq<Object> { JsonList(Field(payload, "incidents")) }

  function EventIds(payload: Object): seq<string> { Ids(Events(payload), "event_id") }

  function AlertIds(payload: Object): seq<string> { Ids(Alerts(payload), "alert_id") }

  function IncidentIds(payload: Object): seq<string> { Ids(Incidents(payload), "incident_id") }

  function AlertEventIds(alert: Object): seq<string> { TextList(Field(alert, "event_ids")) }

  function EventIdSet(payload: Object): set<string> { set id | id in EventIds(payload) && id != "" }

  // ---------------------------------------------------------------- rows

  datatype EventRow = EventRow(runId: string, eventId: string, payload: Object)
  datatype AlertRow = AlertRow(runId: string, alertId: string, primaryEventId: Option<string>, payload: Object)
  datatype IncidentRow = IncidentRow(runId: string, incidentId: string, primaryAlertId: Option<string>, payload: Object)
  datatype AlertEventRow = AlertEventRow(runId: string, alertId: string, eventId: string)
  datatype IncidentAlertRow = IncidentAlertRow(runId: string, incidentId: string, alertId: string)
  datatype DlqRow = DlqRow(runId: string, dlqId: string, payload: Object)

  /** Ids that are generated for rows whose object has none; the i-th row of a table uses the i-th id. */
  type Supply = nat -> string

  function RowId(ids: seq<string>, i: nat, newId: Supply): string
    requires i < |ids|
  {
    if ids[i] != "" then ids[i] else newId(i)
  }

  /** The first id that is a known one. */
  function FirstIn(ids: seq<string>, known: set<string>): Option<string> {
    if ids == [] then None else if ids[0] in known then Some(ids[0]) else FirstIn(ids[1..], known)
  }

  function EventRows(runId: string, payload: Object, newId: Supply): seq<EventRow> {
    var ids := EventIds(payload);
    seq(|ids|, i requires 0 <= i < |ids| => EventRow(runId, RowId(ids, i, newId), Events(payload)[i]))
  }

  function AlertRows(runId: string, payload: Object, newId: Supply): seq<AlertRow> {
    var ids, known := AlertIds(payload), EventIdSet(payload);
    seq(|ids|, i requires 0 <= i < |ids| =>
      AlertRow(runId, RowId(ids, i, newId), FirstIn(AlertEventIds(Alerts(payload)[i]), known), Alerts(payload)[i]))
  }

  function IncidentRows(runId: string, payload: Object, newId: Supply): seq<IncidentRow> {
    var ids, alerts := IncidentIds(payload), Alerts(payload);
    seq(|ids|, i requires 0 <= i < |ids| =>
      var linked := IncidentAlertIds(Incidents(payload)[i], alerts);
      IncidentRow(runId, RowId(ids, i, newId), if linked == [] then None else Some(linked[0]), Incidents(payload)[i]))
  }

  function DlqRows(runId: string, payload: Object): seq<DlqRow> {
    var dlq := JsonList(Field(payload, "dlq_events"));
    seq(|dlq|, i requires 0 <= i < |dlq| => DlqRow(runId, runId + "-dlq-" + ThreeDigits(i + 1), dlq[i]))
  }

  // ---------------------------------------------------------------- links of an incident

  function KnownAlertIds(alerts: seq<Object>): set<string> { set id | id in Ids(alerts, "alert_id") && id != "" }

  /** Event ids named by the stages of an incident, in stage order. */
  function StageEventIds(stages: seq<Object>): seq<string> {
    if stages == [] then []
    else
      var n := |stages| - 1;
      var id := TextField(stages[n], "event_id");
      StageEventIds(stages[..n]) + (if id != "" then [id] else []) + TextList(Field(stages[n], "event_ids"))
  }

  function IncidentEventIds(incident: Object): seq<string> {
    StageEventIds(JsonList(Field(incident, "detected_sequence")))
  }

  function KeepKnown(ids: seq<string>, known: set<string>): seq<string> {
    if ids == [] then [] else (if ids[0] in known then [ids[0]] else []) + KeepKnown(ids[1..], known)
  }

  /** Alert ids that the incident names itself. */
  function ExplicitAlertIds(incident: Object, known: set<string>): seq<string> {
    var listed := KeepKnown(TextList(Field(incident, "alert_ids")), known);
    var primary := TextField(incident, "primary_alert_id");
    if primary != "" && primary in known && primary !in listed then listed + [primary] else listed
  }

  /** An alert belongs to an incident when it is on its host and shares an event with it. */
  predicate Related(alert: Object, host: string, eventIds: set<string>) {
    && TextField(alert, "alert_id") != ""
    && (host == "" || TextField(alert, "host_id") == host)
    && exists i :: 0 <= i < |AlertEventIds(alert)| && AlertEventIds(alert)[i] in eventIds
  }

  function RelatedAlertIds(alerts: seq<Object>, host: string, eventIds: set<string>): seq<string> {
    if alerts == [] then []
    else
      var n := |alerts| - 1;
      RelatedAlertIds(alerts[..n], host, eventIds)
      + (if Related(alerts[n], host, eventIds) then [TextField(alerts[n], "alert_id")] else [])
  }

  function IncidentAlertIds(incident: Object, alerts: seq<Object>): seq<string> {
    var explicit := ExplicitAlertIds(incident, KnownAlertIds(alerts));
    if explicit != [] then explicit
    else
      var ids := IncidentEventIds(incident);
      RelatedAlertIds(alerts, TextField(incident, "host_id"), (set id | id in ids))
  }

  method CollectIncidentEventIds(incident: Object) returns (eventIds: seq<string>)
    ensures eventIds == IncidentEventIds(incident)
  {
    eventIds := [];
    var stages := JsonList(Field(incident, "detected_sequence"));
    for i := 0 to |stages|
      invariant eventIds == StageEventIds(stages[..i])
    {
      assert stages[..i + 1][..i] == stages[..i];
      var id := TextField(stages[i], "event_id");
      if id != "" {
        eventIds := eventIds + [id];
      }
      eventIds := eventIds + TextList(Field(stages[i], "event_ids"));
    }
    assert stages[..|stages|] == stages;
  }

  method CollectIncidentAlertIds(incident: Object, alerts: seq<Object>) returns (alertIds: seq<string>)
    ensures alertIds == IncidentAlertIds(incident, alerts)
  {
    var known: set<string> := {};
    for i := 0 to |alerts|
      invariant known == KnownAlertIds(alerts[..i])
    {
      KnownSnoc(alerts, i);
      var id := TextField(alerts[i], "alert_id");
      if id != "" {
        known := known + {id};
      }
    }
    assert alerts[..|alerts|] == alerts;
    var explicit := ExplicitAlertIds(incident, known);
    if explicit != [] {
      return explicit;
    }
    var ids := CollectIncidentEventIds(incident);
    var eventIds := set id | id in ids;
    var host := TextField(incident, "host_id");
    if eventIds == {} {
      NothingRelated(alerts, host);
      return [];
    }
    alertIds := [];
    for i := 0 to |alerts|
      invariant alertIds == RelatedAlertIds(alerts[..i], host, eventIds)
    {
      assert alerts[..i + 1][..i] == alerts[..i];
      if Related(alerts[i], host, eventIds) {
        alertIds := alertIds + [TextField(alerts[i], "alert_id")];
      }
    }
  }

  lemma KnownSnoc(alerts: seq<Object>, i: nat)
    requires i < |alerts|
    ensures var id := TextField(alerts[i], "alert_id");
      KnownAlertIds(alerts[..i + 1]) == KnownAlertIds(alerts[..i]) + (if id != "" then {id} else {})
  {
    var ids := Ids(alerts[..i + 1], "alert_id");
    assert ids == Ids(alerts[..i], "alert_id") + [TextField(alerts[i], "alert_id")];
  }

  lemma {:induction false} NothingRelated(alerts: seq<Object>, host: string)
    ensures RelatedAlertIds(alerts, host, {}) == []
  {
    if alerts != [] {
      NothingRelated(alerts[..|alerts| - 1], host);
    }
  }

  /** Every linked alert id is a non-empty id of an alert of the payload. */
  lemma {:induction false} RelatedKnown(alerts: seq<Object>, host: string, eventIds: set<string>, id: string)
    ensures id in RelatedAlertIds(alerts, host, eventIds)
      <==> exists i :: 0 <= i < |alerts| && Related(alerts[i], host, eventIds) && TextField(alerts[i], "alert_id") == id
  {
    if alerts != [] {
      var n := |alerts| - 1;
      RelatedKnown(alerts[..n], host, eventIds, id);
      assert forall i :: 0 <= i < n ==> alerts[..n][i] == alerts[i];
    }
  }

  lemma {:induction false} KeepKnownIn(ids: seq<string>, known: set<string>, id: string)
    ensures id in KeepKnown(ids, known) <==> id in ids && id in known
  {
    if ids != [] {
      KeepKnownIn(ids[1..], known, id);
      assert ids == [ids[0]] + ids[1..];
    }
  }

  lemma IncidentAlertIdsKnown(incident: Object, alerts: seq<Object>, id: string)
    requires id in IncidentAlertIds(incident, alerts)
    ensures id in KnownAlertIds(alerts)
  {
    var known := KnownAlertIds(alerts);
    KeepKnownIn(TextList(Field(incident, "alert_ids")), known, id);
    if ExplicitAlertIds(incident, known) == [] {
      var ids := IncidentEventIds(incident);
      RelatedKnown(alerts, TextField(incident, "host_id"), (set e | e in ids), id);
      var i :| 0 <= i < |alerts| && TextField(alerts[i], "alert_id") == id != "";
      assert Ids(alerts, "alert_id")[i] == id;
    }
  }

  lemma {:induction false} FirstInKnown(ids: seq<string>, known: set<string>)
    ensures FirstIn(ids, known).Some? ==> FirstIn(ids, known).value in known
    ensures FirstIn(ids, known).None? <==> forall id :: id in ids ==> id !in known
  {
    if ids != [] {
      FirstInKnown(ids[1..], known);
      assert ids == [ids[0]] + ids[1..];
    }
  }

  // ---------------------------------------------------------------- bridge rows

  /** Keep the first copy of each element. */
  function Dedup<T(==)>(xs: seq<T>): seq<T> {
    if xs == [] then []
    else
      var n := |xs| - 1;
      var front := Dedup(xs[..n]);
      if xs[n] in front then front else front + [xs[n]]
  }

  lemma {:induction false} DedupCorrect<T>(xs: seq<T>, x: T)
    ensures Distinct(Dedup(xs))
    ensures x in Dedup(xs) <==> x in xs
  {
    if xs != [] {
      var n := |xs| - 1;
      DedupCorrect(xs[..n], xs[n]);
      DedupCorrect(xs[..n], x);
      assert xs == xs[..n] + [xs[n]];
    }
  }

  function Pair(runId: string, alertId: string, eventIds: seq<string>, known: set<string>): seq<AlertEventRow> {
    if eventIds == [] then []
    else
      var n := |eventIds| - 1;
      Pair(runId, alertId, eventIds[..n], known)
      + (if eventIds[n] in known then [AlertEventRow(runId, alertId, eventIds[n])] else [])
  }

  /** Alert/event pairs in payload order, repetitions included. */
  function AlertEventPairs(runId: string, alerts: seq<Object>, known: set<string>): seq<AlertEventRow> {
    if alerts == [] then []
    else
      var n := |alerts| - 1;
      var id := TextField(alerts[n], "alert_id");
      AlertEventPairs(runId, alerts[..n], known)
      + (if id == "" then [] else Pair(runId, id, AlertEventIds(alerts[n]), known))
  }

  function AlertEventRows(runId: string, payload: Object): seq<AlertEventRow> {
    Dedup(AlertEventPairs(runId, Alerts(payload), EventIdSet(payload)))
  }

  function Link(runId: string, incidentId: string, alertIds: seq<string>): seq<IncidentAlertRow> {
    if alertIds == [] then []
    else
      var n := |alertIds| - 1;
      Link(runId, incidentId, alertIds[..n]) + [IncidentAlertRow(runId, incidentId, alertIds[n])]
  }

  function IncidentAlertPairs(runId: string, incidents: seq<Object>, alerts: seq<Object>): seq<IncidentAlertRow> {
    if incidents == [] then []
    else
      var n := |incidents| - 1;
      var id := TextField(incidents[n], "incident_id");
      IncidentAlertPairs(runId, incidents[..n], alerts)
      + (if id == "" then [] else Link(runId, id, IncidentAlertIds(incidents[n], alerts)))
  }

  function IncidentAlertRows(runId: string, payload: Object): seq<IncidentAlertRow> {
    Dedup(IncidentAlertPairs(runId, Incidents(payload), Alerts(payload)))
  }

  lemma DedupSnoc<T>(xs: seq<T>, x: T)
    ensures Dedup(xs + [x]) == if x in Dedup(xs) then Dedup(xs) else Dedup(xs) + [x]
  {
    assert (xs + [x])[..|xs|] == xs;
  }

  /** Build the alert/event rows, skipping unknown events and pairs already seen. */
  method BuildAlertEventRows(runId: string, payload: Object) returns (rows: seq<AlertEventRow>)
    ensures rows == AlertEventRows(runId, payload)
  {
    var known, alerts := EventIdSet(payload), Alerts(payload);
    rows := [];
    for i := 0 to |alerts|
      invariant rows == Dedup(AlertEventPairs(runId, alerts[..i], known))
    {
      assert alerts[..i + 1][..i] == alerts[..i];
      ghost var before := AlertEventPairs(runId, alerts[..i], known);
      var alertId := TextField(alerts[i], "alert_id");
      assert before + [] == before;
      if alertId != "" {
        rows := AddPairs(rows, runId, alertId, AlertEventIds(alerts[i]), known, before);
      }
    }
    assert alerts[..|alerts|] == alerts;
  }

  /** The inner loop over the event ids of one alert. */
  method AddPairs(rows: seq<AlertEventRow>, runId: string, alertId: string, ids: seq<string>, known: set<string>,
                  ghost before: seq<AlertEventRow>)
    returns (extended: seq<AlertEventRow>)
    requires rows == Dedup(before)
    ensures extended == Dedup(before + Pair(runId, alertId, ids, known))
  {
    extended := rows;
    assert before + [] == before;
    for j := 0 to |ids|
      invariant extended == Dedup(before + Pair(runId, alertId, ids[..j], known))
    {
      assert ids[..j + 1][..j] == ids[..j];
      ghost var pairs := Pair(runId, alertId, ids[..j], known);
      assert pairs + [] == pairs;
      if ids[j] in known {
        var row := AlertEventRow(runId, alertId, ids[j]);
        DedupSnoc(before + pairs, row);
        AppendAssociative(before, pairs, [row]);
        if row !in extended {
          extended := extended + [row];
        }
      }
    }
    assert ids[..|ids|] == ids;
  }

  method BuildIncidentAlertRows(runId: string, payload: Object) returns (rows: seq<IncidentAlertRow>)
    ensures rows == IncidentAlertRows(runId, payload)
  {
    var incidents, alerts := Incidents(payload), Alerts(payload);
    rows := [];
    for i := 0 to |incidents|
      invariant rows == Dedup(IncidentAlertPairs(runId, incidents[..i], alerts))
    {
      assert incidents[..i + 1][..i] == incidents[..i];
      ghost var before := IncidentAlertPairs(runId, incidents[..i], alerts);
      var incidentId := TextField(incidents[i], "incident_id");
      assert before + [] == before;
      if incidentId != "" {
        var ids := CollectIncidentAlertIds(incidents[i], alerts);
        rows := AddLinks(rows, runId, incidentId, ids, before);
      }
    }
    assert incidents[..|incidents|] == incidents;
  }

  /** The inner loop over the alert ids of one incident. */
  method AddLinks(rows: seq<IncidentAlertRow>, runId: string, incidentId: string, ids: seq<string>,
                  ghost before: seq<IncidentAlertRow>)
    returns (extended: seq<IncidentAlertRow>)
    requires rows == Dedup(before)
    ensures extended == Dedup(before + Link(runId, incidentId, ids))
  {
    extended := rows;
    assert before + [] == before;
    for j := 0 to |ids|
      invariant extended == Dedup(before + Link(runId, incidentId, ids[..j]))
    {
      var row := IncidentAlertRow(runId, incidentId, ids[j]);
      assert ids[..j + 1][..j] == ids[..j];
      DedupSnoc(before + Link(runId, incidentId, ids[..j]), row);
      AppendAssociative(before, Link(runId, incidentId, ids[..j]), [row]);
      if row !in extended {
        extended := extended + [row];
      }
    }
    assert ids[..|ids|] == ids;
  }

  ghost predicate SomeAlertNames(alerts: seq<Object>, alertId: string, eventId: string) {
    exists i :: 0 <= i < |alerts| && TextField(alerts[i], "alert_id") == alertId && eventId in AlertEventIds(alerts[i])
  }

  ghost predicate SomeIncidentLinks(incidents: seq<Object>, alerts: seq<Object>, incidentId: string, alertId: string) {
    exists i :: 0 <= i < |incidents| && TextField(incidents[i], "incident_id") == incidentId
      && alertId in IncidentAlertIds(incidents[i], alerts)
  }

  lemma {:induction false} PairIn(runId: string, alertId: string, eventIds: seq<string>, known: set<string>,
                                  row: AlertEventRow)
    ensures row in Pair(runId, alertId, eventIds, known)
      <==> row.runId == runId && row.alertId == alertId && row.eventId in eventIds && row.eventId in known
  {
    if eventIds != [] {
      var n := |eventIds| - 1;
      PairIn(runId, alertId, eventIds[..n], known, row);
      assert eventIds == eventIds[..n] + [eventIds[n]];
    }
  }

  lemma {:induction false} AlertEventPairIn(runId: string, alerts: seq<Object>, known: set<string>, row: AlertEventRow)
    ensures row in AlertEventPairs(runId, alerts, known)
      <==> (row.runId == runId && row.alertId != "" && row.eventId in known
        && SomeAlertNames(alerts, row.alertId, row.eventId))
  {
    if alerts != [] {
      var n := |alerts| - 1;
      AlertEventPairIn(runId, alerts[..n], known, row);
      PairIn(runId, TextField(alerts[n], "alert_id"), AlertEventIds(alerts[n]), known, row);
      SomeAlertSnoc(alerts, row.alertId, row.eventId);
    }
  }

  lemma SomeAlertSnoc(alerts: seq<Object>, alertId: string, eventId: string)
    requires alerts != []
    ensures var (front, last) := (alerts[..|alerts| - 1], alerts[|alerts| - 1]);
      SomeAlertNames(alerts, alertId, eventId)
      <==> (SomeAlertNames(front, alertId, eventId)
            || (TextField(last, "alert_id") == alertId && eventId in AlertEventIds(last)))
  {
    var front := alerts[..|alerts| - 1];
    assert forall i :: 0 <= i < |front| ==> front[i] == alerts[i];
  }

  /** The alert/event rows are exactly the named pairs of emitted alerts and emitted events, each once. */
  lemma AlertEventRowsExact(runId: string, payload: Object, row: AlertEventRow)
    ensures Distinct(AlertEventRows(runId, payload))
    ensures row in AlertEventRows(runId, payload)
      <==> (row.runId == runId && row.alertId != "" && row.eventId in EventIdSet(payload)
            && SomeAlertNames(Alerts(payload), row.alertId, row.eventId))
  {
    DedupCorrect(AlertEventPairs(runId, Alerts(payload), EventIdSet(payload)), row);
    AlertEventPairIn(runId, Alerts(payload), EventIdSet(payload), row);
  }

  lemma {:induction false} LinkIn(runId: string, incidentId: string, alertIds: seq<string>, row: IncidentAlertRow)
    ensures row in Link(runId, incidentId, alertIds)
      <==> (row.runId == runId && row.incidentId == incidentId && row.alertId in alertIds)
  {
    if alertIds != [] {
      var n := |alertIds| - 1;
      LinkIn(runId, incidentId, alertIds[..n], row);
      assert alertIds == alertIds[..n] + [alertIds[n]];
    }
  }

  lemma {:induction false} IncidentAlertPairIn(runId: string, incidents: seq<Object>, alerts: seq<Object>,
                                               row: IncidentAlertRow)
    ensures row in IncidentAlertPairs(runId, incidents, alerts)
      <==> (row.runId == runId && row.incidentId != ""
        && SomeIncidentLinks(incidents, alerts, row.incidentId, row.alertId))
  {
    if incidents != [] {
      var n := |incidents| - 1;
      IncidentAlertPairIn(runId, incidents[..n], alerts, row);
      LinkIn(runId, TextField(incidents[n], "incident_id"), IncidentAlertIds(incidents[n], alerts), row);
      SomeIncidentSnoc(incidents, alerts, row.incidentId, row.alertId);
    }
  }

  lemma SomeIncidentSnoc(incidents: seq<Object>, alerts: seq<Object>, incidentId: string, alertId: string)
    requires incidents != []
    ensures var (front, last) := (incidents[..|incidents| - 1], incidents[|incidents| - 1]);
      SomeIncidentLinks(incidents, alerts, incidentId, alertId)
      <==> (SomeIncidentLinks(front, alerts, incidentId, alertId)
            || (TextField(last, "incident_id") == incidentId && alertId in IncidentAlertIds(last, alerts)))
  {
    var front := incidents[..|incidents| - 1];
    assert forall i :: 0 <= i < |front| ==> front[i] == incidents[i];
  }

  /** The incident/alert rows are exactly the links of the identified incidents, each once. */
  lemma IncidentAlertRowsExact(runId: string, payload: Object, row: IncidentAlertRow)
    ensures Distinct(IncidentAlertRows(runId, payload))
    ensures row in IncidentAlertRows(runId, payload)
      <==> (row.runId == runId && row.incidentId != ""
            && SomeIncidentLinks(Incidents(payload), Alerts(payload), row.incidentId, row.alertId))
  {
    DedupCorrect(IncidentAlertPairs(runId, Incidents(payload), Alerts(payload)), row);
    IncidentAlertPairIn(runId, Incidents(payload), Alerts(payload), row);
  }
}
