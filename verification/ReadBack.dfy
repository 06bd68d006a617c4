/** What a committed save has stored: every object of the payload under its id, and its links
    (src/service_store.py:74-114, src/service_store_rows.py:34-229). */
module ReadBack {
  import opened Prelude
  import opened Json
  import opened StoreRows
  import opened RunStore

  // ---------------------------------------------------------------- reading a payload

  /** The object is an element of the list under the key. */
  ghost predicate Lists(payload: Object, key: string, o: Object) {
    key in payload && payload[key].List? && Obj(o) in payload[key].items
  }

  /** The object has this text, not empty, under the key. */
  predicate HasText(o: Object, key: string, text: string) { text != "" && key in o && o[key] == Str(text) }

  /** The list under the key has this text, not empty, among its elements. */
  ghost predicate NamesText(o: Object, key: string, text: string) {
    text != "" && key in o && o[key].List? && Str(text) in o[key].items
  }

  lemma TextFieldIff(o: Object, key: string, text: string)
    requires text != ""
    ensures TextField(o, key) == text <==> HasText(o, key, text)
  {
  }

  lemma {:induction false} ObjectsIff(items: seq<Value>, o: Object)
    ensures o in Objects(items) <==> Obj(o) in items
  {
    if items != [] {
      ObjectsIff(items[1..], o);
      assert items == [items[0]] + items[1..];
    }
  }

  lemma {:induction false} TextsIff(items: seq<Value>, text: string)
    ensures text in Texts(items) <==> text != "" && Str(text) in items
  {
    if items != [] {
      TextsIff(items[1..], text);
      assert items == [items[0]] + items[1..];
    }
  }

  lemma SectionIff(payload: Object, key: string, o: Object)
    ensures o in JsonList(Field(payload, key)) <==> Lists(payload, key, o)
  {
    if key in payload && payload[key].List? {
      ObjectsIff(payload[key].items, o);
    }
  }

  lemma TextListIff(o: Object, key: string, text: string)
    ensures text in TextList(Field(o, key)) <==> NamesText(o, key, text)
  {
    if key in o && o[key].List? {
      TextsIff(o[key].items, text);
    }
  }

  /** The id is that of an event of the payload. */
  ghost predicate KnownEvent(payload: Object, id: string) {
    exists event: Object :: Lists(payload, "events", event) && HasText(event, "event_id", id)
  }

  ghost predicate KnownAlert(payload: Object, id: string) {
    exists alert: Object :: Lists(payload, "alerts", alert) && HasText(alert, "alert_id", id)
  }

  lemma IdsIff(objects: seq<Object>, key: string, id: string)
    requires id != ""
    ensures id in Ids(objects, key) <==> exists o <- objects :: HasText(o, key, id)
  {
    var ids := Ids(objects, key);
    if id in ids {
      var i :| 0 <= i < |ids| && ids[i] == id;
      TextFieldIff(objects[i], key, id);
      assert objects[i] in objects;
    }
    if exists o <- objects :: HasText(o, key, id) {
      var o :| o in objects && HasText(o, key, id);
      var i :| 0 <= i < |objects| && objects[i] == o;
      assert ids[i] == id;
    }
  }

  lemma KnownEventIff(payload: Object, id: string)
    ensures id in EventIdSet(payload) <==> KnownEvent(payload, id)
  {
    if id != "" {
      IdsIff(Events(payload), "event_id", id);
      if o: Object :| o in Events(payload) && HasText(o, "event_id", id) {
        SectionIff(payload, "events", o);
      }
      if event: Object :| Lists(payload, "events", event) && HasText(event, "event_id", id) {
        SectionIff(payload, "events", event);
      }
    }
  }

  lemma KnownAlertIff(payload: Object, id: string)
    ensures id in KnownAlertIds(Alerts(payload)) <==> KnownAlert(payload, id)
  {
    if id != "" {
      IdsIff(Alerts(payload), "alert_id", id);
      if o: Object :| o in Alerts(payload) && HasText(o, "alert_id", id) {
        SectionIff(payload, "alerts", o);
      }
      if alert: Object :| Lists(payload, "alerts", alert) && HasText(alert, "alert_id", id) {
        SectionIff(payload, "alerts", alert);
      }
    }
  }

  // ---------------------------------------------------------------- links of an incident

  /** The incident names the alert itself. */
  ghost predicate NamesAlert(incident: Object, id: string) {
    NamesText(incident, "alert_ids", id) || HasText(incident, "primary_alert_id", id)
  }

  /** A stage of the incident names the event. */
  ghost predicate NamesEvent(incident: Object, id: string) {
    exists stage: Object ::
      && Lists(incident, "detected_sequence", stage)
      && (HasText(stage, "event_id", id) || NamesText(stage, "event_ids", id))
  }

  /** The alert is on the incident's host, if it has one, and names an event of the incident. */
  ghost predicate SharesEvent(incident: Object, alert: Object) {
    && (forall host :: HasText(incident, "host_id", host) ==> HasText(alert, "host_id", host))
    && exists id :: NamesText(alert, "event_ids", id) && NamesEvent(incident, id)
  }

  lemma ExplicitIff(incident: Object, known: set<string>, id: string)
    requires "" !in known
    ensures id in ExplicitAlertIds(incident, known) <==> id in known && NamesAlert(incident, id)
  {
    var named := TextList(Field(incident, "alert_ids"));
    KeepKnownIn(named, known, id);
    TextListIff(incident, "alert_ids", id);
    if id != "" {
      TextFieldIff(incident, "primary_alert_id", id);
    }
  }

  lemma {:induction false} StagesIff(stages: seq<Object>, id: string)
    ensures id in StageEventIds(stages) <==>
      exists stage <- stages :: HasText(stage, "event_id", id) || NamesText(stage, "event_ids", id)
  {
    if stages != [] {
      var n := |stages| - 1;
      StagesIff(stages[..n], id);
      TextListIff(stages[n], "event_ids", id);
      if id != "" {
        TextFieldIff(stages[n], "event_id", id);
      }
      assert stages == stages[..n] + [stages[n]];
    }
  }

  lemma NamedEventIff(incident: Object, id: string)
    ensures id in IncidentEventIds(incident) <==> NamesEvent(incident, id)
  {
    var stages := JsonList(Field(incident, "detected_sequence"));
    StagesIff(stages, id);
    forall stage: Object
      ensures stage in stages <==> Lists(incident, "detected_sequence", stage)
    {
      SectionIff(incident, "detected_sequence", stage);
    }
  }

  lemma RelatedIff(incident: Object, alert: Object)
    ensures Related(alert, TextField(incident, "host_id"), set id | id in IncidentEventIds(incident)) <==>
      (exists id :: HasText(alert, "alert_id", id)) && SharesEvent(incident, alert)
  {
    var host := TextField(incident, "host_id");
    var eventIds := set id | id in IncidentEventIds(incident);
    HostIff(incident, alert);
    SharedIff(incident, alert);
    if TextField(alert, "alert_id") != "" {
      TextFieldIff(alert, "alert_id", TextField(alert, "alert_id"));
    }
  }

  lemma HostIff(incident: Object, alert: Object)
    ensures var host := TextField(incident, "host_id");
      (host == "" || TextField(alert, "host_id") == host)
      <==> forall h :: HasText(incident, "host_id", h) ==> HasText(alert, "host_id", h)
  {
    var host := TextField(incident, "host_id");
    if host != "" {
      TextFieldIff(incident, "host_id", host);
      TextFieldIff(alert, "host_id", host);
    }
  }

  lemma SharedIff(incident: Object, alert: Object)
    ensures (exists i :: 0 <= i < |AlertEventIds(alert)| && AlertEventIds(alert)[i] in IncidentEventIds(incident))
      <==> exists id :: NamesText(alert, "event_ids", id) && NamesEvent(incident, id)
  {
    var named := AlertEventIds(alert);
    if i :| 0 <= i < |named| && named[i] in IncidentEventIds(incident) {
      TextListIff(alert, "event_ids", named[i]);
      NamedEventIff(incident, named[i]);
    }
    if id :| NamesText(alert, "event_ids", id) && NamesEvent(incident, id) {
      TextListIff(alert, "event_ids", id);
      NamedEventIff(incident, id);
      var i :| 0 <= i < |named| && named[i] == id;
      assert named[i] in IncidentEventIds(incident);
    }
  }

  /** An alert of the payload with this id that shares the incident's host and an event with it. */
  ghost predicate SharedAlert(payload: Object, incident: Object, id: string) {
    exists alert: Object ::
      Lists(payload, "alerts", alert) && HasText(alert, "alert_id", id) && SharesEvent(incident, alert)
  }

  lemma SharedAlertIff(payload: Object, incident: Object, id: string)
    ensures id in RelatedAlertIds(Alerts(payload), TextField(incident, "host_id"),
                                  set e | e in IncidentEventIds(incident))
      <==> SharedAlert(payload, incident, id)
  {
    var alerts, host := Alerts(payload), TextField(incident, "host_id");
    var eventIds := set e | e in IncidentEventIds(incident);
    RelatedKnown(alerts, host, eventIds, id);
    if i :| 0 <= i < |alerts| && Related(alerts[i], host, eventIds) && TextField(alerts[i], "alert_id") == id {
      RelatedIff(incident, alerts[i]);
      SectionIff(payload, "alerts", alerts[i]);
      TextFieldIff(alerts[i], "alert_id", id);
    }
    if alert: Object :|
      Lists(payload, "alerts", alert) && HasText(alert, "alert_id", id) && SharesEvent(incident, alert)
    {
      SectionIff(payload, "alerts", alert);
      RelatedIff(incident, alert);
      TextFieldIff(alert, "alert_id", id);
      var i :| 0 <= i < |alerts| && alerts[i] == alert;
    }
  }

  /**
   * An incident is linked to the alerts of the payload that it names, if it names any of them; otherwise to those of
   * its host that share an event with it.
   */
  lemma LinkedIff(payload: Object, incident: Object, id: string)
    ensures id in IncidentAlertIds(incident, Alerts(payload)) <==>
      if exists named :: KnownAlert(payload, named) && NamesAlert(incident, named)
      then KnownAlert(payload, id) && NamesAlert(incident, id)
      else SharedAlert(payload, incident, id)
  {
    var known := KnownAlertIds(Alerts(payload));
    var explicit := ExplicitAlertIds(incident, known);
    forall named
      ensures named in explicit <==> KnownAlert(payload, named) && NamesAlert(incident, named)
    {
      ExplicitIff(incident, known, named);
      KnownAlertIff(payload, named);
    }
    assert explicit != [] ==> explicit[0] in explicit;
    SharedAlertIff(payload, incident, id);
  }

  // ---------------------------------------------------------------- firsts

  /** The element at k is the first of the list that is known. */
  predicate FirstKnown(ids: seq<string>, known: set<string>, k: nat) {
    k < |ids| && ids[k] in known && forall j :: 0 <= j < k ==> ids[j] !in known
  }

  lemma {:induction false} FirstInIs(ids: seq<string>, known: set<string>) returns (k: nat)
    ensures FirstIn(ids, known).Some? ==> FirstKnown(ids, known, k) && FirstIn(ids, known) == Some(ids[k])
    ensures FirstIn(ids, known).None? ==> forall id <- ids :: id !in known
  {
    k := 0;
    if ids != [] && ids[0] !in known {
      k := FirstInIs(ids[1..], known);
      k := k + 1;
      assert ids == [ids[0]] + ids[1..];
    }
  }

  lemma {:induction false} KeepKnownHead(ids: seq<string>, known: set<string>)
    ensures FirstIn(ids, known) == if KeepKnown(ids, known) == [] then None else Some(KeepKnown(ids, known)[0])
  {
    if ids != [] {
      KeepKnownHead(ids[1..], known);
    }
  }

  /** The first related id is that of the earliest related alert. */
  lemma {:induction false} RelatedHead(alerts: seq<Object>, host: string, eventIds: set<string>) returns (k: nat)
    ensures var related := RelatedAlertIds(alerts, host, eventIds);
      related != [] ==>
        && k < |alerts| && Related(alerts[k], host, eventIds) && related[0] == TextField(alerts[k], "alert_id")
        && forall j :: 0 <= j < k ==> !Related(alerts[j], host, eventIds)
    ensures RelatedAlertIds(alerts, host, eventIds) == [] ==>
      forall j :: 0 <= j < |alerts| ==> !Related(alerts[j], host, eventIds)
  {
    k := 0;
    if alerts != [] {
      var n := |alerts| - 1;
      k := RelatedHead(alerts[..n], host, eventIds);
      assert forall j :: 0 <= j < n ==> alerts[..n][j] == alerts[j];
      if RelatedAlertIds(alerts[..n], host, eventIds) == [] {
        k := n;
      }
    }
  }

  /** The primary alert: the first known one listed, else the known one named as primary, else the first that shares. */
  lemma PrimaryAlertIs(payload: Object, incident: Object, linked: seq<string>) returns (k: nat)
    requires linked == IncidentAlertIds(incident, Alerts(payload))
    ensures var (known, listed) := (KnownAlertIds(Alerts(payload)), TextList(Field(incident, "alert_ids")));
      var primary := TextField(incident, "primary_alert_id");
      if exists id <- listed :: id in known then linked != [] && FirstKnown(listed, known, k) && linked[0] == listed[k]
      else if primary != "" && primary in known then linked == [primary]
      else linked != [] ==>
        && k < |Alerts(payload)| && SharesEvent(incident, Alerts(payload)[k])
        && HasText(Alerts(payload)[k], "alert_id", linked[0])
        && forall j, id :: 0 <= j < k && SharesEvent(incident, Alerts(payload)[j]) ==>
             !HasText(Alerts(payload)[j], "alert_id", id)
  {
    var known, listed := KnownAlertIds(Alerts(payload)), TextList(Field(incident, "alert_ids"));
    KeepKnownHead(listed, known);
    k := FirstInIs(listed, known);
    if FirstIn(listed, known).None? && !(TextField(incident, "primary_alert_id") in known) {
      k := FirstSharing(payload, incident, linked);
    }
  }

  lemma FirstSharing(payload: Object, incident: Object, linked: seq<string>) returns (k: nat)
    requires linked == RelatedAlertIds(Alerts(payload), TextField(incident, "host_id"),
                                       set e | e in IncidentEventIds(incident))
    ensures linked != [] ==>
      && k < |Alerts(payload)| && SharesEvent(incident, Alerts(payload)[k])
      && HasText(Alerts(payload)[k], "alert_id", linked[0])
      && forall j, id :: 0 <= j < k && SharesEvent(incident, Alerts(payload)[j]) ==>
           !HasText(Alerts(payload)[j], "alert_id", id)
  {
    var alerts := Alerts(payload);
    k := RelatedHead(alerts, TextField(incident, "host_id"), set e | e in IncidentEventIds(incident));
    forall j | 0 <= j < |alerts|
      ensures Related(alerts[j], TextField(incident, "host_id"), set e | e in IncidentEventIds(incident)) <==>
        (exists id :: HasText(alerts[j], "alert_id", id)) && SharesEvent(incident, alerts[j])
    {
      RelatedIff(incident, alerts[j]);
    }
    if linked != [] {
      TextFieldIff(alerts[k], "alert_id", linked[0]);
    }
  }

  // ---------------------------------------------------------------- the stored rows

  lemma RowStored<R>(table: map<Key, R>, rows: seq<R>, key: R -> Key, refs: R -> bool, after: map<Key, R>, i: nat)
    requires InsertAll(table, rows, key, refs) == Some(after) && i < |rows|
    ensures key(rows[i]) in after && after[key(rows[i])] == rows[i]
  {
    InsertAllIff(table, rows, key, refs);
  }

  lemma RowAdded<R>(table: map<Key, R>, rows: seq<R>, key: R -> Key, refs: R -> bool, after: map<Key, R>, k: Key)
    returns (i: nat)
    requires InsertAll(table, rows, key, refs) == Some(after) && k in after && k !in table
    ensures i < |rows| && after[k] == rows[i]
  {
    InsertAllIff(table, rows, key, refs);
    i :| 0 <= i < |rows| && key(rows[i]) == k;
  }

  /** The id of a row: the text id of its object, or a generated one. */
  ghost predicate IdFor(o: Object, key: string, newId: Supply, i: nat, id: string) {
    if exists text :: HasText(o, key, text) then HasText(o, key, id) else id == newId(i)
  }

  lemma RowIdIs(objects: seq<Object>, key: string, newId: Supply, i: nat)
    requires i < |objects|
    ensures IdFor(objects[i], key, newId, i, RowId(Ids(objects, key), i, newId))
  {
    var id := TextField(objects[i], key);
    if id != "" {
      TextFieldIff(objects[i], key, id);
    }
  }

  lemma SavedTables(t: Tables, ids: NewIds, payload: Object) returns (s: Tables)
    requires Save(t, ids, payload).Some?
    ensures s == Save(t, ids, payload).value && Saved(t, ids, payload, s)
    ensures [ids.run] in s.runs && s.runs[[ids.run]] == payload
  {
    s := Save(t, ids, payload).value;
    SaveIsSaved(t, ids, payload);
  }

  /** Event number i of the payload lies in the row under its id, whole. */
  lemma EventStored(t: Tables, ids: NewIds, payload: Object, i: nat) returns (id: string)
    requires Save(t, ids, payload).Some? && i < |Events(payload)|
    ensures IdFor(Events(payload)[i], "event_id", ids.event, i, id)
    ensures var stored := Save(t, ids, payload).value.events;
      [ids.run, id] in stored && stored[[ids.run, id]] == EventRow(ids.run, id, Events(payload)[i])
  {
    var s := SavedTables(t, ids, payload);
    var rows := EventRows(ids.run, payload, ids.event);
    RowIdIs(Events(payload), "event_id", ids.event, i);
    id := RowId(EventIds(payload), i, ids.event);
    RowStored(t.events, rows, EventKey(), EventRefs(s.runs.Keys), s.events, i);
  }

  /** An alert too, with the earliest event it names that the payload has. */
  lemma AlertStored(t: Tables, ids: NewIds, payload: Object, i: nat) returns (id: string, k: nat)
    requires Save(t, ids, payload).Some? && i < |Alerts(payload)|
    ensures IdFor(Alerts(payload)[i], "alert_id", ids.alert, i, id)
    ensures var (stored, named) := (Save(t, ids, payload).value.alerts, AlertEventIds(Alerts(payload)[i]));
      && [ids.run, id] in stored && stored[[ids.run, id]].runId == ids.run && stored[[ids.run, id]].alertId == id
      && stored[[ids.run, id]].payload == Alerts(payload)[i]
      && match stored[[ids.run, id]].primaryEventId
         case None => forall e <- named :: !KnownEvent(payload, e)
         case Some(primary) => FirstKnown(named, EventIdSet(payload), k) && primary == named[k]
  {
    var s := SavedTables(t, ids, payload);
    var rows, named := AlertRows(ids.run, payload, ids.alert), AlertEventIds(Alerts(payload)[i]);
    RowIdIs(Alerts(payload), "alert_id", ids.alert, i);
    id := RowId(AlertIds(payload), i, ids.alert);
    RowStored(t.alerts, rows, AlertKey(), AlertRefs(s.runs.Keys, s.events.Keys), s.alerts, i);
    k := FirstInIs(named, EventIdSet(payload));
    forall e | e in named
      ensures KnownEvent(payload, e) <==> e in EventIdSet(payload)
    {
      KnownEventIff(payload, e);
    }
  }

  /** An incident with its first link as primary alert, if it has any. */
  lemma IncidentStored(t: Tables, ids: NewIds, payload: Object, i: nat) returns (id: string)
    requires Save(t, ids, payload).Some? && i < |Incidents(payload)|
    ensures IdFor(Incidents(payload)[i], "incident_id", ids.incident, i, id)
    ensures var stored := Save(t, ids, payload).value.incidents;
      var linked := IncidentAlertIds(Incidents(payload)[i], Alerts(payload));
      && [ids.run, id] in stored
      && stored[[ids.run, id]]
         == IncidentRow(ids.run, id, if linked == [] then None else Some(linked[0]), Incidents(payload)[i])
  {
    var s := SavedTables(t, ids, payload);
    var rows := IncidentRows(ids.run, payload, ids.incident);
    RowIdIs(Incidents(payload), "incident_id", ids.incident, i);
    id := RowId(IncidentIds(payload), i, ids.incident);
    RowStored(t.incidents, rows, IncidentKey(), IncidentRefs(s.runs.Keys, s.alerts.Keys), s.incidents, i);
  }

  function Letters(payload: Object): seq<Object> { JsonList(Field(payload, "dlq_events")) }

  /** A dead letter under its number. */
  lemma LetterStored(t: Tables, ids: NewIds, payload: Object, i: nat)
    requires Save(t, ids, payload).Some? && i < |Letters(payload)|
    ensures var (stored, id) := (Save(t, ids, payload).value.dlq, ids.run + "-dlq-" + ThreeDigits(i + 1));
      [ids.run, id] in stored && stored[[ids.run, id]] == DlqRow(ids.run, id, Letters(payload)[i])
  {
    var s := SavedTables(t, ids, payload);
    RowStored(t.dlq, DlqRows(ids.run, payload), DlqKey(), DlqRefs(s.runs.Keys), s.dlq, i);
  }

  /** Conversely, each new row holds an object that the payload lists. */
  lemma NewEventListed(t: Tables, ids: NewIds, payload: Object, k: Key)
    requires Save(t, ids, payload).Some? && k in Save(t, ids, payload).value.events && k !in t.events
    ensures Lists(payload, "events", Save(t, ids, payload).value.events[k].payload)
  {
    var s := SavedTables(t, ids, payload);
    var rows := EventRows(ids.run, payload, ids.event);
    var i := RowAdded(t.events, rows, EventKey(), EventRefs(s.runs.Keys), s.events, k);
    SectionIff(payload, "events", s.events[k].payload);
  }

  lemma NewAlertListed(t: Tables, ids: NewIds, payload: Object, k: Key)
    requires Save(t, ids, payload).Some? && k in Save(t, ids, payload).value.alerts && k !in t.alerts
    ensures Lists(payload, "alerts", Save(t, ids, payload).value.alerts[k].payload)
  {
    var s := SavedTables(t, ids, payload);
    var rows := AlertRows(ids.run, payload, ids.alert);
    var i := RowAdded(t.alerts, rows, AlertKey(), AlertRefs(s.runs.Keys, s.events.Keys), s.alerts, k);
    SectionIff(payload, "alerts", s.alerts[k].payload);
  }

  lemma NewIncidentListed(t: Tables, ids: NewIds, payload: Object, k: Key)
    requires Save(t, ids, payload).Some? && k in Save(t, ids, payload).value.incidents && k !in t.incidents
    ensures Lists(payload, "incidents", Save(t, ids, payload).value.incidents[k].payload)
  {
    var s := SavedTables(t, ids, payload);
    var rows := IncidentRows(ids.run, payload, ids.incident);
    var i := RowAdded(t.incidents, rows, IncidentKey(), IncidentRefs(s.runs.Keys, s.alerts.Keys), s.incidents, k);
    SectionIff(payload, "incidents", s.incidents[k].payload);
  }

  lemma NewLetterListed(t: Tables, ids: NewIds, payload: Object, k: Key)
    requires Save(t, ids, payload).Some? && k in Save(t, ids, payload).value.dlq && k !in t.dlq
    ensures Lists(payload, "dlq_events", Save(t, ids, payload).value.dlq[k].payload)
  {
    var s := SavedTables(t, ids, payload);
    var i := RowAdded(t.dlq, DlqRows(ids.run, payload), DlqKey(), DlqRefs(s.runs.Keys), s.dlq, k);
    SectionIff(payload, "dlq_events", s.dlq[k].payload);
  }

  /** A known event that an alert of the payload names makes a pair with it. */
  lemma PairStored(t: Tables, ids: NewIds, payload: Object, alert: Object, alertId: string, eventId: string)
    requires Save(t, ids, payload).Some? && Lists(payload, "alerts", alert) && HasText(alert, "alert_id", alertId)
    requires NamesText(alert, "event_ids", eventId) && KnownEvent(payload, eventId)
    ensures var stored := Save(t, ids, payload).value.alertEvents;
      [ids.run, alertId, eventId] in stored
      && stored[[ids.run, alertId, eventId]] == AlertEventRow(ids.run, alertId, eventId)
  {
    var s := SavedTables(t, ids, payload);
    var rows, row := AlertEventRows(ids.run, payload), AlertEventRow(ids.run, alertId, eventId);
    SectionIff(payload, "alerts", alert);
    TextFieldIff(alert, "alert_id", alertId);
    TextListIff(alert, "event_ids", eventId);
    KnownEventIff(payload, eventId);
    var a :| 0 <= a < |Alerts(payload)| && Alerts(payload)[a] == alert;
    AlertEventRowsExact(ids.run, payload, row);
    var i :| 0 <= i < |rows| && rows[i] == row;
    RowStored(t.alertEvents, rows, AlertEventKey(), AlertEventRefs(s.alerts.Keys, s.events.Keys), s.alertEvents, i);
  }

  /** An incident with an id is stored with each of its links. */
  lemma LinkStored(t: Tables, ids: NewIds, payload: Object, incident: Object, incidentId: string, alertId: string)
    requires Save(t, ids, payload).Some? && Lists(payload, "incidents", incident)
      && HasText(incident, "incident_id", incidentId) && alertId in IncidentAlertIds(incident, Alerts(payload))
    ensures var stored := Save(t, ids, payload).value.incidentAlerts;
      [ids.run, incidentId, alertId] in stored
      && stored[[ids.run, incidentId, alertId]] == IncidentAlertRow(ids.run, incidentId, alertId)
  {
    var s := SavedTables(t, ids, payload);
    var rows, row := IncidentAlertRows(ids.run, payload), IncidentAlertRow(ids.run, incidentId, alertId);
    SectionIff(payload, "incidents", incident);
    TextFieldIff(incident, "incident_id", incidentId);
    var a :| 0 <= a < |Incidents(payload)| && Incidents(payload)[a] == incident;
    IncidentAlertRowsExact(ids.run, payload, row);
    var i :| 0 <= i < |rows| && rows[i] == row;
    RowStored(t.incidentAlerts, rows, IncidentAlertKey(), IncidentAlertRefs(s.incidents.Keys, s.alerts.Keys),
              s.incidentAlerts, i);
  }
}
