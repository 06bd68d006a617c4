/** Saving one run in one transaction, under the tables' keys (src/service_store.py, src/service_models.py). */
module RunStore {
  import opened Prelude
  import opened Outbox
  import opened StoreRows

  /** A primary key, compound keys as several parts. */
  type Key = seq<string>

  datatype Tables = Tables(
    runs: map<Key, Object>,
    events: map<Key, EventRow>,
    alerts: map<Key, AlertRow>,
    incidents: map<Key, IncidentRow>,
    alertEvents: map<Key, AlertEventRow>,
    incidentAlerts: map<Key, IncidentAlertRow>,
    dlq: map<Key, DlqRow>,
    outbox: seq<OutboxRow>)

  function EventKey(): EventRow -> Key { (r: EventRow) => [r.runId, r.eventId] }
  function AlertKey(): AlertRow -> Key { (r: AlertRow) => [r.runId, r.alertId] }
  function IncidentKey(): IncidentRow -> Key { (r: IncidentRow) => [r.runId, r.incidentId] }
  function AlertEventKey(): AlertEventRow -> Key { (r: AlertEventRow) => [r.runId, r.alertId, r.eventId] }
  function IncidentAlertKey(): IncidentAlertRow -> Key { (r: IncidentAlertRow) => [r.runId, r.incidentId, r.alertId] }
  function DlqKey(): DlqRow -> Key { (r: DlqRow) => [r.runId, r.dlqId] }

  // Foreign keys, each against the keys present in the referenced tables.

  function EventRefs(runs: set<Key>): EventRow -> bool { (r: EventRow) => [r.runId] in runs }

  function AlertRefs(runs: set<Key>, events: set<Key>): AlertRow -> bool {
    (r: AlertRow) => [r.runId] in runs && (r.primaryEventId.Some? ==> [r.runId, r.primaryEventId.value] in events)
  }

  function IncidentRefs(runs: set<Key>, alerts: set<Key>): IncidentRow -> bool {
    (r: IncidentRow) => [r.runId] in runs && (r.primaryAlertId.Some? ==> [r.runId, r.primaryAlertId.value] in alerts)
  }

  function AlertEventRefs(alerts: set<Key>, events: set<Key>): AlertEventRow -> bool {
    (r: AlertEventRow) => [r.runId, r.alertId] in alerts && [r.runId, r.eventId] in events
  }

  function IncidentAlertRefs(incidents: set<Key>, alerts: set<Key>): IncidentAlertRow -> bool {
    (r: IncidentAlertRow) => [r.runId, r.incidentId] in incidents && [r.runId, r.alertId] in alerts
  }

  function DlqRefs(runs: set<Key>): DlqRow -> bool { (r: DlqRow) => [r.runId] in runs }

  /** Insert rows one by one; None when a key is taken or a reference dangles. */
  function InsertAll<R>(table: map<Key, R>, rows: seq<R>, key: R -> Key, refs: R -> bool): Option<map<Key, R>>
    decreases |rows|
  {
    if rows == [] then Some(table)
    else if key(rows[0]) in table || !refs(rows[0]) then None
    else InsertAll(table[key(rows[0]) := rows[0]], rows[1..], key, refs)
  }

  ghost predicate KeysDistinct<R>(rows: seq<R>, key: R -> Key) {
    forall i, j :: 0 <= i < j < |rows| ==> key(rows[i]) != key(rows[j])
  }

  ghost predicate KeysFree<R>(table: map<Key, R>, rows: seq<R>, key: R -> Key) {
    forall i :: 0 <= i < |rows| ==> key(rows[i]) !in table
  }

  ghost predicate RefsHold<R>(rows: seq<R>, refs: R -> bool) { forall i :: 0 <= i < |rows| ==> refs(rows[i]) }

  ghost predicate Added<R>(before: map<Key, R>, after: map<Key, R>, rows: seq<R>, key: R -> Key) {
    && (forall k :: k in before ==> k in after && after[k] == before[k])
    && (forall i :: 0 <= i < |rows| ==> key(rows[i]) in after && after[key(rows[i])] == rows[i])
    && (forall k :: k in after ==> k in before || exists i :: 0 <= i < |rows| && key(rows[i]) == k)
  }

  /** A batch goes in exactly when its keys are new and distinct and all its references resolve. */
  lemma {:induction false} InsertAllIff<R>(table: map<Key, R>, rows: seq<R>, key: R -> Key, refs: R -> bool)
    ensures InsertAll(table, rows, key, refs).Some?
      <==> (KeysDistinct(rows, key) && KeysFree(table, rows, key) && RefsHold(rows, refs))
    ensures InsertAll(table, rows, key, refs).Some? ==> Added(table, InsertAll(table, rows, key, refs).value, rows, key)
    decreases |rows|
  {
    if rows != [] {
      var next, rest := table[key(rows[0]) := rows[0]], rows[1..];
      InsertAllIff(next, rest, key, refs);
      assert rows == [rows[0]] + rest;
      if key(rows[0]) !in table && refs(rows[0]) {
        assert KeysFree(next, rest, key) <==>
          (KeysFree(table, rest, key) && forall j :: 0 <= j < |rest| ==> key(rest[j]) != key(rows[0]));
        if InsertAll(next, rest, key, refs).Some? {
          var after := InsertAll(next, rest, key, refs).value;
          forall k | k in after
            ensures k in table || exists i :: 0 <= i < |rows| && key(rows[i]) == k
          {
            if k == key(rows[0]) {
            } else if k !in table {
              var i :| 0 <= i < |rest| && key(rest[i]) == k;
              assert key(rows[i + 1]) == k;
            }
          }
        }
      }
    }
  }

  // ---------------------------------------------------------------- the transaction

  /** Generated ids for one save. */
  datatype NewIds = NewIds(run: string, event: Supply, alert: Supply, incident: Supply)

  /** All inserts of one save in their order; None is an integrity error, which rolls everything back. */
  function Save(t: Tables, ids: NewIds, payload: Object): Option<Tables> {
    if [ids.run] in t.runs then None
    else
      var runs := t.runs[[ids.run] := payload];
      var events :- InsertAll(t.events, EventRows(ids.run, payload, ids.event), EventKey(), EventRefs(runs.Keys));
      var alerts :- InsertAll(t.alerts, AlertRows(ids.run, payload, ids.alert), AlertKey(),
                              AlertRefs(runs.Keys, events.Keys));
      var incidents :- InsertAll(t.incidents, IncidentRows(ids.run, payload, ids.incident), IncidentKey(),
                                 IncidentRefs(runs.Keys, alerts.Keys));
      var alertEvents :- InsertAll(t.alertEvents, AlertEventRows(ids.run, payload), AlertEventKey(),
                                   AlertEventRefs(alerts.Keys, events.Keys));
      var incidentAlerts :- InsertAll(t.incidentAlerts, IncidentAlertRows(ids.run, payload), IncidentAlertKey(),
                                      IncidentAlertRefs(incidents.Keys, alerts.Keys));
      var dlq :- InsertAll(t.dlq, DlqRows(ids.run, payload), DlqKey(), DlqRefs(runs.Keys));
      Some(Tables(runs, events, alerts, incidents, alertEvents, incidentAlerts, dlq,
                  t.outbox + [OutboxRow("analysis.run_saved", "run", ids.run)]))
  }

  class ServiceStore {
    var tables: Tables

    constructor ()
      ensures tables == EMPTY
    {
      tables := EMPTY;
    }

    /** One transaction: the run id on commit, None on an integrity error, which leaves the tables as they were. */
    method SaveRunResult(ids: NewIds, payload: Object) returns (saved: Option<string>)
      modifies this
      ensures saved == if Save(old(tables), ids, payload).Some? then Some(ids.run) else None
      ensures tables == if saved.Some? then Save(old(tables), ids, payload).value else old(tables)
    {
      var t := tables;
      if [ids.run] in t.runs {
        return None;
      }
      var runs := t.runs[[ids.run] := payload];
      var events :- InsertAll(t.events, EventRows(ids.run, payload, ids.event), EventKey(), EventRefs(runs.Keys));
      var alerts :- InsertAll(t.alerts, AlertRows(ids.run, payload, ids.alert), AlertKey(),
                              AlertRefs(runs.Keys, events.Keys));
      var incidents :- InsertAll(t.incidents, IncidentRows(ids.run, payload, ids.incident), IncidentKey(),
                                 IncidentRefs(runs.Keys, alerts.Keys));
      var pairs := BuildAlertEventRows(ids.run, payload);
      var alertEvents :- InsertAll(t.alertEvents, pairs, AlertEventKey(), AlertEventRefs(alerts.Keys, events.Keys));
      var links := BuildIncidentAlertRows(ids.run, payload);
      var incidentAlerts :- InsertAll(t.incidentAlerts, links, IncidentAlertKey(),
                                      IncidentAlertRefs(incidents.Keys, alerts.Keys));
      var dlq :- InsertAll(t.dlq, DlqRows(ids.run, payload), DlqKey(), DlqRefs(runs.Keys));
      var outbox := t.outbox + [OutboxRow("analysis.run_saved", "run", ids.run)];
      tables := Tables(runs, events, alerts, incidents, alertEvents, incidentAlerts, dlq, outbox);
      return Some(ids.run);
    }
  }

  // ---------------------------------------------------------------- consistency

  ghost predicate Holds<R>(table: map<Key, R>, key: R -> Key, refs: R -> bool) {
    forall k :: k in table ==> key(table[k]) == k && refs(table[k])
  }

  /** Every row sits under its own key and every reference finds its row. */
  ghost predicate Consistent(t: Tables) {
    && Holds(t.events, EventKey(), EventRefs(t.runs.Keys))
    && Holds(t.alerts, AlertKey(), AlertRefs(t.runs.Keys, t.events.Keys))
    && Holds(t.incidents, IncidentKey(), IncidentRefs(t.runs.Keys, t.alerts.Keys))
    && Holds(t.alertEvents, AlertEventKey(), AlertEventRefs(t.alerts.Keys, t.events.Keys))
    && Holds(t.incidentAlerts, IncidentAlertKey(), IncidentAlertRefs(t.incidents.Keys, t.alerts.Keys))
    && Holds(t.dlq, DlqKey(), DlqRefs(t.runs.Keys))
  }

  lemma InsertKeepsHolds<R>(table: map<Key, R>, rows: seq<R>, key: R -> Key, refs: R -> bool, refs': R -> bool)
    requires Holds(table, key, refs) && (forall k :: k in table && refs(table[k]) ==> refs'(table[k]))
    requires InsertAll(table, rows, key, refs').Some?
    ensures Holds(InsertAll(table, rows, key, refs').value, key, refs')
    ensures table.Keys <= InsertAll(table, rows, key, refs').value.Keys
  {
    InsertAllIff(table, rows, key, refs');
    var after := InsertAll(table, rows, key, refs').value;
    forall k | k in after
      ensures key(after[k]) == k && refs'(after[k])
    {
      if k !in table {
        var i :| 0 <= i < |rows| && key(rows[i]) == k;
      }
    }
  }

  /** s holds, table by table, what the inserts of a save produced. */
  ghost predicate Saved(t: Tables, ids: NewIds, payload: Object, s: Tables) {
    && [ids.run] !in t.runs && s.runs == t.runs[[ids.run] := payload]
    && InsertAll(t.events, EventRows(ids.run, payload, ids.event), EventKey(), EventRefs(s.runs.Keys)) == Some(s.events)
    && InsertAll(t.alerts, AlertRows(ids.run, payload, ids.alert), AlertKey(), AlertRefs(s.runs.Keys, s.events.Keys))
         == Some(s.alerts)
    && InsertAll(t.incidents, IncidentRows(ids.run, payload, ids.incident), IncidentKey(),
                 IncidentRefs(s.runs.Keys, s.alerts.Keys))
       == Some(s.incidents)
    && InsertAll(t.alertEvents, AlertEventRows(ids.run, payload), AlertEventKey(),
                 AlertEventRefs(s.alerts.Keys, s.events.Keys))
       == Some(s.alertEvents)
    && InsertAll(t.incidentAlerts, IncidentAlertRows(ids.run, payload), IncidentAlertKey(),
                 IncidentAlertRefs(s.incidents.Keys, s.alerts.Keys)) == Some(s.incidentAlerts)
    && InsertAll(t.dlq, DlqRows(ids.run, payload), DlqKey(), DlqRefs(s.runs.Keys)) == Some(s.dlq)
    && s.outbox == t.outbox + [OutboxRow("analysis.run_saved", "run", ids.run)]
  }

  lemma SaveIsSaved(t: Tables, ids: NewIds, payload: Object)
    requires Save(t, ids, payload).Some?
    ensures Saved(t, ids, payload, Save(t, ids, payload).value)
  {
  }

  lemma EntitiesHold(t: Tables, ids: NewIds, payload: Object, s: Tables)
    requires Consistent(t) && Saved(t, ids, payload, s)
    ensures t.runs.Keys <= s.runs.Keys && t.events.Keys <= s.events.Keys && t.alerts.Keys <= s.alerts.Keys
    ensures t.incidents.Keys <= s.incidents.Keys
    ensures Holds(s.events, EventKey(), EventRefs(s.runs.Keys))
    ensures Holds(s.alerts, AlertKey(), AlertRefs(s.runs.Keys, s.events.Keys))
    ensures Holds(s.incidents, IncidentKey(), IncidentRefs(s.runs.Keys, s.alerts.Keys))
  {
    InsertKeepsHolds(t.events, EventRows(ids.run, payload, ids.event), EventKey(), EventRefs(t.runs.Keys),
                     EventRefs(s.runs.Keys));
    InsertKeepsHolds(t.alerts, AlertRows(ids.run, payload, ids.alert), AlertKey(),
                     AlertRefs(t.runs.Keys, t.events.Keys), AlertRefs(s.runs.Keys, s.events.Keys));
    InsertKeepsHolds(t.incidents, IncidentRows(ids.run, payload, ids.incident), IncidentKey(),
                     IncidentRefs(t.runs.Keys, t.alerts.Keys), IncidentRefs(s.runs.Keys, s.alerts.Keys));
  }

  /** A committed save keeps the instance consistent, whatever the payload. */
  lemma SaveKeepsConsistent(t: Tables, ids: NewIds, payload: Object)
    requires Consistent(t) && Save(t, ids, payload).Some?
    ensures Consistent(Save(t, ids, payload).value)
  {
    var s := Save(t, ids, payload).value;
    SaveIsSaved(t, ids, payload);
    EntitiesHold(t, ids, payload, s);
    InsertKeepsHolds(t.alertEvents, AlertEventRows(ids.run, payload), AlertEventKey(),
                     AlertEventRefs(t.alerts.Keys, t.events.Keys), AlertEventRefs(s.alerts.Keys, s.events.Keys));
    InsertKeepsHolds(t.incidentAlerts, IncidentAlertRows(ids.run, payload), IncidentAlertKey(),
                     IncidentAlertRefs(t.incidents.Keys, t.alerts.Keys),
                         IncidentAlertRefs(s.incidents.Keys, s.alerts.Keys));
    InsertKeepsHolds(t.dlq, DlqRows(ids.run, payload), DlqKey(), DlqRefs(t.runs.Keys), DlqRefs(s.runs.Keys));
  }

  // ---------------------------------------------------------------- any sequence of saves

  datatype Request = Request(ids: NewIds, payload: Object)

  const EMPTY := Tables(map[], map[], map[], map[], map[], map[], map[], [])

  /** One request: the saved tables, or on an integrity error the tables as they were. */
  function After(t: Tables, request: Request): Tables {
    var saved := Save(t, request.ids, request.payload);
    if saved.Some? then saved.value else t
  }

  function Saves(requests: seq<Request>): Tables {
    if requests == [] then EMPTY else After(Saves(requests[..|requests| - 1]), requests[|requests| - 1])
  }

  ghost predicate Extends<R>(before: map<Key, R>, after: map<Key, R>) {
    forall k :: k in before ==> k in after && after[k] == before[k]
  }

  /** Every row is still there, unchanged. */
  ghost predicate RowsStay(t: Tables, s: Tables) {
    && Extends(t.runs, s.runs) && Extends(t.events, s.events) && Extends(t.alerts, s.alerts)
    && Extends(t.incidents, s.incidents) && Extends(t.alertEvents, s.alertEvents)
    && Extends(t.incidentAlerts, s.incidentAlerts) && Extends(t.dlq, s.dlq)
  }

  lemma InsertExtends<R>(table: map<Key, R>, rows: seq<R>, key: R -> Key, refs: R -> bool)
    requires InsertAll(table, rows, key, refs).Some?
    ensures Extends(table, InsertAll(table, rows, key, refs).value)
  {
    InsertAllIff(table, rows, key, refs);
  }

  lemma SavedExtends(t: Tables, ids: NewIds, payload: Object, s: Tables)
    requires Saved(t, ids, payload, s)
    ensures RowsStay(t, s)
  {
    InsertExtends(t.events, EventRows(ids.run, payload, ids.event), EventKey(), EventRefs(s.runs.Keys));
    InsertExtends(t.alerts, AlertRows(ids.run, payload, ids.alert), AlertKey(), AlertRefs(s.runs.Keys, s.events.Keys));
    InsertExtends(t.incidents, IncidentRows(ids.run, payload, ids.incident), IncidentKey(),
                  IncidentRefs(s.runs.Keys, s.alerts.Keys));
    InsertExtends(t.alertEvents, AlertEventRows(ids.run, payload), AlertEventKey(),
                  AlertEventRefs(s.alerts.Keys, s.events.Keys));
    InsertExtends(t.incidentAlerts, IncidentAlertRows(ids.run, payload), IncidentAlertKey(),
                  IncidentAlertRefs(s.incidents.Keys, s.alerts.Keys));
    InsertExtends(t.dlq, DlqRows(ids.run, payload), DlqKey(), DlqRefs(s.runs.Keys));
  }

  /** What a run has announced. */
  function Expected(runs: set<Key>): string -> seq<OutboxRow> {
    (run: string) => if [run] in runs then [OutboxRow("analysis.run_saved", "run", run)] else []
  }

  /** Keys and references are sound, and every recorded run has announced itself once. */
  ghost predicate StoreInv(t: Tables) { Consistent(t) && Ledger(t.outbox, "run", Expected(t.runs.Keys)) }

  lemma AfterKeeps(t: Tables, request: Request)
    requires StoreInv(t)
    ensures StoreInv(After(t, request)) && RowsStay(t, After(t, request))
  {
    var ids, payload := request.ids, request.payload;
    if Save(t, ids, payload).Some? {
      var s := Save(t, ids, payload).value;
      SaveIsSaved(t, ids, payload);
      SaveKeepsConsistent(t, ids, payload);
      SavedExtends(t, ids, payload, s);
      RunAnnounced(t, ids.run, payload);
    }
  }

  lemma RunAnnounced(t: Tables, run: string, payload: Object)
    requires [run] !in t.runs && Ledger(t.outbox, "run", Expected(t.runs.Keys))
    ensures Ledger(t.outbox + [OutboxRow("analysis.run_saved", "run", run)], "run",
                   Expected(t.runs[[run] := payload].Keys))
  {
    LedgerGrows(t.outbox, "run", Expected(t.runs.Keys), OutboxRow("analysis.run_saved", "run", run),
                Expected(t.runs[[run] := payload].Keys));
  }

  lemma EmptyInv()
    ensures StoreInv(EMPTY)
  {
    assert forall run :: LedgerAt([], "run", Expected({}), run);
  }

  lemma StaysTransitive(t: Tables, s: Tables, u: Tables)
    requires RowsStay(t, s) && RowsStay(s, u)
    ensures RowsStay(t, u)
  {
  }

  lemma SavesSnoc(requests: seq<Request>, n: nat)
    requires |requests| == n + 1
    ensures Saves(requests) == After(Saves(requests[..n]), requests[n])
  {
  }

  /** Keys and references are sound and runs announced after any sequence of saves into an empty store. */
  lemma {:induction false} SavesConsistent(requests: seq<Request>)
    ensures StoreInv(Saves(requests))
  {
    if requests == [] {
      EmptyInv();
    } else {
      var n := |requests| - 1;
      SavesConsistent(requests[..n]);
      AfterKeeps(Saves(requests[..n]), requests[n]);
      SavesSnoc(requests, n);
    }
  }

  /** No row of an earlier state is lost or changed, whatever is saved or fails later. */
  lemma {:induction false} SavesKeepRows(requests: seq<Request>, i: nat)
    requires i <= |requests|
    ensures RowsStay(Saves(requests[..i]), Saves(requests))
  {
    if i == |requests| {
      assert requests[..i] == requests;
    } else {
      var n := |requests| - 1;
      assert requests[..n][..i] == requests[..i];
      SavesKeepRows(requests[..n], i);
      SavesConsistent(requests[..n]);
      AfterKeeps(Saves(requests[..n]), requests[n]);
      SavesSnoc(requests, n);
      StaysTransitive(Saves(requests[..i]), Saves(requests[..n]), Saves(requests));
    }
  }

  // ---------------------------------------------------------------- when a save commits

  /** Ids that are present occur once; missing ids (empty) may repeat. */
  predicate IdsDistinct(ids: seq<string>) {
    forall i, j :: 0 <= i < j < |ids| && ids[i] != "" ==> ids[i] != ids[j]
  }

  /** Generated ids never repeat and never hit an id of the payload. */
  ghost predicate FreshFor(newId: Supply, ids: seq<string>) {
    && (forall i: nat, j: nat :: i != j ==> newId(i) != newId(j))
    && (forall i: nat, j: nat :: j < |ids| ==> newId(i) != ids[j])
  }

  predicate RowIdsDiffer(ids: seq<string>, newId: Supply) {
    forall i, j :: 0 <= i < j < |ids| ==> RowId(ids, i, newId) != RowId(ids, j, newId)
  }

  lemma RowIdsDistinct(ids: seq<string>, newId: Supply)
    requires FreshFor(newId, ids)
    ensures IdsDistinct(ids) <==> RowIdsDiffer(ids, newId)
  {
    if !IdsDistinct(ids) {
      var i, j :| 0 <= i < j < |ids| && ids[i] != "" && ids[i] == ids[j];
      assert RowId(ids, i, newId) == RowId(ids, j, newId);
    }
  }

  ghost predicate OfRuns<R>(table: map<Key, R>, runs: set<Key>) {
    forall k :: k in table ==> k != [] && [k[0]] in runs
  }

  /** Rows of every table belong to recorded runs, so a new run id collides with nothing. */
  lemma ConsistentOfRuns(t: Tables)
    requires Consistent(t)
    ensures OfRuns(t.events, t.runs.Keys) && OfRuns(t.alerts, t.runs.Keys) && OfRuns(t.incidents, t.runs.Keys)
    ensures OfRuns(t.alertEvents, t.runs.Keys) && OfRuns(t.incidentAlerts, t.runs.Keys) && OfRuns(t.dlq, t.runs.Keys)
  {
    assert OfRuns(t.events, t.runs.Keys) && OfRuns(t.alerts, t.runs.Keys) && OfRuns(t.incidents, t.runs.Keys);
    forall k | k in t.alertEvents
      ensures k != [] && [k[0]] in t.runs.Keys
    {
      var alertKey := [t.alertEvents[k].runId, t.alertEvents[k].alertId];
      assert alertKey in t.alerts && alertKey[0] == k[0];
    }
    forall k | k in t.incidentAlerts
      ensures k != [] && [k[0]] in t.runs.Keys
    {
      var alertKey := [t.incidentAlerts[k].runId, t.incidentAlerts[k].alertId];
      assert alertKey in t.alerts && alertKey[0] == k[0];
    }
  }

  /** The conditions a caller can check beforehand. */
  ghost predicate Savable(t: Tables, ids: NewIds, payload: Object) {
    && [ids.run] !in t.runs
    && FreshFor(ids.event, EventIds(payload)) && FreshFor(ids.alert, AlertIds(payload))
    && FreshFor(ids.incident, IncidentIds(payload))
  }

  lemma EventsGoIn(t: Tables, ids: NewIds, payload: Object, runs: set<Key>)
    requires Consistent(t) && Savable(t, ids, payload) && [ids.run] in runs
    ensures var inserted := InsertAll(t.events, EventRows(ids.run, payload, ids.event), EventKey(), EventRefs(runs));
      && (inserted.Some? <==> IdsDistinct(EventIds(payload)))
      && (inserted.Some? ==> forall id :: id in EventIdSet(payload) ==> [ids.run, id] in inserted.value)
  {
    var rows := EventRows(ids.run, payload, ids.event);
    InsertAllIff(t.events, rows, EventKey(), EventRefs(runs));
    ConsistentOfRuns(t);
    RowIdsDistinct(EventIds(payload), ids.event);
    assert forall i :: 0 <= i < |rows| ==> EventKey()(rows[i]) == [ids.run, RowId(EventIds(payload), i, ids.event)];
    forall id | id in EventIdSet(payload)
      ensures exists i :: 0 <= i < |rows| && EventKey()(rows[i]) == [ids.run, id]
    {
      var i :| 0 <= i < |EventIds(payload)| && EventIds(payload)[i] == id;
      assert EventKey()(rows[i]) == [ids.run, id];
    }
  }

  lemma AlertsGoIn(t: Tables, ids: NewIds, payload: Object, runs: set<Key>, events: set<Key>)
    requires Consistent(t) && Savable(t, ids, payload) && [ids.run] in runs
    requires forall id :: id in EventIdSet(payload) ==> [ids.run, id] in events
    ensures var inserted := InsertAll(t.alerts, AlertRows(ids.run, payload, ids.alert), AlertKey(),
                                      AlertRefs(runs, events));
      && (inserted.Some? <==> IdsDistinct(AlertIds(payload)))
      && (inserted.Some? ==> forall id :: id in KnownAlertIds(Alerts(payload)) ==> [ids.run, id] in inserted.value)
  {
    var rows := AlertRows(ids.run, payload, ids.alert);
    InsertAllIff(t.alerts, rows, AlertKey(), AlertRefs(runs, events));
    ConsistentOfRuns(t);
    RowIdsDistinct(AlertIds(payload), ids.alert);
    assert forall i :: 0 <= i < |rows| ==> AlertKey()(rows[i]) == [ids.run, RowId(AlertIds(payload), i, ids.alert)];
    forall i | 0 <= i < |rows|
      ensures AlertRefs(runs, events)(rows[i])
    {
      FirstInKnown(AlertEventIds(Alerts(payload)[i]), EventIdSet(payload));
    }
    forall id | id in KnownAlertIds(Alerts(payload))
      ensures exists i :: 0 <= i < |rows| && AlertKey()(rows[i]) == [ids.run, id]
    {
      var i :| 0 <= i < |AlertIds(payload)| && AlertIds(payload)[i] == id;
      assert AlertKey()(rows[i]) == [ids.run, id];
    }
  }

  lemma IncidentsGoIn(t: Tables, ids: NewIds, payload: Object, runs: set<Key>, alerts: set<Key>)
    requires Consistent(t) && Savable(t, ids, payload) && [ids.run] in runs
    requires forall id :: id in KnownAlertIds(Alerts(payload)) ==> [ids.run, id] in alerts
    ensures var inserted := InsertAll(t.incidents, IncidentRows(ids.run, payload, ids.incident), IncidentKey(),
                                      IncidentRefs(runs, alerts));
      && (inserted.Some? <==> IdsDistinct(IncidentIds(payload)))
      && (inserted.Some? ==> forall id :: id in IncidentIds(payload) && id != "" ==> [ids.run, id] in inserted.value)
  {
    var rows := IncidentRows(ids.run, payload, ids.incident);
    InsertAllIff(t.incidents, rows, IncidentKey(), IncidentRefs(runs, alerts));
    ConsistentOfRuns(t);
    RowIdsDistinct(IncidentIds(payload), ids.incident);
    assert forall i :: 0 <= i < |rows| ==>
      IncidentKey()(rows[i]) == [ids.run, RowId(IncidentIds(payload), i, ids.incident)];
    forall i | 0 <= i < |rows|
      ensures IncidentRefs(runs, alerts)(rows[i])
    {
      var linked := IncidentAlertIds(Incidents(payload)[i], Alerts(payload));
      if linked != [] {
        IncidentAlertIdsKnown(Incidents(payload)[i], Alerts(payload), linked[0]);
      }
    }
    forall id | id in IncidentIds(payload) && id != ""
      ensures exists i :: 0 <= i < |rows| && IncidentKey()(rows[i]) == [ids.run, id]
    {
      var i :| 0 <= i < |IncidentIds(payload)| && IncidentIds(payload)[i] == id;
      assert IncidentKey()(rows[i]) == [ids.run, id];
    }
  }

  /** The bridge rows always fit: their pairs are distinct and both ends have just been inserted. */
  lemma AlertEventsGoIn(t: Tables, ids: NewIds, payload: Object, alerts: set<Key>, events: set<Key>)
    requires Consistent(t) && Savable(t, ids, payload)
    requires forall id :: id in EventIdSet(payload) ==> [ids.run, id] in events
    requires forall id :: id in KnownAlertIds(Alerts(payload)) ==> [ids.run, id] in alerts
    ensures InsertAll(t.alertEvents, AlertEventRows(ids.run, payload), AlertEventKey(),
                      AlertEventRefs(alerts, events)).Some?
  {
    var rows := AlertEventRows(ids.run, payload);
    InsertAllIff(t.alertEvents, rows, AlertEventKey(), AlertEventRefs(alerts, events));
    ConsistentOfRuns(t);
    forall i | 0 <= i < |rows|
      ensures AlertEventRefs(alerts, events)(rows[i]) && AlertEventKey()(rows[i])[0] == ids.run
    {
      AlertEventRowsExact(ids.run, payload, rows[i]);
      var k :| 0 <= k < |Alerts(payload)| && TextField(Alerts(payload)[k], "alert_id") == rows[i].alertId;
      assert AlertIds(payload)[k] == rows[i].alertId;
    }
    forall i, j | 0 <= i < j < |rows|
      ensures AlertEventKey()(rows[i]) != AlertEventKey()(rows[j])
    {
      AlertEventRowsExact(ids.run, payload, rows[i]);
      AlertEventKeyInjective(rows[i], rows[j]);
    }
  }

  lemma AlertEventKeyInjective(a: AlertEventRow, b: AlertEventRow)
    ensures AlertEventKey()(a) == AlertEventKey()(b) ==> a == b
  {
    var k, l := AlertEventKey()(a), AlertEventKey()(b);
    assert k[0] == a.runId && k[1] == a.alertId && k[2] == a.eventId;
    assert l[0] == b.runId && l[1] == b.alertId && l[2] == b.eventId;
  }

  lemma IncidentAlertsGoIn(t: Tables, ids: NewIds, payload: Object, incidents: set<Key>, alerts: set<Key>)
    requires Consistent(t) && Savable(t, ids, payload)
    requires forall id :: id in IncidentIds(payload) && id != "" ==> [ids.run, id] in incidents
    requires forall id :: id in KnownAlertIds(Alerts(payload)) ==> [ids.run, id] in alerts
    ensures InsertAll(t.incidentAlerts, IncidentAlertRows(ids.run, payload), IncidentAlertKey(),
                      IncidentAlertRefs(incidents, alerts)).Some?
  {
    var rows := IncidentAlertRows(ids.run, payload);
    InsertAllIff(t.incidentAlerts, rows, IncidentAlertKey(), IncidentAlertRefs(incidents, alerts));
    ConsistentOfRuns(t);
    forall i | 0 <= i < |rows|
      ensures IncidentAlertRefs(incidents, alerts)(rows[i]) && IncidentAlertKey()(rows[i])[0] == ids.run
    {
      IncidentAlertRowsExact(ids.run, payload, rows[i]);
      var k :| 0 <= k < |Incidents(payload)| && TextField(Incidents(payload)[k], "incident_id") == rows[i].incidentId
        && rows[i].alertId in IncidentAlertIds(Incidents(payload)[k], Alerts(payload));
      assert IncidentIds(payload)[k] == rows[i].incidentId;
      IncidentAlertIdsKnown(Incidents(payload)[k], Alerts(payload), rows[i].alertId);
    }
    forall i, j | 0 <= i < j < |rows|
      ensures IncidentAlertKey()(rows[i]) != IncidentAlertKey()(rows[j])
    {
      IncidentAlertRowsExact(ids.run, payload, rows[i]);
      IncidentAlertKeyInjective(rows[i], rows[j]);
    }
  }

  lemma IncidentAlertKeyInjective(a: IncidentAlertRow, b: IncidentAlertRow)
    ensures IncidentAlertKey()(a) == IncidentAlertKey()(b) ==> a == b
  {
    var k, l := IncidentAlertKey()(a), IncidentAlertKey()(b);
    assert k[0] == a.runId && k[1] == a.incidentId && k[2] == a.alertId;
    assert l[0] == b.runId && l[1] == b.incidentId && l[2] == b.alertId;
  }

  lemma DlqKeysDiffer(run: string, payload: Object, i: nat, j: nat)
    requires i < j < |DlqRows(run, payload)|
    ensures DlqKey()(DlqRows(run, payload)[i]) != DlqKey()(DlqRows(run, payload)[j])
  {
    NumberedApart(run + "-dlq-", i + 1, j + 1);
    var a, b := DlqRows(run, payload)[i], DlqRows(run, payload)[j];
    assert DlqKey()(a)[1] == a.dlqId && DlqKey()(b)[1] == b.dlqId;
  }

  lemma DlqGoesIn(t: Tables, ids: NewIds, payload: Object, runs: set<Key>)
    requires Consistent(t) && Savable(t, ids, payload) && [ids.run] in runs
    ensures InsertAll(t.dlq, DlqRows(ids.run, payload), DlqKey(), DlqRefs(runs)).Some?
  {
    var rows := DlqRows(ids.run, payload);
    InsertAllIff(t.dlq, rows, DlqKey(), DlqRefs(runs));
    ConsistentOfRuns(t);
    forall i, j | 0 <= i < j < |rows|
      ensures DlqKey()(rows[i]) != DlqKey()(rows[j])
    {
      DlqKeysDiffer(ids.run, payload, i, j);
    }
  }

  /** A save commits exactly when the ids given in the payload do not repeat: no reference can ever dangle. */
  lemma SaveCommitsIff(t: Tables, ids: NewIds, payload: Object)
    requires Consistent(t) && Savable(t, ids, payload)
    ensures Save(t, ids, payload).Some?
      <==> (IdsDistinct(EventIds(payload)) && IdsDistinct(AlertIds(payload)) && IdsDistinct(IncidentIds(payload)))
  {
    var runs := t.runs[[ids.run] := payload].Keys;
    EventsGoIn(t, ids, payload, runs);
    var events := InsertAll(t.events, EventRows(ids.run, payload, ids.event), EventKey(), EventRefs(runs));
    if events.Some? {
      AlertsGoIn(t, ids, payload, runs, events.value.Keys);
      var alerts := InsertAll(t.alerts, AlertRows(ids.run, payload, ids.alert), AlertKey(),
                              AlertRefs(runs, events.value.Keys));
      if alerts.Some? {
        IncidentsGoIn(t, ids, payload, runs, alerts.value.Keys);
        var incidents := InsertAll(t.incidents, IncidentRows(ids.run, payload, ids.incident), IncidentKey(),
                                   IncidentRefs(runs, alerts.value.Keys));
        AlertEventsGoIn(t, ids, payload, alerts.value.Keys, events.value.Keys);
        if incidents.Some? {
          IncidentAlertsGoIn(t, ids, payload, incidents.value.Keys, alerts.value.Keys);
          DlqGoesIn(t, ids, payload, runs);
        }
      }
    }
  }
}
