/** Detection rules on single events, and the alerts they raise
    (src/detection_engine.py:44-110, 265-573, 876-940 and the constants of src/config.py). */
module Rules {
  import opened Prelude
  import opened Json
  import opened EventSchema

  datatype Rule = R001 | R002 | R003 | R004 | R005 | R006 | R007 | R008 | R009 | R010 | R011 | R012 | R013

  datatype Tactic =
    | Reconnaissance | ResourceDevelopment | InitialAccess | Execution | Persistence | PrivilegeEscalation
    | DefenseEvasion | CredentialAccess | Discovery | LateralMovement | Collection | CommandAndControl | Exfiltration
    | Impact

  datatype Severity = Critical | Warning | Suspicious | Info

  datatype Decision = NeedsSecurityReview | NeedsReview | NeedsSchemaReview | NoHighRiskSignal

  function Score(rule: Rule): nat {
    match rule
    case R001 => 34 case R002 => 28 case R003 => 30 case R004 => 36 case R005 => 35 case R006 => 22 case R007 => 26
    case R008 => 32 case R009 => 38 case R010 => 34 case R011 => 42 case R012 => 20 case R013 => 33
  }

  function Tactics(rule: Rule): seq<Tactic> {
    match rule
    case R001 => [InitialAccess]
    case R002 => [InitialAccess]
    case R003 => [Execution]
    case R004 => [CommandAndControl]
    case R005 => [Exfiltration]
    case R006 => [CommandAndControl]
    case R007 => [Execution, CommandAndControl]
    case R008 => [Exfiltration]
    case R009 => [InitialAccess, CommandAndControl]
    case R010 => [Collection, Exfiltration]
    case R011 => [Execution, DefenseEvasion]
    case R012 => [Impact]
    case R013 => [CommandAndControl, Exfiltration]
  }

  function SeverityOf(score: int): Severity {
    if score >= 80 then Critical else if score >= 60 then Warning else if score >= 30 then Suspicious else Info
  }

  const LARGE_OUTBOUND_BYTES := 50_000_000
  const BROWSERS: set<string> := { "chrome.exe", "msedge.exe", "firefox.exe", "safari" }
  const SHELLS: set<string> := { "powershell.exe", "pwsh.exe", "cmd.exe", "bash", "sh", "zsh" }
  const TRUSTED_ASNS: set<string> := { "AS15169", "AS8075", "AS16509", "AS13335" }

  /** Indicators of the signature file, all lower case except addresses; actions are (app, action) pairs. */
  datatype Signatures = Signatures(
    domains: set<string>, urls: set<string>, ips: set<string>, hashes: set<string>, categories: set<string>,
    actions: seq<(string, string)>)

  // ---------------------------------------------------------------- events

  /** A valid event with the fields every rule reads; the others stay in its dictionary. */
  datatype Event = Event(id: string, host: string, kind: string, time: int, fields: Fields)

  function View(lib: Library, fields: Fields): Event {
    var time := lib.parseTime(Text(lib, Look(fields, "event_time")));
    Event(Text(lib, IdOf(fields)), Text(lib, Look(fields, "host_id")), Text(lib, Look(fields, "event_type")),
          if time.Some? then time.value else 0, fields)
  }

  /** The chain event.get(k1) or event.get(k2) or ... */
  function FirstTruthy(event: Fields, keys: seq<string>): Option<Value> {
    if keys == [] then None
    else if Truthy(Look(event, keys[0])) then Some(Look(event, keys[0]))
    else FirstTruthy(event, keys[1..])
  }

  function PickText(lib: Library, event: Fields, keys: seq<string>): string {
    match FirstTruthy(event, keys)
    case None => ""
    case Some(v) => Text(lib, v)
  }

  function PickInt(lib: Library, event: Fields, keys: seq<string>): int {
    match FirstTruthy(event, keys)
    case None => 0
    case Some(v) => if v.Num? then v.num else lib.toInt(v)
  }

  function Lower(lib: Library, s: string): string { if s == "" then "" else lib.lower(s) }

  function EventDomain(lib: Library, event: Fields): string {
    var direct := Lower(lib, PickText(lib, event, ["query", "dst_domain", "source_domain", "sni"]));
    if direct != "" then direct
    else
      var url := PickText(lib, event, ["url", "object_url"]);
      if url != "" then Lower(lib, lib.urlHost(url)) else ""
  }

  predicate EndsWith(s: string, suffix: string) { |suffix| <= |s| && s[|s| - |suffix|..] == suffix }

  predicate Contains(s: string, part: string) { exists i :: 0 <= i <= |s| && part <= s[i..] }

  predicate OffHours(lib: Library, event: Fields) {
    var hour := lib.hourOf(Text(lib, Look(event, "event_time")));
    hour < 7 || hour >= 20
  }

  // ---------------------------------------------------------------- rule conditions

  predicate Fires(lib: Library, db: Signatures, rule: Rule, event: Fields) {
    match rule
    case R001 =>
      EventDomain(lib, event) in db.domains || PickText(lib, event, ["dst_ip", "destination_ip"]) in db.ips
    case R002 =>
      var name := Lower(lib, PickText(lib, event, ["file_name", "file_path"]));
      && (EndsWith(name, ".exe") || EndsWith(name, ".dll") || EndsWith(name, ".ps1") || EndsWith(name, ".bat"))
      && (|| Lower(lib, PickText(lib, event, ["parent_process", "process_name"])) in BROWSERS
          || Lower(lib, PickText(lib, event, ["source_domain"])) in db.domains
          || Lower(lib, PickText(lib, event, ["hash_sha256"])) in db.hashes)
    case R003 =>
      var path := Lower(lib, PickText(lib, event, ["process_path"]));
      && Look(event, "signed") == Bool(false)
      && (|| Contains(path, "\\downloads\\") || Contains(path, "/downloads/")
          || Lower(lib, PickText(lib, event, ["hash_sha256"])) in db.hashes)
    case R004 => false
    case R005 => PickInt(lib, event, ["bytes_out", "byte_count_out"]) >= LARGE_OUTBOUND_BYTES
    case R006 =>
      var asn := PickText(lib, event, ["destination_asn"]);
      asn != "" && asn !in TRUSTED_ASNS && OffHours(lib, event)
    case R007 => Lower(lib, PickText(lib, event, ["process_name"])) in SHELLS
    case R008 =>
      && Look(event, "vpn_active") == Bool(true)
      && (|| PickInt(lib, event, ["bytes_out"]) >= LARGE_OUTBOUND_BYTES
          || PickText(lib, event, ["destination_asn"]) !in TRUSTED_ASNS)
    case R009 =>
      || Lower(lib, PickText(lib, event, ["url", "object_url"])) in db.urls
      || EventDomain(lib, event) in db.domains
      || Lower(lib, PickText(lib, event, ["url_category"])) in db.categories
    case R010 =>
      var app := Lower(lib, PickText(lib, event, ["app_name", "app_id"]));
      var action := Lower(lib, PickText(lib, event, ["app_action"]));
      && (exists i ::
            0 <= i < |db.actions| && Lower(lib, db.actions[i].0) == app && Lower(lib, db.actions[i].1) == action)
      && (EventDomain(lib, event) in db.domains || Lower(lib, PickText(lib, event, ["object_url", "url"])) in db.urls)
    case R011 =>
      var hash := Lower(lib, PickText(lib, event, ["hash_sha256", "attachment_hash"]));
      hash != "" && hash in db.hashes
    case R012 => PickText(lib, event, ["status"]) in { "planned", "queued", "applied" }
    case R013 => PickText(lib, event, ["prediction"]) in { "high", "critical" }
  }

  /** The rules tried on an event of each type, in the order their alerts appear. */
  function Tried(kind: string): seq<Rule> {
    if kind == "network_connection" then [R001, R005, R006, R007, R008]
    else if kind == "flow_summary" then [R005, R006, R007, R008]
    else if kind == "file_download" then [R001, R002, R011]
    else if kind == "process_start" then [R003, R011]
    else if kind == "http_request" then [R001, R009]
    else if kind == "application_action" then [R001, R010, R011]
    else if kind == "dns_query" || kind == "decryption_event" then [R001]
    else if kind == "response_action" then [R012]
    else if kind == "ai_prediction" then [R013]
    else []
  }

  // ---------------------------------------------------------------- alerts

  /** Mode of the gaps between connections, how many gaps are near it, and how many connections there are. */
  datatype Beacon = Beacon(interval: int, regular: nat, events: nat)

  datatype Alert = Alert(
    id: string, rule: Rule, host: string, eventIds: seq<string>, score: nat, severity: Severity, tactics: seq<Tactic>,
    decision: Decision, beacon: Option<Beacon>)

  /** The alert before it is numbered. */
  function NewAlert(rule: Rule, host: string, eventIds: seq<string>, beacon: Option<Beacon>): Alert {
    var decision := if Score(rule) >= 30 then NeedsSecurityReview else NeedsReview;
    Alert("", rule, host, eventIds, Score(rule), Info, Tactics(rule), decision, beacon)
  }

  function EventAlert(rule: Rule, event: Event): Alert { NewAlert(rule, event.host, [event.id], None) }

  function AlertsFrom(fires: Rule -> bool, rules: seq<Rule>, event: Event): seq<Alert> {
    if rules == [] then []
    else (if fires(rules[0]) then [EventAlert(rules[0], event)] else []) + AlertsFrom(fires, rules[1..], event)
  }

  function FiresOn(lib: Library, db: Signatures, event: Event): Rule -> bool {
    (rule: Rule) => Fires(lib, db, rule, event.fields)
  }

  function AlertsOf(lib: Library, db: Signatures, event: Event): seq<Alert> {
    AlertsFrom(FiresOn(lib, db, event), Tried(event.kind), event)
  }

  function AlertsFor(lib: Library, db: Signatures): Event -> seq<Alert> { (event: Event) => AlertsOf(lib, db, event) }

  function EventAlerts(lib: Library, db: Signatures, events: seq<Event>): seq<Alert> {
    FlatMap(events, AlertsFor(lib, db))
  }

  predicate Raises(lib: Library, db: Signatures, rule: Rule, event: Event) {
    rule in Tried(event.kind) && Fires(lib, db, rule, event.fields)
  }

  lemma {:induction false} AlertsFromIff(fires: Rule -> bool, rules: seq<Rule>, event: Event, alert: Alert)
    ensures alert in AlertsFrom(fires, rules, event)
      <==> (alert.rule in rules && fires(alert.rule) && alert == EventAlert(alert.rule, event))
  {
    if rules != [] {
      AlertsFromIff(fires, rules[1..], event, alert);
      assert rules == [rules[0]] + rules[1..];
    }
  }

  lemma AlertsOfIff(lib: Library, db: Signatures, event: Event, alert: Alert)
    ensures alert in AlertsOf(lib, db, event)
      <==> (Raises(lib, db, alert.rule, event) && alert == EventAlert(alert.rule, event))
  {
    AlertsFromIff(FiresOn(lib, db, event), Tried(event.kind), event, alert);
  }

  predicate Causes(lib: Library, db: Signatures, event: Event, alert: Alert) {
    Raises(lib, db, alert.rule, event) && alert == EventAlert(alert.rule, event)
  }

  /**
   * An alert on single events is there exactly when some event raises its rule, and it names that event and its
   * host.
   */
  lemma EventAlertsIff(lib: Library, db: Signatures, events: seq<Event>, alert: Alert)
    ensures alert in EventAlerts(lib, db, events)
      <==> exists i :: 0 <= i < |events| && Causes(lib, db, events[i], alert)
  {
    var f := AlertsFor(lib, db);
    FlatMapIff(events, f, alert);
    forall i | 0 <= i < |events|
      ensures alert in f(events[i]) <==> Causes(lib, db, events[i], alert)
    {
      AlertsOfIff(lib, db, events[i], alert);
    }
  }

  lemma {:induction false} AlertsFromSnoc(fires: Rule -> bool, rules: seq<Rule>, rule: Rule, event: Event)
    ensures AlertsFrom(fires, rules + [rule], event)
      == AlertsFrom(fires, rules, event) + AlertsFrom(fires, [rule], event)
  {
    if rules == [] {
      assert rules + [rule] == [rule];
    } else {
      AlertsFromSnoc(fires, rules[1..], rule, event);
      assert (rules + [rule])[1..] == rules[1..] + [rule];
    }
  }

  /** The chain of type tests for one event; fires is the outcome of each rule's condition on it. */
  method AddEventAlerts(fires: Rule -> bool, alerts: seq<Alert>, event: Event) returns (more: seq<Alert>)
    ensures more == alerts + AlertsFrom(fires, Tried(event.kind), event)
  {
    var kind := event.kind;
    ghost var tried: seq<Rule> := [];
    more := alerts;
    if kind in { "dns_query", "network_connection", "file_download", "http_request", "application_action",
                "decryption_event" } {
      more, tried := MaybeAdd(fires, more, R001, event, alerts, tried);
    }
    if kind == "file_download" {
      more, tried := MaybeAdd(fires, more, R002, event, alerts, tried);
      more, tried := MaybeAdd(fires, more, R011, event, alerts, tried);
    }
    if kind == "process_start" {
      more, tried := MaybeAdd(fires, more, R003, event, alerts, tried);
      more, tried := MaybeAdd(fires, more, R011, event, alerts, tried);
    }
    if kind in { "network_connection", "flow_summary" } {
      more, tried := MaybeAdd(fires, more, R005, event, alerts, tried);
      more, tried := MaybeAdd(fires, more, R006, event, alerts, tried);
      more, tried := MaybeAdd(fires, more, R007, event, alerts, tried);
      more, tried := MaybeAdd(fires, more, R008, event, alerts, tried);
    }
    if kind == "http_request" {
      more, tried := MaybeAdd(fires, more, R009, event, alerts, tried);
    }
    if kind == "application_action" {
      more, tried := MaybeAdd(fires, more, R010, event, alerts, tried);
      more, tried := MaybeAdd(fires, more, R011, event, alerts, tried);
    }
    if kind == "response_action" {
      more, tried := MaybeAdd(fires, more, R012, event, alerts, tried);
    }
    if kind == "ai_prediction" {
      more, tried := MaybeAdd(fires, more, R013, event, alerts, tried);
    }
    assert tried == Tried(kind);
  }

  method MaybeAdd(fires: Rule -> bool, alerts: seq<Alert>, rule: Rule, event: Event, ghost base: seq<Alert>,
                  ghost tried: seq<Rule>)
    returns (more: seq<Alert>, ghost retried: seq<Rule>)
    requires alerts == base + AlertsFrom(fires, tried, event)
    ensures more == alerts + (if fires(rule) then [EventAlert(rule, event)] else [])
    ensures retried == tried + [rule]
    ensures more == base + AlertsFrom(fires, retried, event)
  {
    more, retried := alerts, tried + [rule];
    AlertsFromSnoc(fires, tried, rule, event);
    if fires(rule) {
      more := more + [EventAlert(rule, event)];
      assert AlertsFrom(fires, [rule], event) == [EventAlert(rule, event)];
    }
  }

  // ---------------------------------------------------------------- numbering

  /** Alerts get their position as id and their score's severity last. */
  function Numbered(alerts: seq<Alert>): seq<Alert> {
    seq(|alerts|, i requires 0 <= i < |alerts| =>
      alerts[i].(id := "alert-" + ThreeDigits(i + 1), severity := SeverityOf(alerts[i].score)))
  }

  lemma NumberedIdsDistinct(alerts: seq<Alert>, i: nat, j: nat)
    requires i < j < |alerts|
    ensures Numbered(alerts)[i].id != Numbered(alerts)[j].id
  {
    NumberedApart("alert-", i + 1, j + 1);
  }
}
