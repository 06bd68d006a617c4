/** Which events raise which alerts, on the fields of the event and the signature database
    (src/detection_engine.py:265-573, 876-950). */
module RuleConditions {
  import opened Prelude
  import opened Json
  import opened EventSchema
  import opened Rules
  import opened Grouping
  import opened Beacons
  import opened Detection

  // ---------------------------------------------------------------- reading fields

  /** What Python takes for true. */
  lemma TruthyIff(v: Value)
    ensures Truthy(v) <==>
      !(v in [Null, Bool(false), Num(0), Real(0.0), Str(""), List([]), Obj(map[])])
  {
  }

  /** The field is absent or false. */
  predicate Blank(event: Fields, key: string) {
    match Get(event, key)
    case None => true
    case Some(v) => !Truthy(v)
  }

  /** Of several fields the first that is not blank is read; text as it is, numbers as numbers. */
  lemma {:induction false} FirstRead(lib: Library, event: Fields, keys: seq<string>, i: nat, v: Value)
    requires i < |keys| && Get(event, keys[i]) == Some(v) && Truthy(v)
    requires forall j :: 0 <= j < i ==> Blank(event, keys[j])
    ensures PickText(lib, event, keys) == (if v.Str? then v.text else lib.str(v))
    ensures PickInt(lib, event, keys) == (if v.Num? then v.num else lib.toInt(v))
    decreases i
  {
    if i > 0 {
      assert Blank(event, keys[0]);
      FirstRead(lib, event, keys[1..], i - 1, v);
    }
  }

  lemma {:induction false} NothingRead(lib: Library, event: Fields, keys: seq<string>)
    requires forall j :: 0 <= j < |keys| ==> Blank(event, keys[j])
    ensures PickText(lib, event, keys) == "" && PickInt(lib, event, keys) == 0
  {
    if keys != [] {
      assert Blank(event, keys[0]);
      NothingRead(lib, event, keys[1..]);
    }
  }

  /** The domain of an event: the first domain field in lower case, otherwise the host of its URL. */
  lemma DomainRead(lib: Library, event: Fields)
    ensures var direct := PickText(lib, event, ["query", "dst_domain", "source_domain", "sni"]);
      var url := PickText(lib, event, ["url", "object_url"]);
      && (direct != "" && lib.lower(direct) != "" ==> EventDomain(lib, event) == lib.lower(direct))
      && (direct == "" && url == "" ==> EventDomain(lib, event) == "")
      && (direct == "" && url != "" && lib.urlHost(url) != "" ==>
            EventDomain(lib, event) == lib.lower(lib.urlHost(url)))
      && (direct == "" && url != "" && lib.urlHost(url) == "" ==> EventDomain(lib, event) == "")
  {
  }

  lemma {:induction false} ContainsIff(s: string, part: string)
    ensures Contains(s, part) <==> exists a: string, b: string :: s == a + part + b
  {
    if Contains(s, part) {
      var i :| 0 <= i <= |s| && part <= s[i..];
      assert s == s[..i] + part + s[i..][|part|..];
    }
    if exists a: string, b: string :: s == a + part + b {
      var a: string, b: string :| s == a + part + b;
      assert s[|a|..] == part + b;
    }
  }

  // ---------------------------------------------------------------- alerts on one event

  /** The detector has an alert of the rule on the event, naming it alone and its host. */
  ghost predicate Alerted(lib: Library, db: Signatures, events: seq<Event>, rule: Rule, event: Event) {
    exists i :: 0 <= i < |Detect(lib, db, events)| && OnEvent(Detect(lib, db, events)[i], rule, event)
  }

  predicate OnEvent(alert: Alert, rule: Rule, event: Event) {
    alert.rule == rule && alert.eventIds == [event.id] && alert.host == event.host
  }

  /** With different ids: an event is alerted by a rule other than R004 exactly when it raises the rule. */
  lemma AlertedIff(lib: Library, db: Signatures, events: seq<Event>, rule: Rule, event: Event)
    requires Distinct(Map(events, IdOfEvent())) && event in events && rule != R004
    ensures Alerted(lib, db, events, rule, event) <==> Raises(lib, db, rule, event)
  {
    if Raises(lib, db, rule, event) {
      var plain := EventAlert(rule, event);
      var e :| 0 <= e < |events| && events[e] == event;
      assert Causes(lib, db, events[e], plain);
      EventAlertsIff(lib, db, events, plain);
      var i := Announced(lib, db, events, plain);
    }
    if Alerted(lib, db, events, rule, event) {
      var i :| 0 <= i < |Detect(lib, db, events)| && OnEvent(Detect(lib, db, events)[i], rule, event);
      var plain := PlainAlert(lib, db, events, i);
      EventAlertsIff(lib, db, events, plain);
      var e :| 0 <= e < |events| && Causes(lib, db, events[e], plain);
      SameIdSameEvent(events, event, events[e]);
    }
  }

  /** No rule but R004 speaks of several events, and every alert of another rule is about some event. */
  lemma EveryAlertOnOne(lib: Library, db: Signatures, events: seq<Event>, i: nat)
    requires i < |Detect(lib, db, events)| && Detect(lib, db, events)[i].rule != R004
    ensures exists event <- events ::
      Raises(lib, db, Detect(lib, db, events)[i].rule, event) && OnEvent(Detect(lib, db, events)[i],
                                                                        Detect(lib, db, events)[i].rule, event)
  {
    var plain := PlainAlert(lib, db, events, i);
    EventAlertsIff(lib, db, events, plain);
    var e :| 0 <= e < |events| && Causes(lib, db, events[e], plain);
    assert events[e] in events;
  }

  // ---------------------------------------------------------------- the conditions, rule by rule

  /** A known domain or address, on six types of events. */
  lemma KnownDestination(lib: Library, db: Signatures, event: Event)
    ensures Raises(lib, db, R001, event) <==>
      && event.kind in ["dns_query", "network_connection", "file_download", "http_request", "application_action",
                        "decryption_event"]
      && (EventDomain(lib, event.fields) in db.domains
          || PickText(lib, event.fields, ["dst_ip", "destination_ip"]) in db.ips)
  {
  }

  ghost predicate Ends(s: string, suffix: string) { exists front: string :: s == front + suffix }

  lemma EndsIff(s: string, suffix: string)
    ensures EndsWith(s, suffix) <==> Ends(s, suffix)
  {
    if EndsWith(s, suffix) {
      assert s == s[..|s| - |suffix|] + suffix;
    }
  }

  /** An executable file that a browser fetched, or that came from a known domain, or whose hash is known. */
  lemma SuspiciousDownload(lib: Library, db: Signatures, event: Event)
    ensures var e := event.fields;
      var name := Lower(lib, PickText(lib, e, ["file_name", "file_path"]));
      Raises(lib, db, R002, event) <==>
        && event.kind == "file_download"
        && (Ends(name, ".exe") || Ends(name, ".dll") || Ends(name, ".ps1") || Ends(name, ".bat"))
        && (|| Lower(lib, PickText(lib, e, ["parent_process", "process_name"]))
                 in ["chrome.exe", "msedge.exe", "firefox.exe", "safari"]
            || Lower(lib, PickText(lib, e, ["source_domain"])) in db.domains
            || Lower(lib, PickText(lib, e, ["hash_sha256"])) in db.hashes)
  {
    var name := Lower(lib, PickText(lib, event.fields, ["file_name", "file_path"]));
    EndsIff(name, ".exe");
    EndsIff(name, ".dll");
    EndsIff(name, ".ps1");
    EndsIff(name, ".bat");
  }

  /** A process whose signed field is false itself, from a downloads directory or with a known hash. */
  lemma UnsignedProcess(lib: Library, db: Signatures, event: Event)
    ensures var e := event.fields;
      var path := Lower(lib, PickText(lib, e, ["process_path"]));
      Raises(lib, db, R003, event) <==>
        && event.kind == "process_start" && Get(e, "signed") == Some(Bool(false))
        && (Contains(path, "\\downloads\\") || Contains(path, "/downloads/")
            || Lower(lib, PickText(lib, e, ["hash_sha256"])) in db.hashes)
  {
  }

  /** Fifty million bytes out or more. */
  lemma LargeTransfer(lib: Library, db: Signatures, event: Event)
    ensures Raises(lib, db, R005, event) <==>
      && event.kind in ["network_connection", "flow_summary"]
      && PickInt(lib, event.fields, ["bytes_out", "byte_count_out"]) >= 50_000_000
  {
  }

  /** An unusual network before seven or from eight in the evening on. */
  lemma OffHoursNetwork(lib: Library, db: Signatures, event: Event)
    ensures var e := event.fields;
      var (asn, hour) := (PickText(lib, e, ["destination_asn"]), lib.hourOf(Text(lib, Look(e, "event_time"))));
      Raises(lib, db, R006, event) <==>
        && event.kind in ["network_connection", "flow_summary"]
        && asn != "" && asn !in ["AS15169", "AS8075", "AS16509", "AS13335"] && !(7 <= hour < 20)
  {
  }

  lemma ShellConnection(lib: Library, db: Signatures, event: Event)
    ensures Raises(lib, db, R007, event) <==>
      && event.kind in ["network_connection", "flow_summary"]
      && Lower(lib, PickText(lib, event.fields, ["process_name"]))
           in ["powershell.exe", "pwsh.exe", "cmd.exe", "bash", "sh", "zsh"]
  {
  }

  /** A tunnel that is flagged true itself, with a large transfer or to any network outside the trusted four. */
  lemma AbnormalTunnel(lib: Library, db: Signatures, event: Event)
    ensures var e := event.fields;
      Raises(lib, db, R008, event) <==>
        && event.kind in ["network_connection", "flow_summary"] && Get(e, "vpn_active") == Some(Bool(true))
        && (PickInt(lib, e, ["bytes_out"]) >= 50_000_000
            || PickText(lib, e, ["destination_asn"]) !in ["AS15169", "AS8075", "AS16509", "AS13335"])
  {
  }

  lemma BlockedRequest(lib: Library, db: Signatures, event: Event)
    ensures var e := event.fields;
      Raises(lib, db, R009, event) <==>
        && event.kind == "http_request"
        && (|| Lower(lib, PickText(lib, e, ["url", "object_url"])) in db.urls
            || EventDomain(lib, e) in db.domains
            || Lower(lib, PickText(lib, e, ["url_category"])) in db.categories)
  {
  }

  /** A monitored pair of application and action, on a known domain or URL. */
  lemma MonitoredAction(lib: Library, db: Signatures, event: Event)
    ensures var e := event.fields;
      var app := Lower(lib, PickText(lib, e, ["app_name", "app_id"]));
      var action := Lower(lib, PickText(lib, e, ["app_action"]));
      Raises(lib, db, R010, event) <==>
        && event.kind == "application_action"
        && (exists pair <- db.actions :: Lower(lib, pair.0) == app && Lower(lib, pair.1) == action)
        && (|| EventDomain(lib, e) in db.domains
            || Lower(lib, PickText(lib, e, ["object_url", "url"])) in db.urls)
  {
    var app := Lower(lib, PickText(lib, event.fields, ["app_name", "app_id"]));
    var action := Lower(lib, PickText(lib, event.fields, ["app_action"]));
    if pair :| pair in db.actions && Lower(lib, pair.0) == app && Lower(lib, pair.1) == action {
      var i :| 0 <= i < |db.actions| && db.actions[i] == pair;
    }
  }

  /** A known hash, on three types of events. */
  lemma KnownHash(lib: Library, db: Signatures, event: Event)
    ensures var hash := Lower(lib, PickText(lib, event.fields, ["hash_sha256", "attachment_hash"]));
      Raises(lib, db, R011, event) <==>
        && event.kind in ["file_download", "process_start", "application_action"] && hash != "" && hash in db.hashes
  {
  }

  lemma ResponseAction(lib: Library, db: Signatures, event: Event)
    ensures Raises(lib, db, R012, event) <==>
      && event.kind == "response_action"
      && PickText(lib, event.fields, ["status"]) in ["planned", "queued", "applied"]
  {
  }

  lemma HighPrediction(lib: Library, db: Signatures, event: Event)
    ensures Raises(lib, db, R013, event) <==>
      && event.kind == "ai_prediction" && PickText(lib, event.fields, ["prediction"]) in ["high", "critical"]
  {
  }

  // ---------------------------------------------------------------- what follows for whole event lists

  /** Every unsigned process started below a downloads directory is alerted. */
  lemma UnsignedDownloadAlerted(lib: Library, db: Signatures, events: seq<Event>, event: Event, path: string, a: string,
                                b: string)
    requires Distinct(Map(events, IdOfEvent())) && event in events && event.kind == "process_start"
    requires Get(event.fields, "signed") == Some(Bool(false))
    requires Get(event.fields, "process_path") == Some(Str(path)) && path != ""
    requires lib.lower(path) == a + "/downloads/" + b || lib.lower(path) == a + "\\downloads\\" + b
    ensures Alerted(lib, db, events, R003, event)
  {
    FirstRead(lib, event.fields, ["process_path"], 0, Str(path));
    ContainsIff(lib.lower(path), "/downloads/");
    ContainsIff(lib.lower(path), "\\downloads\\");
    UnsignedProcess(lib, db, event);
    AlertedIff(lib, db, events, R003, event);
  }

  /** A process whose signed field is absent, true, or anything but false itself is never alerted by R003. */
  lemma SignedNeverAlerted(lib: Library, db: Signatures, events: seq<Event>, event: Event)
    requires Distinct(Map(events, IdOfEvent())) && event in events && Get(event.fields, "signed") != Some(Bool(false))
    ensures !Alerted(lib, db, events, R003, event)
  {
    UnsignedProcess(lib, db, event);
    AlertedIff(lib, db, events, R003, event);
  }

  /** A connection that states its bytes is alerted as a large transfer from fifty million on. */
  lemma TransferTurns(lib: Library, db: Signatures, events: seq<Event>, event: Event, n: int)
    requires Distinct(Map(events, IdOfEvent())) && event in events && event.kind == "network_connection"
    requires Get(event.fields, "bytes_out") == Some(Num(n)) && n != 0
    ensures Alerted(lib, db, events, R005, event) <==> n >= 50_000_000
  {
    FirstRead(lib, event.fields, ["bytes_out", "byte_count_out"], 0, Num(n));
    LargeTransfer(lib, db, event);
    AlertedIff(lib, db, events, R005, event);
  }

  /** A connection to an unusual network is alerted before seven and from eight in the evening on. */
  lemma HoursTurn(lib: Library, db: Signatures, events: seq<Event>, event: Event, asn: string, time: string)
    requires Distinct(Map(events, IdOfEvent())) && event in events && event.kind == "network_connection"
    requires Get(event.fields, "destination_asn") == Some(Str(asn)) && asn != ""
      && asn !in ["AS15169", "AS8075", "AS16509", "AS13335"]
    requires Get(event.fields, "event_time") == Some(Str(time))
    ensures Alerted(lib, db, events, R006, event) <==> lib.hourOf(time) <= 6 || lib.hourOf(time) >= 20
  {
    FirstRead(lib, event.fields, ["destination_asn"], 0, Str(asn));
    OffHoursNetwork(lib, db, event);
    AlertedIff(lib, db, events, R006, event);
  }

  /** The alerts of an analysis: an analysed event is alerted exactly when it raises the rule. */
  lemma AnalysisAlertIff(lib: Library, db: Signatures, raw: seq<Fields>, rule: Rule, event: Event)
    requires TextIds(lib, raw) && rule != R004
    ensures var a := Analyze(lib, db, raw);
      a.Analyzed? && event in a.findings.events ==>
        ((exists i :: 0 <= i < |a.findings.alerts| && OnEvent(a.findings.alerts[i], rule, event))
          <==> Raises(lib, db, rule, event))
  {
    var valid := ValidEvents(lib, Clean(lib, raw));
    var events := Canonical(lib, valid);
    TextIdsDistinct(lib, raw);
    CanonicalDiffer(lib, valid);
    var letters := AnalyzedFindings(lib, db, raw, events);
    if event in events {
      AlertedIff(lib, db, events, rule, event);
    }
  }

  // ---------------------------------------------------------------- a larger database

  predicate Larger(db: Signatures, db': Signatures) {
    && db.domains <= db'.domains && db.urls <= db'.urls && db.ips <= db'.ips && db.hashes <= db'.hashes
    && db.categories <= db'.categories && forall pair <- db.actions :: pair in db'.actions
  }

  lemma RaisesGrows(lib: Library, db: Signatures, db': Signatures, rule: Rule, event: Event)
    requires Larger(db, db') && Raises(lib, db, rule, event)
    ensures Raises(lib, db', rule, event)
  {
    if rule == R010 {
      MonitoredAction(lib, db, event);
      MonitoredAction(lib, db', event);
    }
  }

  /** Adding indicators removes no alert: each one has its counterpart, perhaps with another number. */
  lemma AlertsGrow(lib: Library, db: Signatures, db': Signatures, events: seq<Event>, i: nat) returns (j: nat)
    requires Larger(db, db') && i < |Detect(lib, db, events)|
    ensures j < |Detect(lib, db', events)| && SameAlert(Detect(lib, db, events)[i], Detect(lib, db', events)[j])
  {
    var plain := PlainAlert(lib, db, events, i);
    if plain.rule != R004 {
      EventAlertsIff(lib, db, events, plain);
      var e :| 0 <= e < |events| && Causes(lib, db, events[e], plain);
      RaisesGrows(lib, db, db', plain.rule, events[e]);
      assert Causes(lib, db', events[e], plain);
      EventAlertsIff(lib, db', events, plain);
    }
    j := Announced(lib, db', events, plain);
  }

  // ---------------------------------------------------------------- what an alert of each rule says

  /** Score and tactics of an alert, with the names of the rule table. */
  predicate TableSays(alert: Alert) {
    match alert.rule
    case R001 => alert.score == 34 && alert.tactics == [InitialAccess]
    case R002 => alert.score == 28 && alert.tactics == [InitialAccess]
    case R003 => alert.score == 30 && alert.tactics == [Execution]
    case R004 => alert.score == 36 && alert.tactics == [CommandAndControl]
    case R005 => alert.score == 35 && alert.tactics == [Exfiltration]
    case R006 => alert.score == 22 && alert.tactics == [CommandAndControl]
    case R007 => alert.score == 26 && alert.tactics == [Execution, CommandAndControl]
    case R008 => alert.score == 32 && alert.tactics == [Exfiltration]
    case R009 => alert.score == 38 && alert.tactics == [InitialAccess, CommandAndControl]
    case R010 => alert.score == 34 && alert.tactics == [Collection, Exfiltration]
    case R011 => alert.score == 42 && alert.tactics == [Execution, DefenseEvasion]
    case R012 => alert.score == 20 && alert.tactics == [Impact]
    case R013 => alert.score == 33 && alert.tactics == [CommandAndControl, Exfiltration]
  }

  lemma BeaconPlain(lib: Library, events: seq<Event>, alert: Alert)
    requires alert in BeaconAlerts(lib, events)
    ensures alert == NewAlert(R004, alert.host, alert.eventIds, alert.beacon)
  {
    var keys, f := Keys(events, KeyOf(lib)), GroupAlert(events, KeyOf(lib));
    FlatMapIff(keys, f, alert);
    var i :| 0 <= i < |keys| && alert in f(keys[i]);
  }

  lemma NewAlertSays(alert: Alert)
    requires alert == NewAlert(alert.rule, alert.host, alert.eventIds, alert.beacon)
    ensures TableSays(alert)
    ensures alert.decision == if alert.rule in [R002, R006, R007, R012] then NeedsReview else NeedsSecurityReview
  {
  }

  /**
   * Every alert carries its rule's score and tactics; the four weakest rules ask for a review and are informational,
   * all others ask for a security review and are suspicious.
   */
  lemma AlertSays(lib: Library, db: Signatures, events: seq<Event>, i: nat)
    requires i < |Detect(lib, db, events)|
    ensures var alert := Detect(lib, db, events)[i];
      && TableSays(alert)
      && alert.severity == (if alert.rule in [R002, R006, R007, R012] then Info else Suspicious)
      && alert.decision == (if alert.rule in [R002, R006, R007, R012] then NeedsReview else NeedsSecurityReview)
  {
    AlertsGrounded(lib, db, events, i);
    var plain := PlainAlert(lib, db, events, i);
    if plain.rule == R004 {
      BeaconPlain(lib, events, plain);
    } else {
      EventAlertsIff(lib, db, events, plain);
    }
    NewAlertSays(plain);
  }

  /** The bounds of the four severities. */
  lemma SeverityBounds(score: int)
    ensures SeverityOf(score) == Critical <==> score >= 80
    ensures SeverityOf(score) == Warning <==> 60 <= score <= 79
    ensures SeverityOf(score) == Suspicious <==> 30 <= score <= 59
    ensures SeverityOf(score) == Info <==> score <= 29
  {
  }
}
