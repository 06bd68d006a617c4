/** Event validation: sanitized events, schema errors, and the split into valid events and dead letters
    (src/detection_engine.py:201-262). */
module EventSchema {
  import opened Prelude
  import opened Json
  import Privacy

  /**
   * Python's text, number, date and URL functions. Times are microseconds; parseTime is None where Python raises
   * ValueError.
   */
  datatype Library = Library(
    isDigit: char -> bool,
    str: Value -> string,
    toInt: Value -> int,
    lower: string -> string,
    parseTime: string -> Option<int>,
    hourOf: string -> int,
    urlHost: string -> string)

  const REQUIRED_FIELDS: seq<string> :=
    ["event_id", "event_time", "event_type", "host_id", "payload_version", "received_time", "source"]

  const SUPPORTED_TYPES: set<string> := {
    "process_start", "process_stop", "file_download", "dns_query", "network_connection", "flow_summary", "vpn_tunnel",
    "autorun_entry", "usb_event", "http_request", "decryption_event", "application_action", "signature_match",
    "response_action", "ai_prediction", "pipeline_delivery" }

  predicate Truthy(v: Value) {
    match v
    case Null => false
    case Bool(flag) => flag
    case Num(num) => num != 0
    case Real(amount) => amount != 0.0
    case Str(text) => text != ""
    case List(items) => items != []
    case Obj(members) => members != map[]
  }

  function Text(lib: Library, v: Value): string { if v.Str? then v.text else lib.str(v) }

  predicate Has(event: Fields, key: string) { Get(event, key).Some? }

  /** event.get(key) */
  function Look(event: Fields, key: string): Value { if Has(event, key) then Get(event, key).value else Null }

  function IdOf(event: Fields): Value { Look(event, "event_id") }

  // ---------------------------------------------------------------- schema errors

  datatype SchemaError =
    | MissingFields(names: seq<string>)
    | DuplicateId(id: Value)
    | UnsupportedType(kind: Value)
    | BadTime(field: string)

  function Missing(event: Fields, names: seq<string>): seq<string> {
    if names == [] then []
    else if Has(event, names[0]) then Missing(event, names[1..])
    else [names[0]] + Missing(event, names[1..])
  }

  predicate TimeFits(lib: Library, event: Fields, field: string) {
    Has(event, field) ==> lib.parseTime(Text(lib, Look(event, field))).Some?
  }

  predicate TypeFits(event: Fields) {
    var kind := Look(event, "event_type");
    Truthy(kind) ==> kind.Str? && kind.text in SUPPORTED_TYPES
  }

  function SchemaErrors(lib: Library, event: Fields, seen: set<Value>): seq<SchemaError> {
    var missing := Missing(event, REQUIRED_FIELDS);
    (if missing != [] then [MissingFields(missing)] else [])
    + (if IdOf(event) in seen then [DuplicateId(IdOf(event))] else [])
    + (if TypeFits(event) then [] else [UnsupportedType(Look(event, "event_type"))])
    + (if TimeFits(lib, event, "event_time") then [] else [BadTime("event_time")])
    + (if TimeFits(lib, event, "received_time") then [] else [BadTime("received_time")])
  }

  /** Well formed on its own: every required field, a known type or none, and two readable times. */
  predicate LocallyValid(lib: Library, event: Fields) {
    && (forall name <- REQUIRED_FIELDS :: Has(event, name))
    && TypeFits(event)
    && TimeFits(lib, event, "event_time") && TimeFits(lib, event, "received_time")
  }

  lemma {:induction false} MissingEmptyIff(event: Fields, names: seq<string>)
    ensures Missing(event, names) == [] <==> forall name <- names :: Has(event, name)
  {
    if names != [] {
      MissingEmptyIff(event, names[1..]);
      assert names == [names[0]] + names[1..];
    }
  }

  /** An event passes exactly when it is well formed and no accepted event has its id. */
  lemma NoErrorsIff(lib: Library, event: Fields, seen: set<Value>)
    ensures SchemaErrors(lib, event, seen) == [] <==> (LocallyValid(lib, event) && IdOf(event) !in seen)
  {
    MissingEmptyIff(event, REQUIRED_FIELDS);
  }

  // ---------------------------------------------------------------- the split

  datatype DlqEvent = DlqEvent(index: nat, id: Value, errors: seq<SchemaError>, event: Fields)
  datatype PrivacyAction = PrivacyAction(id: Value, fields: seq<string>, actions: seq<Privacy.Action>)

  function Cleaner(lib: Library): Fields -> Fields { (event: Fields) => Privacy.Sanitize(lib.isDigit, event) }

  function Clean(lib: Library, raw: seq<Fields>): seq<Fields> { Map(raw, Cleaner(lib)) }

  /** Event i is kept: it is well formed, and no earlier well-formed event has its id. */
  predicate KeptAt(lib: Library, clean: seq<Fields>, i: nat)
    requires i < |clean|
  {
    && LocallyValid(lib, clean[i])
    && forall j :: 0 <= j < i && LocallyValid(lib, clean[j]) ==> IdOf(clean[j]) != IdOf(clean[i])
  }

  /** The ids of well-formed events; a rejected event reserves none. */
  function Seen(lib: Library, clean: seq<Fields>): set<Value> {
    if clean == [] then {}
    else
      var n := |clean| - 1;
      Seen(lib, clean[..n]) + (if LocallyValid(lib, clean[n]) then {IdOf(clean[n])} else {})
  }

  lemma {:induction false} SeenIff(lib: Library, clean: seq<Fields>, id: Value)
    ensures id in Seen(lib, clean)
      <==> exists j :: 0 <= j < |clean| && LocallyValid(lib, clean[j]) && IdOf(clean[j]) == id
  {
    if clean != [] {
      var n := |clean| - 1;
      SeenIff(lib, clean[..n], id);
      assert forall j :: 0 <= j < n ==> clean[..n][j] == clean[j];
    }
  }

  ghost function ValidEvents(lib: Library, clean: seq<Fields>): seq<Fields> {
    if clean == [] then []
    else
      var n := |clean| - 1;
      ValidEvents(lib, clean[..n]) + (if KeptAt(lib, clean, n) then [clean[n]] else [])
  }

  ghost function DlqEvents(lib: Library, clean: seq<Fields>): seq<DlqEvent> {
    if clean == [] then []
    else
      var n := |clean| - 1;
      DlqEvents(lib, clean[..n])
      + (if KeptAt(lib, clean, n) then []
         else [DlqEvent(n, IdOf(clean[n]), SchemaErrors(lib, clean[n], Seen(lib, clean[..n])), clean[n])])
  }

  function ActionFor(lib: Library, event: Fields, index: nat): seq<PrivacyAction> {
    var masks := Privacy.Masks(lib.isDigit, event);
    var clean := Privacy.Sanitize(lib.isDigit, event);
    if masks == [] then []
    else [PrivacyAction(if Has(clean, "event_id") then IdOf(clean) else Str("index-" + Decimal(index)),
                        Map(masks, (m: Privacy.Mask) => m.field), Map(masks, (m: Privacy.Mask) => m.action))]
  }

  function PrivacyActions(lib: Library, raw: seq<Fields>): seq<PrivacyAction> {
    if raw == [] then []
    else
      var n := |raw| - 1;
      PrivacyActions(lib, raw[..n]) + ActionFor(lib, raw[n], n)
  }

  lemma SeenSnoc(lib: Library, clean: seq<Fields>, i: nat)
    requires i < |clean|
    ensures Seen(lib, clean[..i + 1]) == Seen(lib, clean[..i])
      + (if LocallyValid(lib, clean[i]) then {IdOf(clean[i])} else {})
    ensures KeptAt(lib, clean, i) <==> (LocallyValid(lib, clean[i]) && IdOf(clean[i]) !in Seen(lib, clean[..i]))
    ensures KeptAt(lib, clean[..i + 1], i) == KeptAt(lib, clean, i)
  {
    assert clean[..i + 1][..i] == clean[..i];
    SeenIff(lib, clean[..i], IdOf(clean[i]));
    assert forall j :: 0 <= j < i ==> clean[..i][j] == clean[j] == clean[..i + 1][j];
  }

  lemma SplitSnoc(lib: Library, clean: seq<Fields>, i: nat)
    requires i < |clean|
    ensures ValidEvents(lib, clean[..i + 1]) == ValidEvents(lib, clean[..i])
      + (if KeptAt(lib, clean, i) then [clean[i]] else [])
    ensures DlqEvents(lib, clean[..i + 1]) == DlqEvents(lib, clean[..i])
      + (if KeptAt(lib, clean, i) then []
         else [DlqEvent(i, IdOf(clean[i]), SchemaErrors(lib, clean[i], Seen(lib, clean[..i])), clean[i])])
  {
    SeenSnoc(lib, clean, i);
    assert clean[..i + 1][..i] == clean[..i];
  }

  /** One more event, by its errors against the ids seen so far. */
  lemma SplitByErrors(lib: Library, clean: seq<Fields>, i: nat, seen: set<Value>)
    requires i < |clean| && seen == Seen(lib, clean[..i])
    ensures var errors := SchemaErrors(lib, clean[i], seen);
      && ValidEvents(lib, clean[..i + 1]) == ValidEvents(lib, clean[..i]) + (if errors == [] then [clean[i]] else [])
      && DlqEvents(lib, clean[..i + 1])
         == DlqEvents(lib, clean[..i]) + (if errors == [] then [] else [DlqEvent(i, IdOf(clean[i]), errors, clean[i])])
      && Seen(lib, clean[..i + 1]) == (if errors == [] then seen + {IdOf(clean[i])} else seen)
  {
    SplitSnoc(lib, clean, i);
    SeenSnoc(lib, clean, i);
    NoErrorsIff(lib, clean[i], seen);
  }

  lemma PrivacySnoc(lib: Library, raw: seq<Fields>, i: nat)
    requires i < |raw|
    ensures PrivacyActions(lib, raw[..i + 1]) == PrivacyActions(lib, raw[..i]) + ActionFor(lib, raw[i], i)
  {
    assert raw[..i + 1][..i] == raw[..i];
  }

  /** Sanitize each event, then keep it or send it to the dead-letter queue. */
  method ValidateAndSanitize(lib: Library, raw: seq<Fields>)
    returns (valid: seq<Fields>, dlq: seq<DlqEvent>, privacy: seq<PrivacyAction>)
    ensures valid == ValidEvents(lib, Clean(lib, raw))
    ensures dlq == DlqEvents(lib, Clean(lib, raw))
    ensures privacy == PrivacyActions(lib, raw)
  {
    valid, dlq, privacy := [], [], [];
    var seen: set<Value> := {};
    ghost var clean := Clean(lib, raw);
    for index := 0 to |raw|
      invariant valid == ValidEvents(lib, clean[..index]) && dlq == DlqEvents(lib, clean[..index])
      invariant privacy == PrivacyActions(lib, raw[..index])
      invariant seen == Seen(lib, clean[..index])
    {
      var sanitized, masks := Privacy.SanitizeEvent(lib.isDigit, raw[index]);
      assert sanitized == clean[index];
      SplitByErrors(lib, clean, index, seen);
      PrivacySnoc(lib, raw, index);
      if masks != [] {
        var id := if Has(sanitized, "event_id") then IdOf(sanitized) else Str("index-" + Decimal(index));
        var fields, actions := Map(masks, (m: Privacy.Mask) => m.field), Map(masks, (m: Privacy.Mask) => m.action);
        privacy := privacy + [PrivacyAction(id, fields, actions)];
      }
      var errors := SchemaErrors(lib, sanitized, seen);
      if errors != [] {
        dlq := dlq + [DlqEvent(index, IdOf(sanitized), errors, sanitized)];
      } else {
        seen := seen + {IdOf(sanitized)};
        valid := valid + [sanitized];
      }
    }
    TakeAll(raw);
    TakeAll(clean);
  }

  // ---------------------------------------------------------------- what the split promises

  /** Put the two parts back together, the dead letters at the indices recorded in them. */
  function Rejoin(valid: seq<Fields>, dlq: seq<DlqEvent>, n: nat): seq<Fields> {
    if n == 0 then []
    else if dlq != [] && dlq[|dlq| - 1].index == n - 1 then
      Rejoin(valid, dlq[..|dlq| - 1], n - 1) + [dlq[|dlq| - 1].event]
    else if valid != [] then Rejoin(valid[..|valid| - 1], dlq, n - 1) + [valid[|valid| - 1]]
    else []
  }

  predicate IndexedBelow(dlq: seq<DlqEvent>, n: nat) { forall k :: 0 <= k < |dlq| ==> dlq[k].index < n }

  lemma {:induction false} DlqIndexed(lib: Library, clean: seq<Fields>)
    ensures IndexedBelow(DlqEvents(lib, clean), |clean|)
  {
    if clean != [] {
      DlqIndexed(lib, clean[..|clean| - 1]);
    }
  }

  lemma RejoinKept(valid: seq<Fields>, dlq: seq<DlqEvent>, n: nat, event: Fields)
    requires IndexedBelow(dlq, n)
    ensures Rejoin(valid + [event], dlq, n + 1) == Rejoin(valid, dlq, n) + [event]
  {
    assert (valid + [event])[..|valid|] == valid;
  }

  lemma RejoinDropped(valid: seq<Fields>, dlq: seq<DlqEvent>, n: nat, d: DlqEvent)
    requires d.index == n
    ensures Rejoin(valid, dlq + [d], n + 1) == Rejoin(valid, dlq, n) + [d.event]
  {
    assert (dlq + [d])[..|dlq|] == dlq;
  }

  /** Nothing is lost, duplicated or moved: the two parts and the recorded indices rebuild the sanitized input. */
  lemma {:induction false} SplitRejoins(lib: Library, clean: seq<Fields>)
    ensures Rejoin(ValidEvents(lib, clean), DlqEvents(lib, clean), |clean|) == clean
    ensures |ValidEvents(lib, clean)| + |DlqEvents(lib, clean)| == |clean|
  {
    if clean != [] {
      var n := |clean| - 1;
      SplitRejoins(lib, clean[..n]);
      DlqIndexed(lib, clean[..n]);
      var valid, dlq := ValidEvents(lib, clean[..n]), DlqEvents(lib, clean[..n]);
      assert clean == clean[..n] + [clean[n]];
      if KeptAt(lib, clean, n) {
        RejoinKept(valid, dlq, n, clean[n]);
        assert DlqEvents(lib, clean) == dlq;
      } else {
        RejoinDropped(valid, dlq, n, DlqEvents(lib, clean)[|dlq|]);
        assert ValidEvents(lib, clean) == valid;
      }
    }
  }

  /** Each dead letter carries at least one error, and the event at its index was not kept. */
  lemma {:induction false} DeadLettersExplain(lib: Library, clean: seq<Fields>, k: nat)
    requires k < |DlqEvents(lib, clean)|
    ensures var d := DlqEvents(lib, clean)[k];
      d.index < |clean| && d.event == clean[d.index] && d.errors != [] && !KeptAt(lib, clean, d.index)
  {
    var n := |clean| - 1;
    SeenSnoc(lib, clean, n);
    assert clean[..n + 1] == clean;
    NoErrorsIff(lib, clean[n], Seen(lib, clean[..n]));
    if k < |DlqEvents(lib, clean[..n])| {
      DeadLettersExplain(lib, clean[..n], k);
      var i := DlqEvents(lib, clean[..n])[k].index;
      SeenSnoc(lib, clean, i);
      assert clean[..n][..i + 1] == clean[..i + 1];
      SeenSnoc(lib, clean[..n], i);
    }
  }

  /** Kept ids never repeat. */
  lemma {:induction false} KeptIdsDistinct(lib: Library, clean: seq<Fields>)
    ensures Distinct(Map(ValidEvents(lib, clean), IdOf))
    ensures forall event <- ValidEvents(lib, clean) :: LocallyValid(lib, event) && IdOf(event) in Seen(lib, clean)
  {
    if clean != [] {
      var n := |clean| - 1;
      KeptIdsDistinct(lib, clean[..n]);
      SeenSnoc(lib, clean, n);
      assert clean[..n + 1] == clean;
    }
  }

  function WellFormed(lib: Library): Fields -> bool { (event: Fields) => LocallyValid(lib, event) }

  lemma DistinctSnoc<T, K>(xs: seq<T>, x: T, key: T -> K)
    requires Distinct(Map(xs + [x], key))
    ensures Distinct(Map(xs, key)) && forall y <- xs :: key(y) != key(x)
  {
    var keys := Map(xs + [x], key);
    assert keys[..|xs|] == Map(xs, key);
    forall y | y in xs
      ensures key(y) != key(x)
    {
      var k :| 0 <= k < |xs| && xs[k] == y;
      assert keys[k] == key(y) && keys[|xs|] == key(x);
    }
  }

  /** When well-formed events all have different ids, the valid events are exactly the well-formed ones. */
  lemma {:induction false} NoRepeatsKeepsAll(lib: Library, clean: seq<Fields>)
    requires Distinct(Map(Filter(clean, WellFormed(lib)), IdOf))
    ensures ValidEvents(lib, clean) == Filter(clean, WellFormed(lib))
  {
    var keep := WellFormed(lib);
    if clean != [] {
      var n := |clean| - 1;
      var front, x := clean[..n], clean[n];
      assert clean == front + [x];
      FilterAppend(front, [x], keep);
      var kept := Filter(front, keep);
      if keep(x) {
        assert Filter(clean, keep) == kept + [x];
        DistinctSnoc(kept, x, IdOf);
        NoRepeatsKeepsAll(lib, front);
        AllWellFormedIn(lib, front);
        assert KeptAt(lib, clean, n);
      } else {
        assert Filter(clean, keep) == kept;
        NoRepeatsKeepsAll(lib, front);
      }
    }
  }

  lemma AllWellFormedIn(lib: Library, clean: seq<Fields>)
    ensures forall j :: 0 <= j < |clean| && LocallyValid(lib, clean[j]) ==> clean[j] in Filter(clean, WellFormed(lib))
  {
    forall j | 0 <= j < |clean| && LocallyValid(lib, clean[j])
      ensures clean[j] in Filter(clean, WellFormed(lib))
    {
      FilterHas(clean, WellFormed(lib), clean[j]);
    }
  }

  // ---------------------------------------------------------------- repeated ids

  lemma {:induction false} KeptIn(lib: Library, clean: seq<Fields>, i: nat)
    requires i < |clean|
    ensures KeptAt(lib, clean, i) ==> clean[i] in ValidEvents(lib, clean)
  {
    var n := |clean| - 1;
    SplitSnoc(lib, clean, n);
    assert clean[..n + 1] == clean;
    if i < n {
      SeenSnoc(lib, clean, i);
      SeenSnoc(lib, clean[..n], i);
      assert clean[..n][..i + 1] == clean[..i + 1];
      KeptIn(lib, clean[..n], i);
    }
  }

  lemma {:induction false} ValidFrom(lib: Library, clean: seq<Fields>, event: Fields)
    requires event in ValidEvents(lib, clean)
    ensures event in clean && LocallyValid(lib, event)
  {
    var n := |clean| - 1;
    if event in ValidEvents(lib, clean[..n]) {
      ValidFrom(lib, clean[..n], event);
    }
  }

  lemma {:induction false} FirstOfId(lib: Library, clean: seq<Fields>, i: nat) returns (j: nat)
    requires i < |clean| && LocallyValid(lib, clean[i])
    ensures j <= i && KeptAt(lib, clean, j) && IdOf(clean[j]) == IdOf(clean[i])
  {
    if KeptAt(lib, clean, i) {
      j := i;
    } else {
      var earlier :| 0 <= earlier < i && LocallyValid(lib, clean[earlier]) && IdOf(clean[earlier]) == IdOf(clean[i]);
      j := FirstOfId(lib, clean, earlier);
    }
  }

  lemma SameKeySameElement<T, K>(xs: seq<T>, key: T -> K, x: T, y: T)
    requires Distinct(Map(xs, key)) && x in xs && y in xs && key(x) == key(y)
    ensures x == y
  {
    var keys := Map(xs, key);
    var i :| 0 <= i < |xs| && xs[i] == x;
    var j :| 0 <= j < |xs| && xs[j] == y;
    assert keys[i] == keys[j];
  }

  /** Of well-formed events with one id the first is kept, and no other event with that id is. */
  lemma RepeatedIdFirstWins(lib: Library, clean: seq<Fields>, i: nat) returns (j: nat)
    requires i < |clean| && LocallyValid(lib, clean[i])
    ensures j <= i && KeptAt(lib, clean, j) && IdOf(clean[j]) == IdOf(clean[i])
    ensures clean[j] in ValidEvents(lib, clean)
    ensures forall event <- ValidEvents(lib, clean) :: IdOf(event) == IdOf(clean[i]) ==> event == clean[j]
  {
    j := FirstOfId(lib, clean, i);
    KeptIn(lib, clean, j);
    KeptIdsDistinct(lib, clean);
    forall event | event in ValidEvents(lib, clean) && IdOf(event) == IdOf(clean[i])
      ensures event == clean[j]
    {
      SameKeySameElement(ValidEvents(lib, clean), IdOf, event, clean[j]);
    }
  }

  /** Well-formed events that share an id are copies of one event. */
  ghost predicate RepeatsAgree(lib: Library, clean: seq<Fields>) {
    forall x, y :: x in clean && y in clean && LocallyValid(lib, x) && LocallyValid(lib, y) && IdOf(x) == IdOf(y) ==>
      x == y
  }

  /** When repeats are copies, the kept events are the well-formed ones, each once. */
  lemma RepeatsKeepOne(lib: Library, clean: seq<Fields>, event: Fields)
    requires RepeatsAgree(lib, clean)
    ensures event in ValidEvents(lib, clean) <==> (event in clean && LocallyValid(lib, event))
  {
    if event in ValidEvents(lib, clean) {
      ValidFrom(lib, clean, event);
    }
    if event in clean && LocallyValid(lib, event) {
      var i :| 0 <= i < |clean| && clean[i] == event;
      var j := RepeatedIdFirstWins(lib, clean, i);
      assert clean[j] in clean;
    }
  }
}
