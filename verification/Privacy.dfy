/** Masking of personal data as string rewriting (src/privacy.py). */
module Privacy {
  import opened Prelude
  import opened Json

  // ---------------------------------------------------------------- patterns

  type CharClass = char -> bool

  /** A character class repeated lo times or more, and at most hi times when hi is given. */
  datatype Item = Item(has: CharClass, lo: nat, hi: Option<nat>)

  /** All three patterns are concatenations of such repetitions. */
  type Pattern = seq<Item>

  function One(has: CharClass): Item { Item(has, 1, Some(1)) }

  predicate IsLetter(c: char) { 'a' <= c <= 'z' || 'A' <= c <= 'Z' }

  predicate IsAsciiDigit(c: char) { '0' <= c <= '9' }

  /** What \d may match: the ASCII digits and any further code points outside ASCII. */
  ghost predicate DecimalClass(isDigit: CharClass) {
    forall c :: c < 128 as char ==> (isDigit(c) <==> IsAsciiDigit(c))
  }

  function EmailPattern(): Pattern {
    [ Item(c => IsLetter(c) || IsAsciiDigit(c) || c in "._%+-", 1, None),
      One(c => c == '@'),
      Item(c => IsLetter(c) || IsAsciiDigit(c) || c in ".-", 1, None),
      One(c => c == '.'),
      Item(c => IsLetter(c), 2, None) ]
  }

  function PhonePattern(isDigit: CharClass): Pattern {
    [ One(c => c == '0'), One(c => c == '1'), One(c => c in "016789"), Item(c => c == '-', 0, Some(1)),
      Item(isDigit, 3, Some(4)), Item(c => c == '-', 0, Some(1)), Item(isDigit, 4, Some(4)) ]
  }

  function ResidentIdPattern(isDigit: CharClass): Pattern {
    [ Item(isDigit, 6, Some(6)), Item(c => c == '-', 0, Some(1)), One(c => '1' <= c <= '4'), Item(isDigit, 6, Some(6)) ]
  }

  /** Declarative meaning: the whole of s splits into one run per item. */
  ghost predicate Accepts(p: Pattern, s: string)
    decreases |p|
  {
    if p == [] then s == "" else exists n :: 0 <= n <= |s| && Spans(p[0], s[..n]) && Accepts(p[1..], s[n..])
  }

  predicate Spans(item: Item, s: string) {
    && item.lo <= |s| && (item.hi.Some? ==> |s| <= item.hi.value)
    && forall i :: 0 <= i < |s| ==> item.has(s[i])
  }

  // ---------------------------------------------------------------- the matcher

  /** The longest run of the class at the start of s, cut at hi. */
  function Run(has: CharClass, hi: Option<nat>, s: string): (n: nat)
    ensures n <= |s| && (hi.Some? ==> n <= hi.value)
    ensures forall i :: 0 <= i < n ==> has(s[i])
    ensures n < |s| && has(s[n]) ==> hi == Some(n)
    decreases |s|
  {
    if s == "" || hi == Some(0) || !has(s[0]) then 0
    else 1 + Run(has, if hi.Some? then Some(hi.value - 1) else None, s[1..])
  }

  /** Length of the match that greedy backtracking finds at the start of s. */
  function Match(p: Pattern, s: string): (len: Option<nat>)
    ensures len.Some? ==> len.value <= |s|
    decreases |p|, |s| + 1
  {
    if p == [] then Some(0) else Try(p, s, Run(p[0].has, p[0].hi, s))
  }

  /** Give the first item n characters, and fewer each time the rest fails. */
  function Try(p: Pattern, s: string, n: nat): (len: Option<nat>)
    requires p != [] && n <= |s|
    ensures len.Some? ==> len.value <= |s|
    decreases |p|, n
  {
    if n < p[0].lo then None
    else
      match Match(p[1..], s[n..])
      case Some(m) => Some(n + m)
      case None => if n == 0 then None else Try(p, s, n - 1)
  }

  /** Replacement of the leftmost matches from left to right; matched text is not scanned again. */
  function Sub(p: Pattern, token: string, s: string): string
    decreases |s|
  {
    if s == "" then ""
    else
      var m := Match(p, s);
      if m.Some? && m.value > 0 then token + Sub(p, token, s[m.value..]) else [s[0]] + Sub(p, token, s[1..])
  }

  /** Every answer of the matcher is a match. */
  lemma {:induction false} MatchSound(p: Pattern, s: string)
    requires Match(p, s).Some?
    ensures Accepts(p, s[..Match(p, s).value])
    decreases |p|, |s| + 1
  {
    if p != [] {
      TrySound(p, s, Run(p[0].has, p[0].hi, s));
    }
  }

  lemma {:induction false} TrySound(p: Pattern, s: string, n: nat)
    requires p != [] && n <= Run(p[0].has, p[0].hi, s) && Try(p, s, n).Some?
    ensures Accepts(p, s[..Try(p, s, n).value])
    decreases |p|, n
  {
    var rest := Match(p[1..], s[n..]);
    if rest.Some? {
      MatchSound(p[1..], s[n..]);
      var whole := s[..n + rest.value];
      assert whole[..n] == s[..n] && whole[n..] == s[n..][..rest.value];
      assert Spans(p[0], whole[..n]);
    } else {
      TrySound(p, s, n - 1);
    }
  }

  /** Backtracking misses no match. */
  lemma {:induction false} MatchComplete(p: Pattern, s: string, k: nat)
    requires k <= |s| && Accepts(p, s[..k])
    ensures Match(p, s).Some?
    decreases |p|, |s| + 1
  {
    if p != [] {
      var t := s[..k];
      var n :| 0 <= n <= |t| && Spans(p[0], t[..n]) && Accepts(p[1..], t[n..]);
      assert forall i :: 0 <= i < n ==> t[..n][i] == s[i];
      TryComplete(p, s, Run(p[0].has, p[0].hi, s), n, k);
    }
  }

  lemma {:induction false} TryComplete(p: Pattern, s: string, top: nat, n: nat, k: nat)
    requires p != [] && n <= k <= |s| && n <= top <= |s|
    requires p[0].lo <= n && Accepts(p[1..], s[..k][n..])
    ensures Try(p, s, top).Some?
    decreases |p|, top
  {
    if top == n {
      assert s[n..][..k - n] == s[..k][n..];
      MatchComplete(p[1..], s[n..], k - n);
    } else if Match(p[1..], s[top..]).None? {
      TryComplete(p, s, top - 1, n, k);
    }
  }

  // ---------------------------------------------------------------- normal form

  /** No part of s matches the pattern. */
  ghost predicate Clean(p: Pattern, s: string) {
    forall i, j :: 0 <= i <= j <= |s| ==> !Accepts(p, s[i..j])
  }

  predicate Bracketless(s: string) {
    forall i :: 0 <= i < |s| ==> s[i] != '[' && s[i] != ']'
  }

  ghost predicate NeverBrackets(p: Pattern) {
    forall i :: 0 <= i < |p| ==> !p[i].has('[') && !p[i].has(']')
  }

  lemma {:induction false} AcceptedBracketless(p: Pattern, s: string)
    requires NeverBrackets(p) && Accepts(p, s)
    ensures Bracketless(s)
    decreases |p|
  {
    if p != [] {
      var n :| 0 <= n <= |s| && Spans(p[0], s[..n]) && Accepts(p[1..], s[n..]);
      AcceptedBracketless(p[1..], s[n..]);
      forall i | 0 <= i < |s|
        ensures s[i] != '[' && s[i] != ']'
      {
        if i < n { assert s[..n][i] == s[i]; } else { assert s[n..][i - n] == s[i]; }
      }
    }
  }

  lemma BracketRefused(p: Pattern, s: string, at: nat)
    requires NeverBrackets(p) && at < |s| && s[at] in "[]"
    ensures !Accepts(p, s)
  {
    if Accepts(p, s) {
      AcceptedBracketless(p, s);
    }
  }

  /** An item that must occur leaves one of its characters in every match. */
  lemma {:induction false} AcceptedContains(p: Pattern, s: string, k: nat) returns (at: nat)
    requires k < |p| && p[k].lo > 0 && Accepts(p, s)
    ensures at < |s| && p[k].has(s[at])
    decreases |p|
  {
    var n :| 0 <= n <= |s| && Spans(p[0], s[..n]) && Accepts(p[1..], s[n..]);
    if k == 0 {
      assert s[..n][0] == s[0];
      at := 0;
    } else {
      var inner := AcceptedContains(p[1..], s[n..], k - 1);
      at := n + inner;
    }
  }

  /** Text without brackets at the start of a rewritten string was there before. */
  lemma {:induction false} GapUnchanged(p: Pattern, token: string, s: string, k: nat)
    requires |token| > 0 && token[0] == '['
    requires k <= |Sub(p, token, s)| && Bracketless(Sub(p, token, s)[..k])
    ensures k <= |s| && Sub(p, token, s)[..k] == s[..k]
    decreases |s|
  {
    var out := Sub(p, token, s);
    if s != "" && k > 0 {
      var m := Match(p, s);
      assert out[..k][0] == out[0];
      if m.None? || m.value == 0 {
        var tail := Sub(p, token, s[1..]);
        assert tail[..k - 1] == out[..k][1..];
        GapUnchanged(p, token, s[1..], k - 1);
        assert out[..k] == [s[0]] + tail[..k - 1];
        assert s[..k] == [s[0]] + s[1..][..k - 1];
      }
    }
  }

  /** A bracketless part of "[" body "]" rest lies in the body or in the rest. */
  lemma {:induction false} TokenThenRestClean(q: Pattern, body: string, rest: string)
    requires NeverBrackets(q) && Clean(q, body) && Clean(q, rest) && !Accepts(q, "")
    ensures Clean(q, "[" + body + "]" + rest)
  {
    var out := "[" + body + "]" + rest;
    var close := |body| + 1;
    assert out[0] == '[' && out[close] == ']';
    forall i, j | 0 <= i <= j <= |out|
      ensures !Accepts(q, out[i..j])
    {
      var part := out[i..j];
      if i == j {
        assert part == "";
      } else if i == 0 {
        assert part[0] == '[';
        BracketRefused(q, part, 0);
      } else if i <= close < j {
        assert part[close - i] == ']';
        BracketRefused(q, part, close - i);
      } else if j <= close {
        assert part == body[i - 1..j - 1];
      } else {
        assert part == rest[i - close - 1..j - close - 1];
      }
    }
  }

  /**
   * One pass leaves no match of its own pattern, and brings back no match of a pattern q that
   * an earlier pass removed.
   */
  lemma {:induction false} SubClean(q: Pattern, p: Pattern, body: string, s: string)
    requires NeverBrackets(q) && !Accepts(q, "") && Clean(q, body)
    requires q == p || Clean(q, s)
    ensures Clean(q, Sub(p, "[" + body + "]", s))
    decreases |s|
  {
    var token := "[" + body + "]";
    var out := Sub(p, token, s);
    if s == "" {
      assert forall i, j :: 0 <= i <= j <= |out| ==> out[i..j] == "";
    } else {
      var m := Match(p, s);
      if m.Some? && m.value > 0 {
        var n := m.value;
        assert forall i, j :: 0 <= i <= j <= |s[n..]| ==> s[n..][i..j] == s[n + i..n + j];
        SubClean(q, p, body, s[n..]);
        TokenThenRestClean(q, body, Sub(p, token, s[n..]));
      } else {
        var tail := Sub(p, token, s[1..]);
        assert forall i, j :: 0 <= i <= j <= |s[1..]| ==> s[1..][i..j] == s[1 + i..1 + j];
        SubClean(q, p, body, s[1..]);
        forall i, j | 0 <= i <= j <= |out|
          ensures !Accepts(q, out[i..j])
        {
          if i > 0 {
            assert out[i..j] == tail[i - 1..j - 1];
          } else if Accepts(q, out[..j]) {
            assert out[0..j] == out[..j];
            AcceptedBracketless(q, out[..j]);
            GapUnchanged(p, token, s, j);
            assert s[0..j] == s[..j];
            assert s[..0] == "";
            if q == p {
              MatchComplete(p, s, j);
              MatchSound(p, s);
            }
          } else {
            assert out[0..j] == out[..j];
          }
        }
      }
    }
  }

  lemma {:induction false} SubIdentity(p: Pattern, token: string, s: string)
    requires Clean(p, s)
    ensures Sub(p, token, s) == s
    decreases |s|
  {
    if s != "" {
      if Match(p, s).Some? {
        var n := Match(p, s).value;
        assert s[0..n] == s[..n];
        MatchSound(p, s);
      }
      assert forall i, j :: 0 <= i <= j <= |s[1..]| ==> s[1..][i..j] == s[1 + i..1 + j];
      SubIdentity(p, token, s[1..]);
      assert s == [s[0]] + s[1..];
    }
  }

  // ---------------------------------------------------------------- mask_text

  const EMAIL_BODY := "redacted-email"
  const PHONE_BODY := "redacted-phone"
  const ID_BODY := "redacted-id"

  function MaskText(isDigit: CharClass, text: string): string {
    var noEmail := Sub(EmailPattern(), "[redacted-email]", text);
    var noPhone := Sub(PhonePattern(isDigit), "[redacted-phone]", noEmail);
    Sub(ResidentIdPattern(isDigit), "[redacted-id]", noPhone)
  }

  ghost predicate FullyMasked(isDigit: CharClass, s: string) {
    && Clean(EmailPattern(), s)
    && Clean(PhonePattern(isDigit), s)
    && Clean(ResidentIdPattern(isDigit), s)
  }

  /** A pattern that needs a character which s lacks matches nowhere in s. */
  lemma {:induction false} CleanWithout(p: Pattern, k: nat, s: string)
    requires k < |p| && p[k].lo > 0 && forall i :: 0 <= i < |s| ==> !p[k].has(s[i])
    ensures Clean(p, s)
  {
    forall i, j | 0 <= i <= j <= |s|
      ensures !Accepts(p, s[i..j])
    {
      assert forall t :: 0 <= t < j - i ==> s[i..j][t] == s[i + t];
      if Accepts(p, s[i..j]) {
        var at := AcceptedContains(p, s[i..j], k);
      }
    }
  }

  predicate PlainBody(body: string) {
    forall i :: 0 <= i < |body| ==> IsLetter(body[i]) || body[i] == '-'
  }

  lemma {:induction false} PatternsApply(isDigit: CharClass, body: string)
    requires DecimalClass(isDigit) && PlainBody(body)
    ensures NeverBrackets(EmailPattern()) && NeverBrackets(PhonePattern(isDigit))
      && NeverBrackets(ResidentIdPattern(isDigit))
    ensures !Accepts(EmailPattern(), "") && !Accepts(PhonePattern(isDigit), "")
      && !Accepts(ResidentIdPattern(isDigit), "")
    ensures FullyMasked(isDigit, body)
  {
    assert !isDigit('[') && !isDigit(']');
    CleanWithout(EmailPattern(), 1, body);
    CleanWithout(PhonePattern(isDigit), 0, body);
    assert forall i :: 0 <= i < |body| ==> body[i] < 128 as char && !isDigit(body[i]);
    CleanWithout(ResidentIdPattern(isDigit), 0, body);
    assert body[..0] == "" && body[0..0] == "";
  }

  /** The result of the three passes has no email, phone or resident-number match left anywhere. */
  lemma {:induction false} MaskTextNormalForm(isDigit: CharClass, text: string)
    requires DecimalClass(isDigit)
    ensures FullyMasked(isDigit, MaskText(isDigit, text))
  {
    PatternsApply(isDigit, EMAIL_BODY);
    PatternsApply(isDigit, PHONE_BODY);
    PatternsApply(isDigit, ID_BODY);
    var email, phone, id := EmailPattern(), PhonePattern(isDigit), ResidentIdPattern(isDigit);
    assert "[" + EMAIL_BODY + "]" == "[redacted-email]";
    assert "[" + PHONE_BODY + "]" == "[redacted-phone]";
    assert "[" + ID_BODY + "]" == "[redacted-id]";
    SubClean(email, email, EMAIL_BODY, text);
    var noEmail := Sub(email, "[redacted-email]", text);
    SubClean(email, phone, PHONE_BODY, noEmail);
    SubClean(phone, phone, PHONE_BODY, noEmail);
    var noPhone := Sub(phone, "[redacted-phone]", noEmail);
    SubClean(email, id, ID_BODY, noPhone);
    SubClean(phone, id, ID_BODY, noPhone);
    SubClean(id, id, ID_BODY, noPhone);
  }

  /** Masking changes nothing exactly when there is nothing to mask. */
  lemma {:induction false} MaskTextFixpoint(isDigit: CharClass, text: string)
    requires DecimalClass(isDigit)
    ensures MaskText(isDigit, text) == text <==> FullyMasked(isDigit, text)
  {
    if FullyMasked(isDigit, text) {
      SubIdentity(EmailPattern(), "[redacted-email]", text);
      SubIdentity(PhonePattern(isDigit), "[redacted-phone]", text);
      SubIdentity(ResidentIdPattern(isDigit), "[redacted-id]", text);
    }
    MaskTextNormalForm(isDigit, text);
  }

  /** Six digits in a row, from position i on. */
  ghost predicate DigitRun(isDigit: CharClass, s: string, i: nat) {
    i + 6 <= |s| && forall k :: i <= k < i + 6 ==> isDigit(s[k])
  }

  lemma ResidentIdDigits(isDigit: CharClass, s: string)
    requires Accepts(ResidentIdPattern(isDigit), s)
    ensures DigitRun(isDigit, s, 0)
  {
    var p := ResidentIdPattern(isDigit);
    var n :| 0 <= n <= |s| && Spans(p[0], s[..n]) && Accepts(p[1..], s[n..]);
    assert n == 6;
    assert forall k :: 0 <= k < 6 ==> s[..n][k] == s[k];
  }

  lemma {:induction false} NoDigitRunClean(isDigit: CharClass, s: string)
    requires forall i :: 0 <= i < |s| ==> !DigitRun(isDigit, s, i)
    ensures Clean(ResidentIdPattern(isDigit), s)
  {
    forall i, j | 0 <= i <= j <= |s|
      ensures !Accepts(ResidentIdPattern(isDigit), s[i..j])
    {
      if Accepts(ResidentIdPattern(isDigit), s[i..j]) {
        ResidentIdDigits(isDigit, s[i..j]);
        assert forall k :: i <= k < i + 6 ==> s[k] == s[i..j][k - i];
        assert DigitRun(isDigit, s, i);
      }
    }
  }

  /** Without '@' and '0' and without six digits in a row there is nothing to mask. */
  lemma {:induction false} NothingToMask(isDigit: CharClass, s: string)
    requires DecimalClass(isDigit) && forall i :: 0 <= i < |s| ==> s[i] != '@' && s[i] != '0'
    requires forall i :: 0 <= i < |s| ==> !DigitRun(isDigit, s, i)
    ensures FullyMasked(isDigit, s)
  {
    CleanWithout(EmailPattern(), 1, s);
    CleanWithout(PhonePattern(isDigit), 0, s);
    NoDigitRunClean(isDigit, s);
  }

  /** out is s with some disjoint matches replaced by the token and every other character kept in place. */
  ghost predicate Rewrites(p: Pattern, token: string, s: string, out: string)
    decreases |s|
  {
    if s == "" then out == ""
    else
      || (out != "" && out[0] == s[0] && Rewrites(p, token, s[1..], out[1..]))
      || (token <= out && exists n :: 0 < n <= |s| && Accepts(p, s[..n]) && Rewrites(p, token, s[n..], out[|token|..]))
  }

  lemma {:induction false} SubRewrites(p: Pattern, token: string, s: string)
    ensures Rewrites(p, token, s, Sub(p, token, s))
    decreases |s|
  {
    if s != "" {
      var m := Match(p, s);
      var out := Sub(p, token, s);
      if m.Some? && m.value > 0 {
        MatchSound(p, s);
        SubRewrites(p, token, s[m.value..]);
        assert out[|token|..] == Sub(p, token, s[m.value..]);
        assert token <= out && Accepts(p, s[..m.value]) && Rewrites(p, token, s[m.value..], out[|token|..]);
      } else {
        SubRewrites(p, token, s[1..]);
        assert out[1..] == Sub(p, token, s[1..]);
      }
    }
  }

  // ---------------------------------------------------------------- sanitize_event

  const SENSITIVE_FIELDS: set<string> := {
    "user_name", "user_email", "employee_name", "phone_number", "resident_registration_number", "message_content",
    "chat_content", "clipboard_text", "keystrokes", "raw_payload", "http_body", "document_text" }

  const MASKED_FIELDS_KEY := "privacy_masked_fields"

  datatype Action = RemovedSensitiveField | MaskedSensitivePattern
  datatype Mask = Mask(field: string, action: Action)

  function MaskValue(isDigit: CharClass, value: Value): Value {
    if value.Str? then Str(MaskText(isDigit, value.text)) else value
  }

  /** The fields that survive, with masked text, in input order. */
  function Kept(isDigit: CharClass, fields: Fields): Fields {
    if fields == [] then []
    else
      var front := Kept(isDigit, fields[..|fields| - 1]);
      var (key, value) := fields[|fields| - 1];
      if key in SENSITIVE_FIELDS then front else front + [(key, MaskValue(isDigit, value))]
  }

  /** One audit record per removed or changed field, in input order. */
  function Masks(isDigit: CharClass, fields: Fields): seq<Mask> {
    if fields == [] then []
    else
      var front := Masks(isDigit, fields[..|fields| - 1]);
      var (key, value) := fields[|fields| - 1];
      if key in SENSITIVE_FIELDS then front + [Mask(key, RemovedSensitiveField)]
      else if MaskValue(isDigit, value) != value then front + [Mask(key, MaskedSensitivePattern)]
      else front
  }

  function MaskedFieldNames(masks: seq<Mask>): Value {
    List(Map(masks, (m: Mask) => Str(m.field)))
  }

  function Sanitize(isDigit: CharClass, fields: Fields): Fields {
    var masks := Masks(isDigit, fields);
    if masks == [] then Kept(isDigit, fields)
    else Put(Kept(isDigit, fields), MASKED_FIELDS_KEY, MaskedFieldNames(masks))
  }

  method SanitizeEvent(isDigit: CharClass, event: Fields) returns (sanitized: Fields, masks: seq<Mask>)
    ensures sanitized == Sanitize(isDigit, event)
    ensures masks == Masks(isDigit, event)
  {
    sanitized, masks := [], [];
    for i := 0 to |event|
      invariant sanitized == Kept(isDigit, event[..i])
      invariant masks == Masks(isDigit, event[..i])
    {
      var (key, value) := event[i];
      assert event[..i + 1][..i] == event[..i];
      if key in SENSITIVE_FIELDS {
        masks := masks + [Mask(key, RemovedSensitiveField)];
      } else if value.Str? {
        var masked := MaskText(isDigit, value.text);
        sanitized := sanitized + [(key, Str(masked))];
        if masked != value.text {
          masks := masks + [Mask(key, MaskedSensitivePattern)];
        }
      } else {
        sanitized := sanitized + [(key, value)];
      }
    }
    assert event[..|event|] == event;
    if masks != [] {
      sanitized := Put(sanitized, MASKED_FIELDS_KEY, MaskedFieldNames(masks));
    }
  }

  /** Nothing sensitive is left: no sensitive key, and no top-level text with a match. */
  ghost predicate Sanitized(isDigit: CharClass, fields: Fields) {
    forall i :: 0 <= i < |fields| ==> FieldSanitized(isDigit, fields[i])
  }

  lemma {:induction false} KeptSanitized(isDigit: CharClass, fields: Fields)
    requires DecimalClass(isDigit)
    ensures Sanitized(isDigit, Kept(isDigit, fields))
  {
    if fields != [] {
      var n := |fields| - 1;
      KeptSanitized(isDigit, fields[..n]);
      if fields[n].1.Str? {
        MaskTextNormalForm(isDigit, fields[n].1.text);
      }
    }
  }

  lemma {:induction false} PutSanitized(isDigit: CharClass, fields: Fields, key: string, value: Value)
    requires Sanitized(isDigit, fields) && key !in SENSITIVE_FIELDS && !value.Str?
    ensures Sanitized(isDigit, Put(fields, key, value))
  {
    if fields != [] && fields[0].0 != key {
      PutSanitized(isDigit, fields[1..], key, value);
    }
  }

  ghost predicate FieldSanitized(isDigit: CharClass, field: (string, Value)) {
    field.0 !in SENSITIVE_FIELDS && (field.1.Str? ==> FullyMasked(isDigit, field.1.text))
  }

  lemma SanitizedSnoc(isDigit: CharClass, fields: Fields, n: nat)
    requires |fields| == n + 1
    ensures Sanitized(isDigit, fields) <==> Sanitized(isDigit, fields[..n]) && FieldSanitized(isDigit, fields[n])
  {
    var front := fields[..n];
    assert forall i :: 0 <= i < n ==> front[i] == fields[i];
    if Sanitized(isDigit, front) && FieldSanitized(isDigit, fields[n]) {
      forall i | 0 <= i < |fields|
        ensures FieldSanitized(isDigit, fields[i])
      {
        assert i < n ==> FieldSanitized(isDigit, front[i]);
      }
    }
  }

  /** The audit trail is empty exactly for events that need no masking, and those pass unchanged. */
  lemma {:induction false} MasksEmptyIff(isDigit: CharClass, fields: Fields)
    requires DecimalClass(isDigit)
    ensures Masks(isDigit, fields) == [] <==> Sanitized(isDigit, fields)
    ensures Sanitized(isDigit, fields) ==> Kept(isDigit, fields) == fields
  {
    if fields != [] {
      var n := |fields| - 1;
      MasksEmptyIff(isDigit, fields[..n]);
      SanitizedSnoc(isDigit, fields, n);
      assert fields == fields[..n] + [fields[n]];
      if fields[n].1.Str? {
        MaskTextFixpoint(isDigit, fields[n].1.text);
      }
    }
  }

  /** Sanitizing yields an event with nothing sensitive, and a second pass changes and records nothing. */
  lemma {:induction false} SanitizeIdempotent(isDigit: CharClass, fields: Fields)
    requires DecimalClass(isDigit)
    ensures Sanitized(isDigit, Sanitize(isDigit, fields))
    ensures Masks(isDigit, Sanitize(isDigit, fields)) == []
    ensures Sanitize(isDigit, Sanitize(isDigit, fields)) == Sanitize(isDigit, fields)
  {
    KeptSanitized(isDigit, fields);
    PutSanitized(isDigit, Kept(isDigit, fields), MASKED_FIELDS_KEY, MaskedFieldNames(Masks(isDigit, fields)));
    MasksEmptyIff(isDigit, Sanitize(isDigit, fields));
  }
}
