/** What masking hides and what it writes instead, in characters and positions (src/privacy.py). */
module Redaction {
  import opened Prelude
  import opened Json
  import opened Privacy

  // ---------------------------------------------------------------- the three kinds of personal data

  predicate Letter(c: char) { 'a' <= c <= 'z' || 'A' <= c <= 'Z' }

  predicate Plain(c: char) { Letter(c) || '0' <= c <= '9' || c == '.' || c == '-' }

  /** n digits from position i on. */
  predicate DigitsAt(isDigit: CharClass, s: string, i: nat, n: nat) {
    i + n <= |s| && forall k :: i <= k < i + n ==> isDigit(s[k])
  }

  /** at is the place of the '@' and dot that of the last dot. */
  predicate EmailParts(s: string, at: nat, dot: nat) {
    && 0 < at && at + 1 < dot && dot + 2 < |s| && s[at] == '@' && s[dot] == '.'
    && (forall k :: 0 <= k < at ==> Plain(s[k]) || s[k] == '_' || s[k] == '%' || s[k] == '+')
    && (forall k :: at < k < dot ==> Plain(s[k]))
    && (forall k :: dot < k < |s| ==> Letter(s[k]))
  }

  /** A local part, '@', a domain, a dot and two or more letters. */
  ghost predicate IsEmail(s: string) { exists at: nat, dot: nat :: EmailParts(s, at, dot) }

  /** a and c hyphens, m middle digits. */
  predicate PhoneParts(isDigit: CharClass, s: string, a: nat, m: nat, c: nat) {
    && a <= 1 && 3 <= m <= 4 && c <= 1 && |s| == 3 + a + m + c + 4
    && s[0] == '0' && s[1] == '1' && s[2] in {'0', '1', '6', '7', '8', '9'}
    && (a == 1 ==> s[3] == '-') && DigitsAt(isDigit, s, 3 + a, m)
    && (c == 1 ==> s[3 + a + m] == '-') && DigitsAt(isDigit, s, 3 + a + m + c, 4)
  }

  /** 010, 011 or 016 to 019, three or four digits and four digits, hyphens between them at will. */
  ghost predicate IsPhone(isDigit: CharClass, s: string) {
    exists a: nat, m: nat, c: nat :: PhoneParts(isDigit, s, a, m, c)
  }

  predicate IdParts(isDigit: CharClass, s: string, a: nat) {
    && a <= 1 && |s| == 13 + a && DigitsAt(isDigit, s, 0, 6) && (a == 1 ==> s[6] == '-')
    && s[6 + a] in {'1', '2', '3', '4'} && DigitsAt(isDigit, s, 7 + a, 6)
  }

  /** Six digits, a hyphen at will, a digit from 1 to 4, and six digits. */
  ghost predicate IsResidentId(isDigit: CharClass, s: string) { exists a: nat :: IdParts(isDigit, s, a) }

  // ---------------------------------------------------------------- the patterns mean these kinds

  lemma AcceptsCut(p: Pattern, s: string, n: nat)
    requires p != [] && n <= |s| && Spans(p[0], s[..n]) && Accepts(p[1..], s[n..])
    ensures Accepts(p, s)
  {
  }

  lemma AcceptsSplit(p: Pattern, s: string) returns (n: nat)
    requires p != [] && Accepts(p, s)
    ensures n <= |s| && Spans(p[0], s[..n]) && Accepts(p[1..], s[n..])
  {
    n :| 0 <= n <= |s| && Spans(p[0], s[..n]) && Accepts(p[1..], s[n..]);
  }

  /** A class repeated exactly n times, and then the rest. */
  lemma ExactIff(p: Pattern, s: string, n: nat)
    requires p != [] && p[0].lo == n && p[0].hi == Some(n)
    ensures Accepts(p, s) <==>
      (n <= |s| && (forall k :: 0 <= k < n ==> p[0].has(s[k])) && Accepts(p[1..], s[n..]))
  {
    if Accepts(p, s) {
      var m := AcceptsSplit(p, s);
      assert forall k :: 0 <= k < n ==> s[..m][k] == s[k];
    }
    if n <= |s| && (forall k :: 0 <= k < n ==> p[0].has(s[k])) && Accepts(p[1..], s[n..]) {
      AcceptsCut(p, s, n);
    }
  }

  /** A character that may be there or not, and then the rest. */
  lemma OptionalIff(p: Pattern, s: string)
    requires p != [] && p[0].lo == 0 && p[0].hi == Some(1)
    ensures Accepts(p, s) <==> (Accepts(p[1..], s) || (|s| >= 1 && p[0].has(s[0]) && Accepts(p[1..], s[1..])))
  {
    assert s[0..] == s;
    if Accepts(p, s) {
      var m := AcceptsSplit(p, s);
      assert m == 0 || s[..m][0] == s[0];
    }
    if Accepts(p[1..], s) {
      AcceptsCut(p, s, 0);
    } else if |s| >= 1 && p[0].has(s[0]) && Accepts(p[1..], s[1..]) {
      AcceptsCut(p, s, 1);
    }
  }

  lemma EndIff(p: Pattern, s: string)
    requires p == []
    ensures Accepts(p, s) <==> s == ""
  {
  }

  // ---------------------------------------------------------------- resident numbers

  function IdTail(isDigit: CharClass): Pattern { [One(c => '1' <= c <= '4'), Item(isDigit, 6, Some(6))] }

  lemma IdTailIff(isDigit: CharClass, s: string)
    ensures Accepts(IdTail(isDigit), s) <==> |s| == 7 && '1' <= s[0] <= '4' && DigitsAt(isDigit, s, 1, 6)
  {
    var p := IdTail(isDigit);
    ExactIff(p, s, 1);
    if |s| >= 1 {
      ExactIff(p[1..], s[1..], 6);
      if |s| >= 7 {
        assert s[1..][6..] == s[7..];
        EndIff(p[1..][1..], s[7..]);
        assert forall k :: 0 <= k < 6 ==> s[1..][k] == s[1 + k];
      }
    }
  }

  lemma IdIff(isDigit: CharClass, s: string)
    ensures Accepts(ResidentIdPattern(isDigit), s) <==> IsResidentId(isDigit, s)
  {
    var p := ResidentIdPattern(isDigit);
    ExactIff(p, s, 6);
    if |s| >= 6 {
      var u := s[6..];
      OptionalIff(p[1..], u);
      assert p[1..][1..] == IdTail(isDigit);
      IdTailIff(isDigit, u);
      IdPlaces(isDigit, s, 0);
      if |u| >= 1 {
        IdTailIff(isDigit, u[1..]);
        assert u[1..] == s[7..];
        IdPlaces(isDigit, s, 1);
      }
    }
  }

  lemma IdPlaces(isDigit: CharClass, s: string, a: nat)
    requires |s| >= 6 + a && a <= 1
    ensures var u := s[6 + a..];
      IdParts(isDigit, s, a) <==>
        (DigitsAt(isDigit, s, 0, 6) && (a == 1 ==> s[6] == '-') && |u| == 7 && '1' <= u[0] <= '4'
          && DigitsAt(isDigit, u, 1, 6))
  {
    var u := s[6 + a..];
    if |u| == 7 {
      assert forall k :: 0 <= k < 7 ==> u[k] == s[6 + a + k];
    }
  }

  // ---------------------------------------------------------------- phone numbers

  function Hyphen(): Item { Item(c => c == '-', 0, Some(1)) }

  /** What may follow the three leading digits: hyphen, middle digits, hyphen, four digits. */
  function PhoneTail(isDigit: CharClass): Pattern {
    [Hyphen(), Item(isDigit, 3, Some(4)), Hyphen(), Item(isDigit, 4, Some(4))]
  }

  /** Of the tail, from the second hyphen on. */
  predicate EndParts(isDigit: CharClass, s: string, c: nat) {
    c <= 1 && |s| == 4 + c && (c == 1 ==> s[0] == '-') && DigitsAt(isDigit, s, c, 4)
  }

  lemma EndPartsIff(isDigit: CharClass, s: string)
    ensures Accepts(PhoneTail(isDigit)[2..], s) <==> EndParts(isDigit, s, 0) || EndParts(isDigit, s, 1)
  {
    var p := PhoneTail(isDigit)[2..];
    OptionalIff(p, s);
    FourDigits(isDigit, p[1..], s);
    if |s| >= 1 {
      FourDigits(isDigit, p[1..], s[1..]);
      if |s| == 5 {
        assert forall k :: 0 <= k < 4 ==> s[1..][k] == s[1 + k];
      }
    }
  }

  lemma FourDigits(isDigit: CharClass, p: Pattern, s: string)
    requires p == [Item(isDigit, 4, Some(4))]
    ensures Accepts(p, s) <==> |s| == 4 && DigitsAt(isDigit, s, 0, 4)
  {
    ExactIff(p, s, 4);
    if |s| >= 4 {
      EndIff(p[1..], s[4..]);
    }
  }

  /** Of the tail, from the middle digits on. */
  ghost predicate MiddleParts(isDigit: CharClass, s: string, m: nat) {
    && 3 <= m <= 4 && DigitsAt(isDigit, s, 0, m)
    && (EndParts(isDigit, s[m..], 0) || EndParts(isDigit, s[m..], 1))
  }

  lemma MiddleFound(isDigit: CharClass, s: string) returns (m: nat)
    requires Accepts(PhoneTail(isDigit)[1..], s)
    ensures MiddleParts(isDigit, s, m)
  {
    var p := PhoneTail(isDigit)[1..];
    assert p[1..] == PhoneTail(isDigit)[2..];
    m := AcceptsSplit(p, s);
    assert forall k :: 0 <= k < m ==> s[..m][k] == s[k];
    EndPartsIff(isDigit, s[m..]);
  }

  lemma MiddleAccepted(isDigit: CharClass, s: string, m: nat)
    requires MiddleParts(isDigit, s, m)
    ensures Accepts(PhoneTail(isDigit)[1..], s)
  {
    var p := PhoneTail(isDigit)[1..];
    assert p[1..] == PhoneTail(isDigit)[2..];
    EndPartsIff(isDigit, s[m..]);
    AcceptsCut(p, s, m);
  }

  lemma MiddlePartsIff(isDigit: CharClass, s: string)
    ensures Accepts(PhoneTail(isDigit)[1..], s) <==> MiddleParts(isDigit, s, 3) || MiddleParts(isDigit, s, 4)
  {
    if Accepts(PhoneTail(isDigit)[1..], s) {
      var m := MiddleFound(isDigit, s);
    }
    if MiddleParts(isDigit, s, 3) {
      MiddleAccepted(isDigit, s, 3);
    }
    if MiddleParts(isDigit, s, 4) {
      MiddleAccepted(isDigit, s, 4);
    }
  }

  /** The whole tail with a hyphens in front. */
  ghost predicate TailParts(isDigit: CharClass, s: string, a: nat) {
    && a <= 1 && a <= |s| && (a == 1 ==> s[0] == '-')
    && (MiddleParts(isDigit, s[a..], 3) || MiddleParts(isDigit, s[a..], 4))
  }

  lemma TailPartsIff(isDigit: CharClass, s: string)
    ensures Accepts(PhoneTail(isDigit), s) <==> TailParts(isDigit, s, 0) || TailParts(isDigit, s, 1)
  {
    OptionalIff(PhoneTail(isDigit), s);
    assert s[0..] == s;
    MiddlePartsIff(isDigit, s);
    if |s| >= 1 {
      MiddlePartsIff(isDigit, s[1..]);
    }
  }

  lemma PhonePlaces(isDigit: CharClass, s: string, a: nat, m: nat, c: nat)
    requires |s| >= 3 && a <= 1 && 3 <= m <= 4 && c <= 1
      && s[0] == '0' && s[1] == '1' && s[2] in {'0', '1', '6', '7', '8', '9'}
    ensures PhoneParts(isDigit, s, a, m, c) <==>
      (a <= |s| - 3 && (a == 1 ==> s[3] == '-') && DigitsAt(isDigit, s[3..][a..], 0, m)
        && EndParts(isDigit, s[3..][a..][m..], c))
  {
    if |s| == 3 + a + m + c + 4 {
      var u := s[3..][a..];
      assert forall k :: 0 <= k < |u| ==> u[k] == s[3 + a + k];
      assert forall k :: 0 <= k < |u[m..]| ==> u[m..][k] == s[3 + a + m + k];
    }
  }

  lemma PhoneTailPlaces(isDigit: CharClass, s: string)
    requires |s| >= 3 && s[0] == '0' && s[1] == '1' && s[2] in {'0', '1', '6', '7', '8', '9'}
    ensures TailParts(isDigit, s[3..], 0) || TailParts(isDigit, s[3..], 1) <==> IsPhone(isDigit, s)
  {
    forall a: nat, m: nat, c: nat | a <= 1 && 3 <= m <= 4 && c <= 1
      ensures PhoneParts(isDigit, s, a, m, c) <==>
        (a <= |s| - 3 && (a == 1 ==> s[3..][0] == '-') && DigitsAt(isDigit, s[3..][a..], 0, m)
          && EndParts(isDigit, s[3..][a..][m..], c))
    {
      PhonePlaces(isDigit, s, a, m, c);
    }
  }

  lemma PhoneIff(isDigit: CharClass, s: string)
    ensures Accepts(PhonePattern(isDigit), s) <==> IsPhone(isDigit, s)
  {
    var p := PhonePattern(isDigit);
    ExactIff(p, s, 1);
    if |s| >= 1 {
      ExactIff(p[1..], s[1..], 1);
      if |s| >= 2 {
        assert s[1..][1..] == s[2..] && p[1..][1..] == p[2..];
        ExactIff(p[2..], s[2..], 1);
        if |s| >= 3 {
          assert s[2..][1..] == s[3..] && p[2..][1..] == PhoneTail(isDigit);
          TailPartsIff(isDigit, s[3..]);
          if s[0] == '0' && s[1] == '1' && s[2] in "016789" {
            PhoneTailPlaces(isDigit, s);
          }
        }
      }
    }
  }

  // ---------------------------------------------------------------- email addresses

  /** What may follow the '@': a domain, a dot and letters. */
  function DomainTail(): Pattern {
    [Item(c => IsLetter(c) || IsAsciiDigit(c) || c in ".-", 1, None), One(c => c == '.'),
     Item(c => IsLetter(c), 2, None)]
  }

  /** Of that tail, with dot the place of the last dot. */
  predicate DomainParts(s: string, dot: nat) {
    && 0 < dot && dot + 2 < |s| && s[dot] == '.'
    && (forall k :: 0 <= k < dot ==> Plain(s[k])) && (forall k :: dot < k < |s| ==> Letter(s[k]))
  }

  lemma LettersIff(s: string)
    ensures Accepts(DomainTail()[2..], s) <==> |s| >= 2 && forall k :: 0 <= k < |s| ==> Letter(s[k])
  {
    var p := DomainTail()[2..];
    assert p[1..] == [];
    if Accepts(p, s) {
      var n := AcceptsSplit(p, s);
      EndIff(p[1..], s[n..]);
      assert s[..n] == s;
    }
    if |s| >= 2 && forall k :: 0 <= k < |s| ==> Letter(s[k]) {
      assert s[..|s|] == s && s[|s|..] == "";
      AcceptsCut(p, s, |s|);
    }
  }

  lemma DotIff(s: string)
    ensures Accepts(DomainTail()[1..], s)
      <==> |s| >= 3 && s[0] == '.' && forall k :: 1 <= k < |s| ==> Letter(s[k])
  {
    var p := DomainTail()[1..];
    ExactIff(p, s, 1);
    assert p[1..] == DomainTail()[2..];
    if |s| >= 1 {
      LettersIff(s[1..]);
      assert forall k :: 1 <= k < |s| ==> s[k] == s[1..][k - 1];
    }
  }

  lemma DomainAt(s: string, dot: nat)
    requires dot <= |s|
    ensures DomainParts(s, dot) <==> (Spans(DomainTail()[0], s[..dot]) && Accepts(DomainTail()[1..], s[dot..]))
  {
    DotIff(s[dot..]);
    assert forall k :: 0 <= k < dot ==> s[..dot][k] == s[k];
    assert forall k :: dot <= k < |s| ==> s[k] == s[dot..][k - dot];
  }

  lemma DomainIff(s: string)
    ensures Accepts(DomainTail(), s) <==> exists dot: nat :: DomainParts(s, dot)
  {
    if Accepts(DomainTail(), s) {
      var dot := AcceptsSplit(DomainTail(), s);
      DomainAt(s, dot);
    }
    if exists dot: nat :: DomainParts(s, dot) {
      var dot: nat :| DomainParts(s, dot);
      DomainAt(s, dot);
      AcceptsCut(DomainTail(), s, dot);
    }
  }

  lemma EmailAt(s: string, at: nat, dot: nat)
    requires at < |s| && at < dot
    ensures EmailParts(s, at, dot) <==>
      (Spans(EmailPattern()[0], s[..at]) && s[at] == '@' && DomainParts(s[at + 1..], dot - at - 1))
  {
    var u := s[at + 1..];
    assert forall k :: 0 <= k < at ==> s[..at][k] == s[k];
    assert forall k :: at < k < |s| ==> s[k] == u[k - at - 1];
  }

  lemma AtSignIff(s: string)
    ensures Accepts(EmailPattern()[1..], s) <==> |s| >= 1 && s[0] == '@' && Accepts(DomainTail(), s[1..])
  {
    var p := EmailPattern()[1..];
    assert p[1..] == DomainTail();
    ExactIff(p, s, 1);
  }

  lemma EmailFound(s: string)
    requires Accepts(EmailPattern(), s)
    ensures IsEmail(s)
  {
    var at := AcceptsSplit(EmailPattern(), s);
    AtSignIff(s[at..]);
    assert s[at..][1..] == s[at + 1..];
    DomainIff(s[at + 1..]);
    var dot: nat :| DomainParts(s[at + 1..], dot);
    EmailAt(s, at, at + 1 + dot);
  }

  lemma EmailAccepted(s: string, at: nat, dot: nat)
    requires EmailParts(s, at, dot)
    ensures Accepts(EmailPattern(), s)
  {
    EmailAt(s, at, dot);
    DomainIff(s[at + 1..]);
    assert s[at..][1..] == s[at + 1..];
    AtSignIff(s[at..]);
    AcceptsCut(EmailPattern(), s, at);
  }

  lemma EmailIff(s: string)
    ensures Accepts(EmailPattern(), s) <==> IsEmail(s)
  {
    if Accepts(EmailPattern(), s) {
      EmailFound(s);
    }
    if IsEmail(s) {
      var at: nat, dot: nat :| EmailParts(s, at, dot);
      EmailAccepted(s, at, dot);
    }
  }

  // ---------------------------------------------------------------- nothing of these kinds is left

  /** No part of the text is of one of the kinds. */
  ghost predicate NothingPersonal(isDigit: CharClass, s: string) {
    forall i, j :: 0 <= i <= j <= |s| ==>
      !IsEmail(s[i..j]) && !IsPhone(isDigit, s[i..j]) && !IsResidentId(isDigit, s[i..j])
  }

  lemma NothingPersonalIff(isDigit: CharClass, s: string)
    ensures FullyMasked(isDigit, s) <==> NothingPersonal(isDigit, s)
  {
    forall i, j | 0 <= i <= j <= |s|
      ensures Accepts(EmailPattern(), s[i..j]) <==> IsEmail(s[i..j])
      ensures Accepts(PhonePattern(isDigit), s[i..j]) <==> IsPhone(isDigit, s[i..j])
      ensures Accepts(ResidentIdPattern(isDigit), s[i..j]) <==> IsResidentId(isDigit, s[i..j])
    {
      EmailIff(s[i..j]);
      PhoneIff(isDigit, s[i..j]);
      IdIff(isDigit, s[i..j]);
    }
  }

  /** A masked text holds no email address, phone number or resident number, and any text that holds one is changed. */
  lemma MaskedTextIsClean(isDigit: CharClass, text: string)
    requires DecimalClass(isDigit)
    ensures NothingPersonal(isDigit, MaskText(isDigit, text))
    ensures MaskText(isDigit, text) == text <==> NothingPersonal(isDigit, text)
  {
    MaskTextNormalForm(isDigit, text);
    NothingPersonalIff(isDigit, MaskText(isDigit, text));
    MaskTextFixpoint(isDigit, text);
    NothingPersonalIff(isDigit, text);
  }

  // ---------------------------------------------------------------- backtracking finds the longest match

  /** Every match at the start of s is at most as long as the one the matcher finds. */
  ghost predicate LongestAt(p: Pattern, s: string) {
    forall k: nat :: k <= |s| && Accepts(p, s[..k]) ==> Match(p, s).Some? && k <= Match(p, s).value
  }

  ghost predicate FindsLongest(p: Pattern) { forall s :: LongestAt(p, s) }

  /** What is left of the pattern matches after n characters. */
  predicate RestFits(p: Pattern, s: string, n: nat)
    requires p != []
  {
    n <= |s| && Match(p[1..], s[n..]).Some?
  }

  /** One try: the rest matches after n characters, or one character less is tried. */
  lemma TryStep(p: Pattern, s: string, n: nat)
    requires p != [] && p[0].lo <= n <= |s|
    ensures RestFits(p, s, n) ==> Try(p, s, n) == Some(n + Match(p[1..], s[n..]).value)
    ensures !RestFits(p, s, n) && n > 0 ==> Try(p, s, n) == Try(p, s, n - 1)
  {
  }

  lemma {:induction false} LastFit(p: Pattern, s: string, top: nat, n: nat) returns (n': nat)
    requires p != [] && n <= top <= |s| && RestFits(p, s, n)
    ensures n <= n' <= top && RestFits(p, s, n') && forall k :: n' < k <= top ==> !RestFits(p, s, k)
    decreases top
  {
    n' := top;
    if !RestFits(p, s, top) {
      n' := LastFit(p, s, top - 1, n);
    }
  }

  lemma {:induction false} TryDown(p: Pattern, s: string, top: nat, n: nat)
    requires p != [] && p[0].lo <= n <= top <= |s| && forall k :: n < k <= top ==> !RestFits(p, s, k)
    ensures Try(p, s, top) == Try(p, s, n)
    decreases top
  {
    if n < top {
      TryStep(p, s, top);
      TryDown(p, s, top - 1, n);
    }
  }

  /** The matcher's choice for the first item: the largest count up to top after which the rest matches. */
  lemma TryPicks(p: Pattern, s: string, top: nat, n: nat) returns (n': nat)
    requires p != [] && p[0].lo <= n <= top <= |s| && Match(p[1..], s[n..]).Some?
    ensures n <= n' <= top && Match(p[1..], s[n'..]).Some?
    ensures Try(p, s, top) == Some(n' + Match(p[1..], s[n'..]).value)
  {
    n' := LastFit(p, s, top, n);
    TryDown(p, s, top, n');
    TryStep(p, s, n');
  }

  lemma RunReaches(has: CharClass, hi: Option<nat>, s: string, n: nat)
    requires n <= |s| && (hi.Some? ==> n <= hi.value) && forall k :: 0 <= k < n ==> has(s[k])
    ensures n <= Run(has, hi, s)
  {
  }

  /** A match cut at the first item. */
  lemma MatchCut(p: Pattern, s: string, k: nat) returns (n: nat)
    requires p != [] && k <= |s| && Accepts(p, s[..k])
    ensures n <= k && Spans(p[0], s[..n]) && Accepts(p[1..], s[n..][..k - n])
  {
    n := AcceptsSplit(p, s[..k]);
    assert s[..k][..n] == s[..n] && s[..k][n..] == s[n..][..k - n];
  }

  lemma SpanReaches(item: Item, s: string, n: nat)
    requires n <= |s| && Spans(item, s[..n])
    ensures n <= Run(item.has, item.hi, s)
  {
    assert forall i :: 0 <= i < n ==> s[..n][i] == s[i];
    RunReaches(item.has, item.hi, s, n);
  }

  /** The rest of a match that is cut at n matches there, and the matcher chose n characters or more. */
  lemma MatchPicks(p: Pattern, s: string, k: nat) returns (n: nat, n': nat)
    requires p != [] && k <= |s| && Accepts(p, s[..k])
    ensures n <= k && Spans(p[0], s[..n]) && Accepts(p[1..], s[n..][..k - n])
    ensures n <= n' <= Run(p[0].has, p[0].hi, s) && Match(p[1..], s[n'..]).Some?
    ensures Match(p, s) == Some(n' + Match(p[1..], s[n'..]).value)
  {
    n := MatchCut(p, s, k);
    SpanReaches(p[0], s, n);
    MatchComplete(p[1..], s[n..], k - n);
    n' := TryPicks(p, s, Run(p[0].has, p[0].hi, s), n);
  }

  /** The count of the first item is the same in every match. */
  ghost predicate Determined(p: Pattern)
    requires p != []
  {
    forall s, n: nat :: n <= |s| && Spans(p[0], s[..n]) && Match(p[1..], s[n..]).Some? ==>
      n == Run(p[0].has, p[0].hi, s)
  }

  lemma LongestCons(p: Pattern)
    requires p != [] && Determined(p) && FindsLongest(p[1..])
    ensures FindsLongest(p)
  {
    forall s
      ensures LongestAt(p, s)
    {
      forall k: nat | k <= |s| && Accepts(p, s[..k])
        ensures Match(p, s).Some? && k <= Match(p, s).value
      {
        var n, n' := MatchPicks(p, s, k);
        MatchComplete(p[1..], s[n..], k - n);
        assert LongestAt(p[1..], s[n..]);
      }
    }
  }

  lemma EmptyLongest()
    ensures FindsLongest([])
  {
  }

  /** A last item takes all it can. */
  lemma LastLongest(p: Pattern)
    requires |p| == 1
    ensures FindsLongest(p)
  {
    assert p[1..] == [];
    forall s
      ensures LongestAt(p, s)
    {
      forall k: nat | k <= |s| && Accepts(p, s[..k])
        ensures Match(p, s).Some? && k <= Match(p, s).value
      {
        var n, n' := MatchPicks(p, s, k);
        assert |s[n..][..k - n]| == 0;
      }
    }
  }

  /** A fixed count is determined. */
  lemma ExactDetermined(p: Pattern)
    requires p != [] && p[0].hi == Some(p[0].lo)
    ensures Determined(p)
  {
    forall s, n: nat | n <= |s| && Spans(p[0], s[..n])
      ensures n == Run(p[0].has, p[0].hi, s)
    {
      assert forall i :: 0 <= i < n ==> s[..n][i] == s[i];
      RunReaches(p[0].has, p[0].hi, s, n);
    }
  }

  lemma MatchStarts(p: Pattern, s: string)
    requires p != [] && p[0].lo > 0 && Match(p, s).Some?
    ensures s != "" && p[0].has(s[0])
  {
    MatchSound(p, s);
    var n := AcceptsSplit(p, s[..Match(p, s).value]);
    assert s[..Match(p, s).value][..n][0] == s[0];
  }

  /** So is the count of a class that shares no character with the mandatory item behind it. */
  lemma DisjointDetermined(p: Pattern)
    requires |p| >= 2 && p[1].lo > 0 && forall c :: !(p[0].has(c) && p[1].has(c))
    ensures Determined(p)
  {
    forall s, n: nat | n <= |s| && Spans(p[0], s[..n]) && Match(p[1..], s[n..]).Some?
      ensures n == Run(p[0].has, p[0].hi, s)
    {
      assert forall i :: 0 <= i < n ==> s[..n][i] == s[i];
      RunReaches(p[0].has, p[0].hi, s, n);
      MatchStarts(p[1..], s[n..]);
      assert s[n..][0] == s[n];
    }
  }

  lemma IdLongest(isDigit: CharClass)
    requires DecimalClass(isDigit)
    ensures FindsLongest(ResidentIdPattern(isDigit))
  {
    var p := ResidentIdPattern(isDigit);
    LastLongest(p[1..][1..][1..]);
    ExactDetermined(p[1..][1..]);
    LongestCons(p[1..][1..]);
    DisjointDetermined(p[1..]);
    LongestCons(p[1..]);
    ExactDetermined(p);
    LongestCons(p);
  }

  lemma EndLongest(isDigit: CharClass)
    requires DecimalClass(isDigit)
    ensures FindsLongest(PhoneTail(isDigit)[2..])
  {
    var p := PhoneTail(isDigit)[2..];
    LastLongest(p[1..]);
    DisjointDetermined(p);
    LongestCons(p);
  }

  /** Three middle digits where four would do end earlier. */
  lemma MiddlePicks(isDigit: CharClass, s: string, n: nat, n': nat, k: nat)
    requires DecimalClass(isDigit) && 3 <= n < n' <= 4 && n <= k <= |s| && n' <= |s| && isDigit(s[n])
    requires Accepts(PhoneTail(isDigit)[2..], s[n..][..k - n]) && Match(PhoneTail(isDigit)[2..], s[n'..]).Some?
    ensures k <= n' + Match(PhoneTail(isDigit)[2..], s[n'..]).value
  {
    var rest := PhoneTail(isDigit)[2..];
    EndPartsIff(isDigit, s[n..][..k - n]);
    MatchSound(rest, s[n'..]);
    EndPartsIff(isDigit, s[n'..][..Match(rest, s[n'..]).value]);
    assert s[n..][..k - n] != "" ==> s[n..][..k - n][0] == s[n];
  }

  /** Where the matcher makes the same choice, the rest is the longest there is. */
  lemma SamePick(p: Pattern, s: string, n: nat, k: nat)
    requires FindsLongest(p) && n <= k <= |s| && Accepts(p, s[n..][..k - n])
    ensures Match(p, s[n..]).Some? && k <= n + Match(p, s[n..]).value
  {
    assert LongestAt(p, s[n..]);
  }

  lemma MiddleCounts(p: Pattern, isDigit: CharClass, s: string, n: nat, n': nat)
    requires p != [] && p[0] == Item(isDigit, 3, Some(4)) && n <= n' <= Run(p[0].has, p[0].hi, s) && Spans(p[0], s[..n])
    ensures 3 <= n <= n' <= 4 && (n < n' ==> isDigit(s[n]))
  {
  }

  lemma MiddleLongestAt(isDigit: CharClass, p: Pattern, s: string, k: nat)
    requires DecimalClass(isDigit) && p == PhoneTail(isDigit)[1..] && p[1..] == PhoneTail(isDigit)[2..]
    requires k <= |s| && Accepts(p, s[..k])
    ensures Match(p, s).Some? && k <= Match(p, s).value
  {
    var n, n' := MatchPicks(p, s, k);
    MiddleCounts(p, isDigit, s, n, n');
    if n < n' {
      MiddlePicks(isDigit, s, n, n', k);
    } else {
      EndLongest(isDigit);
      SamePick(p[1..], s, n, k);
    }
  }

  lemma PhoneTailLongest(isDigit: CharClass)
    requires DecimalClass(isDigit)
    ensures FindsLongest(PhoneTail(isDigit))
  {
    var p := PhoneTail(isDigit);
    forall s
      ensures LongestAt(p[1..], s)
    {
      forall k: nat | k <= |s| && Accepts(p[1..], s[..k])
        ensures Match(p[1..], s).Some? && k <= Match(p[1..], s).value
      {
        MiddleLongestAt(isDigit, p[1..], s, k);
      }
    }
    DisjointDetermined(p);
    LongestCons(p);
  }

  lemma PhoneLongest(isDigit: CharClass)
    requires DecimalClass(isDigit)
    ensures FindsLongest(PhonePattern(isDigit))
  {
    var p := PhonePattern(isDigit);
    assert p[1..][1..][1..] == PhoneTail(isDigit);
    PhoneTailLongest(isDigit);
    ExactDetermined(p[1..][1..]);
    LongestCons(p[1..][1..]);
    ExactDetermined(p[1..]);
    LongestCons(p[1..]);
    ExactDetermined(p);
    LongestCons(p);
  }

  lemma DotLongest()
    ensures FindsLongest(DomainTail()[1..])
  {
    var p := DomainTail()[1..];
    LastLongest(p[1..]);
    ExactDetermined(p);
    LongestCons(p);
  }

  /** Behind an earlier dot come letters alone, so no later dot lies within the same match. */
  lemma OneLastDot(s: string, n: nat, n': nat, k: nat)
    requires n < n' < k <= |s| && Accepts(DomainTail()[1..], s[n..][..k - n])
    ensures s[n'] != '.'
  {
    DotIff(s[n..][..k - n]);
    assert s[n..][..k - n][n' - n] == s[n'];
  }

  lemma DotStarts(s: string)
    requires Match(DomainTail()[1..], s).Some?
    ensures s != "" && s[0] == '.'
  {
    MatchStarts(DomainTail()[1..], s);
  }

  lemma DomainPicks(s: string, n: nat, n': nat, k: nat)
    requires n <= k <= |s| && n <= n' <= |s| && Accepts(DomainTail()[1..], s[n..][..k - n])
    requires Match(DomainTail()[1..], s[n'..]).Some?
    ensures k <= n' + Match(DomainTail()[1..], s[n'..]).value
  {
    if n == n' {
      DotLongest();
      assert LongestAt(DomainTail()[1..], s[n..]);
    } else if n' < k {
      OneLastDot(s, n, n', k);
      DotStarts(s[n'..]);
    }
  }

  lemma DomainLongestAt(s: string, k: nat)
    requires k <= |s| && Accepts(DomainTail(), s[..k])
    ensures Match(DomainTail(), s).Some? && k <= Match(DomainTail(), s).value
  {
    var n, n' := MatchPicks(DomainTail(), s, k);
    DomainPicks(s, n, n', k);
  }

  lemma EmailLongest()
    ensures FindsLongest(EmailPattern())
  {
    var p := EmailPattern();
    assert p[1..][1..] == DomainTail();
    forall s
      ensures LongestAt(DomainTail(), s)
    {
      forall k: nat | k <= |s| && Accepts(DomainTail(), s[..k])
        ensures Match(DomainTail(), s).Some? && k <= Match(DomainTail(), s).value
      {
        DomainLongestAt(s, k);
      }
    }
    ExactDetermined(p[1..]);
    LongestCons(p[1..]);
    DisjointDetermined(p);
    LongestCons(p);
  }

  // ---------------------------------------------------------------- what is written instead

  /** Length of the longest prefix of the kind, at most n; 0 when there is none. */
  ghost function LongestPrefix(kind: string -> bool, s: string, n: nat): nat
    requires n <= |s|
  {
    if n == 0 then 0 else if kind(s[..n]) then n else LongestPrefix(kind, s, n - 1)
  }

  /** From left to right, each longest part of the kind becomes the token and every other character stays. */
  ghost function Replaced(kind: string -> bool, token: string, s: string): string
    decreases |s|
  {
    if s == "" then ""
    else
      var n := LongestPrefix(kind, s, |s|);
      if n > 0 && n <= |s| then token + Replaced(kind, token, s[n..]) else [s[0]] + Replaced(kind, token, s[1..])
  }

  lemma {:induction false} LongestPrefixIs(kind: string -> bool, s: string, n: nat, m: nat)
    requires m <= n <= |s| && (m > 0 ==> kind(s[..m])) && forall k :: m < k <= n ==> !kind(s[..k])
    ensures LongestPrefix(kind, s, n) == m
  {
    if m < n {
      LongestPrefixIs(kind, s, n - 1, m);
    }
  }

  /** The pattern accepts exactly the texts of the kind, none of them empty, and finds the longest. */
  ghost predicate Finds(p: Pattern, kind: string -> bool) {
    FindsLongest(p) && (forall t :: Accepts(p, t) <==> kind(t)) && !kind("")
  }

  lemma {:induction false} SubReplaces(p: Pattern, kind: string -> bool, token: string, s: string)
    requires Finds(p, kind)
    ensures Sub(p, token, s) == Replaced(kind, token, s)
    decreases |s|
  {
    if s != "" {
      var found := Match(p, s);
      var m := if found.Some? then found.value else 0;
      assert LongestAt(p, s);
      if found.Some? {
        MatchSound(p, s);
      }
      forall k | m < k <= |s|
        ensures !kind(s[..k])
      {
        assert Accepts(p, s[..k]) <==> kind(s[..k]);
      }
      LongestPrefixIs(kind, s, |s|, m);
      SubReplaces(p, kind, token, if m > 0 then s[m..] else s[1..]);
    }
  }

  ghost function PhoneKind(isDigit: CharClass): string -> bool { (s: string) => IsPhone(isDigit, s) }

  ghost function IdKind(isDigit: CharClass): string -> bool { (s: string) => IsResidentId(isDigit, s) }

  ghost function EmailKind(): string -> bool { (s: string) => IsEmail(s) }

  lemma KindsFound(isDigit: CharClass)
    requires DecimalClass(isDigit)
    ensures Finds(EmailPattern(), EmailKind()) && Finds(PhonePattern(isDigit), PhoneKind(isDigit))
    ensures Finds(ResidentIdPattern(isDigit), IdKind(isDigit))
  {
    EmailLongest();
    PhoneLongest(isDigit);
    IdLongest(isDigit);
    forall t
      ensures Accepts(EmailPattern(), t) <==> EmailKind()(t)
      ensures Accepts(PhonePattern(isDigit), t) <==> PhoneKind(isDigit)(t)
      ensures Accepts(ResidentIdPattern(isDigit), t) <==> IdKind(isDigit)(t)
    {
      EmailIff(t);
      PhoneIff(isDigit, t);
      IdIff(isDigit, t);
    }
  }

  /**
   * Masking is three replacements, one after the other: each longest email address becomes [redacted-email], then each
   * longest phone number [redacted-phone], then each resident number [redacted-id]; all other characters stay.
   */
  lemma MaskTextReplaces(isDigit: CharClass, text: string)
    requires DecimalClass(isDigit)
    ensures MaskText(isDigit, text)
      == Replaced(IdKind(isDigit), "[redacted-id]",
                  Replaced(PhoneKind(isDigit), "[redacted-phone]", Replaced(EmailKind(), "[redacted-email]", text)))
  {
    KindsFound(isDigit);
    var noEmail := Sub(EmailPattern(), "[redacted-email]", text);
    var noPhone := Sub(PhonePattern(isDigit), "[redacted-phone]", noEmail);
    SubReplaces(EmailPattern(), EmailKind(), "[redacted-email]", text);
    SubReplaces(PhonePattern(isDigit), PhoneKind(isDigit), "[redacted-phone]", noEmail);
    SubReplaces(ResidentIdPattern(isDigit), IdKind(isDigit), "[redacted-id]", noPhone);
  }

  /** No part of the text is of the kind. */
  ghost predicate NoPart(kind: string -> bool, s: string) {
    forall i, j :: 0 <= i <= j <= |s| ==> !kind(s[i..j])
  }

  /** The three replacements one by one. */
  lemma MaskStages(isDigit: CharClass, text: string, noEmail: string, noPhone: string, masked: string)
    requires DecimalClass(isDigit) && Replaced(EmailKind(), "[redacted-email]", text) == noEmail
    requires Replaced(PhoneKind(isDigit), "[redacted-phone]", noEmail) == noPhone
    requires Replaced(IdKind(isDigit), "[redacted-id]", noPhone) == masked
    ensures MaskText(isDigit, text) == masked
  {
    MaskTextReplaces(isDigit, text);
  }

  lemma WholeReplaced(kind: string -> bool, token: string, s: string)
    requires s != "" && kind(s)
    ensures Replaced(kind, token, s) == token
  {
    assert s[..|s|] == s && s[|s|..] == "";
  }

  lemma {:induction false} NothingReplaced(kind: string -> bool, token: string, s: string)
    requires NoPart(kind, s)
    ensures Replaced(kind, token, s) == s
    decreases |s|
  {
    if s != "" {
      forall k | 0 < k <= |s|
        ensures !kind(s[..k])
      {
        assert s[..k] == s[0..k];
      }
      LongestPrefixIs(kind, s, |s|, 0);
      assert forall i, j :: 0 <= i <= j <= |s[1..]| ==> s[1..][i..j] == s[i + 1..j + 1];
      NothingReplaced(kind, token, s[1..]);
    }
  }

  lemma NoAtSign(s: string)
    requires '@' !in s
    ensures !IsEmail(s)
  {
    forall at: nat, dot: nat
      ensures !EmailParts(s, at, dot)
    {
      assert at < |s| ==> s[at] in s;
    }
  }

  lemma NoEmailWithout(s: string)
    requires '@' !in s
    ensures NoPart(EmailKind(), s)
  {
    forall i, j | 0 <= i <= j <= |s|
      ensures !IsEmail(s[i..j])
    {
      NoAtSign(s[i..j]);
    }
  }

  lemma NoPhoneWithout(isDigit: CharClass, s: string)
    requires '0' !in s
    ensures NoPart(PhoneKind(isDigit), s)
  {
    forall i, j | 0 <= i <= j <= |s|
      ensures !IsPhone(isDigit, s[i..j])
    {
      assert i < j ==> s[i..j][0] == s[i];
    }
  }

  lemma NoIdWithout(isDigit: CharClass, s: string)
    requires forall k :: 0 <= k < |s| ==> !isDigit(s[k])
    ensures NoPart(IdKind(isDigit), s)
  {
    forall i, j | 0 <= i <= j <= |s|
      ensures !IsResidentId(isDigit, s[i..j])
    {
      assert i < j ==> s[i..j][0] == s[i];
    }
  }

  lemma PhoneCharacters(isDigit: CharClass, s: string)
    requires DecimalClass(isDigit) && IsPhone(isDigit, s)
    ensures s != "" && '@' !in s && !IsEmail(s)
  {
    var a: nat, m: nat, c: nat :| PhoneParts(isDigit, s, a, m, c);
    forall k | 0 <= k < |s|
      ensures s[k] != '@'
    {
      assert k < 3 || s[k] == '-' || isDigit(s[k]);
    }
  }

  lemma TokenStays(isDigit: CharClass, token: string)
    requires DecimalClass(isDigit)
    requires forall k :: 0 <= k < |token| ==> token[k] < 128 as char && !IsAsciiDigit(token[k])
    ensures Replaced(PhoneKind(isDigit), "[redacted-phone]", token) == token
    ensures Replaced(IdKind(isDigit), "[redacted-id]", token) == token
  {
    NoPhoneWithout(isDigit, token);
    NothingReplaced(PhoneKind(isDigit), "[redacted-phone]", token);
    NoIdWithout(isDigit, token);
    NothingReplaced(IdKind(isDigit), "[redacted-id]", token);
  }

  /** A phone number alone becomes its token. */
  lemma PhoneMasked(isDigit: CharClass, s: string)
    requires DecimalClass(isDigit) && IsPhone(isDigit, s)
    ensures MaskText(isDigit, s) == "[redacted-phone]"
  {
    PhoneCharacters(isDigit, s);
    NoEmailWithout(s);
    NothingReplaced(EmailKind(), "[redacted-email]", s);
    assert PhoneKind(isDigit)(s);
    WholeReplaced(PhoneKind(isDigit), "[redacted-phone]", s);
    TokenStays(isDigit, "[redacted-phone]");
    MaskStages(isDigit, s, s, "[redacted-phone]", "[redacted-phone]");
  }

  /** So does an email address. */
  lemma EmailMasked(isDigit: CharClass, s: string)
    requires DecimalClass(isDigit) && IsEmail(s)
    ensures MaskText(isDigit, s) == "[redacted-email]"
  {
    assert EmailKind()(s);
    WholeReplaced(EmailKind(), "[redacted-email]", s);
    TokenStays(isDigit, "[redacted-email]");
    MaskStages(isDigit, s, "[redacted-email]", "[redacted-email]", "[redacted-email]");
  }

  lemma IdCharacters(isDigit: CharClass, s: string)
    requires DecimalClass(isDigit) && IsResidentId(isDigit, s)
    ensures s != "" && '@' !in s
  {
    var a: nat :| IdParts(isDigit, s, a);
    forall k | 0 <= k < |s|
      ensures s[k] != '@'
    {
      assert s[k] == '-' || s[k] in {'1', '2', '3', '4'} || isDigit(s[k]);
    }
  }

  /** And a resident number that has no phone number in it. */
  lemma IdMasked(isDigit: CharClass, s: string)
    requires DecimalClass(isDigit) && IsResidentId(isDigit, s)
    requires NoPart(PhoneKind(isDigit), s)
    ensures MaskText(isDigit, s) == "[redacted-id]"
  {
    IdCharacters(isDigit, s);
    NoEmailWithout(s);
    NothingReplaced(EmailKind(), "[redacted-email]", s);
    NothingReplaced(PhoneKind(isDigit), "[redacted-phone]", s);
    assert IdKind(isDigit)(s);
    WholeReplaced(IdKind(isDigit), "[redacted-id]", s);
    MaskStages(isDigit, s, s, s, "[redacted-id]");
  }

  lemma PhoneExample(isDigit: CharClass)
    requires DecimalClass(isDigit)
    ensures MaskText(isDigit, "010-1234-5678") == "[redacted-phone]"
  {
    var s := "010-1234-5678";
    assert PhoneParts(isDigit, s, 1, 4, 1);
    PhoneMasked(isDigit, s);
  }

  // ---------------------------------------------------------------- events

  /** Fields that never pass. */
  predicate NamesPerson(key: string) {
    key in ["user_name", "user_email", "employee_name", "phone_number", "resident_registration_number",
            "message_content", "chat_content", "clipboard_text", "keystrokes", "raw_payload", "http_body",
            "document_text"]
  }

  lemma SensitiveIff(key: string)
    ensures key in SENSITIVE_FIELDS <==> NamesPerson(key)
  {
  }

  /** What becomes of a field's value. */
  function Passed(isDigit: CharClass, key: string, value: Option<Value>): Option<Value> {
    if NamesPerson(key) then None
    else if value.Some? && value.value.Str? then Some(Str(MaskText(isDigit, value.value.text)))
    else value
  }

  lemma {:induction false} KeptGet(isDigit: CharClass, fields: Fields, key: string)
    ensures Get(Kept(isDigit, fields), key) == Passed(isDigit, key, Get(fields, key))
  {
    if fields != [] {
      var n := |fields| - 1;
      KeptGet(isDigit, fields[..n], key);
      SensitiveIff(fields[n].0);
      assert fields == fields[..n] + [fields[n]];
      GetAppend(fields[..n], [fields[n]], key);
      GetAppend(Kept(isDigit, fields[..n]), [(fields[n].0, MaskValue(isDigit, fields[n].1))], key);
    }
  }

  lemma {:induction false} GetPut(fields: Fields, key: string, value: Value, other: string)
    ensures Get(Put(fields, key, value), other) == if other == key then Some(value) else Get(fields, other)
  {
    if fields != [] && fields[0].0 != key {
      GetPut(fields[1..], key, value, other);
    }
  }

  /** Named fields are gone, text is masked, and every other value stays under its key. */
  lemma FieldAfter(isDigit: CharClass, fields: Fields, key: string)
    ensures key != "privacy_masked_fields" ==>
      Get(Sanitize(isDigit, fields), key) == Passed(isDigit, key, Get(fields, key))
  {
    KeptGet(isDigit, fields, key);
    GetPut(Kept(isDigit, fields), MASKED_FIELDS_KEY, MaskedFieldNames(Masks(isDigit, fields)), key);
  }

  /** Field number i is removed, or is text that holds personal data. */
  ghost predicate Audited(isDigit: CharClass, field: (string, Value), m: Mask) {
    && m.field == field.0
    && if NamesPerson(field.0) then m.action == RemovedSensitiveField
       else m.action == MaskedSensitivePattern && field.1.Str? && !NothingPersonal(isDigit, field.1.text)
  }

  lemma OneAudit(isDigit: CharClass, field: (string, Value), m: Mask)
    requires DecimalClass(isDigit)
    ensures Audited(isDigit, field, m) <==>
      if field.0 in SENSITIVE_FIELDS then m == Mask(field.0, RemovedSensitiveField)
      else MaskValue(isDigit, field.1) != field.1 && m == Mask(field.0, MaskedSensitivePattern)
  {
    SensitiveIff(field.0);
    if field.1.Str? {
      MaskedTextIsClean(isDigit, field.1.text);
    }
  }

  /** The audit records are those of the removed fields and of the texts with personal data, and no others. */
  lemma {:induction false} AuditIff(isDigit: CharClass, fields: Fields, m: Mask)
    requires DecimalClass(isDigit)
    ensures m in Masks(isDigit, fields) <==> exists i :: 0 <= i < |fields| && Audited(isDigit, fields[i], m)
  {
    if fields != [] {
      var n := |fields| - 1;
      AuditIff(isDigit, fields[..n], m);
      OneAudit(isDigit, fields[n], m);
      assert forall i :: 0 <= i < n ==> fields[..n][i] == fields[i];
      assert m in Masks(isDigit, fields) <==> m in Masks(isDigit, fields[..n]) || Audited(isDigit, fields[n], m);
    }
  }

  /** An event with audit records lists their fields. */
  lemma MaskedFieldsListed(isDigit: CharClass, fields: Fields, masks: seq<Mask>)
    requires masks == Masks(isDigit, fields) && masks != []
    ensures Get(Sanitize(isDigit, fields), "privacy_masked_fields")
         == Some(List(seq(|masks|, i requires 0 <= i < |masks| => Str(masks[i].field))))
  {
    GetPut(Kept(isDigit, fields), MASKED_FIELDS_KEY, MaskedFieldNames(masks), MASKED_FIELDS_KEY);
    assert Map(masks, (m: Mask) => Str(m.field)) == seq(|masks|, i requires 0 <= i < |masks| => Str(masks[i].field));
  }
}
