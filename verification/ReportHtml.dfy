/** The Markdown report converter (src/report_builder.py) and the grammar its output obeys. */
module ReportHtml {
  import opened Prelude

  // ---------------------------------------------------------------- text helpers

  predicate IsLineBreak(c: char) {
    c in "\n\r\U{0B}\U{0C}\U{1C}\U{1D}\U{1E}\U{85}\U{2028}\U{2029}"
  }

  predicate IsSpace(c: char) {
    || c in "\t\n\U{0B}\U{0C}\r\U{1C}\U{1D}\U{1E}\U{1F} \U{85}\U{A0}\U{1680}\U{2028}\U{2029}\U{202F}\U{205F}\U{3000}"
    || '\U{2000}' <= c <= '\U{200A}'
  }

  /** Index of the first character in the class, or the length. */
  function IndexOf(s: string, has: char -> bool): (n: nat)
    ensures n <= |s| && (n < |s| ==> has(s[n]))
  {
    if s == "" || has(s[0]) then 0 else 1 + IndexOf(s[1..], has)
  }

  /** Python's splitlines: no empty line after a final line break. */
  function SplitLines(s: string): seq<string>
    decreases |s|
  {
    if s == "" then []
    else
      var k := IndexOf(s, c => IsLineBreak(c));
      if k == |s| then [s]
      else
        var next := if "\r\n" <= s[k..] then k + 2 else k + 1;
        [s[..k]] + SplitLines(s[next..])
  }

  function Split(s: string, sep: char): (parts: seq<string>)
    ensures |parts| >= 1
    decreases |s|
  {
    var k := IndexOf(s, c => c == sep);
    if k == |s| then [s] else [s[..k]] + Split(s[k + 1..], sep)
  }

  function StripLeft(s: string, has: char -> bool): string {
    if s != "" && has(s[0]) then StripLeft(s[1..], has) else s
  }

  function StripRight(s: string, has: char -> bool): string {
    if s != "" && has(s[|s| - 1]) then StripRight(s[..|s| - 1], has) else s
  }

  function Strip(s: string, has: char -> bool): string {
    StripRight(StripLeft(s, has), has)
  }

  function Trim(s: string): string { Strip(s, c => IsSpace(c)) }

  function Join(lines: seq<string>): string {
    if lines == [] then "" else if |lines| == 1 then lines[0] else lines[0] + "\n" + Join(lines[1..])
  }

  /** The empty string joining parts. */
  function Flatten(parts: seq<string>): string {
    if parts == [] then "" else parts[0] + Flatten(parts[1..])
  }

  // ---------------------------------------------------------------- escaping

  function EscapeChar(c: char): string {
    if c == '&' then "&amp;"
    else if c == '<' then "&lt;"
    else if c == '>' then "&gt;"
    else if c == '"' then "&quot;"
    else if c == '\'' then "&#x27;"
    else [c]
  }

  function Escape(s: string): string {
    if s == "" then "" else EscapeChar(s[0]) + Escape(s[1..])
  }

  /** The character at the start of s and how many characters spell it. */
  function ReadEntity(s: string): (r: (char, nat))
    requires s != ""
    ensures 0 < r.1 <= |s|
  {
    if "&amp;" <= s then ('&', 5)
    else if "&lt;" <= s then ('<', 4)
    else if "&gt;" <= s then ('>', 4)
    else if "&quot;" <= s then ('"', 6)
    else if "&#x27;" <= s then ('\'', 6)
    else (s[0], 1)
  }

  /** How a browser reads escaped text back. */
  function Unescape(s: string): string
    decreases |s|
  {
    if s == "" then "" else var (c, n) := ReadEntity(s); [c] + Unescape(s[n..])
  }

  lemma EntityFirst(c: char, rest: string)
    ensures ReadEntity(EscapeChar(c) + rest) == (c, |EscapeChar(c)|)
  {
    var s := EscapeChar(c) + rest;
    if c == '&' {
      assert "&amp;" <= s;
    } else if c == '<' {
      assert "&lt;" <= s && s[1] != "&amp;"[1];
    } else if c == '>' {
      assert "&gt;" <= s && s[1] != "&amp;"[1] && s[1] != "&lt;"[1];
    } else if c == '"' {
      assert "&quot;" <= s && s[1] != "&amp;"[1] && s[1] != "&lt;"[1] && s[1] != "&gt;"[1];
    } else if c == '\'' {
      assert "&#x27;" <= s && s[1] != "&amp;"[1] && s[1] != "&lt;"[1] && s[1] != "&gt;"[1] && s[1] != "&quot;"[1];
    } else {
      assert s[0] == c != "&amp;"[0] == "&lt;"[0] == "&gt;"[0] == "&quot;"[0] == "&#x27;"[0];
    }
  }

  /** Escaping loses nothing. */
  lemma {:induction false} UnescapeEscape(s: string)
    ensures Unescape(Escape(s)) == s
  {
    if s != "" {
      var e, rest := EscapeChar(s[0]), Escape(s[1..]);
      UnescapeEscape(s[1..]);
      EntityFirst(s[0], rest);
      assert (e + rest)[|e|..] == rest;
      assert s == [s[0]] + s[1..];
    }
  }

  // ---------------------------------------------------------------- the grammar of the output

  datatype Tag = H1 | H2 | H3 | P | Ul | Li | Table | Tr | Th | Td | Code

  datatype Token = Open(tag: Tag) | Close(tag: Tag) | Char(c: char)

  function TagName(t: Tag): string {
    match t
    case H1 => "h1" case H2 => "h2" case H3 => "h3" case P => "p" case Ul => "ul" case Li => "li"
    case Table => "table" case Tr => "tr" case Th => "th" case Td => "td" case Code => "code"
  }

  function SpellToken(t: Token): string {
    match t
    case Open(tag) => "<" + TagName(tag) + ">"
    case Close(tag) => "</" + TagName(tag) + ">"
    case Char(c) => [c]
  }

  function Spell(ts: seq<Token>): string {
    if ts == [] then "" else SpellToken(ts[0]) + Spell(ts[1..])
  }

  lemma {:induction false} SpellAppend(a: seq<Token>, b: seq<Token>)
    ensures Spell(a + b) == Spell(a) + Spell(b)
  {
    if a == [] {
      assert a + b == b;
    } else {
      assert (a + b)[0] == a[0] && (a + b)[1..] == a[1..] + b;
      SpellAppend(a[1..], b);
    }
  }

  function Chars(s: string): seq<Token> { Map(s, c => Char(c)) }

  lemma {:induction false} SpellChars(s: string)
    ensures Spell(Chars(s)) == s
  {
    if s != "" {
      SpellChars(s[1..]);
      assert Chars(s)[1..] == Chars(s[1..]);
    }
  }

  /** Where a reader of the document stands. Elements nest only as these states allow. */
  datatype State =
    | Top
    | InHeading(level: Tag)
    | InPara
    | InList(nonEmpty: bool)
    | InItem
    | InTable(nonEmpty: bool)
    | InRow(head: bool, nonEmpty: bool)
    | InCell(head: bool)
    | InCode(outer: State)

  function CellTag(head: bool): Tag { if head then Th else Td }

  predicate TextChar(c: char) { c !in "<>\"'" }

  /** One reading step; None rejects the document. */
  function Step(q: State, t: Token): Option<State> {
    match q
    case Top =>
      if t == Char('\n') then Some(Top)
      else if t.Open? && t.tag in {H1, H2, H3} then Some(InHeading(t.tag))
      else if t == Open(P) then Some(InPara)
      else if t == Open(Ul) then Some(InList(false))
      else if t == Open(Table) then Some(InTable(false))
      else None
    case InHeading(level) =>
      if t == Close(level) then Some(Top) else if t.Char? && TextChar(t.c) then Some(q) else None
    case InPara => if t == Close(P) then Some(Top) else InlineStep(q, t)
    case InList(nonEmpty) =>
      if t == Char('\n') then Some(q)
      else if t == Open(Li) then Some(InItem)
      else if t == Close(Ul) && nonEmpty then Some(Top)
      else None
    case InItem => if t == Close(Li) then Some(InList(true)) else InlineStep(q, t)
    case InTable(nonEmpty) =>
      if t == Char('\n') then Some(q)
      else if t == Open(Tr) then Some(InRow(!nonEmpty, false))
      else if t == Close(Table) && nonEmpty then Some(Top)
      else None
    case InRow(head, nonEmpty) =>
      if t == Open(CellTag(head)) then Some(InCell(head))
      else if t == Close(Tr) && nonEmpty then Some(InTable(true))
      else None
    case InCell(head) => if t == Close(CellTag(head)) then Some(InRow(head, true)) else InlineStep(q, t)
    case InCode(outer) =>
      if t == Close(Code) then Some(outer) else if t.Char? && TextChar(t.c) then Some(q) else None
  }

  function InlineStep(q: State, t: Token): Option<State> {
    if t == Open(Code) then Some(InCode(q)) else if t.Char? && TextChar(t.c) then Some(q) else None
  }

  predicate AllowsCode(q: State) { q.InPara? || q.InItem? || q.InCell? }

  function Read(q: State, ts: seq<Token>): Option<State>
    decreases |ts|
  {
    if ts == [] then Some(q)
    else
      match Step(q, ts[0])
      case None => None
      case Some(next) => Read(next, ts[1..])
  }

  /** The text is spelled by a token sequence that takes the reader from the top back to the top. */
  ghost predicate WellFormed(html: string) {
    exists ts :: Spell(ts) == html && Read(Top, ts) == Some(Top)
  }

  lemma {:induction false} ReadAppend(q: State, a: seq<Token>, b: seq<Token>)
    requires Read(q, a).Some?
    ensures Read(q, a + b) == Read(Read(q, a).value, b)
    decreases |a|
  {
    if a == [] {
      assert a + b == b;
    } else {
      assert (a + b)[0] == a[0] && (a + b)[1..] == a[1..] + b;
      ReadAppend(Step(q, a[0]).value, a[1..], b);
    }
  }

  predicate HoldsText(q: State) { AllowsCode(q) || q.InHeading? || q.InCode? }

  lemma {:induction false} ReadText(q: State, s: string)
    requires HoldsText(q) && forall i :: 0 <= i < |s| ==> TextChar(s[i])
    ensures Read(q, Chars(s)) == Some(q)
  {
    if s != "" {
      ReadText(q, s[1..]);
      assert Chars(s)[1..] == Chars(s[1..]);
    }
  }

  lemma {:induction false} EscapedIsText(s: string)
    ensures forall i :: 0 <= i < |Escape(s)| ==> TextChar(Escape(s)[i])
  {
    if s != "" {
      EscapedIsText(s[1..]);
    }
  }

  // ---------------------------------------------------------------- inline code

  function OnePart(part: string, code: bool): seq<Token> {
    if code then [Open(Code)] + Chars(part) + [Close(Code)] else Chars(part)
  }

  /** Parts between backticks, alternately plain and code. */
  function PartTokens(parts: seq<string>, code: bool): seq<Token> {
    if parts == [] then [] else OnePart(parts[0], code) + PartTokens(parts[1..], !code)
  }

  function InlineTokens(value: string): seq<Token> {
    PartTokens(Split(Escape(value), '`'), false)
  }

  function PartText(part: string, code: bool): string {
    if code then "<code>" + part + "</code>" else part
  }

  /** Render backtick-delimited code spans in escaped text. */
  method InlineHtml(value: string) returns (html: string)
    ensures html == Spell(InlineTokens(value))
  {
    var escaped := Escape(value);
    var parts := Split(escaped, '`');
    SpellParts(parts, false);
    if |parts| == 1 {
      SingleSplit(escaped, '`');
      OnlyPart(escaped);
      return escaped;
    }
    var rendered: seq<string> := [];
    for index := 0 to |parts|
      invariant |rendered| == index
      invariant forall k :: 0 <= k < index ==> rendered[k] == PartText(parts[k], k % 2 == 1)
    {
      rendered := rendered + [PartText(parts[index], index % 2 == 1)];
    }
    FlattenRendered(rendered, parts, false);
    html := Flatten(rendered);
  }

  lemma {:induction false} FlattenRendered(rendered: seq<string>, parts: seq<string>, code: bool)
    requires |rendered| == |parts|
    requires forall k :: 0 <= k < |parts| ==> rendered[k] == PartText(parts[k], (k % 2 == 1) != code)
    ensures Flatten(rendered) == TextOfParts(parts, code)
  {
    if parts != [] {
      FlattenRendered(rendered[1..], parts[1..], !code);
    }
  }

  lemma OnlyPart(s: string)
    ensures TextOfParts([s], false) == s
  {
    assert TextOfParts([s], false) == s + TextOfParts([s][1..], true);
  }

  lemma SingleSplit(s: string, sep: char)
    requires |Split(s, sep)| == 1
    ensures Split(s, sep) == [s]
  {
  }

  function TextOfParts(parts: seq<string>, code: bool): string {
    if parts == [] then "" else PartText(parts[0], code) + TextOfParts(parts[1..], !code)
  }

  lemma {:induction false} SpellParts(parts: seq<string>, code: bool)
    ensures Spell(PartTokens(parts, code)) == TextOfParts(parts, code)
  {
    if parts != [] {
      SpellParts(parts[1..], !code);
      SpellOnePart(parts[0], code);
      SpellAppend(OnePart(parts[0], code), PartTokens(parts[1..], !code));
    }
  }

  lemma SpellOnePart(part: string, code: bool)
    ensures Spell(OnePart(part, code)) == PartText(part, code)
  {
    SpellChars(part);
    if code {
      SpellAround(Code, Chars(part));
    }
  }

  lemma {:induction false} SpellAround(tag: Tag, inner: seq<Token>)
    ensures Spell([Open(tag)] + inner + [Close(tag)])
      == "<" + TagName(tag) + ">" + Spell(inner) + "</" + TagName(tag) + ">"
  {
    SpellAppend([Open(tag)] + inner, [Close(tag)]);
    SpellAppend([Open(tag)], inner);
    SpellOne(Open(tag));
    SpellOne(Close(tag));
    SpellTag(tag, Spell(inner));
  }

  lemma SpellOne(t: Token)
    ensures Spell([t]) == SpellToken(t)
  {
    assert SpellToken(t) + "" == SpellToken(t);
  }

  lemma SpellTag(tag: Tag, inner: string)
    ensures SpellToken(Open(tag)) + inner + SpellToken(Close(tag))
         == "<" + TagName(tag) + ">" + inner + "</" + TagName(tag) + ">"
  {
    var close := "</" + TagName(tag);
    assert SpellToken(Open(tag)) + inner + (close + ">") == SpellToken(Open(tag)) + inner + close + ">";
    assert SpellToken(Open(tag)) + inner + ("</" + TagName(tag)) == SpellToken(Open(tag)) + inner + "</" + TagName(tag);
  }

  lemma {:induction false} SplitIsText(s: string, sep: char)
    requires forall i :: 0 <= i < |s| ==> TextChar(s[i])
    ensures forall k, i :: 0 <= k < |Split(s, sep)| && 0 <= i < |Split(s, sep)[k]| ==> TextChar(Split(s, sep)[k][i])
    decreases |s|
  {
    var k := IndexOf(s, c => c == sep);
    if k < |s| {
      SplitIsText(s[k + 1..], sep);
    }
  }

  lemma {:induction false} ReadParts(q: State, parts: seq<string>, code: bool)
    requires AllowsCode(q)
    requires forall k, i :: 0 <= k < |parts| && 0 <= i < |parts[k]| ==> TextChar(parts[k][i])
    ensures Read(q, PartTokens(parts, code)) == Some(q)
  {
    if parts != [] {
      var rest := PartTokens(parts[1..], !code);
      ReadParts(q, parts[1..], !code);
      var part := parts[0];
      if code {
        ReadText(InCode(q), part);
        assert Read(InCode(q), [Close(Code)]) == Some(q);
        ReadAppend(InCode(q), Chars(part), [Close(Code)]);
        var inner := Chars(part) + [Close(Code)];
        assert [Open(Code)] + Chars(part) + [Close(Code)] == [Open(Code)] + inner;
        assert ([Open(Code)] + inner)[1..] == inner;
        ReadAppend(q, [Open(Code)] + inner, rest);
      } else {
        ReadText(q, part);
        ReadAppend(q, Chars(part), rest);
      }
    }
  }

  /** Code spans are opened and closed in balance for every value. */
  lemma {:induction false} ReadInline(q: State, value: string)
    requires AllowsCode(q)
    ensures Read(q, InlineTokens(value)) == Some(q)
  {
    EscapedIsText(value);
    SplitIsText(Escape(value), '`');
    ReadParts(q, Split(Escape(value), '`'), false);
  }

  /** The characters a reader sees, tags dropped. */
  function Visible(ts: seq<Token>): string {
    if ts == [] then "" else (if ts[0].Char? then [ts[0].c] else "") + Visible(ts[1..])
  }

  lemma {:induction false} VisibleAppend(a: seq<Token>, b: seq<Token>)
    ensures Visible(a + b) == Visible(a) + Visible(b)
  {
    if a == [] {
      assert a + b == b;
    } else {
      assert (a + b)[0] == a[0] && (a + b)[1..] == a[1..] + b;
      VisibleAppend(a[1..], b);
    }
  }

  lemma {:induction false} VisibleChars(s: string)
    ensures Visible(Chars(s)) == s
  {
    if s != "" {
      VisibleChars(s[1..]);
      assert Chars(s)[1..] == Chars(s[1..]);
    }
  }

  function Without(s: string, c: char): string {
    if s == "" then "" else (if s[0] == c then "" else [s[0]]) + Without(s[1..], c)
  }

  lemma {:induction false} VisibleParts(parts: seq<string>, code: bool)
    ensures Visible(PartTokens(parts, code)) == Flatten(parts)
  {
    if parts != [] {
      VisibleParts(parts[1..], !code);
      var chars, rest := Chars(parts[0]), PartTokens(parts[1..], !code);
      VisibleChars(parts[0]);
      if code {
        assert Visible([Open(Code)]) == "" && Visible([Close(Code)]) == "";
        VisibleAppend([Open(Code)] + chars + [Close(Code)], rest);
        VisibleAppend([Open(Code)] + chars, [Close(Code)]);
        VisibleAppend([Open(Code)], chars);
      } else {
        VisibleAppend(chars, rest);
      }
    }
  }

  lemma {:induction false} WithoutPrefix(s: string, k: nat, c: char)
    requires k <= |s| && forall i :: 0 <= i < k ==> s[i] != c
    ensures Without(s, c) == s[..k] + Without(s[k..], c)
  {
    if k > 0 {
      WithoutPrefix(s[1..], k - 1, c);
      assert s[1..][k - 1..] == s[k..] && s[..k] == [s[0]] + s[1..][..k - 1];
    } else {
      assert s[0..] == s;
    }
  }

  lemma {:induction false} IndexOfFirst(s: string, has: char -> bool)
    ensures forall i :: 0 <= i < IndexOf(s, has) ==> !has(s[i])
  {
    if s != "" && !has(s[0]) {
      IndexOfFirst(s[1..], has);
      forall i | 0 <= i < IndexOf(s, has)
        ensures !has(s[i])
      {
        if i > 0 { assert s[i] == s[1..][i - 1]; }
      }
    }
  }

  lemma WithoutHead(s: string, k: nat, c: char)
    requires k < |s| && s[k] == c
    ensures Without(s[k..], c) == Without(s[k + 1..], c)
  {
    assert s[k..][1..] == s[k + 1..];
  }

  lemma FlattenCons(part: string, parts: seq<string>)
    ensures Flatten([part] + parts) == part + Flatten(parts)
  {
    ConsTail(part, parts);
  }

  lemma {:induction false} FlattenSplit(s: string, sep: char)
    ensures Flatten(Split(s, sep)) == Without(s, sep)
    decreases |s|
  {
    var k := IndexOf(s, c => c == sep);
    IndexOfFirst(s, c => c == sep);
    WithoutPrefix(s, k, sep);
    if k < |s| {
      FlattenSplit(s[k + 1..], sep);
      WithoutHead(s, k, sep);
      FlattenCons(s[..k], Split(s[k + 1..], sep));
    } else {
      assert s[..k] == s && s[k..] == "" && Flatten([s]) == s + "";
    }
  }

  lemma EscapedChar(c: char)
    requires c != '`'
    ensures forall i :: 0 <= i < |EscapeChar(c)| ==> EscapeChar(c)[i] != '`'
  {
  }

  lemma {:induction false} EscapeWithout(s: string, c: char)
    requires c == '`'
    ensures Without(Escape(s), c) == Escape(Without(s, c))
  {
    if s != "" {
      EscapeWithout(s[1..], c);
      if s[0] == c {
        ConsTail(c, Escape(s[1..]));
        assert "" + Without(s[1..], c) == Without(s[1..], c);
        WithoutTick(Escape(s[1..]), c);
      } else {
        EscapedChar(s[0]);
        WithoutAfter(EscapeChar(s[0]), Escape(s[1..]), c);
        ConsTail(s[0], Without(s[1..], c));
      }
    }
  }

  lemma WithoutTick(rest: string, c: char)
    ensures Without([c] + rest, c) == Without(rest, c)
  {
    ConsTail(c, rest);
    assert "" + Without(rest, c) == Without(rest, c);
  }

  lemma WithoutAfter(e: string, rest: string, c: char)
    requires forall i :: 0 <= i < |e| ==> e[i] != c
    ensures Without(e + rest, c) == e + Without(rest, c)
  {
    var s := e + rest;
    assert forall i :: 0 <= i < |e| ==> s[i] == e[i];
    WithoutPrefix(s, |e|, c);
    assert s[..|e|] == e && s[|e|..] == rest;
  }

  /** A browser shows exactly the input text without its backticks. */
  lemma {:induction false} InlineShowsInput(value: string)
    ensures Unescape(Visible(InlineTokens(value))) == Without(value, '`')
  {
    VisibleParts(Split(Escape(value), '`'), false);
    FlattenSplit(Escape(value), '`');
    EscapeWithout(value, '`');
    var shown := Without(value, '`');
    UnescapeEscape(shown);
  }

  // ---------------------------------------------------------------- lines and blocks

  datatype Line =
    | HeadingLine(level: Tag, text: string)
    | SeparatorLine
    | RowLine(cells: seq<string>)
    | BulletLine(text: string)
    | BlankLine
    | TextLine(text: string)

  /** What one Markdown line is, decided in the converter's order. */
  function Classify(line: string): (kind: Line)
    ensures kind.RowLine? ==> kind.cells != []
    ensures kind.HeadingLine? ==> kind.level in {H1, H2, H3}
  {
    if "# " <= line then HeadingLine(H1, line[2..])
    else if "## " <= line then HeadingLine(H2, line[3..])
    else if "### " <= line then HeadingLine(H3, line[4..])
    else if "|" <= line && line[|line| - 1] == '|' then
      var cells := Map(Split(Strip(line, c => c == '|'), '|'), cell => Trim(cell));
      if forall i :: 0 <= i < |cells[0]| ==> cells[0][i] in "-:" then SeparatorLine else RowLine(cells)
    else if "- " <= line then BulletLine(line[2..])
    else if Trim(line) == "" then BlankLine
    else TextLine(line)
  }

  datatype Block =
    | Heading(level: Tag, text: string)
    | Paragraph(text: string)
    | Bullets(items: seq<string>)
    | Rows(rows: seq<seq<string>>)

  /** Lines a list (or a table) absorbs from here on: its own kind and separator lines. */
  function Extent(lines: seq<Line>, table: bool): (n: nat)
    ensures n <= |lines|
  {
    if lines == [] then 0
    else
      var kind := lines[0];
      var inside := kind.SeparatorLine? || (if table then kind.RowLine? else kind.BulletLine?);
      if inside then 1 + Extent(lines[1..], table) else 0
  }

  function ItemsOf(lines: seq<Line>): seq<string> {
    if lines == [] then []
    else
      var kind := lines[0];
      if kind.BulletLine? then [kind.text] + ItemsOf(lines[1..]) else ItemsOf(lines[1..])
  }

  function RowsOf(lines: seq<Line>): seq<seq<string>> {
    if lines == [] then []
    else
      var kind := lines[0];
      if kind.RowLine? then [kind.cells] + RowsOf(lines[1..]) else RowsOf(lines[1..])
  }

  /** Reference reading of the document: runs of bullets and of rows form one block each. */
  function Blocks(lines: seq<Line>): seq<Block>
    decreases |lines|
  {
    if lines == [] then []
    else
      match lines[0]
      case HeadingLine(level, text) => [Heading(level, text)] + Blocks(lines[1..])
      case TextLine(text) => [Paragraph(text)] + Blocks(lines[1..])
      case BlankLine => Blocks(lines[1..])
      case SeparatorLine => Blocks(lines[1..])
      case BulletLine(_) =>
        var n := Extent(lines, false);
        [Bullets(ItemsOf(lines[..n]))] + Blocks(lines[n..])
      case RowLine(_) =>
        var n := Extent(lines, true);
        [Rows(RowsOf(lines[..n]))] + Blocks(lines[n..])
  }

  function Wrap(tag: Tag, inner: seq<Token>): seq<Token> { [Open(tag)] + inner + [Close(tag)] }

  function CellTokens(cells: seq<string>, head: bool): seq<Token> {
    if cells == [] then [] else Wrap(CellTag(head), InlineTokens(cells[0])) + CellTokens(cells[1..], head)
  }

  // Each of these puts its output lines in front of the lines that come after.

  function ItemLines(items: seq<string>, after: seq<seq<Token>>): seq<seq<Token>> {
    if items == [] then [[Close(Ul)]] + after
    else [Wrap(Li, InlineTokens(items[0]))] + ItemLines(items[1..], after)
  }

  function RowLines(rows: seq<seq<string>>, head: bool, after: seq<seq<Token>>): seq<seq<Token>> {
    if rows == [] then [[Close(Table)]] + after
    else [Wrap(Tr, CellTokens(rows[0], head))] + RowLines(rows[1..], false, after)
  }

  function BlockLines(b: Block, after: seq<seq<Token>>): seq<seq<Token>> {
    match b
    case Heading(level, text) => [Wrap(level, Chars(Escape(text)))] + after
    case Paragraph(text) => [Wrap(P, InlineTokens(text))] + after
    case Bullets(items) => [[Open(Ul)]] + ItemLines(items, after)
    case Rows(rows) => [[Open(Table)]] + RowLines(rows, true, after)
  }

  function DocumentLines(blocks: seq<Block>): seq<seq<Token>> {
    if blocks == [] then [] else BlockLines(blocks[0], DocumentLines(blocks[1..]))
  }

  function JoinTokens(lines: seq<seq<Token>>): seq<Token> {
    if lines == [] then []
    else if |lines| == 1 then lines[0]
    else lines[0] + [Char('\n')] + JoinTokens(lines[1..])
  }

  function Kinds(markdown: string): seq<Line> { Map(SplitLines(markdown), line => Classify(line)) }

  /** The document that the blocks of the text denote. */
  function ReferenceHtml(markdown: string): string {
    Spell(JoinTokens(DocumentLines(Blocks(Kinds(markdown)))))
  }

  // ---------------------------------------------------------------- the converter

  function Closing(inUl: bool, inTable: bool, after: seq<seq<Token>>): seq<seq<Token>> {
    var tables := if inTable then [[Close(Table)]] + after else after;
    if inUl then [[Close(Ul)]] + tables else tables
  }

  /** Lines the converter still writes when it stands before these lines in this state. */
  function Pending(inUl: bool, inTable: bool, lines: seq<Line>): seq<seq<Token>>
    decreases |lines|
  {
    if lines == [] then Closing(inUl, inTable, [])
    else
      var rest := lines[1..];
      match lines[0]
      case HeadingLine(level, text) =>
        Closing(inUl, inTable, [Wrap(level, Chars(Escape(text)))] + Pending(false, false, rest))
      case TextLine(text) => Closing(inUl, inTable, [Wrap(P, InlineTokens(text))] + Pending(false, false, rest))
      case BlankLine => Closing(inUl, inTable, Pending(false, false, rest))
      case SeparatorLine => Pending(inUl, inTable, rest)
      case BulletLine(text) =>
        var item := [Wrap(Li, InlineTokens(text))] + Pending(true, false, rest);
        Closing(false, inTable, if inUl then item else [[Open(Ul)]] + item)
      case RowLine(cells) =>
        var row := [Wrap(Tr, CellTokens(cells, !inTable))] + Pending(false, true, rest);
        Closing(inUl, false, if inTable then row else [[Open(Table)]] + row)
  }

  /** What remains to be written inside an open list or table. */
  function Remainder(table: bool, lines: seq<Line>): seq<seq<Token>> {
    var n := Extent(lines, table);
    var after := DocumentLines(Blocks(lines[n..]));
    if table then RowLines(RowsOf(lines[..n]), false, after) else ItemLines(ItemsOf(lines[..n]), after)
  }

  lemma ExtentUnfold(lines: seq<Line>, table: bool)
    requires lines != [] && Extent(lines, table) > 0
    ensures var n := Extent(lines, table);
      && n == 1 + Extent(lines[1..], table) && lines[n..] == lines[1..][n - 1..]
      && lines[..n][0] == lines[0] && lines[..n][1..] == lines[1..][..n - 1]
  {
  }

  lemma DocumentCons(b: Block, bs: seq<Block>)
    ensures DocumentLines([b] + bs) == BlockLines(b, DocumentLines(bs))
  {
    assert ([b] + bs)[1..] == bs;
  }

  /** Outside blocks, the one-pass state machine writes the lines of the grouped blocks. */
  lemma {:induction false} PendingTop(lines: seq<Line>)
    ensures Pending(false, false, lines) == DocumentLines(Blocks(lines))
    decreases |lines|, 0
  {
    if lines != [] {
      var rest := lines[1..];
      match lines[0]
      case HeadingLine(level, text) =>
        PendingTop(rest);
        DocumentCons(Heading(level, text), Blocks(rest));
      case TextLine(text) =>
        PendingTop(rest);
        DocumentCons(Paragraph(text), Blocks(rest));
      case BlankLine =>
        PendingTop(rest);
      case SeparatorLine =>
        PendingTop(rest);
      case BulletLine(text) =>
        PendingInside(false, rest);
        OpenList(lines);
      case RowLine(cells) =>
        PendingInside(true, rest);
        OpenTable(lines);
    }
  }

  lemma OpenList(lines: seq<Line>)
    requires lines != [] && lines[0].BulletLine?
    ensures DocumentLines(Blocks(lines)) == [[Open(Ul)]]
      + ([Wrap(Li, InlineTokens(lines[0].text))] + Remainder(false, lines[1..]))
  {
    var n := Extent(lines, false);
    ExtentUnfold(lines, false);
    DocumentCons(Bullets(ItemsOf(lines[..n])), Blocks(lines[n..]));
    var items := ItemsOf(lines[1..][..n - 1]);
    assert ([lines[0].text] + items)[1..] == items;
  }

  lemma OpenTable(lines: seq<Line>)
    requires lines != [] && lines[0].RowLine?
    ensures DocumentLines(Blocks(lines))
      == [[Open(Table)]] + ([Wrap(Tr, CellTokens(lines[0].cells, true))] + Remainder(true, lines[1..]))
  {
    var n := Extent(lines, true);
    ExtentUnfold(lines, true);
    DocumentCons(Rows(RowsOf(lines[..n])), Blocks(lines[n..]));
    var rows := RowsOf(lines[1..][..n - 1]);
    assert ([lines[0].cells] + rows)[1..] == rows;
  }

  /** Inside a list or a table, it writes the rest of that block and then the later blocks. */
  lemma {:induction false} PendingInside(table: bool, lines: seq<Line>)
    ensures Pending(!table, table, lines) == Remainder(table, lines)
    decreases |lines|, 1
  {
    var n := Extent(lines, table);
    if lines == [] {
      assert lines[..0] == [];
    } else if n > 0 {
      ExtentUnfold(lines, table);
      PendingInside(table, lines[1..]);
      var items, rows := ItemsOf(lines[1..][..n - 1]), RowsOf(lines[1..][..n - 1]);
      if lines[0].BulletLine? {
        assert ([lines[0].text] + items)[1..] == items;
      } else if lines[0].RowLine? {
        assert ([lines[0].cells] + rows)[1..] == rows;
      }
    } else {
      PendingTop(lines);
      assert lines[..0] == [] && lines[0..] == lines;
    }
  }

  function SpellLines(lines: seq<seq<Token>>): (texts: seq<string>)
    ensures |texts| == |lines|
  {
    if lines == [] then [] else [Spell(lines[0])] + SpellLines(lines[1..])
  }

  /** Append one output line, spelling the given tokens, ahead of whatever comes after. */
  method Emit(htmlLines: seq<string>, html: string, ghost line: seq<Token>, ghost after: seq<seq<Token>>)
    returns (extended: seq<string>)
    requires html == Spell(line)
    ensures extended == htmlLines + [html]
    ensures htmlLines + SpellLines([line] + after) == extended + SpellLines(after)
  {
    extended := htmlLines + [html];
    ConsTail(line, after);
    AppendAssociative(htmlLines, [html], SpellLines(after));
  }

  lemma SpellTags()
    ensures Spell([Open(Ul)]) == "<ul>" && Spell([Close(Ul)]) == "</ul>"
    ensures Spell([Open(Table)]) == "<table>" && Spell([Close(Table)]) == "</table>"
  {
    assert "<ul>" + "" == "<ul>" && "</ul>" + "" == "</ul>";
    assert "<table>" + "" == "<table>" && "</table>" + "" == "</table>";
  }

  lemma {:induction false} JoinSpells(lines: seq<seq<Token>>)
    ensures Join(SpellLines(lines)) == Spell(JoinTokens(lines))
  {
    if |lines| > 1 {
      JoinSpells(lines[1..]);
      ConsTail(Spell(lines[0]), SpellLines(lines[1..]));
      SpellAppend(lines[0] + [Char('\n')], JoinTokens(lines[1..]));
      SpellAppend(lines[0], [Char('\n')]);
      SpellBreak();
    } else if |lines| == 1 {
      assert SpellLines(lines)[0] == Spell(lines[0]);
    }
  }

  lemma SpellBreak()
    ensures Spell([Char('\n')]) == "\n"
  {
    assert "\n" + "" == "\n";
  }

  /** Append the closing tags of whatever is open. */
  method CloseLists(htmlLines: seq<string>, inUl: bool, inTable: bool, ghost after: seq<seq<Token>>)
    returns (closed: seq<string>)
    ensures htmlLines + SpellLines(Closing(inUl, inTable, after)) == closed + SpellLines(after)
  {
    closed := htmlLines;
    if inUl {
      SpellTags();
      closed := Emit(closed, "</ul>", [Close(Ul)], if inTable then [[Close(Table)]] + after else after);
    }
    if inTable {
      SpellTags();
      closed := Emit(closed, "</table>", [Close(Table)], after);
    }
  }

  function Element(name: string, inner: string): string { "<" + name + ">" + inner + "</" + name + ">" }

  /** One table row. */
  method RowHtml(cells: seq<string>, tag: Tag) returns (html: string)
    requires tag.Th? || tag.Td?
    ensures html == Spell(Wrap(Tr, CellTokens(cells, tag.Th?)))
  {
    var parts: seq<string> := [];
    for i := 0 to |cells|
      invariant |parts| == i
      invariant forall k :: 0 <= k < i ==> parts[k] == Spell(Wrap(tag, InlineTokens(cells[k])))
    {
      var inner := InlineHtml(cells[i]);
      SpellElement(tag, InlineTokens(cells[i]));
      parts := parts + [Element(TagName(tag), inner)];
    }
    SpellCells(parts, cells, tag.Th?);
    SpellElement(Tr, CellTokens(cells, tag.Th?));
    html := Element("tr", Flatten(parts));
  }

  lemma SpellElement(tag: Tag, inner: seq<Token>)
    ensures Spell(Wrap(tag, inner)) == Element(TagName(tag), Spell(inner))
  {
    SpellAround(tag, inner);
  }

  lemma {:induction false} SpellCells(parts: seq<string>, cells: seq<string>, head: bool)
    requires |parts| == |cells|
    requires forall k :: 0 <= k < |cells| ==> parts[k] == Spell(Wrap(CellTag(head), InlineTokens(cells[k])))
    ensures Flatten(parts) == Spell(CellTokens(cells, head))
  {
    if cells != [] {
      SpellCells(parts[1..], cells[1..], head);
      SpellAppend(Wrap(CellTag(head), InlineTokens(cells[0])), CellTokens(cells[1..], head));
    }
  }

  /** The converter: one pass over the lines with three flags. */
  method MarkdownToReportHtml(markdown: string) returns (html: string)
    ensures html == ReferenceHtml(markdown)
  {
    var lines := SplitLines(markdown);
    ghost var kinds := Kinds(markdown);
    ghost var whole := SpellLines(Pending(false, false, kinds));
    var htmlLines: seq<string> := [];
    var inUl, inTable, tableHeaderDone := false, false, false;
    assert kinds[0..] == kinds;
    for i := 0 to |lines|
      invariant !(inUl && inTable) && tableHeaderDone == inTable
      invariant htmlLines + SpellLines(Pending(inUl, inTable, kinds[i..])) == whole
    {
      var kind := Classify(lines[i]);
      ghost var rest := kinds[i + 1..];
      assert kinds[i..][0] == kind && kinds[i..][1..] == rest;
      match kind {
        case HeadingLine(level, text) =>
          ghost var tokens := Wrap(level, Chars(Escape(text)));
          htmlLines := CloseLists(htmlLines, inUl, inTable, [tokens] + Pending(false, false, rest));
          inUl, inTable, tableHeaderDone := false, false, false;
          SpellChars(Escape(text));
          SpellElement(level, Chars(Escape(text)));
          htmlLines := Emit(htmlLines, Element(TagName(level), Escape(text)), tokens, Pending(false, false, rest));
        case SeparatorLine =>
        case RowLine(cells) =>
          ghost var tokens := Wrap(Tr, CellTokens(cells, !inTable));
          if !inTable {
            htmlLines := CloseLists(htmlLines, inUl, false, [[Open(Table)]] + ([tokens] + Pending(false, true, rest)));
            inUl, inTable, tableHeaderDone := false, true, false;
            SpellTags();
            htmlLines := Emit(htmlLines, "<table>", [Open(Table)], [tokens] + Pending(false, true, rest));
          }
          var row := RowHtml(cells, if !tableHeaderDone then Th else Td);
          htmlLines := Emit(htmlLines, row, tokens, Pending(false, true, rest));
          tableHeaderDone := true;
        case BulletLine(text) =>
          ghost var tokens := Wrap(Li, InlineTokens(text));
          ghost var item := [tokens] + Pending(true, false, rest);
          htmlLines := CloseLists(htmlLines, false, inTable, if inUl then item else [[Open(Ul)]] + item);
          inTable, tableHeaderDone := false, false;
          if !inUl {
            SpellTags();
            htmlLines := Emit(htmlLines, "<ul>", [Open(Ul)], item);
            inUl := true;
          }
          var inline := InlineHtml(text);
          SpellElement(Li, InlineTokens(text));
          htmlLines := Emit(htmlLines, Element(TagName(Li), inline), tokens, Pending(true, false, rest));
        case BlankLine =>
          htmlLines := CloseLists(htmlLines, inUl, inTable, Pending(false, false, rest));
          inUl, inTable, tableHeaderDone := false, false, false;
        case TextLine(text) =>
          ghost var tokens := Wrap(P, InlineTokens(text));
          htmlLines := CloseLists(htmlLines, inUl, inTable, [tokens] + Pending(false, false, rest));
          inUl, inTable, tableHeaderDone := false, false, false;
          var inline := InlineHtml(text);
          SpellElement(P, InlineTokens(text));
          htmlLines := Emit(htmlLines, Element(TagName(P), inline), tokens, Pending(false, false, rest));
      }
    }
    htmlLines := CloseLists(htmlLines, inUl, inTable, []);
    assert htmlLines + SpellLines([]) == htmlLines;
    PendingTop(kinds);
    JoinSpells(DocumentLines(Blocks(kinds)));
    html := Join(htmlLines);
  }

  // ---------------------------------------------------------------- well-formedness

  /** States in which a line break may stand. */
  predicate BetweenLines(q: State) { q.Top? || q.InList? || q.InTable? }

  function ReadLines(q: State, lines: seq<seq<Token>>): Option<State>
    decreases |lines|
  {
    if lines == [] then Some(q)
    else
      var next := Read(q, lines[0]);
      if next.Some? && BetweenLines(next.value) then ReadLines(next.value, lines[1..]) else None
  }

  lemma {:induction false} ReadJoined(q: State, lines: seq<seq<Token>>)
    requires ReadLines(q, lines).Some?
    ensures Read(q, JoinTokens(lines)) == ReadLines(q, lines)
    decreases |lines|
  {
    if |lines| > 1 {
      var next := Read(q, lines[0]).value;
      ReadJoined(next, lines[1..]);
      assert Read(next, [Char('\n')]) == Some(next);
      ReadAppend(q, lines[0], [Char('\n')]);
      ReadAppend(q, lines[0] + [Char('\n')], JoinTokens(lines[1..]));
    }
  }

  lemma ReadWrapped(q: State, inside: State, back: State, tag: Tag, inner: seq<Token>)
    requires Step(q, Open(tag)) == Some(inside) && Step(inside, Close(tag)) == Some(back)
    requires Read(inside, inner) == Some(inside)
    ensures Read(q, Wrap(tag, inner)) == Some(back)
  {
    assert Read(q, [Open(tag)]) == Some(inside);
    assert Read(inside, [Close(tag)]) == Some(back);
    ReadAppend(q, [Open(tag)], inner);
    ReadAppend(q, [Open(tag)] + inner, [Close(tag)]);
  }

  lemma {:induction false} ReadCells(head: bool, nonEmpty: bool, cells: seq<string>)
    ensures Read(InRow(head, nonEmpty), CellTokens(cells, head)) == Some(InRow(head, nonEmpty || cells != []))
    decreases |cells|
  {
    if cells != [] {
      ReadInline(InCell(head), cells[0]);
      ReadWrapped(InRow(head, nonEmpty), InCell(head), InRow(head, true), CellTag(head), InlineTokens(cells[0]));
      ReadCells(head, true, cells[1..]);
      ReadAppend(InRow(head, nonEmpty), Wrap(CellTag(head), InlineTokens(cells[0])), CellTokens(cells[1..], head));
    }
  }

  lemma ReadRow(nonEmpty: bool, cells: seq<string>)
    requires cells != []
    ensures Read(InTable(nonEmpty), Wrap(Tr, CellTokens(cells, !nonEmpty))) == Some(InTable(true))
  {
    var q, row := InTable(nonEmpty), CellTokens(cells, !nonEmpty);
    ReadCells(!nonEmpty, false, cells);
    assert Read(q, [Open(Tr)]) == Some(InRow(!nonEmpty, false));
    assert Read(InRow(!nonEmpty, true), [Close(Tr)]) == Some(InTable(true));
    ReadAppend(q, [Open(Tr)], row);
    ReadAppend(q, [Open(Tr)] + row, [Close(Tr)]);
  }

  predicate ProperRows(rows: seq<seq<string>>) { forall i :: 0 <= i < |rows| ==> rows[i] != [] }

  predicate ProperBlock(b: Block) {
    match b
    case Heading(level, _) => level in {H1, H2, H3}
    case Paragraph(_) => true
    case Bullets(items) => items != []
    case Rows(rows) => rows != [] && ProperRows(rows)
  }

  lemma {:induction false} ReadItems(nonEmpty: bool, items: seq<string>, after: seq<seq<Token>>)
    requires nonEmpty || items != []
    ensures ReadLines(InList(nonEmpty), ItemLines(items, after)) == ReadLines(Top, after)
    decreases |items|
  {
    if items == [] {
      assert Read(InList(nonEmpty), [Close(Ul)]) == Some(Top);
      assert ([[Close(Ul)]] + after)[1..] == after;
    } else {
      ReadInline(InItem, items[0]);
      ReadWrapped(InList(nonEmpty), InItem, InList(true), Li, InlineTokens(items[0]));
      ReadItems(true, items[1..], after);
      assert ItemLines(items, after)[1..] == ItemLines(items[1..], after);
    }
  }

  lemma {:induction false} ReadRows(nonEmpty: bool, rows: seq<seq<string>>, after: seq<seq<Token>>)
    requires ProperRows(rows) && (nonEmpty || rows != [])
    ensures ReadLines(InTable(nonEmpty), RowLines(rows, !nonEmpty, after)) == ReadLines(Top, after)
    decreases |rows|
  {
    if rows == [] {
      assert Read(InTable(nonEmpty), [Close(Table)]) == Some(Top);
      assert ([[Close(Table)]] + after)[1..] == after;
    } else {
      ReadRow(nonEmpty, rows[0]);
      ReadRows(true, rows[1..], after);
      assert RowLines(rows, !nonEmpty, after)[1..] == RowLines(rows[1..], false, after);
    }
  }

  lemma ReadLine(q: State, line: seq<Token>, next: State, after: seq<seq<Token>>)
    requires Read(q, line) == Some(next) && BetweenLines(next)
    ensures ReadLines(q, [line] + after) == ReadLines(next, after)
  {
    ConsTail(line, after);
  }

  lemma ReadHeading(level: Tag, text: string)
    requires level in {H1, H2, H3}
    ensures Read(Top, Wrap(level, Chars(Escape(text)))) == Some(Top)
  {
    EscapedIsText(text);
    ReadText(InHeading(level), Escape(text));
    ReadWrapped(Top, InHeading(level), Top, level, Chars(Escape(text)));
  }

  lemma ReadParagraph(text: string)
    ensures Read(Top, Wrap(P, InlineTokens(text))) == Some(Top)
  {
    ReadInline(InPara, text);
    ReadWrapped(Top, InPara, Top, P, InlineTokens(text));
  }

  lemma ReadList(items: seq<string>, after: seq<seq<Token>>)
    requires items != []
    ensures ReadLines(Top, [[Open(Ul)]] + ItemLines(items, after)) == ReadLines(Top, after)
  {
    assert Read(Top, [Open(Ul)]) == Some(InList(false));
    ReadLine(Top, [Open(Ul)], InList(false), ItemLines(items, after));
    ReadItems(false, items, after);
  }

  lemma ReadTable(rows: seq<seq<string>>, after: seq<seq<Token>>)
    requires rows != [] && ProperRows(rows)
    ensures ReadLines(Top, [[Open(Table)]] + RowLines(rows, true, after)) == ReadLines(Top, after)
  {
    assert Read(Top, [Open(Table)]) == Some(InTable(false));
    ReadLine(Top, [Open(Table)], InTable(false), RowLines(rows, true, after));
    ReadRows(false, rows, after);
  }

  lemma ReadBlock(b: Block, after: seq<seq<Token>>)
    requires ProperBlock(b)
    ensures ReadLines(Top, BlockLines(b, after)) == ReadLines(Top, after)
  {
    match b
    case Heading(level, text) =>
      ReadHeading(level, text);
      ReadLine(Top, Wrap(level, Chars(Escape(text))), Top, after);
    case Paragraph(text) =>
      ReadParagraph(text);
      ReadLine(Top, Wrap(P, InlineTokens(text)), Top, after);
    case Bullets(items) => ReadList(items, after);
    case Rows(rows) => ReadTable(rows, after);
  }

  lemma {:induction false} ReadDocument(blocks: seq<Block>)
    requires forall i :: 0 <= i < |blocks| ==> ProperBlock(blocks[i])
    ensures ReadLines(Top, DocumentLines(blocks)) == Some(Top)
  {
    if blocks != [] {
      ReadDocument(blocks[1..]);
      ReadBlock(blocks[0], DocumentLines(blocks[1..]));
    }
  }

  ghost predicate ProperLines(lines: seq<Line>) {
    forall i :: 0 <= i < |lines| ==>
      (lines[i].RowLine? ==> lines[i].cells != []) && (lines[i].HeadingLine? ==> lines[i].level in {H1, H2, H3})
  }

  lemma {:induction false} RowsProper(lines: seq<Line>)
    requires ProperLines(lines)
    ensures ProperRows(RowsOf(lines))
  {
    if lines != [] {
      RowsProper(lines[1..]);
    }
  }

  lemma {:induction false} BlocksProper(lines: seq<Line>)
    requires ProperLines(lines)
    ensures forall i :: 0 <= i < |Blocks(lines)| ==> ProperBlock(Blocks(lines)[i])
    decreases |lines|
  {
    if lines != [] {
      BlocksProper(lines[1..]);
      if lines[0].BulletLine? {
        ExtentUnfold(lines, false);
        BlocksProper(lines[Extent(lines, false)..]);
      } else if lines[0].RowLine? {
        ExtentUnfold(lines, true);
        RowsProper(lines[..Extent(lines, true)]);
        BlocksProper(lines[Extent(lines, true)..]);
      }
    }
  }

  /** Whatever the Markdown text, the document is well formed. */
  lemma {:induction false} ReportWellFormed(markdown: string)
    ensures WellFormed(ReferenceHtml(markdown))
  {
    var lines := DocumentLines(Blocks(Kinds(markdown)));
    BlocksProper(Kinds(markdown));
    ReadDocument(Blocks(Kinds(markdown)));
    ReadJoined(Top, lines);
  }
}
