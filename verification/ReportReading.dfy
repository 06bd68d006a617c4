/** What a reader of the converted report sees of each Markdown line (src/report_builder.py:437-527). */
module ReportReading {
  import opened Prelude
  import opened ReportHtml

  // ---------------------------------------------------------------- pipe lines that vanish

  /** The text between the leading bars of a line and the next bar. */
  function FirstCell(line: string): string {
    var rest := line[IndexOf(line, c => c != '|')..];
    rest[..IndexOf(rest, c => c == '|')]
  }

  predicate OnlyDashes(s: string) { forall i :: 0 <= i < |s| ==> s[i] in "-:" }

  lemma {:induction false} IndexOfIs(s: string, has: char -> bool, k: nat)
    requires k <= |s| && (k < |s| ==> has(s[k])) && forall i :: 0 <= i < k ==> !has(s[i])
    ensures IndexOf(s, has) == k
  {
    if k > 0 {
      assert !has(s[0]);
      forall i | 0 <= i < k - 1
        ensures !has(s[1..][i])
      {
        assert s[1..][i] == s[i + 1];
      }
      IndexOfIs(s[1..], has, k - 1);
    }
  }

  lemma {:induction false} StripLeftAt(s: string, has: char -> bool, hasNot: char -> bool)
    requires forall c :: hasNot(c) == !has(c)
    ensures StripLeft(s, has) == s[IndexOf(s, hasNot)..]
  {
    if s != "" && has(s[0]) {
      StripLeftAt(s[1..], has, hasNot);
    }
  }

  lemma {:induction false} StripRightAt(s: string, has: char -> bool) returns (end: nat)
    ensures end <= |s| && StripRight(s, has) == s[..end] && (end < |s| ==> has(s[end]))
  {
    if s != "" && has(s[|s| - 1]) {
      end := StripRightAt(s[..|s| - 1], has);
    } else {
      end := |s|;
      assert s[..end] == s;
    }
  }

  /** A prefix that stops at or before the first hit, or at one, has the same first hit. */
  lemma IndexOfPrefix(s: string, has: char -> bool, end: nat)
    requires end <= |s| && (end < |s| ==> has(s[end]))
    ensures IndexOf(s[..end], has) == IndexOf(s, has)
  {
    IndexOfFirst(s[..end], has);
    var k := IndexOf(s[..end], has);
    forall i | 0 <= i < k
      ensures !has(s[i])
    {
      assert s[..end][i] == s[i];
    }
    IndexOfIs(s, has, k);
  }

  lemma FirstCellIs(line: string)
    ensures Split(Strip(line, c => c == '|'), '|')[0] == FirstCell(line)
  {
    var rest := line[IndexOf(line, c => c != '|')..];
    StripLeftAt(line, c => c == '|', c => c != '|');
    var end := StripRightAt(rest, c => c == '|');
    IndexOfPrefix(rest, c => c == '|', end);
    var k := IndexOf(rest, c => c == '|');
    assert rest[..end][..k] == rest[..k];
    if k == end {
      assert rest[..end][..k] == rest[..end];
    }
  }

  /** A pipe line vanishes exactly when its first cell, trimmed, has no characters but dashes and colons. */
  lemma SeparatorIff(line: string)
    ensures Classify(line).SeparatorLine?
      <==> ("|" <= line && line[|line| - 1] == '|' && OnlyDashes(Trim(FirstCell(line))))
  {
    FirstCellIs(line);
  }

  lemma {:induction false} TrimSpaces(s: string)
    requires forall i :: 0 <= i < |s| ==> IsSpace(s[i])
    ensures Trim(s) == ""
  {
    StripLeftAt(s, c => IsSpace(c), c => !IsSpace(c));
    IndexOfIs(s, c => !IsSpace(c), |s|);
  }

  /**
   * Rows of data that vanish: one whose first cell is a dash, as the report writes for a missing name, and one
   * with none.
   */
  lemma DataRowsVanish()
    ensures Classify("| - | x |") == SeparatorLine && Classify("|  | x |") == SeparatorLine
  {
    DashRow();
    BlankRow();
  }

  lemma DashTrimmed()
    ensures OnlyDashes(Trim(" - "))
  {
    var s := " - ";
    StripLeftAt(s, c => IsSpace(c), c => !IsSpace(c));
    IndexOfIs(s, c => !IsSpace(c), 1);
    var end := StripRightAt(s[1..], c => IsSpace(c));
    assert s[1..] == "- ";
    assert end != 2 by {
      StripRightSpace("-");
    }
  }

  lemma StripRightSpace(s: string)
    ensures StripRight(s + " ", c => IsSpace(c)) == StripRight(s, c => IsSpace(c))
  {
    assert (s + " ")[..|s|] == s;
  }

  lemma DashRow()
    ensures Classify("| - | x |") == SeparatorLine
  {
    var line, rest := "| - | x |", " - | x |";
    IndexOfIs(line, c => c != '|', 1);
    assert line[1..] == rest;
    IndexOfIs(rest, c => c == '|', 3);
    assert rest[..3] == " - ";
    DashTrimmed();
    SeparatorIff(line);
  }

  lemma BlankRow()
    ensures Classify("|  | x |") == SeparatorLine
  {
    var line, rest := "|  | x |", "  | x |";
    IndexOfIs(line, c => c != '|', 1);
    assert line[1..] == rest;
    IndexOfIs(rest, c => c == '|', 2);
    assert rest[..2] == "  ";
    TrimSpaces("  ");
    SeparatorIff(line);
  }

  // ---------------------------------------------------------------- what is shown

  /** A heading, paragraph, list item or table cell and its text; header cells count as cells. */
  datatype Leaf = Leaf(tag: Tag, text: string)

  predicate IsLeaf(tag: Tag) { tag in {H1, H2, H3, P, Li, Th, Td} }

  function LeafOf(tag: Tag, text: string): Leaf { Leaf(if tag == Th then Td else tag, Unescape(text)) }

  /** The elements a reader sees, in order; open is the text so far of the element being read. */
  function Shown(ts: seq<Token>, open: Option<string>): seq<Leaf>
    decreases |ts|
  {
    if ts == [] then []
    else
      match ts[0]
      case Open(tag) => Shown(ts[1..], if IsLeaf(tag) then Some("") else open)
      case Close(tag) =>
        if IsLeaf(tag) && open.Some? then [LeafOf(tag, open.value)] + Shown(ts[1..], None) else Shown(ts[1..], open)
      case Char(c) => Shown(ts[1..], if open.Some? then Some(open.value + [c]) else None)
  }

  /** The element being read after the tokens. */
  function Reading(ts: seq<Token>, open: Option<string>): Option<string>
    decreases |ts|
  {
    if ts == [] then open
    else
      match ts[0]
      case Open(tag) => Reading(ts[1..], if IsLeaf(tag) then Some("") else open)
      case Close(tag) => Reading(ts[1..], if IsLeaf(tag) then None else open)
      case Char(c) => Reading(ts[1..], if open.Some? then Some(open.value + [c]) else None)
  }

  lemma {:induction false} ShownAppend(a: seq<Token>, b: seq<Token>, open: Option<string>)
    ensures Shown(a + b, open) == Shown(a, open) + Shown(b, Reading(a, open))
    ensures Reading(a + b, open) == Reading(b, Reading(a, open))
    decreases |a|
  {
    if a == [] {
      assert a + b == b;
    } else {
      assert (a + b)[0] == a[0] && (a + b)[1..] == a[1..] + b;
      match a[0]
      case Open(tag) => ShownAppend(a[1..], b, if IsLeaf(tag) then Some("") else open);
      case Close(tag) => ShownAppend(a[1..], b, if IsLeaf(tag) then None else open);
      case Char(c) => ShownAppend(a[1..], b, if open.Some? then Some(open.value + [c]) else None);
    }
  }

  predicate Inner(ts: seq<Token>) { forall i :: 0 <= i < |ts| ==> ts[i].Char? || ts[i].tag == Code }

  lemma {:induction false} InnerShown(ts: seq<Token>, text: string)
    requires Inner(ts)
    ensures Shown(ts, Some(text)) == [] && Reading(ts, Some(text)) == Some(text + Visible(ts))
    decreases |ts|
  {
    if ts == [] {
      assert text + "" == text;
    } else {
      assert Inner(ts[1..]);
      if ts[0].Char? {
        InnerShown(ts[1..], text + [ts[0].c]);
        assert text + ([ts[0].c] + Visible(ts[1..])) == text + [ts[0].c] + Visible(ts[1..]);
      } else {
        InnerShown(ts[1..], text);
        assert "" + Visible(ts[1..]) == Visible(ts[1..]);
      }
    }
  }

  /** An element shows its visible text and leaves nothing open. */
  lemma LeafShown(tag: Tag, inner: seq<Token>)
    requires IsLeaf(tag) && Inner(inner)
    ensures Shown(Wrap(tag, inner), None) == [LeafOf(tag, Visible(inner))] && Reading(Wrap(tag, inner), None) == None
  {
    InnerShown(inner, "");
    assert "" + Visible(inner) == Visible(inner);
    OneToken(Open(tag), None);
    OneToken(Close(tag), Some(Visible(inner)));
    ShownAppend([Open(tag)], inner, None);
    ShownAppend([Open(tag)] + inner, [Close(tag)], None);
  }

  lemma OneToken(t: Token, open: Option<string>)
    ensures t.Open? ==> Shown([t], open) == [] && Reading([t], open) == if IsLeaf(t.tag) then Some("") else open
    ensures t.Close? && IsLeaf(t.tag) && open.Some? ==> Shown([t], open) == [LeafOf(t.tag, open.value)]
    ensures t.Close? && !(IsLeaf(t.tag) && open.Some?) ==> Shown([t], open) == []
    ensures t.Close? ==> Reading([t], open) == if IsLeaf(t.tag) then None else open
    ensures t == Char('\n') ==> Shown([t], None) == [] && Reading([t], None) == None
  {
    assert [t][1..] == [];
  }

  lemma {:induction false} CharsInner(s: string)
    ensures Inner(Chars(s))
  {
  }

  lemma {:induction false} PartsInner(parts: seq<string>, code: bool)
    ensures Inner(PartTokens(parts, code))
  {
    if parts != [] {
      PartsInner(parts[1..], !code);
      CharsInner(parts[0]);
      OnePartInner(parts[0], code);
      InnerAppend(OnePart(parts[0], code), PartTokens(parts[1..], !code));
    }
  }

  lemma InnerAppend(a: seq<Token>, b: seq<Token>)
    requires Inner(a) && Inner(b)
    ensures Inner(a + b)
  {
  }

  lemma OnePartInner(part: string, code: bool)
    ensures Inner(OnePart(part, code))
  {
  }

  // ---------------------------------------------------------------- line by line

  function CellLeaves(cells: seq<string>): seq<Leaf> {
    if cells == [] then [] else [Leaf(Td, Without(cells[0], '`'))] + CellLeaves(cells[1..])
  }

  /** What one Markdown line contributes: nothing for blank and separator lines. */
  function LineLeaves(line: Line): seq<Leaf> {
    match line
    case HeadingLine(level, text) => [Leaf(level, text)]
    case TextLine(text) => [Leaf(P, Without(text, '`'))]
    case BulletLine(text) => [Leaf(Li, Without(text, '`'))]
    case RowLine(cells) => CellLeaves(cells)
    case SeparatorLine => []
    case BlankLine => []
  }

  function Leaves(lines: seq<Line>): seq<Leaf> {
    if lines == [] then [] else LineLeaves(lines[0]) + Leaves(lines[1..])
  }

  /** A line of output shows these elements and leaves nothing open. */
  ghost predicate Shows(line: seq<Token>, leaves: seq<Leaf>) {
    Shown(line, None) == leaves && Reading(line, None) == None
  }

  lemma InlineShows(tag: Tag, value: string)
    requires tag in {P, Li, Th, Td}
    ensures Shows(Wrap(tag, InlineTokens(value)), [Leaf(if tag == Th then Td else tag, Without(value, '`'))])
  {
    PartsInner(Split(Escape(value), '`'), false);
    LeafShown(tag, InlineTokens(value));
    InlineShowsInput(value);
  }

  lemma HeadingShows(level: Tag, text: string)
    requires level in {H1, H2, H3}
    ensures Shows(Wrap(level, Chars(Escape(text))), [Leaf(level, text)])
  {
    CharsInner(Escape(text));
    LeafShown(level, Chars(Escape(text)));
    VisibleChars(Escape(text));
    UnescapeEscape(text);
  }

  lemma ShowsAppend(a: seq<Token>, b: seq<Token>, x: seq<Leaf>, y: seq<Leaf>)
    requires Shows(a, x) && Shows(b, y)
    ensures Shows(a + b, x + y)
  {
    ShownAppend(a, b, None);
  }

  lemma BareShows(t: Token)
    requires t == Char('\n') || (!t.Char? && !IsLeaf(t.tag))
    ensures Shows([t], [])
  {
    OneToken(t, None);
  }

  lemma {:induction false} CellsShow(cells: seq<string>, head: bool)
    ensures Shows(CellTokens(cells, head), CellLeaves(cells))
  {
    if cells != [] {
      InlineShows(CellTag(head), cells[0]);
      CellsShow(cells[1..], head);
      ShowsAppend(Wrap(CellTag(head), InlineTokens(cells[0])), CellTokens(cells[1..], head),
                  [Leaf(Td, Without(cells[0], '`'))], CellLeaves(cells[1..]));
    }
  }

  lemma RowShows(cells: seq<string>, head: bool)
    ensures Shows(Wrap(Tr, CellTokens(cells, head)), CellLeaves(cells))
  {
    CellsShow(cells, head);
    BareShows(Open(Tr));
    BareShows(Close(Tr));
    ShowsAppend([Open(Tr)], CellTokens(cells, head), [], CellLeaves(cells));
    ShowsAppend([Open(Tr)] + CellTokens(cells, head), [Close(Tr)], [] + CellLeaves(cells), []);
    assert [] + CellLeaves(cells) + [] == CellLeaves(cells);
  }

  /** Joined by line breaks, the lines show these elements. */
  ghost predicate JoinedShow(lines: seq<seq<Token>>, leaves: seq<Leaf>) { Shows(JoinTokens(lines), leaves) }

  lemma JoinedCons(line: seq<Token>, lines: seq<seq<Token>>, x: seq<Leaf>, y: seq<Leaf>)
    requires Shows(line, x) && JoinedShow(lines, y)
    ensures JoinedShow([line] + lines, x + y)
  {
    ConsTail(line, lines);
    if lines == [] {
      assert y == [] && x + y == x;
    } else {
      BareShows(Char('\n'));
      ShowsAppend(line, [Char('\n')], x, []);
      assert x + [] == x;
      ShowsAppend(line + [Char('\n')], JoinTokens(lines), x, y);
    }
  }

  lemma BareCons(t: Token, lines: seq<seq<Token>>, y: seq<Leaf>)
    requires !t.Char? && !IsLeaf(t.tag) && JoinedShow(lines, y)
    ensures JoinedShow([[t]] + lines, y)
  {
    BareShows(t);
    JoinedCons([t], lines, [], y);
    assert [] + y == y;
  }

  lemma ClosingShows(inUl: bool, inTable: bool, after: seq<seq<Token>>, y: seq<Leaf>)
    requires JoinedShow(after, y)
    ensures JoinedShow(Closing(inUl, inTable, after), y)
  {
    if inTable {
      BareCons(Close(Table), after, y);
    }
    var tables := if inTable then [[Close(Table)]] + after else after;
    if inUl {
      BareCons(Close(Ul), tables, y);
    }
  }

  /** A content line, opened by a container tag or not, after what is closed before it. */
  lemma ContentShows(inUl: bool, inTable: bool, open: seq<Token>, line: seq<Token>, rest: seq<seq<Token>>,
                     x: seq<Leaf>, y: seq<Leaf>)
    requires Shows(line, x) && JoinedShow(rest, y) && (open == [] || open == [Open(Ul)] || open == [Open(Table)])
    ensures JoinedShow(Closing(inUl, inTable, if open == [] then [line] + rest else [open] + ([line] + rest)), x + y)
  {
    JoinedCons(line, rest, x, y);
    if open != [] {
      BareCons(open[0], [line] + rest, x + y);
    }
    ClosingShows(inUl, inTable, if open == [] then [line] + rest else [open] + ([line] + rest), x + y);
  }

  /** What the converter still writes shows the elements of the lines before which it stands, in order. */
  lemma {:induction false} PendingShows(inUl: bool, inTable: bool, lines: seq<Line>)
    requires ProperLines(lines)
    ensures JoinedShow(Pending(inUl, inTable, lines), Leaves(lines))
    decreases |lines|
  {
    if lines == [] {
      ClosingShows(inUl, inTable, [], []);
    } else {
      var rest := lines[1..];
      match lines[0]
      case HeadingLine(level, text) =>
        PendingShows(false, false, rest);
        HeadingShows(level, text);
        ContentShows(inUl, inTable, [], Wrap(level, Chars(Escape(text))), Pending(false, false, rest),
                     LineLeaves(lines[0]), Leaves(rest));
      case TextLine(text) =>
        PendingShows(false, false, rest);
        InlineShows(P, text);
        ContentShows(inUl, inTable, [], Wrap(P, InlineTokens(text)), Pending(false, false, rest),
                     LineLeaves(lines[0]), Leaves(rest));
      case BlankLine =>
        PendingShows(false, false, rest);
        ClosingShows(inUl, inTable, Pending(false, false, rest), Leaves(rest));
      case SeparatorLine =>
        PendingShows(inUl, inTable, rest);
      case BulletLine(text) =>
        PendingShows(true, false, rest);
        InlineShows(Li, text);
        ContentShows(false, inTable, if inUl then [] else [Open(Ul)], Wrap(Li, InlineTokens(text)),
                     Pending(true, false, rest), LineLeaves(lines[0]), Leaves(rest));
      case RowLine(cells) =>
        PendingShows(false, true, rest);
        RowShows(cells, !inTable);
        ContentShows(inUl, false, if inTable then [] else [Open(Table)], Wrap(Tr, CellTokens(cells, !inTable)),
                     Pending(false, true, rest), LineLeaves(lines[0]), Leaves(rest));
    }
  }

  // ---------------------------------------------------------------- reading the text of the document

  predicate TextSafe(ts: seq<Token>) { forall i :: 0 <= i < |ts| ==> ts[i].Char? ==> ts[i].c != '<' }

  lemma {:induction false} AcceptedSafe(q: State, ts: seq<Token>)
    requires Read(q, ts).Some?
    ensures TextSafe(ts)
    decreases |ts|
  {
    if ts != [] {
      AcceptedSafe(Step(q, ts[0]).value, ts[1..]);
      forall i | 0 <= i < |ts| && ts[i].Char?
        ensures ts[i].c != '<'
      {
        if i > 0 {
          assert ts[1..][i - 1] == ts[i];
        }
      }
    }
  }

  lemma NameDetermines(a: Tag, b: Tag)
    requires TagName(a) == TagName(b)
    ensures a == b
  {
    var x, y := TagName(a), TagName(b);
    assert |x| == |y| && x[0] == y[0] && x[|x| - 1] == y[|y| - 1];
  }

  lemma TagNameChars(t: Tag)
    ensures TagName(t) != "" && forall i :: 0 <= i < |TagName(t)| ==> TagName(t)[i] != '>' && TagName(t)[i] != '/'
  {
  }

  /** A tag ends at its first bracket, so what follows a tag does not change how it is read. */
  lemma TagPrefix(t: Token, u: Token, a: string, b: string)
    requires !t.Char? && !u.Char? && SpellToken(t) + a == SpellToken(u) + b
    ensures t == u && a == b
  {
    var s, x, y := SpellToken(t) + a, SpellToken(t), SpellToken(u);
    TagNameChars(t.tag);
    TagNameChars(u.tag);
    TagEnd(t, a);
    TagEnd(u, b);
    assert |x| == |y|;
    assert x == s[..|x|] == y;
    assert a == s[|x|..] == b;
    assert (x[1] == '/') == t.Close? && (y[1] == '/') == u.Close?;
    var from := if t.Close? then 2 else 1;
    assert TagName(t.tag) == x[from..|x| - 1] == y[from..|y| - 1] == TagName(u.tag);
    NameDetermines(t.tag, u.tag);
  }

  lemma TagEnd(t: Token, rest: string)
    requires !t.Char?
    ensures IndexOf(SpellToken(t) + rest, c => c == '>') == |SpellToken(t)| - 1
  {
    var x := SpellToken(t);
    TagNameChars(t.tag);
    var from := if t.Close? then 2 else 1;
    forall i | 0 <= i < |x| - 1
      ensures (x + rest)[i] != '>'
    {
      if i >= from {
        assert x[i] == TagName(t.tag)[i - from];
      }
    }
    IndexOfIs(x + rest, c => c == '>', |x| - 1);
  }

  /** The text of a document determines its tokens. */
  lemma {:induction false} SpellInjective(a: seq<Token>, b: seq<Token>)
    requires TextSafe(a) && TextSafe(b) && Spell(a) == Spell(b)
    ensures a == b
    decreases |a|
  {
    if a == [] {
      if b != [] {
        SpellNonEmpty(b);
      }
    } else if b == [] {
      SpellNonEmpty(a);
    } else {
      var s := Spell(a);
      SpellHead(a);
      SpellHead(b);
      assert a[0].Char? == b[0].Char?;
      if a[0].Char? {
        assert a[0].c == s[0] == b[0].c;
        assert Spell(a[1..]) == s[1..] == Spell(b[1..]);
      } else {
        TagPrefix(a[0], b[0], Spell(a[1..]), Spell(b[1..]));
      }
      SpellInjective(a[1..], b[1..]);
      HeadTail(a);
      HeadTail(b);
    }
  }

  lemma SpellNonEmpty(ts: seq<Token>)
    requires ts != []
    ensures Spell(ts) != ""
  {
  }

  lemma SpellHead(ts: seq<Token>)
    requires ts != [] && TextSafe(ts)
    ensures TextSafe(ts[1..]) && Spell(ts) == SpellToken(ts[0]) + Spell(ts[1..])
    ensures ts[0].Char? ==> Spell(ts)[0] == ts[0].c != '<'
    ensures !ts[0].Char? ==> Spell(ts)[0] == '<'
  {
  }

  function DocumentTokens(markdown: string): seq<Token> { JoinTokens(DocumentLines(Blocks(Kinds(markdown)))) }

  /** The output can be read as tags and text. */
  lemma ReportReadable(markdown: string)
    ensures var ts := DocumentTokens(markdown);
      TextSafe(ts) && Spell(ts) == ReferenceHtml(markdown) && Read(Top, ts) == Some(Top)
  {
    BlocksProper(Kinds(markdown));
    ReadDocument(Blocks(Kinds(markdown)));
    ReadJoined(Top, DocumentLines(Blocks(Kinds(markdown))));
    AcceptedSafe(Top, DocumentTokens(markdown));
  }

  /**
   * However the output is read, the headings, paragraphs, list items and cells it shows are, in order, those of the
   * Markdown lines that are not blank and not separators, with their text unchanged but for backticks.
   */
  lemma ReportShowsLines(markdown: string, ts: seq<Token>)
    requires TextSafe(ts) && Spell(ts) == ReferenceHtml(markdown)
    ensures Shown(ts, None) == Leaves(Kinds(markdown)) && Read(Top, ts) == Some(Top)
  {
    ReportReadable(markdown);
    SpellInjective(ts, DocumentTokens(markdown));
    PendingTop(Kinds(markdown));
    PendingShows(false, false, Kinds(markdown));
  }
}
