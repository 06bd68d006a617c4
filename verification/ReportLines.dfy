/** Markdown lines in characters, and the text written for each block (src/report_builder.py:437-527). */
module ReportLines {
  import opened Prelude
  import opened ReportHtml
  import opened ReportReading

  // ---------------------------------------------------------------- line breaks and spaces

  /** The characters that end a line, and those that count as space, by code point. */
  predicate EndsLine(c: char) { c as int in {10, 11, 12, 13, 28, 29, 30, 133, 8232, 8233} }

  predicate Blank(c: char) {
    || c as int in {9, 10, 11, 12, 13, 28, 29, 30, 31, 32, 133, 160, 5760, 8232, 8233, 8239, 8287, 12288}
    || 8192 <= c as int <= 8202
  }

  lemma BreaksAre(c: char)
    ensures IsLineBreak(c) <==> EndsLine(c)
  {
  }

  lemma SpacesAre(c: char)
    ensures IsSpace(c) <==> Blank(c)
  {
  }

  ghost predicate OneLine(s: string) { forall c <- s :: !EndsLine(c) }

  lemma FirstBreak(a: string, rest: string)
    requires OneLine(a) && (rest == "" || EndsLine(rest[0]))
    ensures IndexOf(a + rest, c => IsLineBreak(c)) == |a|
  {
    forall i | 0 <= i < |a|
      ensures !IsLineBreak((a + rest)[i])
    {
      assert a[i] in a;
      BreaksAre(a[i]);
    }
    if rest != "" {
      BreaksAre(rest[0]);
    }
    IndexOfIs(a + rest, c => IsLineBreak(c), |a|);
  }

  /** A line ends at the first of these characters, or at a carriage return and line feed together; that is all. */
  lemma LineEnds(a: string, c: char, rest: string)
    requires OneLine(a)
    ensures SplitLines("") == [] && (a != "" ==> SplitLines(a) == [a])
    ensures SplitLines(a + "\r\n" + rest) == [a] + SplitLines(rest)
    ensures EndsLine(c) && !(c == '\r' && "\n" <= rest) ==> SplitLines(a + [c] + rest) == [a] + SplitLines(rest)
  {
    FirstBreak(a, "");
    assert a + "" == a;
    LineCut(a, "\r\n", rest);
    if EndsLine(c) && !(c == '\r' && "\n" <= rest) {
      LineCut(a, [c], rest);
    }
  }

  lemma LineCut(a: string, sep: string, rest: string)
    requires OneLine(a)
    requires sep == "\r\n" || (|sep| == 1 && EndsLine(sep[0]) && !(sep[0] == '\r' && "\n" <= rest))
    ensures SplitLines(a + sep + rest) == [a] + SplitLines(rest)
  {
    var s := a + sep + rest;
    FirstBreak(a, sep + rest);
    assert s == a + (sep + rest);
    assert s[..|a|] == a && s[|a|..] == sep + rest && s[|a| + |sep|..] == rest;
    assert ("\r\n" <= sep + rest) == (sep == "\r\n") by {
      if |sep| == 1 {
        assert (sep + rest)[0] == sep[0] && (rest != "" ==> (sep + rest)[1] == rest[0]);
      }
    }
  }

  // ---------------------------------------------------------------- trimming

  ghost predicate AllBlank(s: string) { forall c <- s :: Blank(c) }

  /** Neither end is space. */
  ghost predicate Tight(s: string) { s == "" || (!Blank(s[0]) && !Blank(s[|s| - 1])) }

  lemma {:induction false} DropLeft(a: string, s: string, has: char -> bool)
    requires (forall i :: 0 <= i < |a| ==> has(a[i])) && (s == "" || !has(s[0]))
    ensures StripLeft(a + s, has) == s
  {
    if a == "" {
      assert a + s == s;
    } else {
      assert (a + s)[0] == a[0] && (a + s)[1..] == a[1..] + s;
      DropLeft(a[1..], s, has);
    }
  }

  lemma {:induction false} DropRight(s: string, b: string, has: char -> bool)
    requires (forall i :: 0 <= i < |b| ==> has(b[i])) && (s == "" || !has(s[|s| - 1]))
    ensures StripRight(s + b, has) == s
  {
    if b == "" {
      assert s + b == s;
    } else {
      var n := |b| - 1;
      var t := s + b;
      assert t[|t| - 1] == b[n] && t[..|t| - 1] == s + b[..n];
      DropRight(s, b[..n], has);
    }
  }

  lemma BlankIsSpace(a: string)
    requires AllBlank(a)
    ensures forall i :: 0 <= i < |a| ==> IsSpace(a[i])
  {
    forall i | 0 <= i < |a|
      ensures IsSpace(a[i])
    {
      assert a[i] in a;
      SpacesAre(a[i]);
    }
  }

  /** Trimming drops the space around a text and nothing else. */
  lemma TrimRead(a: string, s: string, b: string)
    requires AllBlank(a) && AllBlank(b) && Tight(s)
    ensures Trim(a + s + b) == s
  {
    BlankIsSpace(a);
    BlankIsSpace(b);
    if s == "" {
      assert a + s + b == (a + b) + "";
      DropLeft(a + b, "", c => IsSpace(c));
    } else {
      SpacesAre(s[0]);
      SpacesAre(s[|s| - 1]);
      assert a + s + b == a + (s + b);
      DropLeft(a, s + b, c => IsSpace(c));
      DropRight(s, b, c => IsSpace(c));
    }
  }

  lemma TrimAtBlank(s: string)
    ensures Trim(s) == "" <==> AllBlank(s)
  {
    if AllBlank(s) {
      TrimRead(s, "", "");
      assert s + "" + "" == s;
    } else {
      var i :| 0 <= i < |s| && !Blank(s[i]);
      SpacesAre(s[i]);
      StripKeeps(s, i);
    }
  }

  lemma StripKeeps(s: string, i: nat)
    requires i < |s| && !IsSpace(s[i])
    ensures Trim(s) != ""
  {
    var k := LeftKeeps(s, c => IsSpace(c), i);
    StripRightKeeps(s[k..], i - k);
  }

  lemma {:induction false} LeftKeeps(s: string, has: char -> bool, i: nat) returns (k: nat)
    requires i < |s| && !has(s[i])
    ensures k <= i && StripLeft(s, has) == s[k..]
  {
    k := 0;
    if has(s[0]) {
      k := LeftKeeps(s[1..], has, i - 1);
      k := k + 1;
    }
  }

  lemma {:induction false} StripRightKeeps(s: string, i: nat)
    requires i < |s| && !IsSpace(s[i])
    ensures StripRight(s, c => IsSpace(c)) != ""
  {
    if IsSpace(s[|s| - 1]) {
      StripRightKeeps(s[..|s| - 1], i);
    }
  }

  // ---------------------------------------------------------------- what a line is

  /** Headings of three levels and bullets: their mark and one space are cut off, and the rest is kept as it is. */
  lemma MarksRead(text: string)
    ensures Classify("# " + text) == HeadingLine(H1, text)
    ensures Classify("## " + text) == HeadingLine(H2, text)
    ensures Classify("### " + text) == HeadingLine(H3, text)
    ensures Classify("- " + text) == BulletLine(text)
  {
    MarkedLine("# ", text);
    MarkedLine("## ", text);
    MarkedLine("### ", text);
    MarkedLine("- ", text);
    assert ("## " + text)[1] == '#' && ("### " + text)[1] == '#' && ("### " + text)[2] == '#';
    assert ("- " + text)[0] == '-';
  }

  lemma MarkedLine(mark: string, text: string)
    ensures mark <= mark + text && (mark + text)[|mark|..] == text
    ensures mark != "" ==> (mark + text)[0] == mark[0]
  {
  }

  ghost predicate Marked(line: string) { "# " <= line || "## " <= line || "### " <= line || "- " <= line }

  /** First and last character are bars; a single bar is both. */
  ghost predicate Barred(line: string) { line != "" && line[0] == '|' && line[|line| - 1] == '|' }

  lemma StartsWith(mark: string, line: string)
    requires mark <= line && mark != ""
    ensures line != "" && line[0] == mark[0]
  {
  }

  /** Every other line is blank when it holds only space, and otherwise a paragraph of the whole line. */
  lemma OthersRead(line: string)
    requires !Marked(line) && !Barred(line)
    ensures Classify(line) == if AllBlank(line) then BlankLine else TextLine(line)
  {
    TrimAtBlank(line);
    assert ("|" <= line) == (line != "" && line[0] == '|');
  }

  /** Lines between bars, and no others, are rows or separators. */
  lemma RowsOrSeparators(line: string)
    ensures Barred(line) <==> Classify(line).RowLine? || Classify(line).SeparatorLine?
  {
    assert ("|" <= line) == (line != "" && line[0] == '|');
    if Barred(line) {
      assert !("# " <= line) && !("## " <= line) && !("### " <= line);
    }
  }

  // ---------------------------------------------------------------- rows

  ghost predicate NoBar(s: string) { forall c <- s :: c != '|' }

  /** Cells with a bar between each two. */
  function Bars(cells: seq<string>): string {
    if cells == [] then "" else if |cells| == 1 then cells[0] else cells[0] + "|" + Bars(cells[1..])
  }

  ghost predicate OnlyBars(s: string) { forall i :: 0 <= i < |s| ==> s[i] == '|' }

  lemma FirstBar(cell: string, rest: string)
    requires NoBar(cell) && (rest == "" || rest[0] == '|')
    ensures IndexOf(cell + rest, c => c == '|') == |cell|
  {
    forall i | 0 <= i < |cell|
      ensures (cell + rest)[i] != '|'
    {
      assert cell[i] in cell;
    }
    IndexOfIs(cell + rest, c => c == '|', |cell|);
  }

  lemma {:induction false} SplitBars(cells: seq<string>)
    requires cells != [] && forall cell <- cells :: NoBar(cell)
    ensures Split(Bars(cells), '|') == cells
  {
    var s, cell := Bars(cells), cells[0];
    assert cell in cells;
    if |cells| == 1 {
      FirstBar(cell, "");
      assert cell + "" == cell;
    } else {
      var rest := Bars(cells[1..]);
      SplitBars(cells[1..]);
      FirstBar(cell, "|" + rest);
      assert s == cell + ("|" + rest);
      assert s[..|cell|] == cell && s[|cell| + 1..] == rest;
    }
  }

  lemma {:induction false} BarsEnds(cells: seq<string>)
    requires cells != [] && cells[|cells| - 1] != ""
    ensures var (s, last) := (Bars(cells), cells[|cells| - 1]); s != "" && s[|s| - 1] == last[|last| - 1]
    ensures cells[0] != "" ==> Bars(cells)[0] == cells[0][0]
  {
    if |cells| > 1 {
      BarsEnds(cells[1..]);
      var rest := Bars(cells[1..]);
      assert cells[1..][|cells| - 2] == cells[|cells| - 1];
      assert (cells[0] + "|" + rest)[|cells[0]| + |rest|] == rest[|rest| - 1];
    }
  }

  lemma StripBars(left: string, s: string, right: string)
    requires OnlyBars(left) && OnlyBars(right) && s != "" && s[0] != '|' && s[|s| - 1] != '|'
    ensures Strip(left + s + right, c => c == '|') == s
  {
    assert left + s + right == left + (s + right);
    DropLeft(left, s + right, c => c == '|');
    DropRight(s, right, c => c == '|');
  }

  lemma BarredLine(left: string, s: string, right: string)
    requires OnlyBars(left) && OnlyBars(right) && left != "" && right != ""
    ensures Barred(left + s + right)
  {
    var line := left + s + right;
    assert line[0] == left[0] && line[|line| - 1] == right[|right| - 1];
  }

  lemma NoBarEnds(cells: seq<string>)
    requires cells != [] && cells[0] != "" && cells[|cells| - 1] != "" && forall cell <- cells :: NoBar(cell)
    ensures var s := Bars(cells); s != "" && s[0] != '|' && s[|s| - 1] != '|'
  {
    BarsEnds(cells);
    var first, last := cells[0], cells[|cells| - 1];
    assert first in cells && last in cells && first[0] in first && last[|last| - 1] in last;
  }

  lemma RowOf(line: string)
    requires Barred(line)
    ensures var cells := Map(Split(Strip(line, c => c == '|'), '|'), cell => Trim(cell));
      Classify(line) == if OnlyDashes(cells[0]) then SeparatorLine else RowLine(cells)
  {
    assert "|" <= line;
    assert !("# " <= line) && !("## " <= line) && !("### " <= line);
  }

  /**
   * A row: any bars, cells with a bar between each two, any bars. Its cells are trimmed, and it is a row unless its
   * first cell has no characters but dashes and colons.
   */
  lemma RowRead(left: string, cells: seq<string>, right: string)
    requires OnlyBars(left) && OnlyBars(right) && left != "" && right != ""
    requires cells != [] && cells[0] != "" && cells[|cells| - 1] != "" && forall cell <- cells :: NoBar(cell)
    ensures Classify(left + Bars(cells) + right)
      == if OnlyDashes(Trim(cells[0])) then SeparatorLine else RowLine(Map(cells, cell => Trim(cell)))
  {
    NoBarEnds(cells);
    StripBars(left, Bars(cells), right);
    BarredLine(left, Bars(cells), right);
    SplitBars(cells);
    RowOf(left + Bars(cells) + right);
  }

  // ---------------------------------------------------------------- the text written

  /** A value with its code spans: escaped, and every second part between backticks in a code element. */
  function Inline(parts: seq<string>, code: bool): string {
    if parts == [] then ""
    else (if code then "<code>" + parts[0] + "</code>" else parts[0]) + Inline(parts[1..], !code)
  }

  function Value(s: string): string { Inline(Split(Escape(s), '`'), false) }

  function Around(open: string, inner: string, close: string): string { open + inner + close }

  function ItemTexts(items: seq<string>): seq<string> {
    if items == [] then ["</ul>"] else [Around("<li>", Value(items[0]), "</li>")] + ItemTexts(items[1..])
  }

  function CellTexts(cells: seq<string>, head: bool): string {
    if cells == [] then ""
    else
      (if head then Around("<th>", Value(cells[0]), "</th>") else Around("<td>", Value(cells[0]), "</td>"))
      + CellTexts(cells[1..], head)
  }

  function RowTexts(rows: seq<seq<string>>, head: bool): seq<string> {
    if rows == [] then ["</table>"]
    else [Around("<tr>", CellTexts(rows[0], head), "</tr>")] + RowTexts(rows[1..], false)
  }

  /** The lines written for one block. */
  function BlockTexts(b: Block): seq<string> {
    match b
    case Heading(H1, text) => [Around("<h1>", Escape(text), "</h1>")]
    case Heading(H2, text) => [Around("<h2>", Escape(text), "</h2>")]
    case Heading(_, text) => [Around("<h3>", Escape(text), "</h3>")]
    case Paragraph(text) => [Around("<p>", Value(text), "</p>")]
    case Bullets(items) => ["<ul>"] + ItemTexts(items)
    case Rows(rows) => ["<table>"] + RowTexts(rows, true)
  }

  function AllTexts(blocks: seq<Block>): seq<string> {
    if blocks == [] then [] else BlockTexts(blocks[0]) + AllTexts(blocks[1..])
  }

  lemma {:induction false} ValueIs(parts: seq<string>, code: bool)
    ensures TextOfParts(parts, code) == Inline(parts, code)
  {
    if parts != [] {
      ValueIs(parts[1..], !code);
    }
  }

  lemma ElementIs(tag: Tag, inner: seq<Token>)
    ensures Spell(Wrap(tag, inner)) == Around("<" + TagName(tag) + ">", Spell(inner), "</" + TagName(tag) + ">")
  {
    SpellElement(tag, inner);
    var (name, text) := (TagName(tag), Spell(inner));
    assert "<" + name + ">" + text + "</" + name + ">" == ("<" + name + ">") + text + ("</" + name + ">");
  }

  lemma NamesAre()
    ensures forall t: Tag :: "<" + TagName(t) + ">" == Opening(t) && "</" + TagName(t) + ">" == Ending(t)
  {
    forall t: Tag
      ensures "<" + TagName(t) + ">" == Opening(t) && "</" + TagName(t) + ">" == Ending(t)
    {
      OneName(t);
    }
  }

  function Opening(t: Tag): string {
    match t
    case H1 => "<h1>" case H2 => "<h2>" case H3 => "<h3>" case P => "<p>" case Ul => "<ul>" case Li => "<li>"
    case Table => "<table>" case Tr => "<tr>" case Th => "<th>" case Td => "<td>" case Code => "<code>"
  }

  function Ending(t: Tag): string {
    match t
    case H1 => "</h1>" case H2 => "</h2>" case H3 => "</h3>" case P => "</p>" case Ul => "</ul>" case Li => "</li>"
    case Table => "</table>" case Tr => "</tr>" case Th => "</th>" case Td => "</td>" case Code => "</code>"
  }

  lemma OneName(t: Tag)
    ensures "<" + TagName(t) + ">" == Opening(t) && "</" + TagName(t) + ">" == Ending(t)
  {
  }

  lemma ValueSpelled(tag: Tag, value: string)
    ensures Spell(Wrap(tag, InlineTokens(value))) == Around(Opening(tag), Value(value), Ending(tag))
  {
    SpellParts(Split(Escape(value), '`'), false);
    ValueIs(Split(Escape(value), '`'), false);
    ElementIs(tag, InlineTokens(value));
    OneName(tag);
  }

  lemma {:induction false} CellsSpelled(cells: seq<string>, head: bool)
    ensures Spell(CellTokens(cells, head)) == CellTexts(cells, head)
  {
    if cells != [] {
      CellsSpelled(cells[1..], head);
      ValueSpelled(CellTag(head), cells[0]);
      SpellAppend(Wrap(CellTag(head), InlineTokens(cells[0])), CellTokens(cells[1..], head));
    }
  }

  lemma RowSpelled(cells: seq<string>, head: bool)
    ensures Spell(Wrap(Tr, CellTokens(cells, head))) == Around("<tr>", CellTexts(cells, head), "</tr>")
  {
    CellsSpelled(cells, head);
    ElementIs(Tr, CellTokens(cells, head));
    OneName(Tr);
  }

  lemma HeadingSpelled(level: Tag, text: string)
    ensures Spell(Wrap(level, Chars(Escape(text)))) == Around(Opening(level), Escape(text), Ending(level))
  {
    SpellChars(Escape(text));
    ElementIs(level, Chars(Escape(text)));
    OneName(level);
  }

  lemma SpellCons(line: seq<Token>, after: seq<seq<Token>>)
    ensures SpellLines([line] + after) == [Spell(line)] + SpellLines(after)
  {
    ConsTail(line, after);
  }

  lemma {:induction false} ItemsSpelled(items: seq<string>, after: seq<seq<Token>>)
    ensures SpellLines(ItemLines(items, after)) == ItemTexts(items) + SpellLines(after)
  {
    if items == [] {
      SpellTags();
      SpellCons([Close(Ul)], after);
    } else {
      ItemsSpelled(items[1..], after);
      ValueSpelled(Li, items[0]);
      SpellCons(Wrap(Li, InlineTokens(items[0])), ItemLines(items[1..], after));
      AppendAssociative([Around("<li>", Value(items[0]), "</li>")], ItemTexts(items[1..]), SpellLines(after));
    }
  }

  lemma {:induction false} RowsSpelled(rows: seq<seq<string>>, head: bool, after: seq<seq<Token>>)
    ensures SpellLines(RowLines(rows, head, after)) == RowTexts(rows, head) + SpellLines(after)
  {
    if rows == [] {
      SpellTags();
      SpellCons([Close(Table)], after);
    } else {
      RowsSpelled(rows[1..], false, after);
      RowSpelled(rows[0], head);
      SpellCons(Wrap(Tr, CellTokens(rows[0], head)), RowLines(rows[1..], false, after));
      AppendAssociative([Around("<tr>", CellTexts(rows[0], head), "</tr>")], RowTexts(rows[1..], false),
                        SpellLines(after));
    }
  }

  lemma BlockSpelled(b: Block, after: seq<seq<Token>>)
    requires ProperBlock(b)
    ensures SpellLines(BlockLines(b, after)) == BlockTexts(b) + SpellLines(after)
  {
    match b
    case Heading(level, text) =>
      HeadingSpelled(level, text);
      SpellCons(Wrap(level, Chars(Escape(text))), after);
    case Paragraph(text) =>
      ValueSpelled(P, text);
      SpellCons(Wrap(P, InlineTokens(text)), after);
    case Bullets(items) =>
      SpellTags();
      ItemsSpelled(items, after);
      SpellCons([Open(Ul)], ItemLines(items, after));
      AppendAssociative(["<ul>"], ItemTexts(items), SpellLines(after));
    case Rows(rows) =>
      SpellTags();
      RowsSpelled(rows, true, after);
      SpellCons([Open(Table)], RowLines(rows, true, after));
      AppendAssociative(["<table>"], RowTexts(rows, true), SpellLines(after));
  }

  lemma {:induction false} BlocksSpelled(blocks: seq<Block>)
    requires forall i :: 0 <= i < |blocks| ==> ProperBlock(blocks[i])
    ensures SpellLines(DocumentLines(blocks)) == AllTexts(blocks)
  {
    if blocks != [] {
      BlocksSpelled(blocks[1..]);
      BlockSpelled(blocks[0], DocumentLines(blocks[1..]));
    }
  }

  /** The document is the lines written for its blocks, joined by line feeds. */
  lemma DocumentText(markdown: string)
    ensures ReferenceHtml(markdown) == Join(AllTexts(Blocks(Kinds(markdown))))
  {
    BlocksProper(Kinds(markdown));
    BlocksSpelled(Blocks(Kinds(markdown)));
    JoinSpells(DocumentLines(Blocks(Kinds(markdown))));
  }
}
