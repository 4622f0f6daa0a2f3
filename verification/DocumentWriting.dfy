/** Whole documents, written and parsed again: every kind of block is read as it was written, and where one block
    ends and the next begins. */
module DocumentWriting {
  import opened DocumentParser
  import opened DocumentSpec
  import opened DocumentText
  import opened LineReader
  import opened LineWriting
  import opened Text
  import opened Wrappers

  predicate OneLine(s: string) {
    '\n' !in s && '\r' !in s
  }

  /** A stripped line of text. */
  predicate Written(t: string) {
    Tight(t) && OneLine(t)
  }

  // ----- contents as lines

  lemma {:induction false} NormalizeKeeps(s: string)
    requires '\r' !in s
    ensures Normalize(s) == s
  {
    if s != [] {
      assert s == [s[0]] + s[1..];
      assert s[0] in s;
      NormalizeKeeps(s[1..]);
    }
  }

  lemma {:induction false} JoinWithout(sep: string, parts: seq<string>, c: char)
    requires c !in sep && forall p | p in parts :: c !in p
    ensures c !in Join(sep, parts)
  {
    if |parts| > 1 {
      assert forall p | p in parts[1..] :: p in parts;
      JoinWithout(sep, parts[1..], c);
      assert c !in parts[0];
    } else if |parts| == 1 {
      assert parts[0] in parts;
    }
  }

  /** Lines of which the first has no space before it and the last none behind it. */
  predicate Framed(raws: seq<string>) {
    && raws != [] && (forall r | r in raws :: OneLine(r))
    && raws[0] != [] && !IsSpace(raws[0][0])
    && var last := raws[|raws| - 1];
    last != [] && !IsSpace(last[|last| - 1])
  }

  /** A content of such lines is parsed line by line. */
  lemma {:induction false} ContentOfLines(raws: seq<string>)
    requires Framed(raws)
    ensures ContentBlocks(Join("\n", raws)) == Blocks(ReadAll(raws))
  {
    var t := Join("\n", raws);
    JoinWithout("\n", raws, '\r');
    NormalizeKeeps(t);
    JoinEnds("\n", raws);
    StripTight(t);
    assert "\n" == ['\n'];
    SplitJoin(raws, '\n');
  }

  /** The line ends that become a newline. */
  predicate LineEnd(sep: string, rest: string) {
    sep == ['\r', '\n'] || (sep == ['\r'] && (rest == [] || rest[0] != '\n'))
  }

  lemma {:induction false} NormalizeEnd(sep: string, rest: string)
    requires LineEnd(sep, rest)
    ensures Normalize(sep + rest) == ['\n'] + Normalize(rest)
  {
    var t := sep + rest;
    if |sep| == 2 {
      assert t[0] == '\r' && t[1] == '\n' && t[2..] == rest;
    } else {
      assert t[0] == '\r' && t[1..] == rest;
      assert rest != [] ==> t[1] == rest[0];
    }
  }

  lemma {:induction false} NormalizeLine(first: string, sep: string, rest: string)
    requires OneLine(first) && LineEnd(sep, rest)
    ensures Normalize(first + sep + rest) == first + ['\n'] + Normalize(rest)
  {
    NormalizeKeeps(first);
    assert first != [] ==> first[|first| - 1] in first;
    NormalizeAppend(first, sep + rest);
    NormalizeEnd(sep, rest);
    assert first + sep + rest == first + (sep + rest);
    assert first + (['\n'] + Normalize(rest)) == first + ['\n'] + Normalize(rest);
  }

  lemma {:induction false} JoinedByLineEnds(raws: seq<string>, sep: string)
    requires raws != [] && (forall r | r in raws :: OneLine(r)) && (sep == ['\r', '\n'] || sep == ['\r'])
    ensures Normalize(Join(sep, raws)) == Join(['\n'], raws)
  {
    assert OneLine(raws[0]) by {
      assert raws[0] in raws;
    }
    if |raws| > 1 {
      assert forall r | r in raws[1..] :: r in raws;
      JoinedByLineEnds(raws[1..], sep);
      var rest := Join(sep, raws[1..]);
      if sep == ['\r'] {
        JoinWithout(sep, raws[1..], '\n');
        assert rest != [] ==> rest[0] in rest;
      }
      NormalizeLine(raws[0], sep, rest);
    } else {
      NormalizeKeeps(raws[0]);
    }
  }

  /** Lines may end in a carriage return and a newline, or in a carriage return alone: it is the same content. */
  lemma {:induction false} LineEndsAreOne(raws: seq<string>)
    requires raws != [] && forall r | r in raws :: OneLine(r)
    ensures ContentBlocks(Join("\r\n", raws)) == ContentBlocks(Join("\n", raws))
    ensures ContentBlocks(Join("\r", raws)) == ContentBlocks(Join("\n", raws))
  {
    JoinedByLineEnds(raws, ['\r', '\n']);
    JoinedByLineEnds(raws, ['\r']);
    JoinWithout("\n", raws, '\r');
    NormalizeKeeps(Join("\n", raws));
  }

  // ----- where a block ends

  /** A line that is a block of its own. */
  predicate Alone(l: Line) {
    l.text != [] && (l.pageBreak || l.heading.Some?)
  }

  lemma {:induction false} BlocksOfFirst(first: seq<Line>, rest: seq<Line>)
    requires first != [] && SpanOf(first + rest) == |first|
    ensures Blocks(first + rest) == BlockOf(BranchAt(first + rest), first) + Blocks(rest)
  {
    assert (first + rest)[..|first|] == first && (first + rest)[|first|..] == rest;
  }

  lemma {:induction false} BlocksOfNone()
    ensures Blocks([]) == []
  {
  }

  /** A heading or page break is followed by the blocks of the lines after it. */
  lemma {:induction false} AloneStands(l: Line, rest: seq<Line>)
    requires Alone(l)
    ensures Blocks([l] + rest)
            == [if l.pageBreak then PageBreak else Heading(l.heading.value.text, l.heading.value.level)] + Blocks(rest)
  {
    assert ([l] + rest)[0] == l;
    BlocksOfFirst([l], rest);
  }

  /** A line of a list of this kind and of nothing before it in the order of the parser. */
  predicate Listed(l: Line, ordered: bool) {
    && l.text != [] && !l.pageBreak && l.heading.None? && !l.separator
    && l.Marker(ordered).Some? && l.Marker(ordered).value != [] && l.Marker(!ordered).None?
  }

  function ItemsListed(lines: seq<Line>, ordered: bool): (items: seq<string>)
    ensures |items| == |lines|
  {
    seq(|lines|, i requires 0 <= i < |lines| => ItemOf(lines[i], ordered))
  }

  function ItemOf(l: Line, ordered: bool): string {
    if l.Marker(ordered).Some? then l.Marker(ordered).value else []
  }

  lemma {:induction false} ItemsAreListed(lines: seq<Line>, rest: seq<Line>, ordered: bool)
    requires forall l | l in lines :: Listed(l, ordered)
    requires rest == [] || rest[0].Marker(ordered).None?
    ensures ItemsSpan(lines + rest, ordered) == |lines| && Items(lines, ordered) == ItemsListed(lines, ordered)
  {
    if lines == [] {
      assert lines + rest == rest;
    } else {
      assert lines[0] in lines && forall l | l in lines[1..] :: l in lines;
      assert (lines + rest)[1..] == lines[1..] + rest;
      ItemsAreListed(lines[1..], rest, ordered);
      assert ItemsListed(lines, ordered) == [ItemsListed(lines, ordered)[0]] + ItemsListed(lines[1..], ordered);
    }
  }

  /** A list goes as far as its markers do, and not further. */
  lemma {:induction false} ListEnds(lines: seq<Line>, rest: seq<Line>, ordered: bool)
    requires lines != [] && (forall l | l in lines :: Listed(l, ordered))
    requires rest == [] || (rest[0].Marker(ordered).None? && (|lines| == 1 ==> !rest[0].separator))
    ensures Blocks(lines + rest) == [List(ItemsListed(lines, ordered), ordered)] + Blocks(rest)
  {
    var all := lines + rest;
    assert lines[0] in lines && all[0] == lines[0];
    assert !TableStart(all) by {
      if |lines| > 1 {
        assert lines[1] in lines && all[1] == lines[1];
      } else if rest != [] {
        assert all[1] == rest[0];
      }
    }
    ItemsAreListed(lines, rest, ordered);
    assert BranchAt(all) == Listing(ordered);
    BlocksOfFirst(lines, rest);
  }

  /** A line of prose, with no pipe. */
  predicate Prosaic(l: Line) {
    && l.text != [] && !l.pageBreak && l.heading.None? && !l.separator && !l.HasPipe()
    && l.bullet.None? && l.number.None?
  }

  /** What ends a paragraph. */
  predicate StartsAnew(lines: seq<Line>) {
    || lines == [] || lines[0].text == [] || lines[0].heading.Some? || lines[0].pageBreak
    || lines[0].bullet.Some? || lines[0].number.Some?
    || (|lines| >= 2 && lines[0].HasPipe() && lines[1].separator)
  }

  lemma {:induction false} ProseSpans(lines: seq<Line>, rest: seq<Line>)
    requires (forall l | l in lines :: Prosaic(l)) && StartsAnew(rest)
    ensures ParagraphSpan(lines + rest) == |lines|
  {
    if lines == [] {
      assert lines + rest == rest;
    } else {
      assert lines[0] in lines && forall l | l in lines[1..] :: l in lines;
      assert (lines + rest)[1..] == lines[1..] + rest && (lines + rest)[0] == lines[0];
      ProseSpans(lines[1..], rest);
    }
  }

  /** A paragraph goes as far as its prose does, and not further. */
  lemma {:induction false} ParagraphEnds(lines: seq<Line>, rest: seq<Line>)
    requires lines != [] && (forall l | l in lines :: Prosaic(l)) && StartsAnew(rest)
    requires !Blank(Join(" ", Texts(lines)))
    ensures Blocks(lines + rest) == [Paragraph(Clean(Join(" ", Texts(lines))))] + Blocks(rest)
  {
    var all := lines + rest;
    assert lines[0] in lines && all[0] == lines[0];
    assert all[1..] == lines[1..] + rest && forall l | l in lines[1..] :: l in lines;
    ProseSpans(lines[1..], rest);
    CleanNonEmpty(Join(" ", Texts(lines)));
    assert BranchAt(all) == Prose;
    BlocksOfFirst(lines, rest);
  }

  predicate RowLine(l: Line) {
    l.text != [] && l.HasPipe()
  }

  function RowsOf(lines: seq<Line>): (rows: seq<seq<string>>)
    ensures |rows| == |lines|
  {
    seq(|lines|, i requires 0 <= i < |lines| => SplitRow(lines[i].text))
  }

  lemma RowsOfCons(lines: seq<Line>)
    requires lines != []
    ensures RowsOf(lines) == [SplitRow(lines[0].text)] + RowsOf(lines[1..])
  {
  }

  lemma {:induction false} RowsAreRows(lines: seq<Line>, rest: seq<Line>)
    requires (forall l | l in lines :: RowLine(l)) && (rest == [] || !RowLine(rest[0]))
    ensures RowsSpan(lines + rest) == |lines| && Rows(lines) == RowsOf(lines)
  {
    if lines == [] {
      assert lines + rest == rest;
    } else {
      assert lines[0] in lines && forall l | l in lines[1..] :: l in lines;
      assert (lines + rest)[1..] == lines[1..] + rest && (lines + rest)[0] == lines[0];
      RowsAreRows(lines[1..], rest);
      RowsOfCons(lines);
    }
  }

  /** The rows, each filled up with empty cells to a width. */
  predicate FilledTo(rows: seq<seq<string>>, table: seq<seq<string>>, w: nat) {
    && |table| == |rows| && (forall row | row in rows :: |row| <= w)
    && forall i | 0 <= i < |rows| && |rows[i]| <= w :: table[i] == rows[i] + seq(w - |rows[i]|, _ => [])
  }

  ghost predicate WidthOf(rows: seq<seq<string>>, w: nat) {
    exists row :: row in rows && |row| == w
  }

  /** The rows, each filled up to the width of the widest. */
  ghost predicate FilledUp(rows: seq<seq<string>>, table: seq<seq<string>>) {
    exists w: nat :: FilledTo(rows, table, w) && WidthOf(rows, w)
  }

  lemma {:induction false} WidthIsReached(rows: seq<seq<string>>)
    requires rows != []
    ensures WidthOf(rows, Width(rows))
  {
    if |rows[0]| >= Width(rows[1..]) || rows[1..] == [] {
      assert rows[0] in rows;
    } else {
      WidthIsReached(rows[1..]);
      var row :| row in rows[1..] && |row| == Width(rows[1..]);
      assert row in rows;
    }
  }

  lemma {:induction false} PadAllIs(rows: seq<seq<string>>, w: nat)
    requires forall row | row in rows :: |row| <= w
    ensures forall i | 0 <= i < |rows| :: PadAll(rows, w)[i] == rows[i] + seq(w - |rows[i]|, _ => [])
  {
    if rows != [] {
      assert rows[0] in rows && forall row | row in rows[1..] :: row in rows;
      PadAllIs(rows[1..], w);
      forall i | 0 <= i < |rows|
        ensures PadAll(rows, w)[i] == rows[i] + seq(w - |rows[i]|, _ => [])
      {
        if i > 0 {
          assert PadAll(rows, w)[i] == PadAll(rows[1..], w)[i - 1] && rows[i] == rows[1..][i - 1];
        } else {
          assert rows[0] + [] == rows[0];
        }
      }
    }
  }

  lemma TableIsFilledUp(rows: seq<seq<string>>)
    requires rows != []
    ensures TableOf(rows).Table? && FilledUp(rows, TableOf(rows).rows)
  {
    WidthIsReached(rows);
    WidthCovers(rows);
    PadAllIs(rows, Width(rows));
    assert FilledTo(rows, PadAll(rows, Width(rows)), Width(rows));
  }

  /** A header, a separator and rows are a table, which goes as far as its pipes do. */
  lemma {:induction false} TableEnds(header: Line, separator: Line, rows: seq<Line>, rest: seq<Line>)
    requires RowLine(header) && !header.pageBreak && header.heading.None? && separator.separator
    requires (forall l | l in rows :: RowLine(l)) && (rest == [] || !RowLine(rest[0]))
    ensures exists table ::
              && FilledUp([SplitRow(header.text)] + RowsOf(rows), table)
              && Blocks([header, separator] + rows + rest) == [Table(table)] + Blocks(rest)
  {
    var lines := [header, separator] + rows;
    var all := lines + rest;
    assert all[0] == header && all[1] == separator && all[2..] == rows + rest && lines[2..] == rows;
    RowsAreRows(rows, rest);
    assert BranchAt(all) == Tabular;
    BlocksOfFirst(lines, rest);
    TableIsFilledUp([SplitRow(header.text)] + RowsOf(rows));
    assert [header, separator] + rows + rest == all;
  }

  // ----- the lines of each kind

  lemma {:induction false} FirstPart(s: string, c: char)
    requires s != [] && s[0] != c
    ensures Split(s, c)[0] != [] && Split(s, c)[0][0] == s[0]
    ensures |s| >= 2 && s[1] != c ==> |Split(s, c)[0]| >= 2 && Split(s, c)[0][1] == s[1]
  {
    if |s| >= 2 && s[1] != c {
      FirstPart(s[1..], c);
    }
  }

  lemma FirstKept(s: string)
    requires s != [] && !IsSpace(s[0])
    ensures Strip(s) != [] && Strip(s)[0] == s[0]
    ensures |s| >= 2 && |Strip(s)| >= 2 ==> Strip(s)[1] == s[1]
  {
    var w := RStripSplits(s);
    assert LStrip(s) == s;
    assert s[0] in s;
  }

  lemma InnerStarts(t: string)
    requires t != [] && t[0] != '|'
    ensures Inner(t) != [] && Inner(t)[0] == t[0] && Inner(t) <= t
  {
  }

  /** The first cell of a separator starts with dashes only. */
  lemma {:induction false} SeparatorStarts(t: string)
    requires SeparatorText(t) && t != [] && t[0] != '|' && !IsSpace(t[0])
    ensures t[0] == ':' || t[0] == '-'
    ensures t[0] == '-' ==> |t| >= 3 && !IsSpace(t[1])
  {
    var b := Inner(t);
    InnerStarts(t);
    FirstPart(b, '|');
    var first := Split(b, '|')[0];
    assert first in Split(b, '|') && DashCell(Strip(first));
    FirstKept(first);
    DashIsExact(Strip(first));
    DashCellStarts(Strip(first));
    if t[0] == '-' {
      assert |first| >= 3;
      assert first <= b by {
        FirstPartIsPrefix(b, '|');
      }
      assert t[1] == first[1] == Strip(first)[1];
    }
  }

  lemma {:induction false} FirstPartIsPrefix(s: string, c: char)
    ensures Split(s, c)[0] <= s
  {
    if s != [] {
      FirstPartIsPrefix(s[1..], c);
      assert s == [s[0]] + s[1..];
    }
  }

  lemma DashCellStarts(cell: string)
    requires DashCell(cell)
    ensures |cell| >= 3 && (cell[0] == ':' || (cell[0] == '-' && cell[1] == '-'))
  {
    var a := if cell[0] == ':' then cell[1..] else cell;
    var b := if a[|a| - 1] == ':' then a[..|a| - 1] else a;
    assert b[0] in b && b[1] in b;
  }

  lemma {:induction false} WrittenIsStripped(t: string)
    requires Tight(t)
    ensures Read(t).text == t
  {
    StripTight(t);
  }

  lemma HeadingLineReads(n: nat, w: string, s: string)
    requires 1 <= n <= 6 && Gap(w) && Tight(s)
    ensures var l := Read(Repeat('#', n) + w + s); Alone(l) && !l.pageBreak && l.heading == Some(HeadingLine(n, Clean(s)))
  {
    var t := Repeat('#', n) + w + s;
    assert t[0] == '#' && t[|t| - 1] == s[|s| - 1];
    WrittenIsStripped(t);
    HeadingIsRead(n, w, s);
    BreakIsExact(t);
    FormStarts(t);
  }

  lemma BreakLineReads(t: string)
    requires BreakForm(t) && Tight(t)
    ensures Alone(Read(t)) && Read(t).pageBreak
  {
    WrittenIsStripped(t);
    BreakIsExact(t);
  }

  /** A list item with its indent, marker and gap. */
  datatype Item = Item(indent: string, marker: string, gap: string, text: string) {
    function Raw(): string {
      indent + (marker + gap + text)
    }

    predicate Ok(ordered: bool) {
      Blank(indent) && Marker(marker, ordered) && Gap(gap) && Tight(text)
    }
  }

  lemma {:induction false} ItemLineReads(item: Item, ordered: bool)
    requires item.Ok(ordered)
    ensures Listed(Read(item.Raw()), ordered) && ItemOf(Read(item.Raw()), ordered) == Clean(item.text)
  {
    var t := item.marker + item.gap + item.text;
    ItemIsTight(item, ordered);
    ReadIgnoresLeading(item.indent, t);
    WrittenIsStripped(t);
    ItemIsMarked(item, ordered);
    ItemIsNothingElse(t, ordered, item);
    assert item.text[0] in item.text;
    CleanNonEmpty(item.text);
  }

  lemma {:induction false} ItemIsTight(item: Item, ordered: bool)
    requires item.Ok(ordered)
    ensures Tight(item.marker + item.gap + item.text)
  {
    var t := item.marker + item.gap + item.text;
    assert t == item.marker + (item.gap + item.text);
    MarkerStarts(item.marker, ordered, item.gap + item.text);
    assert t[|t| - 1] == item.text[|item.text| - 1] && t[0] == item.marker[0];
  }

  lemma {:induction false} ItemIsMarked(item: Item, ordered: bool)
    requires item.Ok(ordered)
    ensures var t := item.marker + item.gap + item.text;
      && (if ordered then Number(t) else Bullet(t)) == Some(Clean(item.text))
      && (if ordered then Bullet(t) else Number(t)).None?
  {
    var t := item.marker + item.gap + item.text;
    assert [] + t == t;
    if ordered {
      NumberIsRead([], item.marker, item.gap, item.text);
    } else {
      BulletIsRead([], item.marker, item.gap, item.text);
    }
  }

  lemma ItemIsNothingElse(t: string, ordered: bool, item: Item)
    requires item.Ok(ordered) && t == item.marker + item.gap + item.text && Tight(t)
    ensures !PageBreakText(t) && HeadingOf(t).None? && !SeparatorText(t)
  {
    BreakIsExact(t);
    FormStarts(t);
    assert t[0] == item.marker[0] && item.gap[0] in item.gap;
    if ordered {
      assert IsDigit(t[0]);
    } else {
      assert t[1] == item.gap[0] && IsSpace(t[1]);
    }
    if SeparatorText(t) {
      SeparatorStarts(t);
    }
  }

  /** A stripped line that has none of the forms. */
  ghost predicate ProseForm(t: string) {
    && Tight(t) && !BreakForm(t) && (forall n, s :: !HeadingForm(t, n, s))
    && (forall s :: !ItemForm(t, false, s)) && (forall s :: !ItemForm(t, true, s))
  }

  lemma ProseLineReads(t: string)
    requires ProseForm(t)
    ensures var l := Read(t);
      l.text == t && !l.pageBreak && l.heading.None? && l.bullet.None? && l.number.None?
    ensures '|' !in t ==> Prosaic(Read(t))
  {
    WrittenIsStripped(t);
    BreakIsExact(t);
    HeadingIsExact(t);
    ItemIsExact(t, false);
    ItemIsExact(t, true);
    if SeparatorText(t) {
      PipesMakeSeparators(t);
    }
  }

  lemma RowLineReads(cells: seq<string>)
    requires cells != [] && forall c | c in cells :: Cell(c)
    ensures var l := Read(RowText(cells));
      RowLine(l) && !l.pageBreak && l.heading.None? && SplitRow(l.text) == CleanAll(cells)
  {
    RowIsRead(cells);
    WrittenIsStripped(RowText(cells));
    BreakIsExact(RowText(cells));
    FormStarts(RowText(cells));
  }

  // ----- contents of one block

  lemma {:induction false} ReadOne(t: string)
    requires Written(t)
    ensures ContentBlocks(t) == Blocks([Read(t)])
  {
    assert Join("\n", [t]) == t;
    ContentOfLines([t]);
    assert ReadAll([t]) == [Read(t)];
  }

  /** A heading reads as it is written, with its level. */
  lemma {:induction false} HeadingRoundTrip(n: nat, w: string, s: string)
    requires 1 <= n <= 6 && Gap(w) && OneLine(w) && Written(s)
    ensures ContentBlocks(Repeat('#', n) + w + s) == [Heading(Clean(s), n)]
  {
    var t := Repeat('#', n) + w + s;
    assert t[0] == '#' && t[|t| - 1] == s[|s| - 1];
    HeadingLineReads(n, w, s);
    ReadOne(t);
    AloneStands(Read(t), []);
    assert [Read(t)] + [] == [Read(t)];
  }

  lemma {:induction false} BreakRoundTrip(t: string)
    requires BreakForm(t) && Written(t)
    ensures ContentBlocks(t) == [PageBreak]
  {
    BreakLineReads(t);
    ReadOne(t);
    AloneStands(Read(t), []);
    assert [Read(t)] + [] == [Read(t)];
  }

  function Raws(items: seq<Item>): (raws: seq<string>)
    ensures |raws| == |items| && forall i | 0 <= i < |items| :: raws[i] == items[i].Raw()
  {
    seq(|items|, i requires 0 <= i < |items| => items[i].Raw())
  }

  function CleanTexts(items: seq<Item>): (texts: seq<string>)
    ensures |texts| == |items| && forall i | 0 <= i < |items| :: texts[i] == Clean(items[i].text)
  {
    seq(|items|, i requires 0 <= i < |items| => Clean(items[i].text))
  }

  lemma {:induction false} ItemLinesRead(items: seq<Item>, ordered: bool)
    requires forall item | item in items :: item.Ok(ordered)
    ensures forall l | l in ReadAll(Raws(items)) :: Listed(l, ordered)
    ensures ItemsListed(ReadAll(Raws(items)), ordered) == CleanTexts(items)
  {
    forall i | 0 <= i < |items|
      ensures Listed(ReadAll(Raws(items))[i], ordered)
      ensures ItemOf(ReadAll(Raws(items))[i], ordered) == CleanTexts(items)[i]
    {
      assert items[i] in items;
      ItemLineReads(items[i], ordered);
    }
  }

  /** A list reads as it is written, item by item, with its kind. */
  lemma {:induction false} ListRoundTrip(items: seq<Item>, ordered: bool)
    requires items != [] && items[0].indent == []
    requires forall item | item in items :: item.Ok(ordered) && OneLine(item.Raw())
    ensures ContentBlocks(Join("\n", Raws(items))) == [List(CleanTexts(items), ordered)]
  {
    ListFrames(items, ordered);
    ContentOfLines(Raws(items));
    ListLines(items, ordered);
  }

  lemma {:induction false} ListLines(items: seq<Item>, ordered: bool)
    requires items != [] && forall item | item in items :: item.Ok(ordered)
    ensures Blocks(ReadAll(Raws(items))) == [List(CleanTexts(items), ordered)]
  {
    var lines := ReadAll(Raws(items));
    ItemLinesRead(items, ordered);
    ListEnds(lines, [], ordered);
    assert lines + [] == lines;
  }

  lemma {:induction false} ListFrames(items: seq<Item>, ordered: bool)
    requires items != [] && items[0].indent == []
    requires forall item | item in items :: item.Ok(ordered) && OneLine(item.Raw())
    ensures Framed(Raws(items))
  {
    var raws := Raws(items);
    assert items[0] in items && items[|items| - 1] in items;
    ItemFrames(items[0], ordered);
    ItemFrames(items[|items| - 1], ordered);
    forall r | r in raws
      ensures OneLine(r)
    {
      var i :| 0 <= i < |items| && r == items[i].Raw();
      assert items[i] in items;
    }
  }

  lemma ItemFrames(item: Item, ordered: bool)
    requires item.Ok(ordered)
    ensures var r := item.Raw();
      r != [] && !IsSpace(r[|r| - 1]) && (item.indent == [] ==> !IsSpace(r[0]))
  {
    var r := item.Raw();
    assert r[|r| - 1] == item.text[|item.text| - 1];
    assert item.indent == [] ==> r[0] == item.marker[0];
  }

  /** Lines of prose read as one paragraph, their texts joined by a space and cleaned. */
  lemma {:induction false} ParagraphRoundTrip(texts: seq<string>)
    requires texts != [] && forall t | t in texts :: ProseForm(t) && OneLine(t) && '|' !in t
    ensures ContentBlocks(Join("\n", texts)) == [Paragraph(Clean(Join(" ", texts)))]
  {
    assert texts[0] in texts && texts[|texts| - 1] in texts;
    ContentOfLines(texts);
    var lines := ReadAll(texts);
    forall i | 0 <= i < |lines|
      ensures Prosaic(lines[i]) && lines[i].text == texts[i]
    {
      assert texts[i] in texts;
      ProseLineReads(texts[i]);
    }
    assert Texts(lines) == texts;
    JoinEnds(" ", texts);
    var j := Join(" ", texts);
    assert j[0] in j;
    ParagraphEnds(lines, []);
    assert lines + [] == lines;
  }

  /** One line of prose may also hold pipes. */
  lemma {:induction false} ProseRoundTrip(t: string)
    requires ProseForm(t) && OneLine(t)
    ensures ContentBlocks(t) == [Paragraph(Clean(t))]
  {
    ProseLineReads(t);
    ReadOne(t);
    var l := Read(t);
    assert [l] + [] == [l] && [l][1..] == [];
    assert t[0] in t;
    CleanNonEmpty(t);
    assert Texts([l]) == [t];
    BlocksOfFirst([l], []);
  }

  /** A stripped line is what it is written as, and nothing else. */
  lemma {:induction false} OneLineIsExact(t: string)
    requires Written(t)
    ensures forall n, s :: HeadingForm(t, n, s) ==> ContentBlocks(t) == [Heading(Clean(s), n)]
    ensures forall s :: ItemForm(t, false, s) ==> ContentBlocks(t) == [List([Clean(s)], false)]
    ensures forall s :: ItemForm(t, true, s) ==> ContentBlocks(t) == [List([Clean(s)], true)]
    ensures BreakForm(t) ==> ContentBlocks(t) == [PageBreak]
    ensures ProseForm(t) ==> ContentBlocks(t) == [Paragraph(Clean(t))]
  {
    forall n: nat, s: string | HeadingForm(t, n, s)
      ensures ContentBlocks(t) == [Heading(Clean(s), n)]
    {
      var w :| Gap(w) && t == Repeat('#', n) + w + s;
      PartsAreOneLine(t, Repeat('#', n), w, s);
      HeadingRoundTrip(n, w, s);
    }
    forall s | ItemForm(t, false, s)
      ensures ContentBlocks(t) == [List([Clean(s)], false)]
    {
      OneItem(t, false, s);
    }
    forall s | ItemForm(t, true, s)
      ensures ContentBlocks(t) == [List([Clean(s)], true)]
    {
      OneItem(t, true, s);
    }
    if BreakForm(t) {
      BreakRoundTrip(t);
    }
    if ProseForm(t) {
      ProseRoundTrip(t);
    }
  }

  lemma PartsAreOneLine(t: string, a: string, b: string, c: string)
    requires t == a + b + c && OneLine(t)
    ensures OneLine(a) && OneLine(b) && OneLine(c)
  {
    assert forall x :: x in a || x in b || x in c ==> x in t;
  }

  lemma {:induction false} OneItem(t: string, ordered: bool, s: string)
    requires Written(t) && ItemForm(t, ordered, s)
    ensures ContentBlocks(t) == [List([Clean(s)], ordered)]
  {
    var m, w :| Marker(m, ordered) && Gap(w) && t == m + w + s;
    var item := Item([], m, w, s);
    assert item.Raw() == t;
    assert Raws([item]) == [t] && CleanTexts([item]) == [Clean(s)];
    assert Join("\n", [t]) == t;
    ListRoundTrip([item], ordered);
  }

  /** One table, of these rows. */
  ghost predicate IsTable(blocks: seq<Block>, rows: seq<seq<string>>) {
    |blocks| == 1 && blocks[0].Table? && FilledUp(rows, blocks[0].rows)
  }

  lemma ReadTwoAnd(a: string, b: string, rest: seq<string>)
    ensures ReadAll([a, b] + rest) == [Read(a), Read(b)] + ReadAll(rest)
  {
    ReadAllAppend([a, b], rest);
  }

  /** A table reads as it is written: every cell of every row, and empty cells up to the width of the widest. */
  lemma {:induction false} TableRoundTrip(header: seq<string>, separator: string, rows: seq<seq<string>>)
    requires SeparatorForm(separator) && Written(separator)
    requires forall row | row in [header] + rows :: row != [] && forall c | c in row :: Cell(c) && OneLine(c)
    ensures IsTable(ContentBlocks(Join("\n", [RowText(header), separator] + RowTextsOf(rows))),
                    [CleanAll(header)] + CleanRows(rows))
  {
    var raws := [RowText(header), separator] + RowTextsOf(rows);
    TableFrames(header, separator, rows);
    ContentOfLines(raws);
    ReadTwoAnd(RowText(header), separator, RowTextsOf(rows));
    TableLines(header, separator, rows);
  }

  lemma {:induction false} TableLines(header: seq<string>, separator: string, rows: seq<seq<string>>)
    requires SeparatorForm(separator) && Written(separator)
    requires forall row | row in [header] + rows :: row != [] && forall c | c in row :: Cell(c)
    ensures IsTable(Blocks([Read(RowText(header)), Read(separator)] + ReadAll(RowTextsOf(rows))),
                    [CleanAll(header)] + CleanRows(rows))
  {
    assert header in [header] + rows && forall row | row in rows :: row in [header] + rows;
    RowLineReads(header);
    SeparatorLineReads(separator);
    TableRowsRead(rows);
    var h, s, lines := Read(RowText(header)), Read(separator), ReadAll(RowTextsOf(rows));
    TableEnds(h, s, lines, []);
    assert [h, s] + lines + [] == [h, s] + lines;
    BlocksOfNone();
  }

  function RowTextsOf(rows: seq<seq<string>>): (texts: seq<string>)
    ensures |texts| == |rows| && forall i | 0 <= i < |rows| :: texts[i] == RowText(rows[i])
  {
    seq(|rows|, i requires 0 <= i < |rows| => RowText(rows[i]))
  }

  function CleanRows(rows: seq<seq<string>>): (cleaned: seq<seq<string>>)
    ensures |cleaned| == |rows| && forall i | 0 <= i < |rows| :: cleaned[i] == CleanAll(rows[i])
  {
    seq(|rows|, i requires 0 <= i < |rows| => CleanAll(rows[i]))
  }

  lemma {:induction false} RowIsOneLine(cells: seq<string>)
    requires forall c | c in cells :: OneLine(c)
    ensures OneLine(RowText(cells))
  {
    forall p | p in Spaced(cells)
      ensures OneLine(p)
    {
      var i :| 0 <= i < |cells| && p == " " + cells[i] + " ";
      assert cells[i] in cells;
    }
    JoinWithout("|", Spaced(cells), '\n');
    JoinWithout("|", Spaced(cells), '\r');
  }

  lemma {:induction false} TableFrames(header: seq<string>, separator: string, rows: seq<seq<string>>)
    requires Written(separator)
    requires forall row | row in [header] + rows :: row != [] && forall c | c in row :: Cell(c) && OneLine(c)
    ensures Framed([RowText(header), separator] + RowTextsOf(rows))
  {
    var raws := [RowText(header), separator] + RowTextsOf(rows);
    assert header in [header] + rows;
    RowIsRead(header);
    RowIsOneLine(header);
    forall i | 0 <= i < |rows|
      ensures OneLine(RowText(rows[i])) && Tight(RowText(rows[i]))
    {
      assert rows[i] in [header] + rows;
      RowIsRead(rows[i]);
      RowIsOneLine(rows[i]);
    }
    forall r | r in raws
      ensures OneLine(r)
    {
      assert r == raws[0] || r == raws[1] || r in RowTextsOf(rows);
    }
  }

  lemma {:induction false} TableRowsRead(rows: seq<seq<string>>)
    requires forall row | row in rows :: row != [] && forall c | c in row :: Cell(c)
    ensures forall l | l in ReadAll(RowTextsOf(rows)) :: RowLine(l)
    ensures RowsOf(ReadAll(RowTextsOf(rows))) == CleanRows(rows)
  {
    var lines := ReadAll(RowTextsOf(rows));
    forall i | 0 <= i < |rows|
      ensures RowLine(lines[i]) && SplitRow(lines[i].text) == CleanAll(rows[i])
    {
      assert rows[i] in rows;
      RowLineReads(rows[i]);
    }
  }

  lemma {:induction false} SeparatorLineReads(separator: string)
    requires SeparatorForm(separator) && Tight(separator)
    ensures Read(separator).separator
  {
    WrittenIsStripped(separator);
    SeparatorIsExact(separator);
  }
}
