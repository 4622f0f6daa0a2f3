/** A document written out and parsed again is the same document; and what its title and its semantic text are. */
module DocumentRoundTrip {
  import opened DocumentParser
  import opened DocumentSpec
  import opened DocumentText
  import opened DocumentWriting
  import opened LineReader
  import opened LineWriting
  import opened Text
  import opened Wrappers

  // ----- writing

  /** A line of text with single spaces. */
  predicate Plain(s: string) {
    Written(s) && Clean(s) == s
  }

  predicate PlainCell(c: string) {
    Cell(c) && OneLine(c) && Clean(c) == c
  }

  /** A block that can be written: lines of text, and rows of one width from two cells on. */
  ghost predicate Writable(b: Block) {
    match b
    case Heading(text, level) => Plain(text) && 1 <= level <= 6
    case Paragraph(text) => Plain(text) && ProseForm(text)
    case List(items, _) => items != [] && forall item | item in items :: Plain(item)
    case Table(rows) =>
      rows != [] && |rows[0]| >= 2
      && forall row | row in rows :: |row| == |rows[0]| && forall c | c in row :: PlainCell(c)
    case PageBreak => true
  }

  function ListItem(text: string, ordered: bool): Item {
    Item("", if ordered then "1." else "-", " ", text)
  }

  function ListItems(texts: seq<string>, ordered: bool): (items: seq<Item>)
    ensures |items| == |texts| && forall i | 0 <= i < |texts| :: items[i] == ListItem(texts[i], ordered)
  {
    seq(|texts|, i requires 0 <= i < |texts| => ListItem(texts[i], ordered))
  }

  function Dashes(n: nat): (cells: seq<string>)
    ensures |cells| == n && forall c | c in cells :: c == "---"
  {
    seq(n, _ => "---")
  }

  function SeparatorLine(n: nat): string {
    "|" + Join("|", Dashes(n)) + "|"
  }

  function WriteBlock(b: Block): seq<string> {
    match b
    case Heading(text, level) => [Repeat('#', level) + " " + text]
    case Paragraph(text) => [text]
    case List(items, ordered) => Raws(ListItems(items, ordered))
    case Table(rows) =>
      if rows == [] then [] else [RowText(rows[0]), SeparatorLine(|rows[0]|)] + RowTextsOf(rows[1..])
    case PageBreak => ["[[page_break]]"]
  }

  /** The lines of a document, with an empty line between its blocks. */
  function WriteLines(blocks: seq<Block>): seq<string> {
    if blocks == [] then []
    else if |blocks| == 1 then WriteBlock(blocks[0])
    else WriteBlock(blocks[0]) + [""] + WriteLines(blocks[1..])
  }

  // ----- one block

  predicate ReadsAs(raws: seq<string>, blocks: seq<Block>) {
    Framed(raws) && Blocks(ReadAll(raws)) == blocks
  }

  lemma {:induction false} OneLineReadsAs(t: string, b: Block)
    requires Written(t) && ContentBlocks(t) == [b]
    ensures ReadsAs([t], [b])
  {
    ReadOne(t);
    assert ReadAll([t]) == [Read(t)];
  }

  lemma {:induction false} HeadingReadsAs(text: string, level: nat)
    requires Plain(text) && 1 <= level <= 6
    ensures ReadsAs(WriteBlock(Heading(text, level)), [Heading(text, level)])
  {
    var t := Repeat('#', level) + " " + text;
    assert Gap(" ") by {
      assert " "[0] in " ";
    }
    HeadingRoundTrip(level, " ", text);
    assert t[0] == '#' && t[|t| - 1] == text[|text| - 1];
    OneLineReadsAs(t, Heading(text, level));
  }

  lemma {:induction false} BreakReadsAs(t: string)
    requires BreakForm(t) && Written(t)
    ensures ReadsAs([t], [PageBreak])
  {
    BreakRoundTrip(t);
    OneLineReadsAs(t, PageBreak);
  }

  lemma BreakIsWell(t: string)
    requires t == "[[page_break]]"
    ensures BreakForm(t) && Written(t)
  {
    assert SameText(t, "[[page_break]]");
    assert t[0] == '[' && t[|t| - 1] == ']';
  }

  lemma ListItemOk(text: string, ordered: bool)
    requires Plain(text)
    ensures ListItem(text, ordered).Ok(ordered) && OneLine(ListItem(text, ordered).Raw())
  {
    assert Blank(" ") && NumberMarker("1.") && BulletMarker("-");
  }

  lemma {:induction false} ListReadsAs(texts: seq<string>, ordered: bool)
    requires texts != [] && forall text | text in texts :: Plain(text)
    ensures ReadsAs(WriteBlock(List(texts, ordered)), [List(texts, ordered)])
  {
    var items := ListItems(texts, ordered);
    ItemsAreOk(texts, ordered);
    TextsAreClean(texts, ordered);
    ListLinesReadAs(items, ordered);
  }

  lemma {:induction false} ListLinesReadAs(items: seq<Item>, ordered: bool)
    requires items != [] && items[0].indent == []
    requires forall item | item in items :: item.Ok(ordered) && OneLine(item.Raw())
    ensures ReadsAs(Raws(items), [List(CleanTexts(items), ordered)])
  {
    ListFrames(items, ordered);
    ContentOfLines(Raws(items));
    ListRoundTrip(items, ordered);
  }

  lemma TextsAreClean(texts: seq<string>, ordered: bool)
    requires forall text | text in texts :: Plain(text)
    ensures CleanTexts(ListItems(texts, ordered)) == texts
  {
    forall i | 0 <= i < |texts|
      ensures CleanTexts(ListItems(texts, ordered))[i] == texts[i]
    {
      assert texts[i] in texts;
    }
  }

  lemma {:induction false} ItemsAreOk(texts: seq<string>, ordered: bool)
    requires forall text | text in texts :: Plain(text)
    ensures forall item | item in ListItems(texts, ordered) :: item.Ok(ordered) && OneLine(item.Raw())
  {
    var items := ListItems(texts, ordered);
    forall item | item in items
      ensures item.Ok(ordered) && OneLine(item.Raw())
    {
      var i :| 0 <= i < |items| && item == items[i];
      assert texts[i] in texts;
      ListItemOk(texts[i], ordered);
    }
  }

  lemma SeparatorIsWell(n: nat)
    requires n >= 2
    ensures SeparatorForm(SeparatorLine(n)) && Written(SeparatorLine(n))
  {
    var cells := Dashes(n);
    assert "---" == "" + Repeat('-', 3) + "";
    StripTight("---");
    assert DashForm("---") by {
      assert Colon("") && "---" == "" + Repeat('-', 3) + "";
    }
    assert SeparatorOf(SeparatorLine(n), "|", cells, "|");
    JoinWithout("|", cells, '\n');
    JoinWithout("|", cells, '\r');
  }

  lemma {:induction false} FilledIsSame(rows: seq<seq<string>>, table: seq<seq<string>>, n: nat)
    requires FilledUp(rows, table) && forall row | row in rows :: |row| == n
    ensures table == rows
  {
    var w: nat :| FilledTo(rows, table, w) && WidthOf(rows, w);
    forall i | 0 <= i < |rows|
      ensures table[i] == rows[i]
    {
      assert rows[i] in rows;
      assert rows[i] + [] == rows[i];
    }
  }

  lemma CleanIsSame(row: seq<string>)
    requires forall c | c in row :: Clean(c) == c
    ensures CleanAll(row) == row
  {
    forall i | 0 <= i < |row|
      ensures CleanAll(row)[i] == row[i]
    {
      assert row[i] in row;
    }
  }

  lemma {:induction false} RowsAreClean(rows: seq<seq<string>>)
    requires rows != [] && forall row | row in rows :: forall c | c in row :: Clean(c) == c
    ensures [CleanAll(rows[0])] + CleanRows(rows[1..]) == rows
  {
    forall i | 0 <= i < |rows|
      ensures CleanAll(rows[i]) == rows[i]
    {
      assert rows[i] in rows;
      CleanIsSame(rows[i]);
    }
  }

  lemma {:induction false} TableReadsAs(rows: seq<seq<string>>)
    requires Writable(Table(rows))
    ensures ReadsAs(WriteBlock(Table(rows)), [Table(rows)])
  {
    var separator := SeparatorLine(|rows[0]|);
    assert [rows[0]] + rows[1..] == rows && rows[0] in rows;
    SeparatorIsWell(|rows[0]|);
    TableFrames(rows[0], separator, rows[1..]);
    ContentOfLines(WriteBlock(Table(rows)));
    TableRoundTrip(rows[0], separator, rows[1..]);
    TableIsSame(rows, Blocks(ReadAll(WriteBlock(Table(rows)))));
  }

  lemma {:induction false} TableIsSame(rows: seq<seq<string>>, blocks: seq<Block>)
    requires Writable(Table(rows)) && IsTable(blocks, [CleanAll(rows[0])] + CleanRows(rows[1..]))
    ensures blocks == [Table(rows)]
  {
    RowsAreClean(rows);
    FilledIsSame(rows, blocks[0].rows, |rows[0]|);
  }

  lemma {:induction false} BlockReadsAs(b: Block)
    requires Writable(b)
    ensures ReadsAs(WriteBlock(b), [b])
  {
    match b
    case Heading(text, level) => HeadingReadsAs(text, level);
    case Paragraph(text) =>
      ProseRoundTrip(text);
      OneLineReadsAs(text, b);
    case List(items, ordered) => ListReadsAs(items, ordered);
    case Table(rows) => TableReadsAs(rows);
    case PageBreak =>
      var t := "[[page_break]]";
      BreakIsWell(t);
      BreakReadsAs(t);
  }

  // ----- whole documents

  lemma {:induction false} TwoReadAs(a: seq<string>, b: seq<string>, x: seq<Block>, y: seq<Block>)
    requires ReadsAs(a, x) && ReadsAs(b, y)
    ensures ReadsAs(a + [""] + b, x + y)
  {
    TwoAreFramed(a, b);
    ReadTwo(a, b);
    EmptyLineSeparates(ReadAll(a), ReadAll(b));
  }

  lemma TwoAreFramed(a: seq<string>, b: seq<string>)
    requires Framed(a) && Framed(b)
    ensures Framed(a + [""] + b)
  {
    assert forall r | r in a + [""] + b :: r in a || r == "" || r in b;
  }

  lemma ReadTwo(a: seq<string>, b: seq<string>)
    ensures ReadAll(a + [""] + b) == ReadAll(a) + [EMPTY_LINE] + ReadAll(b)
  {
    ReadAllAppend(a + [""], b);
    ReadAllAppend(a, [""]);
    BlankReadsEmpty("");
    assert ReadAll([""]) == [EMPTY_LINE];
  }

  lemma {:induction false} LinesReadAs(blocks: seq<Block>)
    requires blocks != [] && forall b | b in blocks :: Writable(b)
    ensures ReadsAs(WriteLines(blocks), blocks)
  {
    var first, rest := blocks[0], blocks[1..];
    HeadAndTail(blocks);
    BlockReadsAs(first);
    if rest != [] {
      LinesReadAs(rest);
      TwoReadAs(WriteBlock(first), WriteLines(rest), [first], rest);
    }
  }

  lemma HeadAndTail(blocks: seq<Block>)
    requires blocks != []
    ensures blocks == [blocks[0]] + blocks[1..] && blocks[0] in blocks && forall b | b in blocks[1..] :: b in blocks
    ensures |blocks| == 1 ==> blocks == [blocks[0]]
  {
  }

  /** Every document of writable blocks is parsed to the blocks it was written from. */
  lemma {:induction false} WriteThenParse(blocks: seq<Block>)
    requires forall b | b in blocks :: Writable(b)
    ensures ContentBlocks(Join("\n", WriteLines(blocks))) == blocks
  {
    if blocks != [] {
      LinesReadAs(blocks);
      ContentOfLines(WriteLines(blocks));
    }
  }

  // ----- title and semantic text

  predicate Titled(b: Block) {
    b.Heading? || b.Paragraph?
  }

  lemma {:induction false} TitleIsOfFirst(blocks: seq<Block>)
    requires forall b | b in blocks :: Titled(b) ==> !Blank(b.text)
    ensures (forall b | b in blocks :: !Titled(b)) ==> TitleOf(blocks) == []
    ensures forall k | 0 <= k < |blocks| && Titled(blocks[k]) && (forall i | 0 <= i < k :: !Titled(blocks[i])) ::
              TitleOf(blocks) == if blocks[k].Heading? then blocks[k].text else Prefix(blocks[k].text, 120)
    ensures (exists b :: b in blocks && Titled(b)) ==> TitleOf(blocks) != []
  {
    if blocks != [] {
      assert blocks[0] in blocks && forall b | b in blocks[1..] :: b in blocks;
      TitleIsOfFirst(blocks[1..]);
      if !Titled(blocks[0]) {
        forall k | 0 <= k < |blocks| && Titled(blocks[k]) && (forall i | 0 <= i < k :: !Titled(blocks[i]))
          ensures TitleOf(blocks) == if blocks[k].Heading? then blocks[k].text else Prefix(blocks[k].text, 120)
        {
          assert blocks[1..][k - 1] == blocks[k];
          assert forall i | 0 <= i < k - 1 :: blocks[1..][i] == blocks[i + 1];
        }
      }
    }
  }

  /** The title is the text of the first heading or, cut to 120 characters, paragraph, and "Documento" without
      either; at most 160 characters of it. */
  lemma {:induction false} TitleIsFirstText(content: string, k: nat)
    requires forall b | b in ContentBlocks(content) :: BlockOk(b)
    ensures var blocks, title := ContentBlocks(content), DocumentOf(ContentBlocks(content)).title;
      && ((forall b | b in blocks :: !Titled(b)) ==> title == "Documento")
      && (k < |blocks| && Titled(blocks[k]) && (forall i | 0 <= i < k :: !Titled(blocks[i])) ==>
            title == Prefix(if blocks[k].Heading? then blocks[k].text else Prefix(blocks[k].text, 120), 160))
  {
    var blocks := ContentBlocks(content);
    forall b | b in blocks
      ensures Titled(b) ==> !Blank(b.text)
    {
      assert BlockOk(b);
    }
    TitleIsOfFirst(blocks);
    assert k < |blocks| ==> blocks[k] in blocks;
  }
}
