/** The blocks of a document, as a function of its lines, and what holds of them. */
module DocumentSpec {
  import opened LineReader
  import opened Text
  import opened Wrappers

  datatype Block =
    | Heading(text: string, level: nat)
    | Paragraph(text: string)
    | List(items: seq<string>, ordered: bool)
    | Table(rows: seq<seq<string>>)
    | PageBreak

  // ----- spans: how many lines one block takes

  predicate TableStart(lines: seq<Line>) {
    |lines| >= 2 && lines[0].HasPipe() && lines[1].separator
  }

  function RowsSpan(lines: seq<Line>): (n: nat)
    ensures n <= |lines|
  {
    if lines != [] && !lines[0].Empty() && lines[0].HasPipe() then 1 + RowsSpan(lines[1..]) else 0
  }

  function ItemsSpan(lines: seq<Line>, ordered: bool): (n: nat)
    ensures n <= |lines|
  {
    if lines != [] && lines[0].Marker(ordered).Some? then 1 + ItemsSpan(lines[1..], ordered) else 0
  }

  predicate EndsParagraph(lines: seq<Line>)
    requires lines != []
  {
    || lines[0].Empty()
    || lines[0].heading.Some? || lines[0].bullet.Some? || lines[0].number.Some?
    || lines[0].pageBreak || TableStart(lines)
  }

  function ParagraphSpan(lines: seq<Line>): (n: nat)
    ensures n <= |lines|
  {
    if lines != [] && !EndsParagraph(lines) then 1 + ParagraphSpan(lines[1..]) else 0
  }

  // ----- contents of a span

  function Items(lines: seq<Line>, ordered: bool): seq<string> {
    if lines == [] then []
    else
      var m := lines[0].Marker(ordered);
      (if m.Some? && m.value != [] then [m.value] else []) + Items(lines[1..], ordered)
  }

  function Rows(lines: seq<Line>): (rows: seq<seq<string>>)
    ensures |rows| == |lines|
  {
    if lines == [] then [] else [SplitRow(lines[0].text)] + Rows(lines[1..])
  }

  /** max(len(row) for row in rows) */
  function Width(rows: seq<seq<string>>): nat {
    if rows == [] then 0
    else
      var w := Width(rows[1..]);
      if |rows[0]| > w then |rows[0]| else w
  }

  /** list(row) + [""] * (cols - len(row)) */
  function Pad(row: seq<string>, w: nat): (padded: seq<string>)
    ensures |row| <= w ==> |padded| == w
    ensures row <= padded
  {
    if |row| >= w then row else row + seq(w - |row|, _ => [])
  }

  function PadAll(rows: seq<seq<string>>, w: nat): (padded: seq<seq<string>>)
    ensures |padded| == |rows|
  {
    if rows == [] then [] else [Pad(rows[0], w)] + PadAll(rows[1..], w)
  }

  function TableOf(rows: seq<seq<string>>): Block {
    Table(PadAll(rows, Width(rows)))
  }

  function Texts(lines: seq<Line>): (texts: seq<string>)
    ensures |texts| == |lines|
  {
    seq(|lines|, i requires 0 <= i < |lines| => lines[i].text)
  }

  function ParagraphText(lines: seq<Line>): string {
    Clean(Join(" ", Texts(lines)))
  }

  // ----- the parser

  datatype Branch = Skip | Break | Head | Tabular | Listing(ordered: bool) | Prose

  /** The branch taken at the first line. */
  function BranchAt(lines: seq<Line>): Branch
    requires lines != []
  {
    var first := lines[0];
    if first.Empty() then Skip
    else if first.pageBreak then Break
    else if first.heading.Some? then Head
    else if TableStart(lines) then Tabular
    else if first.bullet.Some? || first.number.Some? then Listing(first.number.Some?)
    else Prose
  }

  function SpanOf(lines: seq<Line>): (n: nat)
    requires lines != []
    ensures 1 <= n <= |lines|
  {
    match BranchAt(lines)
    case Tabular => 2 + RowsSpan(lines[2..])
    case Listing(ordered) => ItemsSpan(lines, ordered)
    case Prose => 1 + ParagraphSpan(lines[1..])
    case _ => 1
  }

  /** The block, if any, that a branch makes of the lines of its span. */
  function BlockOf(branch: Branch, span: seq<Line>): (blocks: seq<Block>)
    requires span != []
    ensures |blocks| <= 1
  {
    match branch
    case Skip => []
    case Break => [PageBreak]
    case Head =>
      if span[0].heading.Some? then [Heading(span[0].heading.value.text, span[0].heading.value.level)] else []
    case Tabular => [TableOf([SplitRow(span[0].text)] + Rows(if |span| >= 2 then span[2..] else []))]
    case Listing(ordered) =>
      var items := Items(span, ordered);
      if items == [] then [] else [List(items, ordered)]
    case Prose =>
      var text := ParagraphText(span);
      if text == [] then [] else [Paragraph(text)]
  }

  function FirstBlock(lines: seq<Line>): seq<Block>
    requires lines != []
  {
    BlockOf(BranchAt(lines), lines[..SpanOf(lines)])
  }

  function Blocks(lines: seq<Line>): seq<Block>
    decreases |lines|
  {
    if lines == [] then [] else FirstBlock(lines) + Blocks(lines[SpanOf(lines)..])
  }

  // ----- the parser is a homomorphism across empty lines

  lemma {:induction false} RowsStopAtEmpty(a: seq<Line>, b: seq<Line>)
    ensures RowsSpan(a + [EMPTY_LINE] + b) == RowsSpan(a)
  {
    if a != [] {
      assert (a + [EMPTY_LINE] + b)[1..] == a[1..] + [EMPTY_LINE] + b;
      RowsStopAtEmpty(a[1..], b);
    }
  }

  lemma {:induction false} ItemsStopAtEmpty(a: seq<Line>, b: seq<Line>, ordered: bool)
    ensures ItemsSpan(a + [EMPTY_LINE] + b, ordered) == ItemsSpan(a, ordered)
  {
    if a != [] {
      assert (a + [EMPTY_LINE] + b)[1..] == a[1..] + [EMPTY_LINE] + b;
      ItemsStopAtEmpty(a[1..], b, ordered);
    }
  }

  lemma TableStartIgnoresEmpty(a: seq<Line>, b: seq<Line>)
    requires a != []
    ensures TableStart(a + [EMPTY_LINE] + b) == TableStart(a)
  {
  }

  lemma {:induction false} ParagraphStopsAtEmpty(a: seq<Line>, b: seq<Line>)
    ensures ParagraphSpan(a + [EMPTY_LINE] + b) == ParagraphSpan(a)
  {
    if a != [] {
      assert (a + [EMPTY_LINE] + b)[1..] == a[1..] + [EMPTY_LINE] + b;
      ParagraphStopsAtEmpty(a[1..], b);
      TableStartIgnoresEmpty(a, b);
    }
  }

  lemma SpanStopsAtEmpty(a: seq<Line>, b: seq<Line>)
    requires a != []
    ensures var all := a + [EMPTY_LINE] + b; BranchAt(all) == BranchAt(a) && SpanOf(all) == SpanOf(a)
  {
    var all := a + [EMPTY_LINE] + b;
    TableStartIgnoresEmpty(a, b);
    match BranchAt(a)
    case Tabular =>
      assert all[2..] == a[2..] + [EMPTY_LINE] + b;
      RowsStopAtEmpty(a[2..], b);
    case Listing(ordered) => ItemsStopAtEmpty(a, b, ordered);
    case Prose =>
      assert all[1..] == a[1..] + [EMPTY_LINE] + b;
      ParagraphStopsAtEmpty(a[1..], b);
    case _ =>
  }

  /** The blocks of two texts separated by an empty line are the blocks of the first followed by the
      blocks of the second. */
  lemma {:induction false} EmptyLineSeparates(a: seq<Line>, b: seq<Line>)
    ensures Blocks(a + [EMPTY_LINE] + b) == Blocks(a) + Blocks(b)
    decreases |a|
  {
    var all := a + [EMPTY_LINE] + b;
    if a == [] {
      assert all == [EMPTY_LINE] + b;
      assert all[1..] == b;
    } else {
      var rest := a[SpanOf(a)..];
      FirstOfSeparated(a, b, rest);
      EmptyLineSeparates(rest, b);
      Regroup(FirstBlock(a), Blocks(rest), Blocks(b));
    }
  }

  lemma {:induction false} FirstOfSeparated(a: seq<Line>, b: seq<Line>, rest: seq<Line>)
    requires a != [] && rest == a[SpanOf(a)..]
    ensures Blocks(a + [EMPTY_LINE] + b) == FirstBlock(a) + Blocks(rest + [EMPTY_LINE] + b)
    ensures Blocks(a) == FirstBlock(a) + Blocks(rest)
  {
    var all, n := a + [EMPTY_LINE] + b, SpanOf(a);
    SpanStopsAtEmpty(a, b);
    assert all[..n] == a[..n];
    assert all[n..] == rest + [EMPTY_LINE] + b;
  }

  // ----- every line belongs to one span

  /** The first line of the span that contains line `i`. */
  function SpanStart(lines: seq<Line>, i: nat): (start: nat)
    requires i < |lines|
    ensures start <= i
    decreases |lines|
  {
    var n := SpanOf(lines);
    if i < n then 0 else n + SpanStart(lines[n..], i - n)
  }

  /** One past the last line of that span. */
  function SpanEnd(lines: seq<Line>, i: nat): (end: nat)
    requires i < |lines|
    ensures i < end <= |lines|
    decreases |lines|
  {
    var n := SpanOf(lines);
    if i < n then n else n + SpanEnd(lines[n..], i - n)
  }

  /** The blocks of the spans before it. */
  function BlocksBefore(lines: seq<Line>, i: nat): seq<Block>
    requires i < |lines|
    decreases |lines|
  {
    var n := SpanOf(lines);
    if i < n then [] else FirstBlock(lines) + BlocksBefore(lines[n..], i - n)
  }

  lemma {:induction false} RowsSpanFull(lines: seq<Line>, i: nat)
    requires i < RowsSpan(lines)
    ensures !lines[i].Empty()
  {
    if i > 0 {
      RowsSpanFull(lines[1..], i - 1);
    }
  }

  lemma {:induction false} ItemsSpanFull(lines: seq<Line>, ordered: bool, i: nat)
    requires i < ItemsSpan(lines, ordered)
    ensures lines[i].Marker(ordered).Some?
  {
    if i > 0 {
      ItemsSpanFull(lines[1..], ordered, i - 1);
    }
  }

  lemma {:induction false} ParagraphSpanFull(lines: seq<Line>, i: nat)
    requires i < ParagraphSpan(lines)
    ensures !lines[i].Empty()
  {
    if i > 0 {
      ParagraphSpanFull(lines[1..], i - 1);
    }
  }

  predicate AllWellRead(lines: seq<Line>) {
    forall l | l in lines :: WellRead(l)
  }

  /** A span is one empty line, or has no empty line at all. */
  lemma SpanIsUniform(lines: seq<Line>, i: nat)
    requires lines != [] && AllWellRead(lines) && i < SpanOf(lines)
    ensures if lines[0].Empty() then SpanOf(lines) == 1 else !lines[i].Empty()
  {
    assert lines[i] in lines;
    match BranchAt(lines)
    case Tabular =>
      if i >= 2 {
        RowsSpanFull(lines[2..], i - 2);
      }
    case Listing(ordered) =>
      ItemsSpanFull(lines, ordered, i);
    case Prose =>
      if i >= 1 {
        ParagraphSpanFull(lines[1..], i - 1);
      }
    case _ =>
  }

  /** Line j is in the span of line i. */
  predicate InSpan(lines: seq<Line>, i: nat, j: nat)
    requires i < |lines|
  {
    SpanStart(lines, i) <= j < SpanEnd(lines, i)
  }

  lemma ShiftSpan(lines: seq<Line>, rest: seq<Line>, i: nat)
    requires lines != [] && rest == lines[SpanOf(lines)..] && SpanOf(lines) <= i < |lines|
    ensures SpanStart(lines, i) == SpanOf(lines) + SpanStart(rest, i - SpanOf(lines))
    ensures SpanEnd(lines, i) == SpanOf(lines) + SpanEnd(rest, i - SpanOf(lines))
  {
  }

  lemma InFirstOrLater(lines: seq<Line>, i: nat, j: nat)
    requires i < |lines| && InSpan(lines, i, j)
    ensures i < SpanOf(lines) ==> j < SpanOf(lines)
    ensures i >= SpanOf(lines) ==> SpanOf(lines) <= j < |lines|
    ensures i >= SpanOf(lines) ==> InSpan(lines[SpanOf(lines)..], i - SpanOf(lines), j - SpanOf(lines))
  {
    if i >= SpanOf(lines) {
      ShiftSpan(lines, lines[SpanOf(lines)..], i);
    }
  }

  /** The spans of the parser tile the lines: all lines of a span agree on where it starts and ends. */
  lemma {:induction false} SpansTile(lines: seq<Line>, i: nat, j: nat)
    requires i < |lines| && InSpan(lines, i, j)
    ensures j < |lines| && SpanStart(lines, j) == SpanStart(lines, i) && SpanEnd(lines, j) == SpanEnd(lines, i)
    decreases |lines|
  {
    var n := SpanOf(lines);
    InFirstOrLater(lines, i, j);
    if i >= n {
      SpansTile(lines[n..], i - n, j - n);
      ShiftSpan(lines, lines[n..], i);
      ShiftSpan(lines, lines[n..], j);
    }
  }

  /** An empty line is a span of its own, and no other span has one. */
  predicate Alike(lines: seq<Line>, i: nat, j: nat)
    requires i < |lines| && j < |lines|
  {
    (lines[j].Empty() <==> lines[i].Empty()) && (lines[i].Empty() ==> j == i)
  }

  lemma AlikeInFirst(lines: seq<Line>, i: nat, j: nat)
    requires lines != [] && AllWellRead(lines) && i < SpanOf(lines) && j < SpanOf(lines)
    ensures Alike(lines, i, j)
  {
    SpanIsUniform(lines, i);
    SpanIsUniform(lines, j);
  }

  lemma AlikeLater(lines: seq<Line>, rest: seq<Line>, n: nat, i: nat, j: nat)
    requires n <= |lines| && rest == lines[n..] && n <= i < |lines| && n <= j < |lines| && Alike(rest, i - n, j - n)
    ensures Alike(lines, i, j)
  {
  }

  lemma {:induction false} SpansAreUniform(lines: seq<Line>, i: nat, j: nat)
    requires i < |lines| && InSpan(lines, i, j) && AllWellRead(lines)
    ensures j < |lines| && Alike(lines, i, j)
    decreases |lines|
  {
    var n := SpanOf(lines);
    InFirstOrLater(lines, i, j);
    if i < n {
      AlikeInFirst(lines, i, j);
    } else {
      SpansAreUniform(lines[n..], i - n, j - n);
      AlikeLater(lines, lines[n..], n, i, j);
    }
  }

  /** The first span and the rest, named. */
  lemma {:induction false} BlocksSplit(lines: seq<Line>, span: seq<Line>, rest: seq<Line>)
    requires lines != [] && span == lines[..SpanOf(lines)] && rest == lines[SpanOf(lines)..]
    ensures FirstBlock(lines) == BlockOf(BranchAt(lines), span)
    ensures Blocks(lines) == BlockOf(BranchAt(lines), span) + Blocks(rest)
  {
  }

  lemma BeforeSplit(lines: seq<Line>, rest: seq<Line>, i: nat)
    requires lines != [] && rest == lines[SpanOf(lines)..] && SpanOf(lines) <= i < |lines|
    ensures BlocksBefore(lines, i) == FirstBlock(lines) + BlocksBefore(rest, i - SpanOf(lines))
    ensures lines[SpanStart(lines, i)..] == rest[SpanStart(rest, i - SpanOf(lines))..]
  {
  }

  lemma Regroup(a: seq<Block>, b: seq<Block>, c: seq<Block>)
    ensures a + (b + c) == (a + b) + c
  {
  }

  predicate Reached(lines: seq<Line>, i: nat)
    requires i < |lines|
  {
    Blocks(lines) == BlocksBefore(lines, i) + Blocks(lines[SpanStart(lines, i)..])
  }

  lemma ReachedAtStart(lines: seq<Line>, i: nat)
    requires lines != [] && i < SpanOf(lines)
    ensures Reached(lines, i)
  {
    assert lines[SpanStart(lines, i)..] == lines;
    assert [] + Blocks(lines) == Blocks(lines);
  }

  lemma ReachedBehind(lines: seq<Line>, rest: seq<Line>, i: nat)
    requires lines != [] && rest == lines[SpanOf(lines)..] && SpanOf(lines) <= i < |lines|
    requires Reached(rest, i - SpanOf(lines))
    ensures Reached(lines, i)
  {
    var n := SpanOf(lines);
    var k := i - n;
    BlocksSplit(lines, lines[..n], rest);
    BeforeSplit(lines, rest, i);
    Prepended(Blocks(lines), FirstBlock(lines), Blocks(rest), BlocksBefore(rest, k), Blocks(rest[SpanStart(rest, k)..]));
  }

  lemma Prepended(all: seq<Block>, first: seq<Block>, tail: seq<Block>, before: seq<Block>, after: seq<Block>)
    requires all == first + tail && tail == before + after
    ensures all == (first + before) + after
  {
  }

  lemma ReachedOn(lines: seq<Line>, rest: seq<Line>, i: nat)
    requires lines != [] && rest == lines[SpanOf(lines)..] && SpanOf(lines) <= i < |lines|
    ensures Reached(rest, i - SpanOf(lines)) ==> Reached(lines, i)
  {
    if Reached(rest, i - SpanOf(lines)) {
      ReachedBehind(lines, rest, i);
    }
  }

  /** The parser visits every span: from its start it goes on with the remaining lines alone. */
  lemma {:induction false} ParserReachesSpan(lines: seq<Line>, i: nat)
    requires i < |lines|
    ensures Reached(lines, i)
    decreases |lines|
  {
    if i < SpanOf(lines) {
      ReachedAtStart(lines, i);
    } else {
      var rest := lines[SpanOf(lines)..];
      ReachedOn(lines, rest, i);
      ParserReachesSpan(rest, i - SpanOf(lines));
    }
  }

  // ----- every block is well formed

  predicate BlockOk(b: Block) {
    match b
    case Heading(text, level) => !Blank(text) && 1 <= level <= 6
    case Paragraph(text) => !Blank(text)
    case List(items, _) => items != [] && forall item | item in items :: !Blank(item)
    case Table(rows) => rows != [] && forall row | row in rows :: |row| == |rows[0]| >= 1
    case PageBreak => true
  }

  lemma {:induction false} ItemsNotBlank(lines: seq<Line>, ordered: bool, item: string)
    requires AllWellRead(lines) && item in Items(lines, ordered)
    ensures !Blank(item)
  {
    assert lines[0] in lines;
    if item in Items(lines[1..], ordered) {
      ItemsNotBlank(lines[1..], ordered, item);
    }
  }

  lemma {:induction false} WidthCovers(rows: seq<seq<string>>)
    ensures forall row | row in rows :: |row| <= Width(rows)
  {
    if rows != [] {
      WidthCovers(rows[1..]);
      assert forall row | row in rows :: row == rows[0] || row in rows[1..];
    }
  }

  lemma {:induction false} PaddedToWidth(rows: seq<seq<string>>, w: nat)
    requires forall row | row in rows :: |row| <= w
    ensures forall i | 0 <= i < |rows| :: |PadAll(rows, w)[i]| == w && rows[i] <= PadAll(rows, w)[i]
  {
    if rows != [] {
      assert rows[0] in rows && forall row | row in rows[1..] :: row in rows;
      PaddedToWidth(rows[1..], w);
      var tail := PadAll(rows[1..], w);
      forall i | 0 <= i < |rows|
        ensures |PadAll(rows, w)[i]| == w && rows[i] <= PadAll(rows, w)[i]
      {
        if i > 0 {
          assert PadAll(rows, w)[i] == tail[i - 1] && rows[i] == rows[1..][i - 1];
        }
      }
    }
  }

  /** A table keeps the cells of every row and is as wide as its widest. */
  lemma TablesAreRectangular(rows: seq<seq<string>>)
    requires rows != [] && rows[0] != []
    ensures BlockOk(TableOf(rows)) && |TableOf(rows).rows| == |rows|
    ensures forall i | 0 <= i < |rows| :: rows[i] <= TableOf(rows).rows[i]
  {
    WidthCovers(rows);
    PaddedToWidth(rows, Width(rows));
    assert rows[0] in rows;
  }

  lemma FirstBlockOk(lines: seq<Line>)
    requires lines != [] && AllWellRead(lines)
    ensures forall b | b in FirstBlock(lines) :: BlockOk(b)
  {
    assert lines[0] in lines;
    var span := lines[..SpanOf(lines)];
    match BranchAt(lines)
    case Tabular => TablesAreRectangular([SplitRow(span[0].text)] + Rows(span[2..]));
    case Listing(ordered) =>
      assert AllWellRead(span);
      forall item | item in Items(span, ordered)
        ensures !Blank(item)
      {
        ItemsNotBlank(span, ordered, item);
      }
    case Prose =>
      var joined := Join(" ", Texts(span));
      CleanNonEmpty(joined);
      if !Blank(joined) {
        CleanKeepsText(joined);
      }
    case _ =>
  }

  /** Headings and paragraphs have text, list items too, and every table is rectangular. */
  lemma {:induction false} BlocksOk(lines: seq<Line>)
    requires AllWellRead(lines)
    ensures forall b | b in Blocks(lines) :: BlockOk(b)
    decreases |lines|
  {
    if lines != [] {
      FirstBlockOk(lines);
      BlocksOk(lines[SpanOf(lines)..]);
    }
  }
}
