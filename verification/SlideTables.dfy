/** What a table shows on slides, cell by cell, and that no word of a document is lost. */
module SlideTables {
  import opened BulletChunks
  import opened DocumentParser
  import opened DocumentSpec
  import opened LineReader
  import opened SlidePlan
  import opened Text
  import opened Wrappers

  // ----- the item of a row

  /** A column with something to show: a header or a cell. */
  predicate Shows(header: seq<string>, row: seq<string>, j: nat) {
    j < |header| && j < |row| && (header[j] != [] || row[j] != [])
  }

  /** The columns with something to show, of the first n. */
  function Columns(header: seq<string>, row: seq<string>, n: nat): (cols: seq<nat>)
    ensures forall i | 0 <= i < |cols| :: cols[i] < n && Shows(header, row, cols[i])
    ensures forall i, k | 0 <= i < k < |cols| :: cols[i] < cols[k]
    ensures forall j: nat | j < n && Shows(header, row, j) :: j in cols
  {
    if n == 0 then [] else Columns(header, row, n - 1) + if Shows(header, row, n - 1) then [n - 1] else []
  }

  function Label(header: seq<string>, row: seq<string>, j: nat): string {
    if Shows(header, row, j) then header[j] + ": " + row[j] else []
  }

  function Labelled(header: seq<string>, row: seq<string>, cols: seq<nat>): (texts: seq<string>)
    ensures |texts| == |cols| && forall i | 0 <= i < |cols| :: texts[i] == Label(header, row, cols[i])
  {
    seq(|cols|, i requires 0 <= i < |cols| => Label(header, row, cols[i]))
  }

  /** "header: cell" of every column with something to show, in order. */
  function RowShown(header: seq<string>, row: seq<string>): string {
    Join(" | ", Labelled(header, row, Columns(header, row, |header|)))
  }

  /** The items of the rows that have something to show, cut to max characters. */
  function ItemsShown(header: seq<string>, rows: seq<seq<string>>, max: int): seq<string> {
    if rows == [] then []
    else
      var last := rows[|rows| - 1];
      ItemsShown(header, rows[..|rows| - 1], max)
      + if Columns(header, last, |header|) == [] then [] else [SlidePlan.Head(RowShown(header, last), max)]
  }

  lemma {:induction false} ColumnsPrefix(h: seq<string>, r: seq<string>, header: seq<string>, row: seq<string>, n: nat)
    requires h <= header && r <= row && n <= |h| && n <= |r|
    ensures Columns(h, r, n) == Columns(header, row, n)
    ensures Labelled(h, r, Columns(h, r, n)) == Labelled(header, row, Columns(header, row, n))
  {
    if n > 0 {
      ColumnsPrefix(h, r, header, row, n - 1);
    }
  }

  lemma {:induction false} PairsSnoc(h: seq<string>, r: seq<string>, x: string, y: string)
    requires |h| == |r|
    ensures Pairs(h + [x], r + [y]) == Pairs(h, r) + if x != [] || y != [] then [x + ": " + y] else []
  {
    if h == [] {
      assert Pairs([x][1..], [y][1..]) == [];
      assert h + [x] == [x] && r + [y] == [y];
    } else {
      assert (h + [x])[1..] == h[1..] + [x] && (r + [y])[1..] == r[1..] + [y];
      PairsSnoc(h[1..], r[1..], x, y);
    }
  }

  lemma {:induction false} PairsCut(header: seq<string>, row: seq<string>)
    ensures var n := if |header| <= |row| then |header| else |row|; Pairs(header, row) == Pairs(header[..n], row[..n])
  {
    var n := if |header| <= |row| then |header| else |row|;
    if n > 0 {
      PairsCut(header[1..], row[1..]);
      assert header[..n][1..] == header[1..][..n - 1] && row[..n][1..] == row[1..][..n - 1];
    }
  }

  lemma {:induction false} PairsAreLabelled(h: seq<string>, r: seq<string>)
    requires |h| == |r|
    ensures Pairs(h, r) == Labelled(h, r, Columns(h, r, |h|))
  {
    if h != [] {
      var n := |h| - 1;
      assert h == h[..n] + [h[n]] && r == r[..n] + [r[n]];
      PairsSnoc(h[..n], r[..n], h[n], r[n]);
      PairsAreLabelled(h[..n], r[..n]);
      ColumnsPrefix(h[..n], r[..n], h, r, n);
    }
  }

  lemma {:induction false} ColumnsEnd(header: seq<string>, row: seq<string>, n: nat, m: nat)
    requires n <= m && (n >= |header| || n >= |row|)
    ensures Columns(header, row, m) == Columns(header, row, n)
  {
    if n < m {
      ColumnsEnd(header, row, n, m - 1);
    }
  }

  lemma {:induction false} RowPairsAre(header: seq<string>, row: seq<string>)
    ensures Pairs(header, row) == Labelled(header, row, Columns(header, row, |header|))
  {
    var n := if |header| <= |row| then |header| else |row|;
    PairsCut(header, row);
    PairsAreLabelled(header[..n], row[..n]);
    ColumnsPrefix(header[..n], row[..n], header, row, n);
    ColumnsEnd(header, row, n, |header|);
  }

  lemma {:induction false} RowItemsSnoc(header: seq<string>, rows: seq<seq<string>>, row: seq<string>, max: int)
    ensures RowItems(header, rows + [row], max) == RowItems(header, rows, max) + RowItems(header, [row], max)
  {
    if rows == [] {
      assert rows + [row] == [row];
    } else {
      assert (rows + [row])[1..] == rows[1..] + [row];
      RowItemsSnoc(header, rows[1..], row, max);
    }
  }

  lemma {:induction false} RowItemsAre(header: seq<string>, rows: seq<seq<string>>, max: int)
    ensures RowItems(header, rows, max) == ItemsShown(header, rows, max)
  {
    if rows != [] {
      var init, last := rows[..|rows| - 1], rows[|rows| - 1];
      assert rows == init + [last];
      RowItemsAre(header, init, max);
      RowItemsSnoc(header, init, last, max);
      RowPairsAre(header, last);
      assert [last][1..] == [];
    }
  }

  /** A table gives one item for every row below its header that has something to show: "header: cell" of those
      columns, joined in order, or as much of it as fits. */
  lemma {:induction false} TableItemsAre(rows: seq<seq<string>>, max: int)
    ensures BlockItems(Table(rows), max) == if rows == [] then [] else ItemsShown(rows[0], rows[1..], max)
  {
    if rows != [] {
      RowItemsAre(rows[0], rows[1..], max);
    }
  }

  // ----- words

  lemma {:induction false} WordsIgnoreLeading(w: string, s: string)
    requires Blank(w)
    ensures Words(w + s) == Words(s)
  {
    LStripOfBlankPrefix(w, s);
  }

  /** A space between two texts separates their words. */
  lemma {:induction false} WordsOfParts(a: string, c: char, b: string)
    requires IsSpace(c)
    ensures Words(a + [c] + b) == Words(a) + Words(b)
    decreases |a|
  {
    if Blank(a) {
      WordsOfBlank(a);
      WordsIgnoreLeading(a + [c], b);
    } else {
      var l, w, rest := FirstOf(a);
      Regrouped(l, w, rest, [c], b);
      PaddedWord(l, w, rest);
      PaddedWord(l, w, rest + [c] + b);
      WordsOfParts(rest, c, b);
      Together([w], Words(rest), Words(b));
    }
  }

  lemma Regrouped(l: string, w: string, rest: string, c: string, b: string)
    ensures l + (w + rest) + c + b == l + (w + (rest + c + b))
  {
  }

  lemma Together<T>(a: seq<T>, b: seq<T>, c: seq<T>)
    ensures a + (b + c) == a + b + c
  {
  }

  lemma FirstOf(a: string) returns (l: string, w: string, rest: string)
    requires !Blank(a)
    ensures Blank(l) && Word(w) && (rest == [] || IsSpace(rest[0])) && |rest| < |a| && a == l + (w + rest)
  {
    l := LStripSplits(a);
    var t := LStrip(a);
    w := TakeWord(t);
    rest := t[|w|..];
    assert t == w + rest;
  }

  lemma {:induction false} PaddedWord(l: string, w: string, rest: string)
    requires Blank(l) && Word(w) && (rest == [] || IsSpace(rest[0]))
    ensures Words(l + (w + rest)) == [w] + Words(rest)
  {
    WordsIgnoreLeading(l, w + rest);
    FirstWord(w, rest);
  }

  /** "a | b" has the words of a, the bar and the words of b. */
  lemma {:induction false} WordsOfBar(a: string, b: string)
    ensures Words(a + " | " + b) == Words(a) + ["|"] + Words(b)
  {
    var bar := "|" + " " + b;
    BarIs(a, b);
    WordsOfParts(a, ' ', bar);
    assert "|"[0] in "|" && Word("|");
    WordsOfTwo("|", b);
    Together(Words(a), ["|"], Words(b));
  }

  lemma BarIs(a: string, b: string)
    ensures a + " | " + b == a + [' '] + ("|" + " " + b)
  {
  }

  /** The words of the columns: header and colon, then the cell, with bars between the columns. */
  function ColumnWords(header: seq<string>, row: seq<string>, cols: seq<nat>): seq<string>
    requires forall i | 0 <= i < |cols| :: Shows(header, row, cols[i])
  {
    if cols == [] then []
    else
      assert Shows(header, row, cols[0]);
      Words(header[cols[0]] + ":") + Words(row[cols[0]])
      + (if |cols| == 1 then [] else ["|"] + ColumnWords(header, row, cols[1..]))
  }

  lemma {:induction false} LabelWords(h: string, c: string)
    ensures Words(h + ": " + c) == Words(h + ":") + Words(c)
  {
    assert h + ": " + c == (h + ":") + [' '] + c;
    WordsOfParts(h + ":", ' ', c);
  }

  lemma {:induction false} LabelledWords(header: seq<string>, row: seq<string>, cols: seq<nat>)
    requires forall i | 0 <= i < |cols| :: Shows(header, row, cols[i])
    ensures Words(Join(" | ", Labelled(header, row, cols))) == ColumnWords(header, row, cols)
    decreases |cols|
  {
    if cols != [] {
      var texts := Labelled(header, row, cols);
      assert Shows(header, row, cols[0]);
      LabelWords(header[cols[0]], row[cols[0]]);
      if |cols| == 1 {
        assert Words(texts[0]) + [] == Words(texts[0]);
      } else {
        LabelledWords(header, row, cols[1..]);
        assert texts[1..] == Labelled(header, row, cols[1..]);
        WordsOfBar(texts[0], Join(" | ", texts[1..]));
        Together(Words(texts[0]), ["|"], ColumnWords(header, row, cols[1..]));
      }
    }
  }

  function RowWords(header: seq<string>, row: seq<string>): seq<string> {
    ColumnWords(header, row, Columns(header, row, |header|))
  }

  function TableWords(header: seq<string>, rows: seq<seq<string>>): seq<string> {
    if rows == [] then []
    else TableWords(header, rows[..|rows| - 1]) + RowWords(header, rows[|rows| - 1])
  }

  /** No row is longer than an item may be. */
  predicate RowsFit(header: seq<string>, rows: seq<seq<string>>, max: int) {
    forall row | row in rows :: |RowShown(header, row)| <= max
  }

  lemma {:induction false} TableKeepsWords(header: seq<string>, rows: seq<seq<string>>, max: int)
    requires RowsFit(header, rows, max)
    ensures WordsOfAll(ItemsShown(header, rows, max)) == TableWords(header, rows)
  {
    if rows != [] {
      var init, last := rows[..|rows| - 1], rows[|rows| - 1];
      var cols := Columns(header, last, |header|);
      assert last in rows && forall row | row in init :: row in rows;
      TableKeepsWords(header, init, max);
      LabelledWords(header, last, cols);
      var here := if cols == [] then [] else [SlidePlan.Head(RowShown(header, last), max)];
      WordsOfAllAppend(ItemsShown(header, init, max), here);
      assert [RowShown(header, last)][1..] == [];
    }
  }

  /** The words that a document must show on slides, in order. */
  function ShownWords(blocks: seq<Block>): seq<string> {
    if blocks == [] then []
    else
      var here := match blocks[0]
        case Heading(text, level) => if level <= 2 then [] else Words(text)
        case Paragraph(text) => Words(text)
        case List(items, _) => WordsOfAll(items)
        case Table(rows) => if rows == [] then [] else TableWords(rows[0], rows[1..])
        case PageBreak => [];
      here + ShownWords(blocks[1..])
  }

  predicate TablesFit(blocks: seq<Block>, max: int) {
    forall b | b in blocks && b.Table? && b.rows != [] :: RowsFit(b.rows[0], b.rows[1..], max)
  }

  lemma {:induction false} BlockKeepsWords(b: Block, max: int)
    requires TablesFit([b], max)
    ensures WordsOfAll(BlockItems(b, max)) == ShownWords([b])
  {
    assert [b][1..] == [] && ShownWords([]) == [];
    match b
    case Heading(text, level) => assert level > 2 ==> [text][1..] == [];
    case Paragraph(text) => ChunksKeepWords(text, max);
    case List(items, _) => ListKeepsWords(items, max);
    case Table(rows) =>
      TableItemsAre(rows, max);
      if rows != [] {
        assert b in [b];
        TableKeepsWords(rows[0], rows[1..], max);
      }
    case PageBreak =>
  }

  /** The words of all items are the words of the headings below level 2, paragraphs, list items and table cells, in
      order, for every chunk size into which the table rows fit. */
  lemma {:induction false} ItemsKeepWords(blocks: seq<Block>, max: int)
    requires TablesFit(blocks, max)
    ensures WordsOfAll(AllItems(blocks, max)) == ShownWords(blocks)
  {
    if blocks != [] {
      assert blocks[0] in blocks && forall b | b in blocks[1..] :: b in blocks;
      assert forall b | b in [blocks[0]] :: b in blocks;
      BlockKeepsWords(blocks[0], max);
      ItemsKeepWords(blocks[1..], max);
      WordsOfAllAppend(BlockItems(blocks[0], max), AllItems(blocks[1..], max));
      ShownWordsCons(blocks);
    }
  }

  lemma {:induction false} ShownWordsCons(blocks: seq<Block>)
    requires blocks != []
    ensures ShownWords(blocks) == ShownWords([blocks[0]]) + ShownWords(blocks[1..])
  {
    assert [blocks[0]][1..] == [] && ShownWords([]) == [];
  }

  // ----- sections and plans

  /** Blocks that open no section are one section under the title before them. */
  lemma {:induction false} PlainBlocksAreOneSection(blocks: seq<Block>, title: string, items: seq<string>, max: int)
    requires forall b | b in blocks :: !(b.PageBreak? || (b.Heading? && b.level <= 2))
    ensures var all := items + AllItems(blocks, max);
      Sections(blocks, title, items, max) == if all == [] then [] else [Section(Prefix(title, 100), all)]
    decreases |blocks|
  {
    if blocks == [] {
      assert items + [] == items;
    } else {
      assert blocks[0] in blocks && forall b | b in blocks[1..] :: b in blocks;
      PlainBlocksAreOneSection(blocks[1..], title, items + BlockItems(blocks[0], max), max);
      Together(items, BlockItems(blocks[0], max), AllItems(blocks[1..], max));
    }
  }

  /** The plan has the title of the document; a step of zero is an error as soon as there is a section, and a negative
      one gives no slides. */
  lemma PlanEdges(doc: Document, size: int, max: int)
    ensures var plan, sections := PlanOf(doc, size, max), PlannedSections(doc, max);
      && (plan.Err? <==> size == 0 && sections != [])
      && (plan.Ok? ==> plan.value.title == Prefix(doc.title, 100))
      && (plan.Ok? && size < 0 ==> plan.value.slides == [])
  {
    if size < 0 {
      NoSlides(PlannedSections(doc, max), size);
    }
  }

  lemma {:induction false} NoSlides(sections: seq<Section>, size: int)
    requires size < 0
    ensures Slides(sections, size) == []
  {
    if sections != [] {
      NoSlides(sections[1..], size);
    }
  }

  /** Without any item the whole text is shown, under "Resumo". */
  lemma {:induction false} FallbackShowsText(doc: Document, max: int)
    requires AllItems(doc.blocks, max) == []
    ensures PlannedSections(doc, max)
            == if doc.semanticText == [] then [] else [Section("Resumo", Chunks(doc.semanticText, max))]
  {
    SectionsKeepItems(doc.blocks, "Resumo", [], max);
    SectionsHaveItems(doc.blocks, "Resumo", [], max);
    var sections := Sections(doc.blocks, "Resumo", [], max);
    if sections != [] {
      SomeItems(sections);
    }
  }

  lemma {:induction false} SomeItems(sections: seq<Section>)
    requires sections != [] && forall s | s in sections :: s.items != []
    ensures SectionItems(sections) != []
  {
    assert sections[0] in sections;
  }

  /** Of a section's items the blank ones are dropped, and a section of blanks alone has one filler. */
  lemma {:induction false} BlanksAreDropped(a: seq<string>, x: string, b: seq<string>)
    ensures NonBlank(a + [x] + b) == NonBlank(a) + (if Blank(x) then [] else [x]) + NonBlank(b)
  {
    if a == [] {
      assert a + [x] + b == [x] + b;
      assert ([x] + b)[1..] == b;
    } else {
      assert (a + [x] + b)[1..] == a[1..] + [x] + b;
      BlanksAreDropped(a[1..], x, b);
      Together(if Blank(a[0]) then [] else [a[0]], NonBlank(a[1..]), (if Blank(x) then [] else [x]) + NonBlank(b));
      Together(NonBlank(a), if Blank(x) then [] else [x], NonBlank(b));
      Together(NonBlank(a[1..]), if Blank(x) then [] else [x], NonBlank(b));
    }
  }

  lemma {:induction false} BlanksAloneAreFilled(items: seq<string>)
    ensures if forall item | item in items :: Blank(item) then Safe(items) == ["Conteúdo"]
            else NonBlank(items) != [] && Safe(items) == NonBlank(items)
  {
    if items != [] {
      assert items == [items[0]] + items[1..];
      BlanksAloneAreFilled(items[1..]);
    }
  }

  // ----- how long a bullet gets

  /** The item keeps the limit, is a single word, or is the text of a heading that opens no section. */
  predicate Short(item: string, blocks: seq<Block>, max: int) {
    || |item| <= max || Word(item)
    || exists i | 0 <= i < |blocks| :: blocks[i].Heading? && blocks[i].level > 2 && blocks[i].text == item
  }

  lemma {:induction false} ListChunksAreShort(items: seq<string>, max: int, item: string)
    requires item in ListChunks(items, max)
    ensures |item| <= max || Word(item)
  {
    ChunksRejoin(items[0], max);
    if item !in Chunks(items[0], max) {
      ListChunksAreShort(items[1..], max, item);
    }
  }

  lemma {:induction false} RowItemsAreShort(header: seq<string>, rows: seq<seq<string>>, max: nat, item: string)
    requires item in RowItems(header, rows, max)
    ensures |item| <= max
  {
    if item in RowItems(header, rows[1..], max) {
      RowItemsAreShort(header, rows[1..], max, item);
    }
  }

  lemma {:induction false} BlockItemsAreShort(b: Block, max: nat, item: string)
    requires item in BlockItems(b, max)
    ensures Short(item, [b], max)
  {
    match b
    case Heading(text, level) => assert [b][0].Heading?;
    case Paragraph(text) => ChunksRejoin(text, max);
    case List(items, _) => ListChunksAreShort(items, max, item);
    case Table(rows) => RowItemsAreShort(rows[0], rows[1..], max, item);
    case PageBreak => assert false;
  }

  /** For every limit: what goes onto the slides keeps it, but for single words and lower headings, which are never
      cut. */
  lemma {:induction false} ItemsAreShort(blocks: seq<Block>, max: nat, item: string)
    requires item in AllItems(blocks, max)
    ensures Short(item, blocks, max)
  {
    if item in BlockItems(blocks[0], max) {
      BlockItemsAreShort(blocks[0], max, item);
    } else {
      ItemsAreShort(blocks[1..], max, item);
      if i :| 0 <= i < |blocks[1..]| && blocks[1..][i].Heading? && blocks[1..][i].level > 2 && blocks[1..][i].text == item {
        assert blocks[i + 1] == blocks[1..][i];
      }
    }
  }

  /** And a paragraph is never cut into more bullets than needed. */
  lemma {:induction false} ParagraphItemsAreFewest(text: string, max: int, lines: seq<seq<string>>)
    requires Layout(lines, Words(text), max)
    ensures |BlockItems(Paragraph(text), max)| <= |lines|
  {
    FewestChunks(text, max, lines);
  }
}
