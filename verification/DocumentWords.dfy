/** The semantic text of a document has all its words, in order. */
module DocumentWords {
  import opened BulletChunks
  import opened DocumentParser
  import opened DocumentSpec
  import opened SlidePlan
  import opened SlideTables
  import opened Text

  predicate HasText(cells: seq<string>) {
    exists i | 0 <= i < |cells| :: cells[i] != []
  }

  /** The words of the cells that are not empty, with bars between them. */
  function CellWords(cells: seq<string>): seq<string> {
    if cells == [] then []
    else if cells[0] == [] then CellWords(cells[1..])
    else
      var rest := CellWords(cells[1..]);
      Words(cells[0]) + (if HasText(cells[1..]) then ["|"] + rest else [])
  }

  function RowsWords(rows: seq<seq<string>>): seq<string> {
    if rows == [] then [] else CellWords(rows[0]) + RowsWords(rows[1..])
  }

  function BlockWords(b: Block): seq<string> {
    match b
    case Heading(text, _) => Words(text)
    case Paragraph(text) => Words(text)
    case List(items, _) => WordsOfAll(items)
    case Table(rows) => RowsWords(rows)
    case PageBreak => []
  }

  function AllWordsOf(blocks: seq<Block>): seq<string> {
    if blocks == [] then [] else BlockWords(blocks[0]) + AllWordsOf(blocks[1..])
  }

  lemma {:induction false} NonEmptyCells(cells: seq<string>)
    ensures NonEmpty(cells) != [] <==> HasText(cells)
  {
    if cells != [] {
      NonEmptyCells(cells[1..]);
      assert forall i | 0 < i < |cells| :: cells[1..][i - 1] == cells[i];
      assert cells[0] == [] ==> NonEmpty(cells) == [] + NonEmpty(cells[1..]);
      assert HasText(cells[1..]) ==> HasText(cells) by {
        if HasText(cells[1..]) {
          var i :| 0 <= i < |cells[1..]| && cells[1..][i] != [];
          assert cells[i + 1] != [];
        }
      }
    }
  }

  lemma {:induction false} CellsKeepWords(cells: seq<string>)
    ensures Words(Join(" | ", NonEmpty(cells))) == CellWords(cells)
  {
    if cells == [] {
      WordsOfBlank([]);
    } else {
      var rest := NonEmpty(cells[1..]);
      CellsKeepWords(cells[1..]);
      NonEmptyCells(cells[1..]);
      if cells[0] == [] {
        assert NonEmpty(cells) == rest;
      } else if rest == [] {
        assert NonEmpty(cells) == [cells[0]];
        assert Words(cells[0]) + [] == Words(cells[0]);
      } else {
        BarredWords(cells[0], rest);
        Together(Words(cells[0]), ["|"], CellWords(cells[1..]));
      }
    }
  }

  lemma {:induction false} BarredWords(first: string, rest: seq<string>)
    requires rest != []
    ensures Words(Join(" | ", [first] + rest)) == Words(first) + ["|"] + Words(Join(" | ", rest))
  {
    assert ([first] + rest)[1..] == rest;
    WordsOfBar(first, Join(" | ", rest));
  }

  lemma {:induction false} RowsKeepWords(rows: seq<seq<string>>)
    ensures WordsOfAll(RowTexts(rows)) == RowsWords(rows)
  {
    if rows != [] {
      CellsKeepWords(rows[0]);
      RowsKeepWords(rows[1..]);
      assert RowTexts(rows)[1..] == RowTexts(rows[1..]);
    }
  }

  lemma {:induction false} BlockTextsKeepWords(b: Block)
    ensures WordsOfAll(BlockTexts(b)) == BlockWords(b)
  {
    match b
    case Heading(text, _) => OneText(text);
    case Paragraph(text) => OneText(text);
    case List(items, _) =>
    case Table(rows) => RowsKeepWords(rows);
    case PageBreak =>
  }

  lemma {:induction false} OneText(text: string)
    ensures WordsOfAll([text]) == Words(text)
  {
    assert [text][1..] == [] && Words(text) + [] == Words(text);
  }

  lemma {:induction false} TextsKeepWords(blocks: seq<Block>)
    ensures WordsOfAll(SemanticTexts(blocks)) == AllWordsOf(blocks)
  {
    if blocks != [] {
      BlockTextsKeepWords(blocks[0]);
      TextsKeepWords(blocks[1..]);
      WordsOfAllAppend(BlockTexts(blocks[0]), SemanticTexts(blocks[1..]));
    }
  }

  lemma {:induction false} LinesKeepWords(texts: seq<string>)
    ensures Words(Join("\n", texts)) == WordsOfAll(texts)
  {
    if texts == [] {
      WordsOfBlank([]);
    } else if |texts| == 1 {
      OneText(texts[0]);
      assert texts == [texts[0]];
    } else {
      LinesKeepWords(texts[1..]);
      assert "\n" == ['\n'];
      WordsOfParts(texts[0], '\n', Join("\n", texts[1..]));
    }
  }

  lemma {:induction false} StripKeepsWords(s: string)
    ensures Words(Strip(s)) == Words(s)
  {
    var l := LStripSplits(s);
    var r := RStripSplits(LStrip(s));
    WordsIgnoreLeading(l, LStrip(s));
    WordsIgnoreTrailing(Strip(s), r);
  }

  /** The words of the semantic text are those of all headings, paragraphs, list items and table cells, in order,
      with bars between the cells of a row. */
  lemma {:induction false} SemanticTextKeepsWords(blocks: seq<Block>)
    ensures Words(DocumentOf(blocks).semanticText) == AllWordsOf(blocks)
  {
    TextsKeepWords(blocks);
    LinesKeepWords(SemanticTexts(blocks));
    StripKeepsWords(Join("\n", SemanticTexts(blocks)));
  }
}
