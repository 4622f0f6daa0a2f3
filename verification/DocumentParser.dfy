/** parse_document_spec as it runs: index-driven loops over the source lines, against the blocks of
    module DocumentSpec. */
module DocumentParser {
  import opened DocumentSpec
  import opened LineReader
  import opened Text
  import opened Wrappers

  datatype Document = Document(title: string, blocks: seq<Block>, semanticText: string)

  /** `\r\n` and lone `\r` become `\n`. */
  function Normalize(s: string): string {
    if s == [] then []
    else if s[0] == '\r' then ['\n'] + Normalize(if |s| > 1 && s[1] == '\n' then s[2..] else s[1..])
    else [s[0]] + Normalize(s[1..])
  }

  function Prefix(s: string, n: nat): (p: string)
    ensures p <= s && |p| == if |s| <= n then |s| else n
  {
    if |s| <= n then s else s[..n]
  }

  /** The text of the first heading or paragraph. */
  function TitleOf(blocks: seq<Block>): string {
    if blocks == [] then []
    else
      var here := match blocks[0]
        case Heading(text, _) => text
        case Paragraph(text) => Prefix(text, 120)
        case _ => [];
      if here != [] then here else TitleOf(blocks[1..])
  }

  function NonEmpty(cells: seq<string>): seq<string> {
    if cells == [] then [] else (if cells[0] == [] then [] else [cells[0]]) + NonEmpty(cells[1..])
  }

  function RowTexts(rows: seq<seq<string>>): seq<string> {
    if rows == [] then [] else [Join(" | ", NonEmpty(rows[0]))] + RowTexts(rows[1..])
  }

  function BlockTexts(b: Block): seq<string> {
    match b
    case Heading(text, _) => [text]
    case Paragraph(text) => [text]
    case List(items, _) => items
    case Table(rows) => RowTexts(rows)
    case PageBreak => []
  }

  function SemanticTexts(blocks: seq<Block>): seq<string> {
    if blocks == [] then [] else BlockTexts(blocks[0]) + SemanticTexts(blocks[1..])
  }

  function DocumentOf(blocks: seq<Block>): Document {
    Document(Prefix(if TitleOf(blocks) == [] then "Documento" else TitleOf(blocks), 160), blocks,
             Strip(Join("\n", SemanticTexts(blocks))))
  }

  /** The blocks of a whole content. */
  function ContentBlocks(content: string): seq<Block> {
    var source := Strip(Normalize(content));
    if source == [] then [] else Blocks(ReadAll(Split(source, '\n')))
  }

  // ----- folding block by block

  lemma {:induction false} TitleSnoc(blocks: seq<Block>, b: Block)
    ensures TitleOf(blocks + [b]) == if TitleOf(blocks) != [] then TitleOf(blocks) else TitleOf([b])
  {
    if blocks != [] {
      assert (blocks + [b])[1..] == blocks[1..] + [b];
      TitleSnoc(blocks[1..], b);
    }
  }

  lemma {:induction false} SemanticSnoc(blocks: seq<Block>, b: Block)
    ensures SemanticTexts(blocks + [b]) == SemanticTexts(blocks) + BlockTexts(b)
  {
    if blocks == [] {
      assert SemanticTexts([b]) == BlockTexts(b) + [];
    } else {
      assert (blocks + [b])[1..] == blocks[1..] + [b];
      SemanticSnoc(blocks[1..], b);
    }
  }

  // ----- the inner loops

  method ParseTable(lines: seq<Line>, start: nat) returns (rows: seq<seq<string>>, next: nat)
    requires start + 2 <= |lines|
    ensures next == start + 2 + RowsSpan(lines[start + 2..]) <= |lines|
    ensures rows == [SplitRow(lines[start].text)] + Rows(lines[start + 2..next])
  {
    rows := [SplitRow(lines[start].text)];
    next := start + 2;
    while next < |lines|
      invariant start + 2 <= next <= |lines|
      invariant RowsSpan(lines[start + 2..]) == next - (start + 2) + RowsSpan(lines[next..])
      invariant rows == [SplitRow(lines[start].text)] + Rows(lines[start + 2..next])
    {
      var current := lines[next].text;
      if current == [] || '|' !in current {
        break;
      }
      rows := rows + [SplitRow(current)];
      RowsSnoc(lines[start + 2..next], lines[next]);
      assert lines[start + 2..next + 1] == lines[start + 2..next] + [lines[next]];
      assert lines[next..][1..] == lines[next + 1..];
      next := next + 1;
    }
  }

  lemma {:induction false} RowsSnoc(lines: seq<Line>, l: Line)
    ensures Rows(lines + [l]) == Rows(lines) + [SplitRow(l.text)]
  {
    if lines != [] {
      assert (lines + [l])[1..] == lines[1..] + [l];
      RowsSnoc(lines[1..], l);
    }
  }

  method ParseList(lines: seq<Line>, start: nat, ordered: bool) returns (items: seq<string>, next: nat)
    requires start < |lines|
    ensures next == start + ItemsSpan(lines[start..], ordered) <= |lines|
    ensures items == Items(lines[start..next], ordered)
  {
    items, next := [], start;
    while next < |lines|
      invariant start <= next <= |lines|
      invariant ItemsSpan(lines[start..], ordered) == next - start + ItemsSpan(lines[next..], ordered)
      invariant items == Items(lines[start..next], ordered)
    {
      var item := if ordered then lines[next].number else lines[next].bullet;
      if item.None? {
        break;
      }
      if item.value != [] {
        items := items + [item.value];
      }
      ListStep(lines, start, next, ordered);
      next := next + 1;
    }
  }

  lemma {:induction false} ListStep(lines: seq<Line>, start: nat, next: nat, ordered: bool)
    requires start <= next < |lines| && lines[next].Marker(ordered).Some?
    ensures var item := lines[next].Marker(ordered).value;
      Items(lines[start..next + 1], ordered) == Items(lines[start..next], ordered) + if item != [] then [item] else []
    ensures ItemsSpan(lines[next..], ordered) == 1 + ItemsSpan(lines[next + 1..], ordered)
  {
    ItemsSnoc(lines[start..next], lines[next], ordered);
    assert lines[start..next + 1] == lines[start..next] + [lines[next]];
    assert lines[next..][1..] == lines[next + 1..];
  }

  lemma {:induction false} ItemsSnoc(lines: seq<Line>, l: Line, ordered: bool)
    ensures var m := l.Marker(ordered);
      Items(lines + [l], ordered) == Items(lines, ordered) + if m.Some? && m.value != [] then [m.value] else []
  {
    if lines == [] {
      assert lines + [l] == [l];
      assert Items([l][1..], ordered) == [];
    } else {
      assert (lines + [l])[1..] == lines[1..] + [l];
      ItemsSnoc(lines[1..], l, ordered);
    }
  }

  /** _is_table_start */
  method IsTableStart(lines: seq<Line>, index: nat) returns (b: bool)
    requires index < |lines|
    ensures b == TableStart(lines[index..])
  {
    b := index + 1 < |lines| && '|' in lines[index].text && lines[index + 1].separator;
  }

  method ParseParagraph(lines: seq<Line>, start: nat) returns (text: string, next: nat)
    requires start < |lines|
    ensures next == start + 1 + ParagraphSpan(lines[start + 1..]) <= |lines|
    ensures text == ParagraphText(lines[start..next])
  {
    var para := [lines[start].text];
    next := start + 1;
    while next < |lines|
      invariant start + 1 <= next <= |lines|
      invariant ParagraphSpan(lines[start + 1..]) == next - (start + 1) + ParagraphSpan(lines[next..])
      invariant para == Texts(lines[start..next])
    {
      var cur := lines[next];
      if cur.text == [] {
        break;
      }
      var table := IsTableStart(lines, next);
      if cur.heading.Some? || cur.bullet.Some? || cur.number.Some? || cur.pageBreak || table {
        break;
      }
      para := para + [cur.text];
      assert lines[next..][1..] == lines[next + 1..];
      next := next + 1;
    }
    text := Clean(Join(" ", para));
  }

  // ----- the outer loop

  lemma BlocksFrom(lines: seq<Line>, i: nat)
    requires i < |lines|
    ensures var next := i + SpanOf(lines[i..]);
      next <= |lines| && Blocks(lines[i..]) == BlockOf(BranchAt(lines[i..]), lines[i..next]) + Blocks(lines[next..])
  {
    var tail := lines[i..];
    var n := SpanOf(tail);
    SuffixCuts(lines, i, n);
    BlocksSplit(tail, tail[..n], tail[n..]);
  }

  lemma SuffixCuts(lines: seq<Line>, i: nat, n: nat)
    requires i + n <= |lines|
    ensures lines[i..][n..] == lines[i + n..] && lines[i..][..n] == lines[i..i + n]
  {
  }

  lemma SpanByBranch(lines: seq<Line>, i: nat)
    requires i < |lines|
    ensures SpanOf(lines[i..]) ==
      match BranchAt(lines[i..])
      case Tabular => 2 + RowsSpan(lines[i + 2..])
      case Listing(ordered) => ItemsSpan(lines[i..], ordered)
      case Prose => 1 + ParagraphSpan(lines[i + 1..])
      case _ => 1
  {
    assert lines[i..][1..] == lines[i + 1..];
    if BranchAt(lines[i..]).Tabular? {
      assert lines[i..][2..] == lines[i + 2..];
    }
  }

  /** The block that starts at line `i`, by the branch of that line, and where the next one starts. */
  method ParseBlock(lines: seq<Line>, i: nat) returns (blocks: seq<Block>, next: nat)
    requires i < |lines|
    ensures next == i + SpanOf(lines[i..]) <= |lines|
    ensures blocks == BlockOf(BranchAt(lines[i..]), lines[i..next])
  {
    SpanByBranch(lines, i);
    var line := lines[i];
    if line.text == [] {
      return [], i + 1;
    }
    if line.pageBreak {
      return [PageBreak], i + 1;
    }
    if line.heading.Some? {
      return [Heading(line.heading.value.text, line.heading.value.level)], i + 1;
    }
    var table := IsTableStart(lines, i);
    if table {
      var rows;
      rows, next := ParseTable(lines, i);
      assert lines[i..next][2..] == lines[i + 2..next];
      return [Table(PadAll(rows, Width(rows)))], next;
    }
    if line.bullet.Some? || line.number.Some? {
      var items;
      items, next := ParseList(lines, i, line.number.Some?);
      return if items != [] then [List(items, line.number.Some?)] else [], next;
    }
    var text;
    text, next := ParseParagraph(lines, i);
    return if text != [] then [Paragraph(text)] else [], next;
  }

  /** What the parser has collected so far. */
  datatype Collected = Collected(blocks: seq<Block>, title: string, semantic: seq<string>) {
    predicate Agrees() { title == TitleOf(blocks) && semantic == SemanticTexts(blocks) }
  }

  /** blocks.append, semantic.extend and `title = title or text`, for the block found, if any. */
  method Append(c: Collected, found: seq<Block>) returns (c': Collected)
    requires c.Agrees() && |found| <= 1
    ensures c'.blocks == c.blocks + found && c'.Agrees()
  {
    if found == [] {
      assert c.blocks + found == c.blocks;
      return c;
    }
    var block := found[0];
    assert found == [block];
    TitleSnoc(c.blocks, block);
    SemanticSnoc(c.blocks, block);
    assert TitleOf([block][1..]) == [];
    var title := c.title;
    if title == [] && block.Heading? {
      title := block.text;
    }
    if title == [] && block.Paragraph? {
      title := Prefix(block.text, 120);
    }
    c' := Collected(c.blocks + [block], title, c.semantic + BlockTexts(block));
  }

  /** ParseBlock, as one step of Blocks. */
  method NextBlock(lines: seq<Line>, i: nat) returns (blocks: seq<Block>, next: nat)
    requires i < |lines|
    ensures i < next <= |lines| && |blocks| <= 1
    ensures Blocks(lines[i..]) == blocks + Blocks(lines[next..])
  {
    BlocksFrom(lines, i);
    blocks, next := ParseBlock(lines, i);
  }

  /** The blocks found so far, and those of the lines still to be read, are all. */
  ghost predicate Remaining(found: seq<Block>, rest: seq<Line>, all: seq<Block>) {
    found + Blocks(rest) == all
  }

  lemma {:induction false} RemainingStart(lines: seq<Line>)
    ensures Remaining([], lines[0..], Blocks(lines))
  {
    assert lines[0..] == lines;
    assert [] + Blocks(lines) == Blocks(lines);
  }

  lemma {:induction false} RemainingStep(found: seq<Block>, lines: seq<Line>, more: seq<Block>, rest: seq<Line>, all: seq<Block>)
    requires Remaining(found, lines, all) && Blocks(lines) == more + Blocks(rest)
    ensures Remaining(found + more, rest, all)
  {
    Regroup(found, more, Blocks(rest));
  }

  lemma RemainingEnd(found: seq<Block>, rest: seq<Line>, all: seq<Block>)
    requires Remaining(found, rest, all) && rest == []
    ensures found == all
  {
    assert found + [] == found;
  }

  method ParseLines(lines: seq<Line>) returns (c: Collected)
    ensures c.blocks == Blocks(lines) && c.Agrees()
  {
    c := Collected([], [], []);
    var i := 0;
    RemainingStart(lines);
    while i < |lines|
      invariant i <= |lines|
      invariant Remaining(c.blocks, lines[i..], Blocks(lines))
      invariant c.Agrees()
    {
      var found, next := NextBlock(lines, i);
      RemainingStep(c.blocks, lines[i..], found, lines[next..], Blocks(lines));
      c := Append(c, found);
      i := next;
    }
    RemainingEnd(c.blocks, lines[i..], Blocks(lines));
  }

  /** The parsed document: its blocks are those of the whole text, its title is that of the first heading
      or paragraph, its semantic text that of all blocks. */
  method ParseDocumentSpec(content: string) returns (doc: Document)
    ensures doc == DocumentOf(ContentBlocks(content))
  {
    var source := Strip(Normalize(content));
    if source == [] {
      return Document("Documento", [], []);
    }
    var c := ParseLines(ReadAll(Split(source, '\n')));
    return Document(Prefix(if c.title == [] then "Documento" else c.title, 160), c.blocks, Strip(Join("\n", c.semantic)));
  }
}
