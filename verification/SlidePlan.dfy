/** build_slide_plan: sections of bullets cut into slides. */
module SlidePlan {
  import opened BulletChunks
  import opened DocumentParser
  import opened DocumentSpec
  import opened LineReader
  import opened Text
  import opened Wrappers

  datatype Section = Section(title: string, items: seq<string>)
  datatype Slide = Slide(title: string, bullets: seq<string>)
  datatype Plan = Plan(title: string, slides: seq<Slide>)

  const TITLE_CHARS := 100
  const ZERO_STEP := "range() arg 3 must not be zero"
  const CONTINUED := " — continuação"

  /** s[:n], where a negative n counts from the end. */
  function Head(s: string, n: int): (p: string)
    ensures p <= s && |p| == if n >= |s| then |s| else if n >= 0 then n else if |s| + n >= 0 then |s| + n else 0
  {
    if n >= 0 then Prefix(s, n) else if |s| + n >= 0 then s[..|s| + n] else []
  }

  // ----- the items of a block

  function Pairs(header: seq<string>, row: seq<string>): seq<string> {
    if header == [] || row == [] then []
    else
      (if header[0] != [] || row[0] != [] then [header[0] + ": " + row[0]] else []) + Pairs(header[1..], row[1..])
  }

  function RowItems(header: seq<string>, rows: seq<seq<string>>, max: int): seq<string> {
    if rows == [] then []
    else
      var pairs := Pairs(header, rows[0]);
      (if pairs == [] then [] else [Head(Join(" | ", pairs), max)]) + RowItems(header, rows[1..], max)
  }

  function ListChunks(items: seq<string>, max: int): seq<string> {
    if items == [] then [] else Chunks(items[0], max) + ListChunks(items[1..], max)
  }

  predicate OpensSection(b: Block) {
    b.PageBreak? || (b.Heading? && b.level <= 2)
  }

  function BlockItems(b: Block, max: int): seq<string> {
    match b
    case Heading(text, level) => if level <= 2 then [] else [text]
    case Paragraph(text) => Chunks(text, max)
    case List(items, _) => ListChunks(items, max)
    case Table(rows) => if rows == [] then [] else RowItems(rows[0], rows[1..], max)
    case PageBreak => []
  }

  function AllItems(blocks: seq<Block>, max: int): seq<string> {
    if blocks == [] then [] else BlockItems(blocks[0], max) + AllItems(blocks[1..], max)
  }

  // ----- sections

  function Closed(title: string, items: seq<string>): seq<Section> {
    if items == [] then [] else [Section(Prefix(title, TITLE_CHARS), items)]
  }

  function TitleAfter(b: Block, title: string): string {
    if b.Heading? && b.level <= 2 then b.text else title
  }

  function Sections(blocks: seq<Block>, title: string, items: seq<string>, max: int): seq<Section>
    decreases |blocks|
  {
    if blocks == [] then Closed(title, items)
    else if OpensSection(blocks[0]) then
      Closed(title, items) + Sections(blocks[1..], TitleAfter(blocks[0], title), [], max)
    else Sections(blocks[1..], title, items + BlockItems(blocks[0], max), max)
  }

  function PlannedSections(doc: Document, max: int): seq<Section> {
    var sections := Sections(doc.blocks, "Resumo", [], max);
    if sections == [] && doc.semanticText != [] then [Section("Resumo", Chunks(doc.semanticText, max))] else sections
  }

  // ----- slides

  function NonBlank(items: seq<string>): seq<string> {
    if items == [] then [] else (if Blank(items[0]) then [] else [items[0]]) + NonBlank(items[1..])
  }

  function Safe(items: seq<string>): (safe: seq<string>)
    ensures safe != []
  {
    if NonBlank(items) == [] then ["Conteúdo"] else NonBlank(items)
  }

  /** The title of a section's slides: its own on the first, marked as continued on the others. */
  function SlideTitle(title: string, first: bool): string {
    Prefix(if first then title else title + CONTINUED, TITLE_CHARS)
  }

  function SlideAt(title: string, safe: seq<string>, off: nat, size: nat): Slide
    requires off <= |safe|
  {
    var end := if off + size <= |safe| then off + size else |safe|;
    Slide(SlideTitle(title, off == 0), safe[off..end])
  }

  /** The slides of one section from an offset on; none for a negative step. */
  function SlidesFrom(title: string, safe: seq<string>, off: nat, size: int): seq<Slide>
    requires size != 0
    decreases |safe| - off
  {
    if size < 0 || off >= |safe| then []
    else [SlideAt(title, safe, off, size)] + SlidesFrom(title, safe, off + size, size)
  }

  function Slides(sections: seq<Section>, size: int): seq<Slide>
    requires size != 0
  {
    if sections == [] then []
    else SlidesFrom(sections[0].title, Safe(sections[0].items), 0, size) + Slides(sections[1..], size)
  }

  /** A step of zero is an error as soon as there is a section. */
  function PlanOf(doc: Document, size: int, max: int): Result<Plan, string> {
    var sections := PlannedSections(doc, max);
    if sections != [] && size == 0 then Err(ZERO_STEP)
    else Ok(Plan(Prefix(doc.title, TITLE_CHARS), if sections == [] then [] else Slides(sections, size)))
  }

  // ----- the loops

  method TableItems(rows: seq<seq<string>>, max: int) returns (items: seq<string>)
    requires rows != []
    ensures items == RowItems(rows[0], rows[1..], max)
  {
    var header := rows[0];
    items := [];
    var k := 1;
    while k < |rows|
      invariant 1 <= k <= |rows|
      invariant items + RowItems(header, rows[k..], max) == RowItems(header, rows[1..], max)
    {
      var pairs := RowPairs(header, rows[k]);
      assert rows[k..][1..] == rows[k + 1..];
      ghost var rest := RowItems(header, rows[k + 1..], max);
      if pairs != [] {
        assert items + ([Head(Join(" | ", pairs), max)] + rest) == (items + [Head(Join(" | ", pairs), max)]) + rest;
        items := items + [Head(Join(" | ", pairs), max)];
      } else {
        assert [] + rest == rest;
      }
      k := k + 1;
    }
    assert rows[k..] == [];
  }

  method RowPairs(header: seq<string>, row: seq<string>) returns (pairs: seq<string>)
    ensures pairs == Pairs(header, row)
  {
    pairs := [];
    var j := 0;
    assert header[0..] == header && row[0..] == row;
    while j < |header| && j < |row|
      invariant j <= |header| && j <= |row|
      invariant pairs + Pairs(header[j..], row[j..]) == Pairs(header, row)
    {
      assert header[j..][1..] == header[j + 1..] && row[j..][1..] == row[j + 1..];
      ghost var rest := Pairs(header[j + 1..], row[j + 1..]);
      if header[j] != [] || row[j] != [] {
        assert pairs + ([header[j] + ": " + row[j]] + rest) == (pairs + [header[j] + ": " + row[j]]) + rest;
        pairs := pairs + [header[j] + ": " + row[j]];
      } else {
        assert [] + rest == rest;
      }
      j := j + 1;
    }
    assert Pairs(header[j..], row[j..]) == [];
  }

  method ListItems(list: seq<string>, max: int) returns (items: seq<string>)
    ensures items == ListChunks(list, max)
  {
    items := [];
    var k := 0;
    assert list[0..] == list;
    while k < |list|
      invariant k <= |list|
      invariant items + ListChunks(list[k..], max) == ListChunks(list, max)
    {
      var chunks := ChunkText(list[k], max);
      assert list[k..][1..] == list[k + 1..];
      ghost var rest := ListChunks(list[k + 1..], max);
      assert items + (chunks + rest) == (items + chunks) + rest;
      items := items + chunks;
      k := k + 1;
    }
    assert list[k..] == [];
  }

  /** What one block adds to the current items. */
  method ItemsOf(b: Block, max: int) returns (items: seq<string>)
    ensures items == BlockItems(b, max)
  {
    match b
    case Heading(text, level) => items := if level <= 2 then [] else [text];
    case Paragraph(text) => items := ChunkText(text, max);
    case List(list, _) => items := ListItems(list, max);
    case Table(rows) =>
      if rows == [] {
        return [];
      }
      items := TableItems(rows, max);
    case PageBreak => items := [];
  }

  lemma {:induction false} SectionsStep(blocks: seq<Block>, k: nat, title: string, items: seq<string>, max: int)
    requires k < |blocks|
    ensures Sections(blocks[k..], title, items, max) ==
      if OpensSection(blocks[k])
      then Closed(title, items) + Sections(blocks[k + 1..], TitleAfter(blocks[k], title), [], max)
      else Sections(blocks[k + 1..], title, items + BlockItems(blocks[k], max), max)
  {
    assert blocks[k..][1..] == blocks[k + 1..];
  }

  /** The sections found so far, and those still to be found, are all. */
  ghost predicate Remaining(found: seq<Section>, rest: seq<Block>, title: string, items: seq<string>, max: int,
                            all: seq<Section>) {
    found + Sections(rest, title, items, max) == all
  }

  lemma RemainingStep(found: seq<Section>, blocks: seq<Block>, k: nat, title: string, items: seq<string>, max: int,
                      all: seq<Section>)
    requires k < |blocks| && Remaining(found, blocks[k..], title, items, max, all)
    ensures if OpensSection(blocks[k])
      then Remaining(found + Closed(title, items), blocks[k + 1..], TitleAfter(blocks[k], title), [], max, all)
      else Remaining(found, blocks[k + 1..], title, items + BlockItems(blocks[k], max), max, all)
  {
    SectionsStep(blocks, k, title, items, max);
    if OpensSection(blocks[k]) {
      JoinSections(found, Closed(title, items), Sections(blocks[k + 1..], TitleAfter(blocks[k], title), [], max));
    }
  }

  lemma JoinSections(a: seq<Section>, b: seq<Section>, c: seq<Section>)
    ensures a + (b + c) == (a + b) + c
  {
  }

  lemma {:induction false} RemainingStart(blocks: seq<Block>, title: string, max: int)
    ensures Remaining([], blocks[0..], title, [], max, Sections(blocks, title, [], max))
  {
    assert blocks[0..] == blocks;
    var all := Sections(blocks, title, [], max);
    assert [] + all == all;
  }

  lemma RemainingEnd(found: seq<Section>, rest: seq<Block>, title: string, items: seq<string>, max: int,
                     all: seq<Section>)
    requires rest == [] && Remaining(found, rest, title, items, max, all)
    ensures found + Closed(title, items) == all
  {
  }

  method CollectSections(blocks: seq<Block>, max: int) returns (sections: seq<Section>)
    ensures sections == Sections(blocks, "Resumo", [], max)
  {
    sections := [];
    var title, items, k := "Resumo", [], 0;
    ghost var all := Sections(blocks, title, items, max);
    RemainingStart(blocks, title, max);
    while k < |blocks|
      invariant k <= |blocks|
      invariant Remaining(sections, blocks[k..], title, items, max, all)
    {
      var block := blocks[k];
      RemainingStep(sections, blocks, k, title, items, max, all);
      if OpensSection(block) {
        sections := sections + Closed(title, items);
        title, items := TitleAfter(block, title), [];
      } else {
        var more := ItemsOf(block, max);
        items := items + more;
      }
      k := k + 1;
    }
    RemainingEnd(sections, blocks[k..], title, items, max, all);
    sections := sections + Closed(title, items);
  }

  method NonBlankItems(items: seq<string>) returns (safe: seq<string>)
    ensures safe == NonBlank(items)
  {
    safe := [];
    var k := 0;
    assert items[0..] == items;
    while k < |items|
      invariant k <= |items|
      invariant safe + NonBlank(items[k..]) == NonBlank(items)
    {
      assert items[k..][1..] == items[k + 1..];
      ghost var rest := NonBlank(items[k + 1..]);
      BlankStrip(items[k]);
      if Strip(items[k]) != [] {
        assert safe + ([items[k]] + rest) == (safe + [items[k]]) + rest;
        safe := safe + [items[k]];
      } else {
        assert [] + rest == rest;
      }
      k := k + 1;
    }
    assert items[k..] == [];
  }

  method CutSlides(title: string, safe: seq<string>, size: int) returns (slides: seq<Slide>)
    requires size != 0
    ensures slides == SlidesFrom(title, safe, 0, size)
  {
    slides := [];
    if size < 0 {
      return;
    }
    var off := 0;
    while off < |safe|
      invariant slides + SlidesFrom(title, safe, off, size) == SlidesFrom(title, safe, 0, size)
      decreases |safe| - off
    {
      ghost var rest := SlidesFrom(title, safe, off + size, size);
      var slide := SlideAt(title, safe, off, size);
      assert slides + ([slide] + rest) == (slides + [slide]) + rest;
      slides := slides + [slide];
      off := off + size;
    }
  }

  /** The sections to show, with the whole text as the only one when the blocks give none. */
  method PlanSections(doc: Document, max: int) returns (sections: seq<Section>)
    ensures sections == PlannedSections(doc, max)
  {
    sections := CollectSections(doc.blocks, max);
    if sections == [] && doc.semanticText != [] {
      var chunks := ChunkText(doc.semanticText, max);
      sections := [Section("Resumo", chunks)];
    }
  }

  method CutSection(section: Section, size: int) returns (slides: seq<Slide>)
    requires size != 0
    ensures slides == SlidesFrom(section.title, Safe(section.items), 0, size)
  {
    var safe := NonBlankItems(section.items);
    safe := if safe == [] then ["Conteúdo"] else safe;
    slides := CutSlides(section.title, safe, size);
  }

  method CutAll(sections: seq<Section>, size: int) returns (slides: seq<Slide>)
    requires size != 0
    ensures slides == Slides(sections, size)
  {
    slides := [];
    var k := 0;
    assert sections[0..] == sections;
    while k < |sections|
      invariant k <= |sections|
      invariant slides + Slides(sections[k..], size) == Slides(sections, size)
    {
      var cut := CutSection(sections[k], size);
      assert sections[k..][1..] == sections[k + 1..];
      ghost var rest := Slides(sections[k + 1..], size);
      assert slides + (cut + rest) == (slides + cut) + rest;
      slides := slides + cut;
      k := k + 1;
    }
    assert sections[k..] == [];
  }

  /** build_slide_plan: a step of zero is an error as soon as there is a section. */
  method BuildSlidePlan(doc: Document, size: int, max: int) returns (r: Result<Plan, string>)
    ensures r == PlanOf(doc, size, max)
  {
    var sections := PlanSections(doc, max);
    var title := Prefix(doc.title, TITLE_CHARS);
    if sections == [] {
      return Ok(Plan(title, []));
    }
    if size == 0 {
      return Err(ZERO_STEP);
    }
    var slides := CutAll(sections, size);
    r := Ok(Plan(title, slides));
  }

  // ----- what the slides promise

  function Bullets(slides: seq<Slide>): seq<string> {
    if slides == [] then [] else slides[0].bullets + Bullets(slides[1..])
  }

  function SectionItems(sections: seq<Section>): seq<string> {
    if sections == [] then [] else sections[0].items + SectionItems(sections[1..])
  }

  function SafeItems(sections: seq<Section>): seq<string> {
    if sections == [] then [] else Safe(sections[0].items) + SafeItems(sections[1..])
  }

  lemma {:induction false} BulletsAppend(a: seq<Slide>, b: seq<Slide>)
    ensures Bullets(a + b) == Bullets(a) + Bullets(b)
  {
    if a == [] {
      assert a + b == b;
    } else {
      assert (a + b)[1..] == a[1..] + b;
      BulletsAppend(a[1..], b);
    }
  }

  lemma {:induction false} SectionItemsAppend(a: seq<Section>, b: seq<Section>)
    ensures SectionItems(a + b) == SectionItems(a) + SectionItems(b)
  {
    if a == [] {
      assert a + b == b;
    } else {
      assert (a + b)[1..] == a[1..] + b;
      SectionItemsAppend(a[1..], b);
    }
  }

  lemma ClosedKeepsItems(title: string, items: seq<string>)
    ensures SectionItems(Closed(title, items)) == items
  {
    if items != [] {
      assert SectionItems(Closed(title, items)) == items + SectionItems([]);
    }
  }

  /** Sections drop and reorder nothing: their items in order are the items of the blocks in order. */
  lemma {:induction false} SectionsKeepItems(blocks: seq<Block>, title: string, items: seq<string>, max: int)
    ensures SectionItems(Sections(blocks, title, items, max)) == items + AllItems(blocks, max)
    decreases |blocks|
  {
    ClosedKeepsItems(title, items);
    if blocks == [] {
      assert items + [] == items;
    } else {
      var rest, here := blocks[1..], BlockItems(blocks[0], max);
      JoinTexts(items, here, AllItems(rest, max));
      if OpensSection(blocks[0]) {
        var tail := Sections(rest, TitleAfter(blocks[0], title), [], max);
        SectionsKeepItems(rest, TitleAfter(blocks[0], title), [], max);
        SectionItemsAppend(Closed(title, items), tail);
        JoinTexts(items, [], AllItems(rest, max));
      } else {
        SectionsKeepItems(rest, title, items + here, max);
      }
    }
  }

  lemma JoinTexts(a: seq<string>, b: seq<string>, c: seq<string>)
    ensures a + (b + c) == (a + b) + c
    ensures b == [] ==> b + c == c && a + b == a
  {
  }

  /** No section is empty. */
  lemma {:induction false} SectionsHaveItems(blocks: seq<Block>, title: string, items: seq<string>, max: int)
    ensures forall s | s in Sections(blocks, title, items, max) :: s.items != []
    decreases |blocks|
  {
    if blocks != [] {
      if OpensSection(blocks[0]) {
        SectionsHaveItems(blocks[1..], TitleAfter(blocks[0], title), [], max);
      } else {
        SectionsHaveItems(blocks[1..], title, items + BlockItems(blocks[0], max), max);
      }
    }
  }

  /** The text of the last heading of level 1 or 2. */
  function LastTitle(blocks: seq<Block>, title: string): string {
    if blocks == [] then title
    else if blocks[|blocks| - 1].Heading? && blocks[|blocks| - 1].level <= 2 then blocks[|blocks| - 1].text
    else LastTitle(blocks[..|blocks| - 1], title)
  }

  lemma {:induction false} LastTitleCons(blocks: seq<Block>, title: string)
    requires blocks != []
    ensures LastTitle(blocks, title) == LastTitle(blocks[1..], TitleAfter(blocks[0], title))
  {
    if |blocks| > 1 {
      var init := blocks[..|blocks| - 1];
      assert blocks[1..][..|blocks| - 2] == init[1..];
      LastTitleCons(init, title);
    }
  }

  /** A block that opens a section separates what comes before it from what comes after. */
  lemma {:induction false} SectionsSeparate(a: seq<Block>, b: Block, c: seq<Block>, title: string, items: seq<string>,
                                            max: int)
    requires b.PageBreak? || (b.Heading? && b.level <= 2)
    ensures Sections(a + [b] + c, title, items, max)
         == Sections(a, title, items, max) + Sections(c, if b.Heading? then b.text else LastTitle(a, title), [], max)
    decreases |a|
  {
    var all := a + [b] + c;
    if a == [] {
      assert all[1..] == c;
    } else {
      assert all[1..] == a[1..] + [b] + c && all[0] == a[0];
      LastTitleCons(a, title);
      var title' := TitleAfter(a[0], title);
      var tail := Sections(c, TitleAfter(b, LastTitle(a, title)), [], max);
      if OpensSection(a[0]) {
        SectionsSeparate(a[1..], b, c, title', [], max);
        var closed := Closed(title, items);
        assert closed + (Sections(a[1..], title', [], max) + tail) == (closed + Sections(a[1..], title', [], max)) + tail;
      } else {
        SectionsSeparate(a[1..], b, c, title', items + BlockItems(a[0], max), max);
      }
    }
  }

  /** One section's slides: its items in order, a full slide each but for the last, and titles to match. */
  lemma {:induction false} SlidesCoverSection(title: string, safe: seq<string>, off: nat, size: int)
    requires size >= 1 && off <= |safe|
    ensures var slides := SlidesFrom(title, safe, off, size);
      && Bullets(slides) == safe[off..]
      && (forall k | 0 <= k < |slides| ::
        && 1 <= |slides[k].bullets| <= size
        && slides[k].title == Prefix(if off == 0 && k == 0 then title else title + " — continuação", 100)
        && (k + 1 < |slides| ==> |slides[k].bullets| == size))
    decreases |safe| - off
  {
    if off < |safe| {
      var next := off + size;
      CutBullets(safe, off, next);
      if next <= |safe| {
        SlidesCoverSection(title, safe, next, size);
      } else {
        assert SlidesFrom(title, safe, next, size) == [];
        assert [SlideAt(title, safe, off, size)][1..] == [];
      }
    }
  }

  lemma CutBullets(safe: seq<string>, off: nat, next: nat)
    requires off <= next && off <= |safe|
    ensures next <= |safe| ==> safe[off..] == safe[off..next] + safe[next..]
    ensures safe[off..] == safe[off..|safe|] + []
  {
  }

  lemma {:induction false} SlidesCover(sections: seq<Section>, size: int)
    requires size >= 1
    ensures Bullets(Slides(sections, size)) == SafeItems(sections)
    ensures forall s | s in Slides(sections, size) :: 1 <= |s.bullets| <= size && |s.title| <= TITLE_CHARS
  {
    if sections != [] {
      var safe := Safe(sections[0].items);
      var first := SlidesFrom(sections[0].title, safe, 0, size);
      SlidesCoverSection(sections[0].title, safe, 0, size);
      assert safe[0..] == safe;
      SlidesCover(sections[1..], size);
      BulletsAppend(first, Slides(sections[1..], size));
    }
  }

  /** For every document and every positive slide size: the bullets of all slides in order are the planned
      items of all sections in order, with 1 to `size` on each slide. */
  lemma SlidesAreThePlannedItems(doc: Document, size: int, max: int)
    requires size >= 1
    ensures var plan := PlanOf(doc, size, max);
      && plan.Ok? && Bullets(plan.value.slides) == SafeItems(PlannedSections(doc, max))
      && forall s | s in plan.value.slides :: 1 <= |s.bullets| <= size && |s.title| <= TITLE_CHARS
  {
    SlidesCover(PlannedSections(doc, max), size);
  }

  // ----- parsed documents lose nothing

  predicate NoneBlank(items: seq<string>) {
    forall item | item in items :: !Blank(item)
  }

  lemma {:induction false} NonBlankKeepsAll(items: seq<string>)
    requires NoneBlank(items)
    ensures NonBlank(items) == items
  {
    if items != [] {
      assert items == [items[0]] + items[1..];
      NonBlankKeepsAll(items[1..]);
    }
  }

  lemma {:induction false} SafeKeepsAll(sections: seq<Section>)
    requires forall s | s in sections :: s.items != []
    requires NoneBlank(SectionItems(sections))
    ensures SafeItems(sections) == SectionItems(sections)
  {
    if sections != [] {
      var first := sections[0].items;
      var rest := SectionItems(sections[1..]);
      assert SectionItems(sections) == first + rest;
      assert forall item | item in first :: item in first + rest;
      assert forall item | item in rest :: item in first + rest;
      assert sections[0] in sections;
      NonBlankKeepsAll(first);
      SafeKeepsAll(sections[1..]);
    }
  }

  lemma ChunksNotBlank(text: string, max: int)
    ensures NoneBlank(Chunks(text, max))
  {
    ChunksRejoin(text, max);
    forall chunk | chunk in Chunks(text, max)
      ensures !Blank(chunk)
    {
      if Blank(chunk) {
        WordsOfBlank(chunk);
      }
    }
  }

  lemma {:induction false} ListChunksNotBlank(items: seq<string>, max: int)
    ensures NoneBlank(ListChunks(items, max))
  {
    if items != [] {
      ChunksNotBlank(items[0], max);
      ListChunksNotBlank(items[1..], max);
    }
  }

  /** A table cell as the parser leaves it: it does not start with a space. */
  predicate CellOk(cell: string) {
    cell == [] || !IsSpace(cell[0])
  }

  predicate CellsOk(row: seq<string>) {
    forall cell | cell in row :: CellOk(cell)
  }

  lemma {:induction false} PairsStart(header: seq<string>, row: seq<string>)
    requires CellsOk(header)
    ensures forall pair | pair in Pairs(header, row) :: pair != [] && !IsSpace(pair[0])
  {
    if header != [] && row != [] {
      assert header[0] in header;
      PairsStart(header[1..], row[1..]);
    }
  }

  lemma {:induction false} RowItemsNotBlank(header: seq<string>, rows: seq<seq<string>>, max: int)
    requires CellsOk(header) && max >= 1
    ensures NoneBlank(RowItems(header, rows, max))
  {
    if rows != [] {
      var pairs := Pairs(header, rows[0]);
      PairsStart(header, rows[0]);
      if pairs != [] {
        var joined := Join(" | ", pairs);
        assert pairs[0] in pairs && joined[0] == pairs[0][0];
        assert Head(joined, max)[0] == joined[0] && joined[0] in Head(joined, max);
      }
      RowItemsNotBlank(header, rows[1..], max);
    }
  }

  predicate HeaderOk(b: Block) {
    b.Table? && b.rows != [] ==> CellsOk(b.rows[0])
  }

  lemma {:induction false} ItemsNotBlankOf(blocks: seq<Block>, max: int)
    requires max >= 1
    requires forall b | b in blocks :: BlockOk(b) && HeaderOk(b)
    ensures NoneBlank(AllItems(blocks, max))
  {
    if blocks != [] {
      var b := blocks[0];
      assert b in blocks;
      match b {
        case Heading(_, _) =>
        case Paragraph(text) => ChunksNotBlank(text, max);
        case List(items, _) => ListChunksNotBlank(items, max);
        case Table(rows) => RowItemsNotBlank(rows[0], rows[1..], max);
        case PageBreak =>
      }
      ItemsNotBlankOf(blocks[1..], max);
    }
  }

  lemma CleanCellOk(s: string)
    ensures CellOk(Clean(s))
  {
    var l := LStripSplits(s);
    var r := RStripSplits(LStrip(s));
  }

  lemma FirstBlockHeader(lines: seq<Line>)
    requires lines != []
    ensures forall b | b in FirstBlock(lines) :: HeaderOk(b)
  {
    if BranchAt(lines).Tabular? {
      var span := lines[..SpanOf(lines)];
      var first := SplitRow(span[0].text);
      var rows := [first] + Rows(span[2..]);
      var parts := Split(StripPipesRight(StripPipesLeft(span[0].text)), '|');
      assert rows[0] in rows;
      forall i | 0 <= i < |first|
        ensures CellOk(first[i])
      {
        CleanCellOk(parts[i]);
      }
    }
  }

  lemma {:induction false} HeadersOk(lines: seq<Line>)
    ensures forall b | b in Blocks(lines) :: HeaderOk(b)
    decreases |lines|
  {
    if lines != [] {
      FirstBlockHeader(lines);
      HeadersOk(lines[SpanOf(lines)..]);
    }
  }

  lemma ReadsAreWellRead(raws: seq<string>)
    ensures AllWellRead(ReadAll(raws))
  {
    forall i | 0 <= i < |raws|
      ensures WellRead(ReadAll(raws)[i])
    {
      ReadIsWellRead(raws[i]);
    }
  }

  lemma ContentBlocksOk(content: string)
    ensures forall b | b in ContentBlocks(content) :: BlockOk(b) && HeaderOk(b)
  {
    var lines := ReadAll(Split(Strip(Normalize(content)), '\n'));
    ReadsAreWellRead(Split(Strip(Normalize(content)), '\n'));
    BlocksOk(lines);
    HeadersOk(lines);
  }

  /** For every content that has items at all: the bullets of its slides are exactly the items of its blocks,
      in order; no item is dropped, and no filler appears. */
  lemma {:induction false} ContentSlides(content: string, size: int, max: int)
    requires size >= 1 && max >= 1
    ensures var blocks := ContentBlocks(content); var plan := PlanOf(DocumentOf(blocks), size, max);
      AllItems(blocks, max) != [] ==> plan.Ok? && Bullets(plan.value.slides) == AllItems(blocks, max)
  {
    var blocks := ContentBlocks(content);
    var sections := Sections(blocks, "Resumo", [], max);
    ContentBlocksOk(content);
    ItemsNotBlankOf(blocks, max);
    SectionsKeepItems(blocks, "Resumo", [], max);
    SectionsHaveItems(blocks, "Resumo", [], max);
    assert [] + AllItems(blocks, max) == AllItems(blocks, max);
    SafeKeepsAll(sections);
    SlidesAreThePlannedItems(DocumentOf(blocks), size, max);
  }

  // ----- no word is lost

  function WordsOfAll(texts: seq<string>): seq<string> {
    if texts == [] then [] else Words(texts[0]) + WordsOfAll(texts[1..])
  }

  lemma {:induction false} WordsOfAllAppend(a: seq<string>, b: seq<string>)
    ensures WordsOfAll(a + b) == WordsOfAll(a) + WordsOfAll(b)
  {
    if a == [] {
      assert a + b == b;
    } else {
      assert (a + b)[1..] == a[1..] + b;
      WordsOfAllAppend(a[1..], b);
    }
  }

  lemma {:induction false} WordsOfLines(lines: seq<seq<string>>)
    requires AllWords(Flatten(lines))
    ensures WordsOfAll(JoinAll(lines)) == Flatten(lines)
  {
    if lines != [] {
      assert Flatten(lines) == lines[0] + Flatten(lines[1..]);
      assert forall w | w in lines[0] :: w in Flatten(lines);
      assert forall w | w in Flatten(lines[1..]) :: w in Flatten(lines);
      assert JoinAll(lines)[1..] == JoinAll(lines[1..]);
      WordsOfJoin(lines[0]);
      WordsOfLines(lines[1..]);
    }
  }

  /** Chunking keeps every word, in order. */
  lemma {:induction false} ChunksKeepWords(text: string, max: int)
    ensures WordsOfAll(Chunks(text, max)) == Words(text)
  {
    FillIsLayout([], Words(text), max);
    assert [] + Words(text) == Words(text);
    WordsOfLines(Fill([], Words(text), max));
  }

  lemma {:induction false} ListKeepsWords(items: seq<string>, max: int)
    ensures WordsOfAll(ListChunks(items, max)) == WordsOfAll(items)
  {
    if items != [] {
      ChunksKeepWords(items[0], max);
      ListKeepsWords(items[1..], max);
      WordsOfAllAppend(Chunks(items[0], max), ListChunks(items[1..], max));
    }
  }
}
