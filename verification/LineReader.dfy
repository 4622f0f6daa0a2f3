/** What the document parser sees of one source line. The regular expressions are written out for
    ASCII text. */
module LineReader {
  import opened Text
  import opened Wrappers

  datatype HeadingLine = HeadingLine(level: nat, text: string)

  /** A line as the parser uses it: its stripped text, what that text is, and, if the line is a list
      item, the cleaned item. */
  datatype Line = Line(
    text: string, pageBreak: bool, heading: Option<HeadingLine>, separator: bool,
    bullet: Option<string>, number: Option<string>)
  {
    predicate Empty() { text == [] }

    predicate HasPipe() { '|' in text }

    function Marker(ordered: bool): Option<string> { if ordered then number else bullet }
  }

  /** `\s+(.+?)\s*$` after a list marker: at least one space and one more character. When only spaces
      follow, the last of them is taken as the item, which cleans to nothing. */
  function ItemAfterMarker(r: string): Option<string> {
    if r == [] || !IsSpace(r[0]) then None
    else if Blank(r) then if |r| >= 2 then Some([]) else None
    else Some(Clean(r))
  }

  function Bullet(raw: string): Option<string> {
    var t := LStrip(raw);
    if t != [] && t[0] in "-*+" then ItemAfterMarker(t[1..]) else None
  }

  predicate IsDigit(c: char) {
    '0' <= c <= '9'
  }

  function Digits(s: string): (n: nat)
    ensures n <= |s|
  {
    if s != [] && IsDigit(s[0]) then 1 + Digits(s[1..]) else 0
  }

  function Number(raw: string): Option<string> {
    var t := LStrip(raw);
    var n := Digits(t);
    if 0 < n < |t| && t[n] in ".)" then ItemAfterMarker(t[n + 1..]) else None
  }

  // ----- what a stripped text is

  function Lower(s: string): string {
    if s == [] then []
    else [if 'A' <= s[0] <= 'Z' then s[0] - 'A' + 'a' else s[0]] + Lower(s[1..])
  }

  predicate PageBreakText(text: string) {
    Lower(text) in {"[[page_break]]", "<!-- pagebreak -->", "<!-- page-break -->"}
  }

  function Hashes(s: string): (n: nat)
    ensures n <= |s|
  {
    if s != [] && s[0] == '#' then 1 + Hashes(s[1..]) else 0
  }

  function HeadingOf(text: string): Option<HeadingLine> {
    var n := Hashes(text);
    if 1 <= n <= 6 && n < |text| && IsSpace(text[n]) && !Blank(text[n..]) then Some(HeadingLine(n, Clean(text[n..])))
    else None
  }

  /** `:?-{3,}:?` */
  predicate DashCell(cell: string) {
    var a := if cell != [] && cell[0] == ':' then cell[1..] else cell;
    var b := if a != [] && a[|a| - 1] == ':' then a[..|a| - 1] else a;
    |b| >= 3 && forall c | c in b :: c == '-'
  }

  /** A table separator: two or more dash cells between pipes, with optional outer pipes. */
  predicate SeparatorText(text: string) {
    var a := if text != [] && text[0] == '|' then text[1..] else text;
    var b := if a != [] && a[|a| - 1] == '|' then a[..|a| - 1] else a;
    var cells := Split(b, '|');
    |cells| >= 2 && forall cell | cell in cells :: DashCell(Strip(cell))
  }

  function StripPipesLeft(s: string): string {
    if s != [] && s[0] == '|' then StripPipesLeft(s[1..]) else s
  }

  function StripPipesRight(s: string): string {
    if s != [] && s[|s| - 1] == '|' then StripPipesRight(s[..|s| - 1]) else s
  }

  function CleanAll(cells: seq<string>): (cleaned: seq<string>)
    ensures |cleaned| == |cells|
  {
    seq(|cells|, i requires 0 <= i < |cells| => Clean(cells[i]))
  }

  function SplitRow(text: string): (row: seq<string>)
    ensures |row| >= 1
  {
    CleanAll(Split(StripPipesRight(StripPipesLeft(text)), '|'))
  }

  function Read(raw: string): Line {
    var text := Strip(raw);
    Line(text, PageBreakText(text), HeadingOf(text), SeparatorText(text), Bullet(raw), Number(raw))
  }

  function ReadAll(raws: seq<string>): (lines: seq<Line>)
    ensures |lines| == |raws|
    ensures forall i | 0 <= i < |raws| :: lines[i] == Read(raws[i])
  {
    seq(|raws|, i requires 0 <= i < |raws| => Read(raws[i]))
  }

  const EMPTY_LINE := Line([], false, None, false, None, None)

  // ----- laws of the reader

  lemma PipesMakeSeparators(text: string)
    requires SeparatorText(text)
    ensures '|' in text
  {
    if '|' !in text {
      SplitWithout(text, '|');
    }
  }

  /** Testing the raw line or its stripped text for a pipe is the same. */
  lemma PipeInStrip(raw: string)
    ensures '|' in raw <==> '|' in Strip(raw)
  {
    var w := LStripSplits(raw);
    var v := RStripSplits(LStrip(raw));
    assert raw == w + Strip(raw) + v;
  }

  lemma BlankReadsEmpty(raw: string)
    requires Blank(raw)
    ensures Read(raw) == EMPTY_LINE
  {
    BlankStrip(raw);
    var w := LStripSplits(raw);
    if SeparatorText([]) {
      PipesMakeSeparators([]);
    }
  }

  /** What Read promises of every line. */
  predicate WellRead(l: Line) {
    && (l.Empty() ==> l == EMPTY_LINE)
    && (l.heading.Some? ==> 1 <= l.heading.value.level <= 6 && !Blank(l.heading.value.text))
    && (l.bullet.Some? ==> l.bullet.value == [] || !Blank(l.bullet.value))
    && (l.number.Some? ==> l.number.value == [] || !Blank(l.number.value))
  }

  lemma {:induction false} CollapseKeepsText(s: string)
    requires !Blank(s)
    ensures !Blank(Collapse(s))
    decreases |s|
  {
    if IsSpace(s[0]) {
      var w := LStripSplits(s[1..]);
      assert s == [s[0]] + s[1..];
      CollapseKeepsText(LStrip(s[1..]));
      var rest := Collapse(LStrip(s[1..]));
      var c :| c in rest && !IsSpace(c);
      assert c in [' '] + rest;
    } else {
      assert Collapse(s)[0] == s[0];
    }
  }

  lemma CleanKeepsText(s: string)
    requires !Blank(s)
    ensures !Blank(Clean(s))
  {
    BlankStrip(s);
    var w := LStripSplits(s);
    var v := RStripSplits(LStrip(s));
    CollapseKeepsText(Strip(s));
  }

  lemma ItemIsWellRead(r: string)
    ensures var item := ItemAfterMarker(r); item.Some? ==> item.value == [] || !Blank(item.value)
  {
    if !Blank(r) {
      CleanKeepsText(r);
    }
  }

  lemma HeadingIsWellRead(text: string)
    ensures var h := HeadingOf(text); h.Some? ==> text != [] && 1 <= h.value.level <= 6 && !Blank(h.value.text)
  {
    var n := Hashes(text);
    if n < |text| && !Blank(text[n..]) {
      CleanKeepsText(text[n..]);
    }
  }

  lemma MarkersAreWellRead(raw: string)
    ensures Bullet(raw).Some? ==> Bullet(raw).value == [] || !Blank(Bullet(raw).value)
    ensures Number(raw).Some? ==> Number(raw).value == [] || !Blank(Number(raw).value)
  {
    var t := LStrip(raw);
    if t != [] {
      ItemIsWellRead(t[1..]);
    }
    if Digits(t) < |t| {
      ItemIsWellRead(t[Digits(t) + 1..]);
    }
  }

  lemma ReadIsWellRead(raw: string)
    ensures WellRead(Read(raw))
  {
    BlankStrip(raw);
    if Blank(raw) {
      BlankReadsEmpty(raw);
    }
    HeadingIsWellRead(Strip(raw));
    MarkersAreWellRead(raw);
  }
}
