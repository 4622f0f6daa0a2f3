/** The line forms of a document, written out: what is written as a heading, a list item, a page break or a table row
    reads as one, and nothing else does. */
module LineWriting {
  import opened DocumentText
  import opened LineReader
  import opened Text
  import opened Wrappers

  // ----- the forms

  predicate Gap(w: string) {
    w != [] && Blank(w)
  }

  function Repeat(c: char, n: nat): (s: string)
    ensures |s| == n && forall i | 0 <= i < n :: s[i] == c
  {
    seq(n, _ => c)
  }

  /** n times #, a gap, and a text. */
  ghost predicate HeadingForm(t: string, n: nat, s: string) {
    1 <= n <= 6 && Tight(s) && exists w :: Gap(w) && t == Repeat('#', n) + w + s
  }

  predicate BulletMarker(m: string) {
    |m| == 1 && m[0] in "-*+"
  }

  predicate NumberMarker(m: string) {
    |m| >= 2 && m[|m| - 1] in ".)" && forall i | 0 <= i < |m| - 1 :: IsDigit(m[i])
  }

  predicate Marker(m: string, ordered: bool) {
    if ordered then NumberMarker(m) else BulletMarker(m)
  }

  /** A marker, a gap, and a text. */
  ghost predicate ItemForm(t: string, ordered: bool, s: string) {
    Tight(s) && exists m, w :: Marker(m, ordered) && Gap(w) && t == m + w + s
  }

  predicate SameLetter(c: char, small: char) {
    c == small || ('a' <= small <= 'z' && c as int == small as int - 32)
  }

  predicate SameText(t: string, small: string) {
    |t| == |small| && forall i | 0 <= i < |t| :: SameLetter(t[i], small[i])
  }

  /** One of the three page breaks, in small letters or capitals. */
  predicate BreakForm(t: string) {
    SameText(t, "[[page_break]]") || SameText(t, "<!-- pagebreak -->") || SameText(t, "<!-- page-break -->")
  }

  // ----- headings

  lemma {:induction false} HashesOf(n: nat, t: string)
    requires t == [] || t[0] != '#'
    ensures Hashes(Repeat('#', n) + t) == n
  {
    var s := Repeat('#', n) + t;
    if n > 0 {
      assert s[1..] == Repeat('#', n - 1) + t;
      HashesOf(n - 1, t);
    } else {
      assert s == t;
    }
  }

  lemma {:induction false} HashesAre(t: string)
    ensures t[..Hashes(t)] == Repeat('#', Hashes(t))
    ensures Hashes(t) < |t| ==> t[Hashes(t)] != '#'
  {
    if t != [] && t[0] == '#' {
      HashesAre(t[1..]);
      assert t[..Hashes(t)] == [t[0]] + t[1..][..Hashes(t) - 1];
    }
  }

  /** A gap in front of a text leaves the clean text as it is. */
  lemma GapIsDropped(w: string, s: string)
    requires Gap(w) && Tight(s)
    ensures Clean(w + s) == Clean(s) && !Blank(w + s) && IsSpace((w + s)[0])
  {
    StripIgnoresPadding(w, s, []);
    assert w + s + [] == w + s;
    assert s[0] in w + s && w[0] in w;
  }

  lemma HeadingIsRead(n: nat, w: string, s: string)
    requires 1 <= n <= 6 && Gap(w) && Tight(s)
    ensures HeadingOf(Repeat('#', n) + w + s) == Some(HeadingLine(n, Clean(s)))
  {
    var t := Repeat('#', n) + w + s;
    assert t == Repeat('#', n) + (w + s) && w[0] in w;
    HashesOf(n, w + s);
    GapIsDropped(w, s);
    assert t[n..] == w + s;
  }

  lemma HeadingIsWritten(t: string) returns (w: string, s: string)
    requires Tight(t) && HeadingOf(t).Some?
    ensures var h := HeadingOf(t).value;
      1 <= h.level <= 6 && Gap(w) && Tight(s) && t == Repeat('#', h.level) + w + s && h.text == Clean(s)
  {
    var n := Hashes(t);
    HashesAre(t);
    w := LStripSplits(t[n..]);
    s := LStrip(t[n..]);
    assert t == t[..n] + (w + s) == Repeat('#', n) + w + s;
    assert s[|s| - 1] == t[|t| - 1] && t[n] == (w + s)[0];
    GapIsDropped(w, s);
  }

  /** A line is a heading of level n exactly if it is written as one. */
  lemma HeadingIsExact(t: string)
    requires Tight(t)
    ensures forall n, s :: HeadingForm(t, n, s) ==> HeadingOf(t) == Some(HeadingLine(n, Clean(s)))
    ensures HeadingOf(t).Some? ==> exists n, s :: HeadingForm(t, n, s)
  {
    forall n: nat, s: string | HeadingForm(t, n, s)
      ensures HeadingOf(t) == Some(HeadingLine(n, Clean(s)))
    {
      var w :| Gap(w) && t == Repeat('#', n) + w + s;
      HeadingIsRead(n, w, s);
    }
    if HeadingOf(t).Some? {
      var w, s := HeadingIsWritten(t);
      assert HeadingForm(t, HeadingOf(t).value.level, s);
    }
  }

  // ----- list items

  lemma {:induction false} DigitsOf(d: string, t: string)
    requires (forall c | c in d :: IsDigit(c)) && (t == [] || !IsDigit(t[0]))
    ensures Digits(d + t) == |d|
  {
    if d != [] {
      assert (d + t)[1..] == d[1..] + t && d[0] in d;
      DigitsOf(d[1..], t);
    } else {
      assert d + t == t;
    }
  }

  lemma ItemIsRead(w: string, s: string)
    requires Gap(w) && Tight(s)
    ensures ItemAfterMarker(w + s) == Some(Clean(s))
  {
    GapIsDropped(w, s);
  }

  lemma {:induction false} MarkerStarts(m: string, ordered: bool, rest: string)
    requires Marker(m, ordered)
    ensures LStrip(m + rest) == m + rest && !IsSpace(m[0])
  {
  }

  lemma {:induction false} BulletIsRead(l: string, m: string, w: string, s: string)
    requires Blank(l) && BulletMarker(m) && Gap(w) && Tight(s)
    ensures Bullet(l + (m + w + s)) == Some(Clean(s)) && Number(l + (m + w + s)).None?
  {
    var t := m + w + s;
    LStripOfBlankPrefix(l, t);
    assert t == m + (w + s);
    MarkerStarts(m, false, w + s);
    assert t[1..] == w + s;
    ItemIsRead(w, s);
    DigitsOf([], t);
    assert [] + t == t;
  }

  lemma {:induction false} NumberIsRead(l: string, m: string, w: string, s: string)
    requires Blank(l) && NumberMarker(m) && Gap(w) && Tight(s)
    ensures Number(l + (m + w + s)) == Some(Clean(s)) && Bullet(l + (m + w + s)).None?
  {
    var t := m + w + s;
    assert t == m + (w + s);
    LStripOfBlankPrefix(l, t);
    MarkerStarts(m, true, w + s);
    NumberEnds(m, w + s);
    ItemIsRead(w, s);
    NumberOfStripped(l + t, m, w + s);
  }

  lemma {:induction false} NumberOfStripped(raw: string, m: string, r: string)
    requires LStrip(raw) == m + r && NumberMarker(m) && Digits(m + r) == |m| - 1 && IsDigit(m[0])
    ensures Number(raw) == ItemAfterMarker(r) && Bullet(raw).None?
  {
    assert (m + r)[|m|..] == r && (m + r)[|m| - 1] == m[|m| - 1] && (m + r)[0] == m[0];
  }

  lemma {:induction false} NumberEnds(m: string, rest: string)
    requires NumberMarker(m)
    ensures Digits(m + rest) == |m| - 1 && IsDigit(m[0])
  {
    var d := m[..|m| - 1];
    var tail := [m[|m| - 1]] + rest;
    assert m + rest == d + tail;
    DigitsOf(d, tail);
  }

  /** What is taken as an item is a gap and a text, if the line has no space at its end. */
  lemma ItemIsWritten(r: string) returns (w: string, s: string)
    requires ItemAfterMarker(r).Some? && !IsSpace(r[|r| - 1])
    ensures Gap(w) && Tight(s) && r == w + s && ItemAfterMarker(r).value == Clean(s)
  {
    assert r[|r| - 1] in r;
    w := LStripSplits(r);
    s := LStrip(r);
    assert s[|s| - 1] == r[|r| - 1];
    GapIsDropped(w, s);
  }

  lemma {:induction false} TightStarts(t: string)
    requires Tight(t)
    ensures LStrip(t) == t && Strip(t) == t
  {
    StripTight(t);
  }

  lemma BulletIsWritten(t: string) returns (m: string, w: string, s: string)
    requires Tight(t) && Bullet(t).Some?
    ensures BulletMarker(m) && Gap(w) && Tight(s) && t == m + w + s && Bullet(t).value == Clean(s)
  {
    TightStarts(t);
    assert t == [t[0]] + t[1..] && t[1..] != [];
    m := [t[0]];
    w, s := ItemIsWritten(t[1..]);
  }

  lemma NumberIsWritten(t: string) returns (m: string, w: string, s: string)
    requires Tight(t) && Number(t).Some?
    ensures NumberMarker(m) && Gap(w) && Tight(s) && t == m + w + s && Number(t).value == Clean(s)
  {
    TightStarts(t);
    var n := Digits(t);
    m := t[..n + 1];
    NumberIsMarked(t, n);
    w, s := ItemIsWritten(t[n + 1..]);
    CutInThree(t, n + 1, w, s);
  }

  lemma CutInThree(t: string, k: nat, w: string, s: string)
    requires k <= |t| && t[k..] == w + s
    ensures t == t[..k] + w + s
  {
  }

  lemma {:induction false} NumberIsMarked(t: string, n: nat)
    requires n == Digits(t) && 0 < n < |t| && t[n] in ".)"
    ensures NumberMarker(t[..n + 1])
  {
    var m := t[..n + 1];
    forall i | 0 <= i < n
      ensures IsDigit(m[i])
    {
      DigitsAre(t, i);
    }
  }

  /** A line is an item of a list exactly if it is written as one. */
  lemma ItemIsExact(t: string, ordered: bool)
    requires Tight(t)
    ensures forall s :: ItemForm(t, ordered, s) ==>
              (if ordered then Number(t) else Bullet(t)) == Some(Clean(s)) && (if ordered then Bullet(t) else Number(t)).None?
    ensures (if ordered then Number(t) else Bullet(t)).Some? ==> exists s :: ItemForm(t, ordered, s)
  {
    forall s | ItemForm(t, ordered, s)
      ensures (if ordered then Number(t) else Bullet(t)) == Some(Clean(s)) && (if ordered then Bullet(t) else Number(t)).None?
    {
      var m, w :| Marker(m, ordered) && Gap(w) && t == m + w + s;
      assert [] + (m + w + s) == t;
      if ordered {
        NumberIsRead([], m, w, s);
      } else {
        BulletIsRead([], m, w, s);
      }
    }
    if ordered && Number(t).Some? {
      var m, w, s := NumberIsWritten(t);
      assert Marker(m, ordered) && ItemForm(t, ordered, s);
    }
    if !ordered && Bullet(t).Some? {
      var m, w, s := BulletIsWritten(t);
      assert Marker(m, ordered) && ItemForm(t, ordered, s);
    }
  }

  // ----- page breaks

  predicate Small(s: string) {
    forall c | c in s :: !('A' <= c <= 'Z')
  }

  lemma {:induction false} LowerIsSame(t: string, small: string)
    requires Small(small)
    ensures Lower(t) == small <==> SameText(t, small)
  {
    if t == [] {
      assert Lower(t) == [];
    } else if small == [] {
      assert |Lower(t)| > 0;
    } else {
      assert forall c | c in small[1..] :: c in small;
      LowerIsSame(t[1..], small[1..]);
      assert small[0] in small;
      SameTextCons(t, small);
      LowerCons(t, small);
    }
  }

  lemma SameTextCons(t: string, small: string)
    requires t != [] && small != []
    ensures SameText(t, small) <==> SameLetter(t[0], small[0]) && SameText(t[1..], small[1..])
  {
    assert forall i | 0 < i < |t| :: t[i] == t[1..][i - 1];
    assert forall i | 0 < i < |small| :: small[i] == small[1..][i - 1];
  }

  lemma {:induction false} LowerCons(t: string, small: string)
    requires t != [] && small != [] && !('A' <= small[0] <= 'Z')
    ensures Lower(t) == small <==> SameLetter(t[0], small[0]) && Lower(t[1..]) == small[1..]
  {
    assert small == [small[0]] + small[1..];
    assert Lower(t)[1..] == Lower(t[1..]);
  }

  lemma BreakIsExact(t: string)
    ensures PageBreakText(t) <==> BreakForm(t)
  {
    LowerIsSame(t, "[[page_break]]");
    LowerIsSame(t, "<!-- pagebreak -->");
    LowerIsSame(t, "<!-- page-break -->");
  }

  // ----- no line has two forms

  lemma FormStarts(t: string)
    ensures BreakForm(t) ==> t != [] && t[0] in "[<"
    ensures forall n, s :: HeadingForm(t, n, s) ==> t != [] && t[0] == '#'
    ensures forall s :: ItemForm(t, false, s) ==> t != [] && t[0] in "-*+"
    ensures forall s :: ItemForm(t, true, s) ==> t != [] && IsDigit(t[0])
  {
    assert "[[page_break]]"[0] == '[' && "<!-- pagebreak -->"[0] == '<' && "<!-- page-break -->"[0] == '<';
    forall n: nat, s: string | HeadingForm(t, n, s)
      ensures t != [] && t[0] == '#'
    {
      var w :| Gap(w) && t == Repeat('#', n) + w + s;
      assert t[0] == Repeat('#', n)[0];
    }
  }

  // ----- table rows

  /** A cell between its pipes. */
  predicate Cell(c: string) {
    '|' !in c
  }

  lemma {:induction false} SplitJoin(parts: seq<string>, c: char)
    requires parts != [] && forall p | p in parts :: c !in p
    ensures Split(Join([c], parts), c) == parts
  {
    SplitWithout(parts[0], c);
    if |parts| > 1 {
      SplitJoin(parts[1..], c);
      SplitAppend(parts[0], c, Join([c], parts[1..]));
      assert parts == [parts[0]] + parts[1..];
    } else {
      assert parts == [parts[0]];
    }
  }

  function Spaced(cells: seq<string>): (spaced: seq<string>)
    ensures |spaced| == |cells|
  {
    seq(|cells|, i requires 0 <= i < |cells| => " " + cells[i] + " ")
  }

  /** The cells between pipes, with a space on either side. */
  function RowText(cells: seq<string>): string {
    "|" + Join("|", Spaced(cells)) + "|"
  }

  lemma {:induction false} JoinEnds(sep: string, parts: seq<string>)
    requires parts != [] && parts[0] != [] && parts[|parts| - 1] != []
    ensures var j := Join(sep, parts);
      j != [] && j[0] == parts[0][0] && j[|j| - 1] == parts[|parts| - 1][|parts[|parts| - 1]| - 1]
  {
    if |parts| > 1 {
      JoinBack(sep, parts[1..]);
    }
  }

  lemma {:induction false} JoinBack(sep: string, parts: seq<string>)
    requires parts != [] && parts[|parts| - 1] != []
    ensures var j := Join(sep, parts); j != [] && j[|j| - 1] == parts[|parts| - 1][|parts[|parts| - 1]| - 1]
  {
    if |parts| > 1 {
      JoinBack(sep, parts[1..]);
    }
  }

  lemma {:induction false} StripTrailingPipes(j: string, b: nat)
    requires j != [] && j[|j| - 1] != '|'
    ensures StripPipesRight(j + Repeat('|', b)) == j
  {
    if b > 0 {
      StripTrailingPipes(j, b - 1);
      assert (j + Repeat('|', b))[..|j| + b - 1] == j + Repeat('|', b - 1);
    } else {
      assert j + Repeat('|', b) == j;
    }
  }

  /** Cells with spaces around them and a pipe between, and any number of pipes before and after, read as the
      cells. */
  lemma CellsAreRead(a: nat, cells: seq<string>, b: nat)
    requires cells != [] && forall c | c in cells :: Cell(c)
    ensures SplitRow(Repeat('|', a) + Join("|", Spaced(cells)) + Repeat('|', b)) == CleanAll(cells)
  {
    var spaced := Spaced(cells);
    var j := Join("|", spaced);
    JoinEnds("|", spaced);
    var rest := j + Repeat('|', b);
    assert Repeat('|', a) + j + Repeat('|', b) == Repeat('|', a) + rest;
    assert rest[0] == j[0];
    StripLeadingPipes(a, rest);
    StripTrailingPipes(j, b);
    forall p | p in spaced
      ensures '|' !in p
    {
      var i :| 0 <= i < |cells| && p == " " + cells[i] + " ";
      assert Cell(cells[i]);
    }
    assert "|" == ['|'];
    SplitJoin(spaced, '|');
    SpacesAreCleaned(cells);
  }

  lemma {:induction false} StripLeadingPipes(a: nat, rest: string)
    requires rest != [] && rest[0] != '|'
    ensures StripPipesLeft(Repeat('|', a) + rest) == rest
  {
    if a > 0 {
      StripLeadingPipes(a - 1, rest);
      assert (Repeat('|', a) + rest)[1..] == Repeat('|', a - 1) + rest;
    } else {
      assert Repeat('|', a) + rest == rest;
    }
  }

  lemma SpacesAreCleaned(cells: seq<string>)
    ensures CleanAll(Spaced(cells)) == CleanAll(cells)
  {
    forall i | 0 <= i < |cells|
      ensures Clean(Spaced(cells)[i]) == Clean(cells[i])
    {
      assert Blank(" ");
      StripIgnoresPadding(" ", cells[i], " ");
    }
  }

  /** A row reads as its cells. */
  lemma RowIsRead(cells: seq<string>)
    requires cells != [] && forall c | c in cells :: Cell(c)
    ensures SplitRow(RowText(cells)) == CleanAll(cells)
    ensures Tight(RowText(cells)) && RowText(cells)[0] == '|'
  {
    CellsAreRead(1, cells, 1);
    assert Repeat('|', 1) == "|";
  }

  // ----- separators

  predicate Colon(a: string) {
    a == "" || a == ":"
  }

  /** Three or more dashes, with or without a colon on either side. */
  ghost predicate DashForm(c: string) {
    exists a, k: nat, b :: Colon(a) && Colon(b) && k >= 3 && c == a + Repeat('-', k) + b
  }

  lemma DashIsRead(a: string, k: nat, b: string)
    requires Colon(a) && Colon(b) && k >= 3
    ensures DashCell(a + Repeat('-', k) + b)
  {
    var c := a + Repeat('-', k) + b;
    var d := Repeat('-', k);
    assert (if c[0] == ':' then c[1..] else c) == d + b by {
      assert c[0] == (if a == ":" then ':' else '-');
      assert a == ":" ==> c[1..] == d + b;
    }
    assert (d + b)[|d + b| - 1] == (if b == ":" then ':' else '-');
    assert b == ":" ==> (d + b)[..|d + b| - 1] == d;
    assert b == "" ==> d + b == d;
  }

  lemma AllDashes(d: string)
    requires forall c | c in d :: c == '-'
    ensures d == Repeat('-', |d|)
  {
    assert forall i | 0 <= i < |d| :: d[i] in d;
  }

  lemma DashIsWritten(c: string)
    requires DashCell(c)
    ensures DashForm(c)
  {
    var rest := if c != [] && c[0] == ':' then c[1..] else c;
    var d := if rest != [] && rest[|rest| - 1] == ':' then rest[..|rest| - 1] else rest;
    AllDashes(d);
    var a := FirstColon(c);
    var b := LastColon(rest);
    Regroup(a, d, b);
    assert Colon(a) && Colon(b) && c == a + Repeat('-', |d|) + b;
  }

  lemma FirstColon(c: string) returns (a: string)
    requires c != []
    ensures Colon(a) && c == a + if c[0] == ':' then c[1..] else c
  {
    a := if c[0] == ':' then ":" else "";
  }

  lemma LastColon(c: string) returns (b: string)
    requires c != []
    ensures Colon(b) && c == (if c[|c| - 1] == ':' then c[..|c| - 1] else c) + b
  {
    b := if c[|c| - 1] == ':' then ":" else "";
  }

  lemma Regroup(a: string, d: string, b: string)
    ensures a + (d + b) == a + d + b
  {
  }

  lemma DashIsExact(c: string)
    ensures DashCell(c) <==> DashForm(c)
  {
    if DashCell(c) {
      DashIsWritten(c);
    }
    if DashForm(c) {
      var a, k: nat, b :| Colon(a) && Colon(b) && k >= 3 && c == a + Repeat('-', k) + b;
      DashIsRead(a, k, b);
    }
  }

  predicate Pipe(o: string) {
    o == "" || o == "|"
  }

  /** Two or more dash cells with spaces around them between pipes, with or without the outer pipes. */
  ghost predicate SeparatorForm(t: string) {
    exists o, cells, o' :: SeparatorOf(t, o, cells, o')
  }

  ghost predicate SeparatorOf(t: string, o: string, cells: seq<string>, o': string) {
    && Pipe(o) && Pipe(o') && |cells| >= 2 && t == o + Join("|", cells) + o'
    && forall c | c in cells :: '|' !in c && c != [] && DashForm(Strip(c))
  }

  lemma {:induction false} JoinOfSplit(s: string, c: char)
    ensures Join([c], Split(s, c)) == s
    ensures forall p | p in Split(s, c) :: c !in p
  {
    if s != [] {
      var rest := Split(s[1..], c);
      JoinOfSplit(s[1..], c);
      assert rest == [rest[0]] + rest[1..] && s == [s[0]] + s[1..];
      if s[0] == c {
        assert ([[]] + rest)[1..] == rest;
        assert Join([c], [[]] + rest) == [] + [c] + Join([c], rest);
      } else {
        var first := [s[0]] + rest[0];
        assert ([first] + rest[1..])[1..] == rest[1..];
        assert rest[0] in rest;
        forall p | p in [first] + rest[1..]
          ensures c !in p
        {
          assert p == first || p in rest;
        }
      }
    }
  }

  lemma SeparatorIsRead(t: string, o: string, cells: seq<string>, o': string)
    requires SeparatorOf(t, o, cells, o')
    ensures SeparatorText(t)
  {
    var j := Join("|", cells);
    assert cells[0] in cells && cells[|cells| - 1] in cells;
    JoinEnds("|", cells);
    var last := cells[|cells| - 1];
    assert cells[0][0] in cells[0] && last[|last| - 1] in last;
    InnerIs(t, o, j, o');
    assert "|" == ['|'];
    SplitJoin(cells, '|');
    forall c | c in cells
      ensures DashCell(Strip(c))
    {
      DashIsExact(Strip(c));
    }
  }

  lemma InnerIs(t: string, o: string, j: string, o': string)
    requires Pipe(o) && Pipe(o') && t == o + j + o' && j != [] && j[0] != '|' && j[|j| - 1] != '|'
    ensures Inner(t) == j
  {
    var a := if t[0] == '|' then t[1..] else t;
    assert a == j + o' by {
      assert o == "|" ==> t[1..] == j + o';
      assert o == "" ==> t == j + o';
    }
    assert o' == "|" ==> a[..|a| - 1] == j;
    assert o' == "" ==> a == j;
  }

  /** The text without its outer pipes. */
  function Inner(t: string): string {
    var a := if t != [] && t[0] == '|' then t[1..] else t;
    if a != [] && a[|a| - 1] == '|' then a[..|a| - 1] else a
  }

  lemma InnerOf(t: string) returns (o: string, o': string)
    ensures Pipe(o) && Pipe(o') && t == o + Inner(t) + o'
  {
    o := if t != [] && t[0] == '|' then "|" else "";
    var a := if t != [] && t[0] == '|' then t[1..] else t;
    assert t == o + a;
    o' := if a != [] && a[|a| - 1] == '|' then "|" else "";
    assert a == Inner(t) + o';
  }

  lemma SeparatorIsWritten(t: string)
    requires SeparatorText(t)
    ensures SeparatorForm(t)
  {
    var o, o' := InnerOf(t);
    var cells := Split(Inner(t), '|');
    JoinOfSplit(Inner(t), '|');
    assert "|" == ['|'];
    forall c | c in cells
      ensures '|' !in c && c != [] && DashForm(Strip(c))
    {
      assert DashCell(Strip(c));
      DashIsExact(Strip(c));
    }
    assert SeparatorOf(t, o, cells, o');
  }

  lemma SeparatorIsExact(t: string)
    ensures SeparatorText(t) <==> SeparatorForm(t)
  {
    if SeparatorText(t) {
      SeparatorIsWritten(t);
    }
    if SeparatorForm(t) {
      var o, cells, o' :| SeparatorOf(t, o, cells, o');
      SeparatorIsRead(t, o, cells, o');
    }
  }
}
