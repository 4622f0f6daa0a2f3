/** Joining whole texts by a blank line: exactly when parsing is a homomorphism. */
module DocumentText {
  import opened DocumentParser
  import opened DocumentSpec
  import opened LineReader
  import opened Text
  import opened Wrappers

  // ----- strip and collapse

  predicate Tight(s: string) {
    s != [] && !IsSpace(s[0]) && !IsSpace(s[|s| - 1])
  }

  lemma StripSplits(s: string) returns (l: string, r: string)
    ensures Blank(l) && Blank(r) && s == l + Strip(s) + r
    ensures if Blank(s) then Strip(s) == [] else Tight(Strip(s))
  {
    l := LStripSplits(s);
    r := RStripSplits(LStrip(s));
    BlankStrip(s);
    assert s == l + (Strip(s) + r) == l + Strip(s) + r;
    assert Strip(s) != [] ==> Strip(s)[0] == LStrip(s)[0];
  }

  lemma {:induction false} StripOfPadded(l: string, m: string, r: string)
    requires Blank(l) && Blank(r) && Tight(m)
    ensures Strip(l + m + r) == m && LStrip(l + m + r) == m + r && RStrip(l + m + r) == l + m
  {
    StripIgnoresPadding(l, m, r);
    assert l + m + r == l + (m + r);
    LStripOfBlankPrefix(l, m + r);
    RStripOfBlankSuffix(l + m, r);
    assert (l + m)[|l + m| - 1] == m[|m| - 1];
  }

  lemma {:induction false} CollapseSpace(w: string, t: string)
    requires w != [] && Blank(w)
    ensures Collapse(w + t) == [' '] + Collapse(LStrip(t))
  {
    assert (w + t)[0] in w;
    assert (w + t)[1..] == w[1..] + t;
    assert w == [w[0]] + w[1..];
    LStripOfBlankPrefix(w[1..], t);
  }

  lemma {:induction false} CollapseChar(c: char, t: string)
    requires !IsSpace(c)
    ensures Collapse([c] + t) == [c] + Collapse(t)
  {
    assert ([c] + t)[1..] == t;
  }

  lemma Regroup(a: string, b: string, c: string, d: string)
    ensures a + (b + c + d) == (a + b) + c + d
  {
  }

  /** A space in front of more text, with and without something behind. */
  lemma CollapseLeadingSpace(c: char, u: string, tail: string) returns (rest: string)
    requires IsSpace(c) && !Blank(u) && !IsSpace(u[|u| - 1])
    ensures rest != [] && |rest| <= |u| && !IsSpace(rest[|rest| - 1])
    ensures Collapse([c] + u) == [' '] + Collapse(rest)
    ensures Collapse([c] + (u + tail)) == [' '] + Collapse(rest + tail)
  {
    var v := LStripSplits(u);
    rest := LStrip(u);
    CollapseSpace([c], u);
    CollapseSpace([c], u + tail);
    LStripKeepsNonBlank(u, tail);
  }

  lemma CollapseSpaceAnd(c: char, u: string, w: string, t: string) returns (rest: string)
    requires IsSpace(c) && !Blank(u) && !IsSpace(u[|u| - 1])
    ensures rest != [] && |rest| <= |u| && !IsSpace(rest[|rest| - 1])
    ensures Collapse([c] + u) == [' '] + Collapse(rest)
    ensures Collapse([c] + (u + w + t)) == [' '] + Collapse(rest + w + t)
  {
    rest := CollapseLeadingSpace(c, u, w + t);
    assert u + (w + t) == u + w + t;
    assert rest + (w + t) == rest + w + t;
  }

  lemma {:induction false} CollapseAppend(s: string, w: string, t: string)
    requires s == [] || !IsSpace(s[|s| - 1])
    requires w != [] && Blank(w) && (t == [] || !IsSpace(t[0]))
    ensures Collapse(s + w + t) == Collapse(s) + [' '] + Collapse(t)
    decreases |s|
  {
    if s == [] {
      assert s + w + t == w + t;
      CollapseSpace(w, t);
      assert Collapse(s) + [' '] == [' '];
    } else {
      var c, u := s[0], s[1..];
      assert s == [c] + u;
      Regroup([c], u, w, t);
      if IsSpace(c) {
        assert s[|s| - 1] in u;
        var rest := CollapseSpaceAnd(c, u, w, t);
        CollapseAppend(rest, w, t);
        Regroup([' '], Collapse(rest), [' '], Collapse(t));
      } else {
        CollapseChar(c, u);
        CollapseChar(c, u + w + t);
        CollapseAppend(u, w, t);
        Regroup([c], Collapse(u), [' '], Collapse(t));
      }
    }
  }

  lemma StripTight(q: string)
    requires Tight(q)
    ensures Strip(q) == q
  {
    assert q == [] + q + [];
    StripOfPadded([], q, []);
  }

  lemma StripOfAppend(u: string, q: string) returns (w: string)
    requires !Blank(u) && Tight(q)
    ensures Blank(w) && w != [] && Tight(Strip(u)) && Strip(u + [' '] + q) == Strip(u) + w + q
  {
    var l, r := StripSplits(u);
    w := r + [' '];
    var core := Strip(u) + w + q;
    assert core[0] == Strip(u)[0] && core[|core| - 1] == q[|q| - 1];
    assert u + [' '] + q == l + core + [];
    StripOfPadded(l, core, []);
  }

  lemma CleanAppend(u: string, q: string)
    requires !Blank(u) && Tight(q)
    ensures Clean(u + [' '] + q) == Clean(u) + [' '] + Clean(q)
  {
    var w := StripOfAppend(u, q);
    StripTight(q);
    CollapseAppend(Strip(u), w, q);
  }

  // ----- lines that only the final strip of the whole text can change

  /** A list marker followed by two or more spaces and nothing else: an item without text. */
  predicate EmptyMarker(raw: string) {
    Bullet(raw) == Some([]) || Number(raw) == Some([])
  }

  predicate Bare(l: Line) {
    Tight(l.text) && !l.pageBreak && l.heading.None? && !l.separator && !l.HasPipe()
  }

  predicate BareMarker(l: Line) {
    Bare(l) && ((l.bullet == Some([]) && l.number.None?) || (l.bullet.None? && l.number == Some([])))
  }

  predicate BareProse(l: Line) {
    Bare(l) && l.bullet.None? && l.number.None?
  }

  lemma ReadIgnoresLeading(w: string, raw: string)
    requires Blank(w)
    ensures Read(w + raw) == Read(raw)
  {
    LStripOfBlankPrefix(w, raw);
  }

  lemma ItemIgnoresTrailing(r: string, w: string)
    requires Blank(w) && !Blank(r)
    ensures ItemAfterMarker(r + w) == ItemAfterMarker(r)
  {
    assert r[0] in r;
    var c :| c in r && !IsSpace(c);
    assert c in r + w;
    StripIgnoresPadding([], r, w);
    assert [] + r + w == r + w;
  }

  lemma {:induction false} DigitsPrefix(t: string, w: string)
    requires Digits(t) < |t|
    ensures Digits(t + w) == Digits(t)
  {
    if IsDigit(t[0]) {
      assert (t + w)[1..] == t[1..] + w;
      DigitsPrefix(t[1..], w);
    }
  }

  lemma {:induction false} DigitsAre(t: string, i: nat)
    requires i < Digits(t)
    ensures IsDigit(t[i])
  {
    if i > 0 {
      DigitsAre(t[1..], i - 1);
    }
  }

  /** What stripping the end of a line does to a list item. */
  lemma {:induction false} ItemRStrip(r: string)
    ensures if Blank(r) then ItemAfterMarker(RStrip(r)).None? else ItemAfterMarker(RStrip(r)) == ItemAfterMarker(r)
  {
    var w := RStripSplits(r);
    if !Blank(r) {
      assert RStrip(r) != [] && RStrip(r)[|RStrip(r)| - 1] in RStrip(r);
      ItemIgnoresTrailing(RStrip(r), w);
    }
  }

  lemma {:induction false} RStripTail(head: string, tail: string)
    requires head != [] && !IsSpace(head[|head| - 1])
    ensures RStrip(head + tail) == head + RStrip(tail)
  {
    var w := RStripSplits(tail);
    var kept := head + RStrip(tail);
    assert head + tail == kept + w;
    RStripOfBlankSuffix(kept, w);
    assert kept[|kept| - 1] == if RStrip(tail) == [] then head[|head| - 1] else RStrip(tail)[|RStrip(tail)| - 1];
  }

  lemma {:induction false} LStripRStrip(raw: string)
    ensures LStrip(RStrip(raw)) == RStrip(LStrip(raw))
  {
    var l, r := StripSplits(raw);
    if Blank(raw) {
      BlankStrip(raw);
      var v := RStripSplits(raw);
    } else {
      StripOfPadded(l, Strip(raw), r);
      StripOfPadded([], Strip(raw), r);
      assert [] + Strip(raw) + r == Strip(raw) + r;
      StripOfPadded(l, Strip(raw), []);
      assert l + Strip(raw) + [] == l + Strip(raw);
      assert Strip(raw) + [] == Strip(raw);
    }
  }

  lemma {:induction false} BulletRStrip(raw: string)
    ensures if Bullet(raw) == Some([]) then Bullet(RStrip(raw)).None? else Bullet(RStrip(raw)) == Bullet(raw)
  {
    LStripRStrip(raw);
    var t := LStrip(raw);
    if t != [] && t[0] in "-*+" {
      var item := t[1..];
      assert t == [t[0]] + item;
      RStripTail([t[0]], item);
      ItemRStrip(item);
      CleanNonEmpty(item);
      assert RStrip(t)[1..] == RStrip(item);
    } else {
      var w := RStripSplits(t);
      assert RStrip(t) != [] ==> RStrip(t)[0] == t[0];
    }
  }

  lemma {:induction false} DigitsOfPrefix(t: string, n: nat)
    requires Digits(t) <= n <= |t|
    ensures Digits(t[..n]) == Digits(t)
  {
    if t != [] && IsDigit(t[0]) {
      assert t[..n][1..] == t[1..][..n - 1];
      DigitsOfPrefix(t[1..], n - 1);
    } else if n > 0 {
      assert t[..n][0] == t[0];
    }
  }

  lemma CutAt(t: string, n: nat)
    requires n <= |t|
    ensures t == t[..n] + t[n..]
  {
  }

  lemma {:induction false} NumberRStrip(raw: string)
    ensures if Number(raw) == Some([]) then Number(RStrip(raw)).None? else Number(RStrip(raw)) == Number(raw)
  {
    LStripRStrip(raw);
    var t := LStrip(raw);
    var n := Digits(t);
    var w := RStripSplits(t);
    if 0 < n < |t| && t[n] in ".)" {
      var head, item := t[..n + 1], t[n + 1..];
      CutAt(t, n + 1);
      RStripTail(head, item);
      ItemRStrip(item);
      CleanNonEmpty(item);
      DigitsOfPrefix(t, n + 1);
      DigitsPrefix(head, RStrip(item));
      assert RStrip(t)[n + 1..] == RStrip(item) && RStrip(t)[n] == t[n];
    } else {
      NoNumberRStrip(t, w);
    }
  }

  lemma {:induction false} NoNumberRStrip(t: string, w: string)
    requires t == RStrip(t) + w && Blank(w)
    requires var n := Digits(t); !(0 < n < |t| && t[n] in ".)")
    ensures var s, n := RStrip(t), Digits(RStrip(t)); !(0 < n < |s| && s[n] in ".)")
  {
    var s := RStrip(t);
    if Digits(s) < |s| {
      DigitsPrefix(s, w);
      assert s[Digits(s)] == t[Digits(s)];
    }
  }

  /** Stripping the end of a line changes how it reads only if it is an empty marker. */
  lemma {:induction false} ReadRStrip(raw: string)
    requires !EmptyMarker(raw)
    ensures Read(RStrip(raw)) == Read(raw)
  {
    StripRStrip(raw);
    BulletRStrip(raw);
    NumberRStrip(raw);
  }

  // ----- empty markers

  lemma {:induction false} LowerFirst(s: string)
    requires s != []
    ensures Lower(s) != [] && (Lower(s)[0] == s[0] || 'a' <= Lower(s)[0] <= 'z')
  {
  }

  lemma BareText(text: string)
    requires Tight(text) && (IsDigit(text[0]) || text[0] in "-*+") && '|' !in text
    ensures !PageBreakText(text) && HeadingOf(text).None? && !SeparatorText(text)
  {
    LowerFirst(text);
    assert "[[page_break]]"[0] == '[' && "<!-- pagebreak -->"[0] == '<' && "<!-- page-break -->"[0] == '<';
    if SeparatorText(text) {
      PipesMakeSeparators(text);
    }
  }

  lemma BulletMarkerText(raw: string)
    requires Bullet(raw) == Some([])
    ensures |Strip(raw)| == 1 && Strip(raw)[0] in "-*+" && Number(raw).None?
  {
    var t := LStrip(raw);
    CleanNonEmpty(t[1..]);
    assert t == [t[0]] + t[1..];
    RStripTail([t[0]], t[1..]);
    var w := RStripSplits(t[1..]);
  }

  lemma NumberMarkerText(raw: string)
    requires Number(raw) == Some([])
    ensures Tight(Strip(raw)) && IsDigit(Strip(raw)[0]) && '|' !in Strip(raw) && Bullet(raw).None?
  {
    var t := LStrip(raw);
    var n := Digits(t);
    CleanNonEmpty(t[n + 1..]);
    assert t == t[..n + 1] + t[n + 1..];
    RStripTail(t[..n + 1], t[n + 1..]);
    var w := RStripSplits(t[n + 1..]);
    DigitsAre(t, 0);
    assert Strip(raw) == t[..n + 1];
    forall i | 0 <= i < n + 1
      ensures t[i] != '|'
    {
      if i < n {
        DigitsAre(t, i);
      }
    }
  }

  /** Before the strip an empty marker is an item without text, after it a line of prose. */
  lemma {:induction false} EmptyMarkerReads(raw: string)
    requires EmptyMarker(raw)
    ensures BareMarker(Read(raw)) && BareProse(Read(RStrip(raw))) && Read(RStrip(raw)).text == Read(raw).text
  {
    if Bullet(raw) == Some([]) {
      BulletMarkerText(raw);
    } else {
      NumberMarkerText(raw);
    }
    BareText(Strip(raw));
    StripRStrip(raw);
    BulletRStrip(raw);
    NumberRStrip(raw);
  }

  // ----- the difference such a line makes at the end of a text

  function ProseLength(blocks: seq<Block>): nat {
    if blocks == [] then 0
    else (if blocks[0].Paragraph? then |blocks[0].text| else 0) + ProseLength(blocks[1..])
  }

  lemma {:induction false} ProseLengthAppend(a: seq<Block>, b: seq<Block>)
    ensures ProseLength(a + b) == ProseLength(a) + ProseLength(b)
  {
    if a == [] {
      assert a + b == b;
    } else {
      assert (a + b)[1..] == a[1..] + b;
      ProseLengthAppend(a[1..], b);
    }
  }

  lemma {:induction false} RowsSpanSnoc(a: seq<Line>, l: Line)
    requires !l.HasPipe()
    ensures RowsSpan(a + [l]) == RowsSpan(a)
  {
    if a != [] {
      assert (a + [l])[1..] == a[1..] + [l];
      RowsSpanSnoc(a[1..], l);
    } else {
      assert (a + [l])[0] == l;
    }
  }

  lemma {:induction false} ItemsSpanSnoc(a: seq<Line>, l: Line, ordered: bool)
    ensures ItemsSpan(a + [l], ordered) ==
      if ItemsSpan(a, ordered) == |a| && l.Marker(ordered).Some? then |a| + 1 else ItemsSpan(a, ordered)
  {
    if a != [] {
      assert (a + [l])[1..] == a[1..] + [l];
      ItemsSpanSnoc(a[1..], l, ordered);
    } else {
      assert (a + [l])[0] == l && (a + [l])[1..] == [];
    }
  }

  lemma {:induction false} ParagraphSpanSnoc(a: seq<Line>, l: Line)
    requires Bare(l)
    ensures ParagraphSpan(a + [l]) ==
      if ParagraphSpan(a) == |a| && l.bullet.None? && l.number.None? then |a| + 1 else ParagraphSpan(a)
  {
    if a != [] {
      assert (a + [l])[1..] == a[1..] + [l];
      assert TableStart(a + [l]) == TableStart(a);
      ParagraphSpanSnoc(a[1..], l);
    } else {
      assert (a + [l])[0] == l && (a + [l])[1..] == [];
    }
  }

  lemma BranchSnoc(a: seq<Line>, l: Line)
    requires a != [] && Bare(l)
    ensures BranchAt(a + [l]) == BranchAt(a)
  {
    assert TableStart(a + [l]) == TableStart(a);
  }

  /** One more bare line at the end only extends the last list or paragraph, if it is one of its kind. */
  lemma SpanSnoc(a: seq<Line>, l: Line)
    requires a != [] && Bare(l)
    ensures SpanOf(a + [l]) ==
      match BranchAt(a)
      case Listing(ordered) => if SpanOf(a) == |a| && l.Marker(ordered).Some? then |a| + 1 else SpanOf(a)
      case Prose => if SpanOf(a) == |a| && l.bullet.None? && l.number.None? then |a| + 1 else SpanOf(a)
      case _ => SpanOf(a)
  {
    BranchSnoc(a, l);
    match BranchAt(a)
    case Tabular =>
      assert (a + [l])[2..] == a[2..] + [l];
      RowsSpanSnoc(a[2..], l);
    case Listing(ordered) => ItemsSpanSnoc(a, l, ordered);
    case Prose =>
      assert (a + [l])[1..] == a[1..] + [l];
      ParagraphSpanSnoc(a[1..], l);
    case _ =>
  }

  /** Blocks of the lines up to a span that ends at or before the last line of `a`. */
  lemma {:induction false} BlocksAtSpan(lines: seq<Line>, n: nat)
    requires lines != [] && n == SpanOf(lines)
    ensures ProseLength(Blocks(lines)) ==
      ProseLength(BlockOf(BranchAt(lines), lines[..n])) + ProseLength(Blocks(lines[n..]))
  {
    ProseLengthAppend(FirstBlock(lines), Blocks(lines[n..]));
  }

  lemma {:induction false} JoinSnoc(parts: seq<string>, q: string)
    requires parts != []
    ensures Join([' '], parts + [q]) == Join([' '], parts) + [' '] + q
  {
    if |parts| == 1 {
      assert (parts + [q])[1..] == [q];
    } else {
      assert (parts + [q])[1..] == parts[1..] + [q];
      JoinSnoc(parts[1..], q);
      Regroup(parts[0] + [' '], Join([' '], parts[1..]), [' '], q);
    }
  }

  predicate TextsTight(lines: seq<Line>) {
    forall l | l in lines :: l.text == [] || Tight(l.text)
  }

  lemma ParagraphGrows(a: seq<Line>, p: Line)
    requires a != [] && TextsTight(a) && a[0].text != [] && Tight(p.text)
    ensures |ParagraphText(a + [p])| > |ParagraphText(a)|
  {
    var joined := Join([' '], Texts(a));
    assert a[0] in a;
    assert a[0].text[0] == joined[0];
    assert !Blank(joined) by {
      assert joined[0] in joined;
    }
    assert Texts(a + [p]) == Texts(a) + [p.text];
    JoinSnoc(Texts(a), p.text);
    CleanAppend(joined, p.text);
    assert [' '] == " ";
  }

  lemma LoneMarker(z: Line)
    requires BareMarker(z)
    ensures Blocks([z]) == []
  {
    var ordered := z.number.Some?;
    assert [z][1..] == [];
    assert ItemsSpan([z], ordered) == 1 && [z][..1] == [z];
    assert Items([z], ordered) == [] + Items([], ordered);
  }

  lemma LoneProse(p: Line)
    requires BareProse(p)
    ensures ProseLength(Blocks([p])) > 0
  {
    assert [p][1..] == [];
    assert [p][..1] == [p];
    assert p.text[0] in p.text;
    CleanNonEmpty(p.text);
    assert Texts([p]) == [p.text];
    assert Blocks([p]) == [Paragraph(Clean(p.text))] + [];
  }

  /** One more bare line, parsed after the first span. */
  lemma {:induction false} BlocksSnocAfter(a: seq<Line>, l: Line, n: nat)
    requires a != [] && Bare(l) && n == SpanOf(a + [l]) <= |a|
    ensures ProseLength(Blocks(a + [l])) == ProseLength(BlockOf(BranchAt(a), a[..n])) + ProseLength(Blocks(a[n..] + [l]))
  {
    var lines := a + [l];
    BranchSnoc(a, l);
    assert lines[..n] == a[..n];
    assert lines[n..] == a[n..] + [l];
    BlocksAtSpan(lines, n);
  }

  /** One more bare line, parsed inside the first span. */
  lemma {:induction false} BlocksSnocInside(a: seq<Line>, l: Line)
    requires a != [] && Bare(l) && SpanOf(a + [l]) == |a| + 1
    ensures ProseLength(Blocks(a + [l])) == ProseLength(BlockOf(BranchAt(a), a + [l]))
  {
    var lines := a + [l];
    BranchSnoc(a, l);
    assert lines[..|lines|] == lines;
    assert lines[|lines|..] == [];
    BlocksAtSpan(lines, |lines|);
  }

  lemma {:induction false} GrowsAtParagraph(a: seq<Line>, z: Line, p: Line)
    requires a != [] && TextsTight(a) && BareMarker(z) && BareProse(p)
    requires BranchAt(a).Prose? && SpanOf(a) == |a|
    ensures ProseLength(Blocks(a + [z])) < ProseLength(Blocks(a + [p]))
  {
    SpanSnoc(a, z);
    SpanSnoc(a, p);
    BlocksSnocAfter(a, z, |a|);
    BlocksSnocInside(a, p);
    assert a[..|a|] == a && a[|a|..] + [z] == [z];
    LoneMarker(z);
    ParagraphGrows(a, p);
    ProseBlockLength(a);
    ProseBlockLength(a + [p]);
  }

  lemma ProseBlockLength(span: seq<Line>)
    requires span != []
    ensures ProseLength(BlockOf(Prose, span)) == |ParagraphText(span)|
  {
    if ParagraphText(span) != [] {
      assert [Paragraph(ParagraphText(span))][1..] == [];
    }
  }

  lemma ListBlockLength(span: seq<Line>, ordered: bool)
    requires span != []
    ensures ProseLength(BlockOf(Listing(ordered), span)) == 0
  {
    var items := Items(span, ordered);
    if items != [] {
      assert [List(items, ordered)][1..] == [];
    }
  }

  lemma {:induction false} GrowsAtList(a: seq<Line>, z: Line, p: Line)
    requires a != [] && BareMarker(z) && BareProse(p)
    requires BranchAt(a).Listing? && SpanOf(a) == |a|
    ensures ProseLength(Blocks(a + [z])) < ProseLength(Blocks(a + [p]))
  {
    var ordered := BranchAt(a).ordered;
    SpanSnoc(a, z);
    SpanSnoc(a, p);
    if SpanOf(a + [z]) == |a| {
      BlocksSnocAfter(a, z, |a|);
    } else {
      BlocksSnocInside(a, z);
    }
    BlocksSnocAfter(a, p, |a|);
    assert a[..|a|] == a && a[|a|..] + [z] == [z] && a[|a|..] + [p] == [p];
    ListBlockLength(a, ordered);
    ListBlockLength(a + [z], ordered);
    LoneProse(p);
    LoneMarker(z);
  }

  /** At the end of any text, the stripped marker adds prose and the unstripped one adds none. */
  lemma {:induction false} ProseGrows(a: seq<Line>, z: Line, p: Line)
    requires TextsTight(a) && BareMarker(z) && BareProse(p)
    ensures ProseLength(Blocks(a + [z])) < ProseLength(Blocks(a + [p]))
    decreases |a|
  {
    if a == [] {
      assert a + [z] == [z] && a + [p] == [p];
      LoneMarker(z);
      LoneProse(p);
    } else if SpanOf(a) == |a| && BranchAt(a).Prose? {
      GrowsAtParagraph(a, z, p);
    } else if SpanOf(a) == |a| && BranchAt(a).Listing? {
      GrowsAtList(a, z, p);
    } else {
      var n := SpanOf(a);
      SpanSnoc(a, z);
      SpanSnoc(a, p);
      BlocksSnocAfter(a, z, n);
      BlocksSnocAfter(a, p, n);
      ProseGrows(a[n..], z, p);
    }
  }

  // ----- texts

  function TextBlocks(t: string): seq<Block> {
    Blocks(ReadAll(Split(t, '\n')))
  }

  lemma ReadAllAppend(a: seq<string>, b: seq<string>)
    ensures ReadAll(a + b) == ReadAll(a) + ReadAll(b)
  {
  }

  /** A blank line between two texts. */
  lemma BlankLineBetween(x: string, y: string)
    ensures TextBlocks(x + "\n\n" + y) == TextBlocks(x) + TextBlocks(y)
  {
    var a, b := Split(x, '\n'), Split(y, '\n');
    assert x + "\n\n" + y == x + ['\n'] + (['\n'] + y);
    SplitAppend(x, '\n', ['\n'] + y);
    assert Split(['\n'] + y, '\n') == [[]] + b;
    assert a + ([[]] + b) == a + [[]] + b;
    ReadAllAppend(a + [[]], b);
    ReadAllAppend(a, [[]]);
    BlankReadsEmpty([]);
    assert ReadAll([[]]) == [EMPTY_LINE];
    EmptyLineSeparates(ReadAll(a), ReadAll(b));
  }

  lemma {:induction false} LeadingEmpty(r: seq<string>)
    ensures Blocks(ReadAll([[]] + r)) == Blocks(ReadAll(r))
  {
    ReadAllAppend([[]], r);
    ReadsEmpty();
    EmptyLineFirst(ReadAll(r));
  }

  lemma ReadsEmpty()
    ensures ReadAll([[]]) == [EMPTY_LINE]
  {
    BlankReadsEmpty([]);
  }

  lemma {:induction false} EmptyLineFirst(lines: seq<Line>)
    ensures Blocks([EMPTY_LINE] + lines) == Blocks(lines)
  {
    EmptyLineSeparates([], lines);
    assert [] + [EMPTY_LINE] + lines == [EMPTY_LINE] + lines;
    assert Blocks([]) + Blocks(lines) == Blocks(lines);
  }

  lemma {:induction false} LeadingNewline(t: string)
    ensures TextBlocks(['\n'] + t) == TextBlocks(t)
  {
    assert (['\n'] + t)[1..] == t;
    LeadingEmpty(Split(t, '\n'));
  }

  lemma LeadingSpace(c: char, t: string)
    requires IsSpace(c)
    ensures TextBlocks([c] + t) == TextBlocks(t)
  {
    if c == '\n' {
      LeadingNewline(t);
    } else {
      var r := Split(t, '\n');
      assert ([c] + t)[1..] == t;
      ReadIgnoresLeading([c], r[0]);
      assert ReadAll([[c] + r[0]] + r[1..]) == ReadAll(r);
    }
  }

  lemma {:induction false} LeadingBlank(w: string, t: string)
    requires Blank(w)
    ensures TextBlocks(w + t) == TextBlocks(t)
  {
    if w == [] {
      assert w + t == t;
    } else {
      assert w + t == [w[0]] + (w[1..] + t);
      LeadingSpace(w[0], w[1..] + t);
      LeadingBlank(w[1..], t);
    }
  }

  lemma {:induction false} TrailingEmptyLines(lines: seq<Line>, n: nat)
    ensures Blocks(lines + seq(n, i => EMPTY_LINE)) == Blocks(lines)
    decreases n
  {
    if n == 0 {
      assert lines + seq(n, i => EMPTY_LINE) == lines;
    } else {
      assert lines + seq(n, i => EMPTY_LINE) == lines + [EMPTY_LINE] + seq(n - 1, i => EMPTY_LINE);
      EmptyLineSeparates(lines, seq(n - 1, i => EMPTY_LINE));
      TrailingEmptyLines([], n - 1);
      assert [] + seq(n - 1, i => EMPTY_LINE) == seq(n - 1, i => EMPTY_LINE);
    }
  }

  /** The last line that is not blank. */
  function LastLine(lines: seq<string>): string {
    if lines == [] then []
    else if Blank(lines[|lines| - 1]) then LastLine(lines[..|lines| - 1])
    else lines[|lines| - 1]
  }

  /** The text ends, up to blank lines, in a list marker with two or more spaces and no item. */
  predicate EndsInEmptyMarker(t: string) {
    EmptyMarker(LastLine(Split(t, '\n')))
  }

  lemma {:induction false} LastLineOfCons(h: string, rest: seq<string>)
    ensures LastLine([h] + rest) == if LastLine(rest) != [] then LastLine(rest) else if Blank(h) then [] else h
    decreases |rest|
  {
    if rest == [] {
      assert [h] + rest == [h] && [h][..0] == [];
    } else {
      var init := rest[..|rest| - 1];
      assert ([h] + rest)[..|rest|] == [h] + init;
      if Blank(rest[|rest| - 1]) {
        LastLineOfCons(h, init);
      }
    }
  }

  lemma LeadingSpaceKeepsEnd(c: char, t: string)
    requires IsSpace(c)
    ensures EndsInEmptyMarker([c] + t) == EndsInEmptyMarker(t)
  {
    var r := Split(t, '\n');
    assert ([c] + t)[1..] == t;
    assert r == [r[0]] + r[1..];
    if c == '\n' {
      LastLineOfCons([], r);
    } else {
      LastLineOfCons([c] + r[0], r[1..]);
      LastLineOfCons(r[0], r[1..]);
      assert Blank([c] + r[0]) <==> Blank(r[0]);
      ReadIgnoresLeading([c], r[0]);
    }
  }

  lemma {:induction false} LeadingBlankKeepsEnd(w: string, t: string)
    requires Blank(w)
    ensures EndsInEmptyMarker(w + t) == EndsInEmptyMarker(t)
  {
    if w == [] {
      assert w + t == t;
    } else {
      assert w + t == [w[0]] + (w[1..] + t);
      LeadingSpaceKeepsEnd(w[0], w[1..] + t);
      LeadingBlankKeepsEnd(w[1..], t);
    }
  }

  lemma {:induction false} SplitOfBlank(w: string)
    requires Blank(w)
    ensures forall part | part in Split(w, '\n') :: Blank(part)
  {
    if w != [] {
      SplitOfBlank(w[1..]);
      var r := Split(w[1..], '\n');
      assert forall part | part in r[1..] :: part in r;
      assert r[0] in r && w[0] in w;
    }
  }

  lemma {:induction false} LastPart(t: string)
    requires t != [] && t[|t| - 1] != '\n'
    ensures var parts := Split(t, '\n');
      parts[|parts| - 1] != [] && parts[|parts| - 1][|parts[|parts| - 1]| - 1] == t[|t| - 1]
  {
    if |t| > 1 {
      LastPart(t[1..]);
    } else {
      assert t[1..] == [];
    }
  }

  lemma {:induction false} LastLineSkipsBlank(lines: seq<string>, last: string, tail: seq<string>)
    requires !Blank(last) && forall l | l in tail :: Blank(l)
    ensures LastLine(lines + [last] + tail) == last
    decreases |tail|
  {
    var all := lines + [last] + tail;
    if tail != [] {
      var init := tail[..|tail| - 1];
      assert all[..|all| - 1] == lines + [last] + init;
      assert all[|all| - 1] == tail[|tail| - 1];
      LastLineSkipsBlank(lines, last, init);
    }
  }

  lemma {:induction false} BlankTailReads(lines: seq<Line>, tail: seq<string>)
    requires forall l | l in tail :: Blank(l)
    ensures Blocks(lines + ReadAll(tail)) == Blocks(lines)
  {
    forall i | 0 <= i < |tail|
      ensures ReadAll(tail)[i] == EMPTY_LINE
    {
      BlankReadsEmpty(tail[i]);
    }
    assert ReadAll(tail) == seq(|tail|, i => EMPTY_LINE);
    TrailingEmptyLines(lines, |tail|);
  }

  lemma ReadsTight(raws: seq<string>)
    ensures TextsTight(ReadAll(raws))
  {
    forall l | l in ReadAll(raws)
      ensures l.text == [] || Tight(l.text)
    {
      var i :| 0 <= i < |raws| && ReadAll(raws)[i] == l;
      var a, b := StripSplits(raws[i]);
    }
  }

  /** The lines of a text that ends in text, followed by blanks. */
  lemma LinesBeforeBlank(t: string, w: string) returns (a: seq<string>, x: string, w0: string, tail: seq<string>)
    requires t != [] && !IsSpace(t[|t| - 1]) && Blank(w)
    ensures Split(t, '\n') == a + [x] && Split(t + w, '\n') == a + [x + w0] + tail
    ensures x != [] && !IsSpace(x[|x| - 1]) && Blank(w0) && forall l | l in tail :: Blank(l)
  {
    var parts, blanks := Split(t, '\n'), Split(w, '\n');
    a, x, w0, tail := parts[..|parts| - 1], parts[|parts| - 1], blanks[0], blanks[1..];
    assert parts == a + [x];
    SplitConcat(t, w, '\n');
    SplitOfBlank(w);
    LastPart(t);
    assert w0 in blanks && forall l | l in tail :: l in blanks;
  }

  /** Blanks at the end of a text change its blocks exactly when they follow an empty marker. */
  lemma TrailingBlank(t: string, w: string)
    requires t != [] && !IsSpace(t[|t| - 1]) && Blank(w)
    ensures TextBlocks(t + w) == TextBlocks(t) <==> !EndsInEmptyMarker(t + w)
  {
    var a, x, w0, tail := LinesBeforeBlank(t, w);
    var line := x + w0;
    assert line[|x| - 1] in line && line[|x| - 1] == x[|x| - 1];
    LastLineSkipsBlank(a, line, tail);
    ReadAllAppend(a + [line], tail);
    BlankTailReads(ReadAll(a + [line]), tail);
    ReadAllAppend(a, [line]);
    ReadAllAppend(a, [x]);
    assert ReadAll([line]) == [Read(line)] && ReadAll([x]) == [Read(x)];
    RStripOfBlankSuffix(x, w0);
    assert RStrip(line) == x;
    if EmptyMarker(line) {
      EmptyMarkerReads(line);
      ReadsTight(a);
      ProseGrows(ReadAll(a), Read(line), Read(x));
    } else {
      ReadRStrip(line);
    }
  }

  // ----- contents

  lemma {:induction false} NormalizeAppend(a: string, b: string)
    requires a == [] || a[|a| - 1] != '\r'
    ensures Normalize(a + b) == Normalize(a) + Normalize(b)
    decreases |a|
  {
    if a == [] {
      assert a + b == b;
    } else {
      var n := if a[0] == '\r' && a[1] == '\n' then 2 else 1;
      assert (a + b)[n..] == a[n..] + b;
      NormalizeAppend(a[n..], b);
    }
  }

  lemma {:induction false} NormalizeBlank(s: string)
    ensures Blank(Normalize(s)) <==> Blank(s)
    decreases |s|
  {
    if s != [] {
      var n := if s[0] == '\r' && |s| > 1 && s[1] == '\n' then 2 else 1;
      NormalizeBlank(s[n..]);
      assert s == s[..n] + s[n..];
      var head := if s[0] == '\r' then '\n' else s[0];
      assert Normalize(s) == [head] + Normalize(s[n..]);
      assert Blank(s) <==> IsSpace(s[0]) && Blank(s[n..]);
      assert Blank([head] + Normalize(s[n..])) <==> IsSpace(head) && Blank(Normalize(s[n..]));
    }
  }

  /** The blocks of a text after the strip of the whole text. */
  function StrippedBlocks(t: string): seq<Block> {
    TextBlocks(Strip(t))
  }

  lemma StrippedBlocksOfPadded(l: string, t: string, r: string)
    requires Blank(l) && Blank(r)
    ensures StrippedBlocks(l + t + r) == StrippedBlocks(t)
  {
    StripIgnoresPadding(l, t, r);
  }

  lemma EmptyTextBlocks()
    ensures TextBlocks([]) == []
  {
    BlankReadsEmpty([]);
    assert ReadAll([[]]) == [EMPTY_LINE] && [EMPTY_LINE][1..] == [];
    assert Blocks([EMPTY_LINE]) == [] + Blocks([]);
  }

  /** The strip of two joined texts keeps the first text's right padding and the second one's left padding. */
  lemma StripOfJoined(x: string, xl: string, s: string, xr: string, yl: string, t: string, yr: string)
    requires Tight(s) && Tight(t) && Blank(xl) && Blank(yr)
    requires x == xl + s + xr
    ensures Strip(x + "\n\n" + (yl + t + yr)) == (s + xr) + "\n\n" + (yl + t)
  {
    var middle := (s + xr) + "\n\n" + (yl + t);
    assert x + "\n\n" + (yl + t + yr) == xl + middle + yr;
    assert middle[0] == s[0] && middle[|middle| - 1] == t[|t| - 1];
    StripOfPadded(xl, middle, yr);
  }

  lemma SuffixCancels(p: seq<Block>, q: seq<Block>, z: seq<Block>)
    ensures p + z == q + z <==> p == q
  {
    if p + z == q + z {
      assert p == (p + z)[..|p + z| - |z|];
      assert q == (q + z)[..|q + z| - |z|];
    }
  }

  lemma EndOfParts(l: string, s: string, r: string)
    requires Tight(s) && Blank(l) && Blank(r)
    ensures TextBlocks(s + r) == TextBlocks(s) <==> !EndsInEmptyMarker(l + (s + r))
  {
    TrailingBlank(s, r);
    LeadingBlankKeepsEnd(l, s + r);
  }

  lemma JoinedStrip(x: string, y: string) returns (xl: string, xr: string, yl: string)
    requires !Blank(x) && !Blank(y)
    ensures Blank(xl) && Blank(xr) && Blank(yl) && Tight(Strip(x)) && Tight(Strip(y))
    ensures x == xl + (Strip(x) + xr)
    ensures Strip(x + "\n\n" + y) == (Strip(x) + xr) + "\n\n" + (yl + Strip(y))
  {
    var yr;
    xl, xr := StripSplits(x);
    yl, yr := StripSplits(y);
    StripOfJoined(x, xl, Strip(x), xr, yl, Strip(y), yr);
    assert x == xl + (Strip(x) + xr);
  }

  lemma MiddleBlocks(s: string, xr: string, yl: string, t: string)
    requires Blank(yl)
    ensures TextBlocks((s + xr) + "\n\n" + (yl + t)) == TextBlocks(s + xr) + TextBlocks(t)
  {
    BlankLineBetween(s + xr, yl + t);
    LeadingBlank(yl, t);
  }

  lemma PartsJoin(xl: string, s: string, xr: string, yl: string, t: string)
    requires Tight(s) && Blank(xl) && Blank(xr) && Blank(yl)
    ensures TextBlocks((s + xr) + "\n\n" + (yl + t)) == TextBlocks(s) + TextBlocks(t)
      <==> !EndsInEmptyMarker(xl + (s + xr))
  {
    MiddleBlocks(s, xr, yl, t);
    EndOfParts(xl, s, xr);
    SuffixCancels(TextBlocks(s + xr), TextBlocks(s), TextBlocks(t));
  }

  lemma BothHaveText(x: string, y: string)
    requires !Blank(x) && !Blank(y)
    ensures StrippedBlocks(x + "\n\n" + y) == StrippedBlocks(x) + StrippedBlocks(y) <==> !EndsInEmptyMarker(x)
  {
    var xl, xr, yl := JoinedStrip(x, y);
    PartsJoin(xl, Strip(x), xr, yl, Strip(y));
  }

  /** Joining two texts by a blank line joins their blocks, exactly when the second is blank or the first
      does not end in an empty marker. */
  lemma JoinedTexts(x: string, y: string)
    ensures StrippedBlocks(x + "\n\n" + y) == StrippedBlocks(x) + StrippedBlocks(y)
      <==> Blank(y) || !EndsInEmptyMarker(x)
  {
    EmptyTextBlocks();
    assert Blank("\n\n");
    if Blank(y) {
      BlankStrip(y);
      assert x + "\n\n" + y == [] + x + ("\n\n" + y);
      StrippedBlocksOfPadded([], x, "\n\n" + y);
    } else if Blank(x) {
      BlankStrip(x);
      assert x + "\n\n" + y == (x + "\n\n") + y + [];
      StrippedBlocksOfPadded(x + "\n\n", y, []);
      BlankHasNoEnd(x);
    } else {
      BothHaveText(x, y);
    }
  }

  lemma BlankHasNoEnd(x: string)
    requires Blank(x)
    ensures !EndsInEmptyMarker(x)
  {
    LeadingBlankKeepsEnd(x, []);
    assert x + [] == x;
    assert Split([], '\n') == [[]] && LastLine([[]]) == LastLine([[]][..0]);
  }

  lemma {:induction false} ContentBlocksAreStripped(content: string)
    ensures ContentBlocks(content) == StrippedBlocks(Normalize(content))
  {
    EmptyTextBlocks();
  }

  lemma {:induction false} NormalizeNewlines(b: string)
    ensures Normalize(['\n', '\n'] + b) == ['\n', '\n'] + Normalize(b)
  {
    var one := ['\n'] + b;
    assert one[1..] == b;
    assert (['\n', '\n'] + b)[1..] == one;
    assert ['\n'] + (['\n'] + Normalize(b)) == ['\n', '\n'] + Normalize(b);
  }

  /** A carriage return and a newline are one line end. */
  lemma {:induction false} NormalizeCrNewlines(b: string)
    ensures Normalize(['\r'] + (['\n', '\n'] + b)) == ['\n', '\n'] + Normalize(b)
  {
    var text := ['\r'] + (['\n', '\n'] + b);
    assert text[2..] == ['\n'] + b && (['\n'] + b)[1..] == b;
    assert Normalize(['\n'] + b) == ['\n'] + Normalize(b);
    assert ['\n'] + (['\n'] + Normalize(b)) == ['\n', '\n'] + Normalize(b);
  }

  lemma LoneCr()
    ensures Normalize(['\r']) == ['\n']
  {
    assert ['\r'][1..] == [];
  }

  /** A carriage return at the end of the first text pairs with the newline that follows it. */
  lemma {:induction false} NormalizeJoinedCr(a1: string, b: string)
    ensures Normalize(a1 + (['\r'] + (['\n', '\n'] + b))) == Normalize(a1) + (['\n', '\n'] + Normalize(b))
    ensures Normalize(a1 + ['\r']) == Normalize(a1) + ['\n']
  {
    NormalizeCr(a1, ['\r'] + (['\n', '\n'] + b));
    NormalizeCrNewlines(b);
    NormalizeCr(a1, ['\r']);
    LoneCr();
  }

  lemma NormalizeJoined(a: string, b: string) returns (x: string)
    ensures Normalize(a + "\n\n" + b) == x + "\n\n" + Normalize(b)
    ensures Normalize(a) == x || Normalize(a) == x + "\n"
  {
    var gap := ['\n', '\n'];
    assert a + "\n\n" + b == a + (gap + b);
    if a != [] && a[|a| - 1] == '\r' {
      var a1 := a[..|a| - 1];
      assert a == a1 + ['\r'] && a + (gap + b) == a1 + (['\r'] + (gap + b));
      x := Normalize(a1);
      NormalizeJoinedCr(a1, b);
    } else {
      x := Normalize(a);
      NormalizeNewlines(b);
      NormalizeAppend(a, gap + b);
    }
    assert x + (gap + Normalize(b)) == x + "\n\n" + Normalize(b);
  }

  lemma {:induction false} NormalizeCr(a: string, t: string)
    requires t == [] || t[0] != '\n'
    ensures Normalize(a + t) == Normalize(a) + Normalize(t)
    decreases |a|
  {
    if a == [] {
      assert a + t == t;
    } else {
      var n := LineEndLength(a);
      SuffixAppends(a, t, n);
      NormalizeCr(a[n..], t);
      NormalizeStep(a);
      NormalizeStep(a + t);
      assert LineEndLength(a + t) == n;
    }
  }

  /** How many characters the first step of Normalize takes. */
  function LineEndLength(s: string): (n: nat)
    requires s != []
    ensures 1 <= n <= |s|
  {
    if s[0] == '\r' && |s| > 1 && s[1] == '\n' then 2 else 1
  }

  lemma {:induction false} NormalizeStep(s: string)
    requires s != []
    ensures Normalize(s) == [if s[0] == '\r' then '\n' else s[0]] + Normalize(s[LineEndLength(s)..])
  {
  }

  lemma SuffixAppends(a: string, t: string, n: nat)
    requires n <= |a|
    ensures (a + t)[n..] == a[n..] + t
  {
  }

  lemma TrailingNewlineKeepsEnd(x: string)
    ensures EndsInEmptyMarker(x + "\n") == EndsInEmptyMarker(x)
  {
    assert x + "\n" == x + ['\n'] + [];
    SplitAppend(x, '\n', []);
    var parts := Split(x, '\n');
    assert Split([], '\n') == [[]];
    assert (parts + [[]])[..|parts|] == parts;
  }

  /** A newline at the end of the first text changes nothing. */
  lemma NewlineAtEnd(x: string)
    ensures StrippedBlocks(x + "\n") == StrippedBlocks(x)
    ensures EndsInEmptyMarker(x + "\n") == EndsInEmptyMarker(x)
  {
    TrailingNewlineKeepsEnd(x);
    assert Blank("\n") && [] + x + "\n" == x + "\n";
    StrippedBlocksOfPadded([], x, "\n");
  }

  /** For all contents: parsing the two contents joined by a blank line gives the blocks of the first
      followed by those of the second, exactly when the second is blank or the first does not end in a
      list marker with two or more spaces and no item. */
  lemma {:induction false} ContentsJoin(a: string, b: string)
    ensures ContentBlocks(a + "\n\n" + b) == ContentBlocks(a) + ContentBlocks(b)
      <==> Blank(b) || !EndsInEmptyMarker(Normalize(a))
  {
    ContentBlocksAreStripped(a);
    ContentBlocksAreStripped(b);
    ContentBlocksAreStripped(a + "\n\n" + b);
    NormalizeBlank(b);
    var x := NormalizeJoined(a, b);
    NewlineAtEnd(x);
    JoinedTexts(x, Normalize(b));
  }

  /** The strip of the whole text turns an empty list item at its end into a paragraph. */
  lemma ContentsDoNotAlwaysJoin()
    ensures ContentBlocks("-  " + "\n\n" + "x") != ContentBlocks("-  ") + ContentBlocks("x")
  {
    var a := "-  ";
    MarkerIsNormal();
    assert a[1..] == "  " && Blank("  ");
    assert Bullet(a) == Some([]);
    SplitWithout(a, '\n');
    assert a[0] in a;
    assert !Blank("x") by {
      assert 'x' in "x";
    }
    ContentsJoin(a, "x");
  }

  lemma MarkerIsNormal()
    ensures Normalize("-  ") == "-  "
  {
    assert "-  "[1..] == "  " && "  "[1..] == " " && " "[1..] == [];
    assert Normalize(" ") == " " && Normalize("  ") == "  ";
  }
}
