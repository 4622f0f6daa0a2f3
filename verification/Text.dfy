/** Python's whitespace handling on strings, for ASCII whitespace. */
module Text {
  /** str.isspace on ASCII: tab to carriage return, the four separators 28 to 31, and space. */
  predicate IsSpace(c: char) {
    9 <= c as int <= 13 || 28 <= c as int <= 32
  }

  /** Tab, newline, vertical tab, form feed, carriage return, the separators, and space. */
  lemma SpacesAre(c: char)
    ensures IsSpace(c) <==> c as int in {9, 10, 11, 12, 13, 28, 29, 30, 31, 32}
  {
  }

  /** `not s.strip()` */
  predicate Blank(s: string) {
    forall c | c in s :: IsSpace(c)
  }

  function LStrip(s: string): string {
    if s != [] && IsSpace(s[0]) then LStrip(s[1..]) else s
  }

  function RStrip(s: string): string {
    if s != [] && IsSpace(s[|s| - 1]) then RStrip(s[..|s| - 1]) else s
  }

  /** str.strip */
  function Strip(s: string): string {
    RStrip(LStrip(s))
  }

  /** Every run of whitespace becomes one space. */
  function Collapse(s: string): string
    decreases |s|
  {
    if s == [] then []
    else if IsSpace(s[0]) then
      LStripShrinks(s[1..]);
      [' '] + Collapse(LStrip(s[1..]))
    else [s[0]] + Collapse(s[1..])
  }

  /** re.sub(r"\s+", " ", s.strip()) */
  function Clean(s: string): string {
    Collapse(Strip(s))
  }

  /** sep.join(parts) */
  function Join(sep: string, parts: seq<string>): string {
    if parts == [] then []
    else if |parts| == 1 then parts[0]
    else parts[0] + sep + Join(sep, parts[1..])
  }

  /** s.split(c) for a one-character separator */
  function Split(s: string, c: char): (parts: seq<string>)
    ensures |parts| >= 1
  {
    if s == [] then [[]]
    else
      var rest := Split(s[1..], c);
      if s[0] == c then [[]] + rest else [[s[0]] + rest[0]] + rest[1..]
  }

  // ----- strip

  lemma {:induction false} LStripShrinks(s: string)
    ensures |LStrip(s)| <= |s|
  {
    if s != [] && IsSpace(s[0]) {
      LStripShrinks(s[1..]);
    }
  }

  lemma {:induction false} LStripOfBlankPrefix(w: string, s: string)
    requires Blank(w)
    ensures LStrip(w + s) == LStrip(s)
  {
    if w == [] {
      assert w + s == s;
    } else {
      assert (w + s)[1..] == w[1..] + s;
      LStripOfBlankPrefix(w[1..], s);
    }
  }

  lemma {:induction false} RStripOfBlankSuffix(s: string, w: string)
    requires Blank(w)
    ensures RStrip(s + w) == RStrip(s)
  {
    if w == [] {
      assert s + w == s;
    } else {
      var init := w[..|w| - 1];
      assert (s + w)[..|s + w| - 1] == s + init;
      RStripOfBlankSuffix(s, init);
    }
  }

  /** What LStrip removes. */
  lemma {:induction false} LStripSplits(s: string) returns (w: string)
    ensures Blank(w) && s == w + LStrip(s)
    ensures LStrip(s) == [] || !IsSpace(LStrip(s)[0])
    ensures LStrip(s) == [] <==> Blank(s)
  {
    if s != [] && IsSpace(s[0]) {
      var v := LStripSplits(s[1..]);
      w := [s[0]] + v;
      assert s == [s[0]] + s[1..];
      assert forall c | c in s :: c == s[0] || c in s[1..];
    } else {
      w := [];
      assert s != [] ==> s[0] in s;
    }
  }

  /** What RStrip removes. */
  lemma {:induction false} RStripSplits(s: string) returns (w: string)
    ensures Blank(w) && s == RStrip(s) + w
    ensures RStrip(s) == [] || !IsSpace(RStrip(s)[|RStrip(s)| - 1])
    ensures RStrip(s) == [] <==> Blank(s)
  {
    if s != [] && IsSpace(s[|s| - 1]) {
      var init := s[..|s| - 1];
      var v := RStripSplits(init);
      w := v + [s[|s| - 1]];
      assert s == init + [s[|s| - 1]];
      assert forall c | c in s :: c == s[|s| - 1] || c in init;
    } else {
      w := [];
      assert s != [] ==> s[|s| - 1] in s;
    }
  }

  lemma {:induction false} LStripKeepsNonBlank(s: string, t: string)
    requires !Blank(s)
    ensures LStrip(s + t) == LStrip(s) + t
  {
    if IsSpace(s[0]) {
      assert (s + t)[1..] == s[1..] + t;
      assert s == [s[0]] + s[1..];
      LStripKeepsNonBlank(s[1..], t);
    }
  }

  lemma BlankStrip(s: string)
    ensures Strip(s) == [] <==> Blank(s)
  {
    var w := LStripSplits(s);
    var v := RStripSplits(LStrip(s));
    assert LStrip(s) != [] ==> LStrip(s)[0] in LStrip(s);
  }

  /** Whitespace around a string does not change what strip returns. */
  lemma StripIgnoresPadding(l: string, s: string, r: string)
    requires Blank(l) && Blank(r)
    ensures Strip(l + s + r) == Strip(s)
  {
    assert l + s + r == l + (s + r);
    LStripOfBlankPrefix(l, s + r);
    if Blank(s) {
      BlankStrip(s);
      BlankStrip(s + r);
    } else {
      LStripKeepsNonBlank(s, r);
      RStripOfBlankSuffix(LStrip(s), r);
    }
  }

  lemma {:induction false} StripRStrip(s: string)
    ensures Strip(RStrip(s)) == Strip(s)
  {
    var w := RStripSplits(s);
    StripIgnoresPadding([], RStrip(s), w);
    assert [] + RStrip(s) + w == s;
  }

  lemma CleanNonEmpty(s: string)
    ensures Clean(s) == [] <==> Blank(s)
  {
    BlankStrip(s);
  }

  // ----- split

  /** Two lists of parts of which the last and the first are one part. */
  function Glue(a: seq<string>, b: seq<string>): seq<string>
    requires a != [] && b != []
  {
    a[..|a| - 1] + [a[|a| - 1] + b[0]] + b[1..]
  }

  lemma GlueCons(x: string, a: seq<string>, b: seq<string>)
    requires a != [] && b != []
    ensures Glue([x] + a, b) == [x] + Glue(a, b)
  {
    assert ([x] + a)[..|a|] == [x] + a[..|a| - 1];
  }

  lemma {:induction false} SplitConcat(s: string, t: string, c: char)
    ensures Split(s + t, c) == Glue(Split(s, c), Split(t, c))
  {
    var b := Split(t, c);
    if s == [] {
      assert s + t == t && [] + b[0] == b[0];
    } else {
      var r := Split(s[1..], c);
      assert (s + t)[1..] == s[1..] + t;
      SplitConcat(s[1..], t, c);
      if s[0] == c {
        GlueCons([], r, b);
      } else if |r| == 1 {
        assert [s[0]] + (r[0] + b[0]) == ([s[0]] + r[0]) + b[0];
        assert Glue(r, b)[1..] == b[1..];
      } else {
        assert r == [r[0]] + r[1..];
        GlueCons(r[0], r[1..], b);
        GlueCons([s[0]] + r[0], r[1..], b);
      }
    }
  }

  lemma {:induction false} SplitWithout(s: string, c: char)
    requires c !in s
    ensures Split(s, c) == [s]
  {
    if s != [] {
      assert s == [s[0]] + s[1..];
      assert s[0] != c;
      SplitWithout(s[1..], c);
    }
  }

  lemma {:induction false} SplitAppend(s: string, c: char, t: string)
    ensures Split(s + [c] + t, c) == Split(s, c) + Split(t, c)
  {
    var a := Split(s, c);
    assert s + [c] + t == s + ([c] + t);
    assert Split([c] + t, c) == [[]] + Split(t, c);
    SplitConcat(s, [c] + t, c);
    assert a[|a| - 1] + [] == a[|a| - 1];
    assert a == a[..|a| - 1] + [a[|a| - 1]];
  }
}
