/** _bullet_chunks: greedy filling of lines with whole words. */
module BulletChunks {
  import opened Text

  // ----- words

  predicate Word(w: string) {
    w != [] && forall c | c in w :: !IsSpace(c)
  }

  predicate AllWords(ws: seq<string>) {
    forall w | w in ws :: Word(w)
  }

  function TakeWord(s: string): (w: string)
    ensures w <= s && forall c | c in w :: !IsSpace(c)
    ensures |w| < |s| ==> IsSpace(s[|w|])
  {
    if s == [] || IsSpace(s[0]) then []
    else
      assert s == [s[0]] + s[1..];
      [s[0]] + TakeWord(s[1..])
  }

  /** str.split() without a separator */
  function Words(s: string): (ws: seq<string>)
    ensures AllWords(ws)
    decreases |s|
  {
    LStripShrinks(s);
    var t := LStrip(s);
    if t == [] then []
    else
      LStripHead(s);
      var w := TakeWord(t);
      [w] + Words(t[|w|..])
  }

  lemma {:induction false} LStripHead(s: string)
    ensures LStrip(s) == [] || !IsSpace(LStrip(s)[0])
  {
    var w := LStripSplits(s);
  }

  lemma {:induction false} TakeWordStops(w: string, t: string)
    requires Word(w) && (t == [] || IsSpace(t[0]))
    ensures TakeWord(w + t) == w
  {
    assert w[0] in w;
    if |w| > 1 {
      assert (w + t)[1..] == w[1..] + t;
      TakeWordStops(w[1..], t);
    } else {
      assert (w + t)[1..] == t;
    }
  }

  lemma {:induction false} FirstWord(w: string, t: string)
    requires Word(w) && (t == [] || IsSpace(t[0]))
    ensures Words(w + t) == [w] + Words(t)
  {
    assert w[0] in w && LStrip(w + t) == w + t;
    TakeWordStops(w, t);
    assert (w + t)[|w|..] == t;
  }

  lemma {:induction false} WordsOfTwo(w: string, rest: string)
    requires Word(w)
    ensures Words(w + " " + rest) == [w] + Words(rest)
  {
    FirstWord(w, " " + rest);
    assert w + " " + rest == w + (" " + rest);
    LStripOfBlankPrefix(" ", rest);
    assert Words(" " + rest) == Words(rest);
  }

  /** Splitting what was joined by spaces gives the words back. */
  lemma {:induction false} WordsOfJoin(ws: seq<string>)
    requires AllWords(ws)
    ensures Words(Join(" ", ws)) == ws
  {
    if |ws| >= 1 {
      var w := ws[0];
      assert ws == [w] + ws[1..];
      if |ws| == 1 {
        FirstWord(w, []);
        assert w + [] == w && Words([]) == [];
      } else {
        WordsOfJoin(ws[1..]);
        WordsOfTwo(w, Join(" ", ws[1..]));
      }
    }
  }

  lemma {:induction false} WordsOfBlank(s: string)
    requires Blank(s)
    ensures Words(s) == []
  {
    var w := LStripSplits(s);
  }

  lemma {:induction false} CollapseWord(w: string, t: string)
    requires Word(w)
    ensures Collapse(w + t) == w + Collapse(t)
  {
    assert w[0] in w;
    assert (w + t)[1..] == w[1..] + t;
    if |w| > 1 {
      CollapseWord(w[1..], t);
      assert [w[0]] + (w[1..] + Collapse(t)) == w + Collapse(t);
    } else {
      assert w[1..] + t == t && w == [w[0]];
    }
  }

  /** A text that neither starts nor ends with a space is a word, or a word, spaces and such a text again. */
  lemma FirstWordOf(t: string) returns (w: string, next: string)
    requires t != [] && !IsSpace(t[0]) && !IsSpace(t[|t| - 1])
    ensures Word(w) && |next| < |t| && Words(t) == [w] + Words(next)
    ensures next == [] || (!IsSpace(next[0]) && !IsSpace(next[|next| - 1]))
    ensures Collapse(t) == if next == [] then w else w + " " + Collapse(next)
  {
    w := TakeWord(t);
    var rest := t[|w|..];
    assert t == w + rest && Word(w);
    CollapseWord(w, rest);
    FirstWord(w, rest);
    if rest == [] {
      assert w + [] == w;
      next := [];
    } else {
      next := AfterSpaces(rest);
      assert rest[|rest| - 1] == t[|t| - 1];
      assert w + ([' '] + Collapse(next)) == w + " " + Collapse(next);
    }
  }

  lemma AfterSpaces(rest: string) returns (next: string)
    requires rest != [] && IsSpace(rest[0]) && !IsSpace(rest[|rest| - 1])
    ensures 0 < |next| < |rest| && !IsSpace(next[0]) && next[|next| - 1] == rest[|rest| - 1]
    ensures Collapse(rest) == [' '] + Collapse(next) && Words(rest) == Words(next)
  {
    var pad := LStripSplits(rest[1..]);
    next := LStrip(rest[1..]);
    assert next != [] by {
      assert rest[|rest| - 1] in rest[1..];
    }
    assert LStrip(rest) == next && LStrip(next) == next;
  }

  /** A text without outer whitespace collapses to its words, joined by one space each. */
  lemma {:induction false} CollapseJoinsWords(t: string)
    requires t != [] && !IsSpace(t[0]) && !IsSpace(t[|t| - 1])
    ensures Collapse(t) == Join(" ", Words(t))
    decreases |t|
  {
    var w, next := FirstWordOf(t);
    assert ([w] + Words(next))[1..] == Words(next);
    if next != [] {
      CollapseJoinsWords(next);
      assert Words(next) != [];
    } else {
      assert Words([]) == [];
    }
  }

  lemma {:induction false} WordsIgnoreTrailing(s: string, w: string)
    requires Blank(w)
    ensures Words(s + w) == Words(s)
    decreases |s|
  {
    if Blank(s) {
      WordsOfBlank(s);
      WordsOfBlank(s + w);
    } else {
      LStripKeepsNonBlank(s, w);
      LStripHead(s);
      LStripShrinks(s);
      var t := LStrip(s);
      var pad := LStripSplits(s);
      var first := TakeWord(t);
      var rest := t[|first|..];
      assert t == first + rest && t + w == first + (rest + w);
      assert rest + w == [] || IsSpace((rest + w)[0]) by {
        if rest == [] && w != [] {
          assert rest + w == w && w[0] in w;
        }
      }
      FirstWord(first, rest + w);
      FirstWord(first, rest);
      assert Words(s + w) == Words(t + w);
      WordsIgnoreTrailing(rest, w);
    }
  }

  /** The cleaned text is the words of the text, joined by one space each. */
  lemma {:induction false} CleanJoinsWords(s: string)
    ensures Clean(s) == Join(" ", Words(s))
    ensures Words(Clean(s)) == Words(s)
  {
    var l := LStripSplits(s);
    var r := RStripSplits(LStrip(s));
    var t := Strip(s);
    WordsIgnoreTrailing(t, r);
    assert Words(s) == Words(LStrip(s)) by {
      LStripHead(s);
    }
    if t == [] {
      assert Words(t) == [];
    } else {
      assert t[0] == LStrip(s)[0];
      CollapseJoinsWords(t);
    }
    WordsOfJoin(Words(s));
  }

  // ----- filling lines

  /** The length of a line of words. */
  function Length(ws: seq<string>): nat {
    |Join(" ", ws)|
  }

  /** A line that is allowed: it fits, or it cannot be split. */
  predicate LineOk(ws: seq<string>, max: int) {
    ws != [] && (Length(ws) <= max || |ws| == 1)
  }

  /** Lines of the words, one after another. */
  function Flatten(lines: seq<seq<string>>): seq<string> {
    if lines == [] then [] else lines[0] + Flatten(lines[1..])
  }

  ghost predicate Layout(lines: seq<seq<string>>, ws: seq<string>, max: int) {
    Flatten(lines) == ws && forall line | line in lines :: LineOk(line, max)
  }

  /** Greedy filling, with some words on the current line. */
  function Fill(current: seq<string>, rest: seq<string>, max: int): seq<seq<string>>
    decreases |rest|
  {
    if rest == [] then if current == [] then [] else [current]
    else if current != [] && Length(current + [rest[0]]) > max then [current] + Fill([rest[0]], rest[1..], max)
    else Fill(current + [rest[0]], rest[1..], max)
  }

  function JoinAll(lines: seq<seq<string>>): (texts: seq<string>)
    ensures |texts| == |lines|
  {
    seq(|lines|, i requires 0 <= i < |lines| => Join(" ", lines[i]))
  }

  function Chunks(text: string, max: int): seq<string> {
    JoinAll(Fill([], Words(text), max))
  }

  lemma {:induction false} JoinSnoc(ws: seq<string>, w: string)
    ensures Join(" ", ws + [w]) == if ws == [] then w else Join(" ", ws) + " " + w
  {
    if |ws| >= 1 {
      assert (ws + [w])[1..] == ws[1..] + [w];
      JoinSnoc(ws[1..], w);
      if |ws| > 1 {
        assert ws[0] + " " + (Join(" ", ws[1..]) + " " + w) == (ws[0] + " " + Join(" ", ws[1..])) + " " + w;
      }
    } else {
      assert ws + [w] == [w];
    }
  }

  /** A line never gets shorter by a word more, in front or behind. */
  lemma {:induction false} LengthGrows(a: seq<string>, b: seq<string>, c: seq<string>)
    ensures Length(b) <= Length(a + b + c)
    decreases |a| + |c|
  {
    if c != [] {
      var init := c[..|c| - 1];
      assert a + b + c == (a + b + init) + [c[|c| - 1]];
      JoinSnoc(a + b + init, c[|c| - 1]);
      LengthGrows(a, b, init);
    } else if a != [] {
      assert a + b + c == [a[0]] + (a[1..] + b + c);
      LengthGrows(a[1..], b, c);
    } else {
      assert a + b + c == b;
    }
  }

  lemma {:induction false} FlattenCons(line: seq<string>, lines: seq<seq<string>>)
    ensures Flatten([line] + lines) == line + Flatten(lines)
  {
  }

  /** Every word is on exactly one line, in order, and every line fits unless it is one long word. */
  lemma {:induction false} FillIsLayout(current: seq<string>, rest: seq<string>, max: int)
    requires current == [] || LineOk(current, max)
    ensures Layout(Fill(current, rest, max), current + rest, max)
    decreases |rest|
  {
    if rest == [] {
      assert current + rest == current;
      assert current != [] ==> Flatten([current]) == current + Flatten([]);
    } else {
      assert rest == [rest[0]] + rest[1..];
      assert (current + [rest[0]]) + rest[1..] == current + rest;
      if current != [] && Length(current + [rest[0]]) > max {
        FillIsLayout([rest[0]], rest[1..], max);
        FlattenCons(current, Fill([rest[0]], rest[1..], max));
      } else {
        FillIsLayout(current + [rest[0]], rest[1..], max);
      }
    }
  }

  /** The first line takes as many words as fit. */
  lemma {:induction false} FirstLine(current: seq<string>, rest: seq<string>, max: int) returns (g: nat)
    requires current != []
    ensures g <= |rest|
    ensures Fill(current, rest, max) == [current + rest[..g]] + Fill([], rest[g..], max)
    ensures g < |rest| ==> Length(current + rest[..g + 1]) > max
    decreases |rest|
  {
    if rest == [] {
      g := 0;
      assert current + rest[..0] == current;
    } else if Length(current + [rest[0]]) > max {
      g := 0;
      assert current + rest[..0] == current && rest[..1] == [rest[0]] && rest[0..] == rest;
      assert [] + [rest[0]] == [rest[0]];
    } else {
      var h := FirstLine(current + [rest[0]], rest[1..], max);
      g := h + 1;
      assert rest[1..][h..] == rest[g..];
      assert (current + [rest[0]]) + rest[1..][..h] == current + rest[..g];
      if g < |rest| {
        assert (current + [rest[0]]) + rest[1..][..h + 1] == current + rest[..g + 1];
      }
    }
  }

  /** A line that starts inside an allowed line and stops only when the next word does not fit
      goes at least as far. */
  lemma FirstLineReaches(line: seq<string>, after: seq<string>, j: nat, g: nat, max: int)
    requires LineOk(line, max) && j < |line| && j + 1 + g <= |line| + |after|
    requires var rest := (line + after)[j..]; g + 1 < |rest| ==> Length([rest[0]] + rest[1..][..g + 1]) > max
    ensures j + 1 + g >= |line|
  {
    if j + 1 + g < |line| {
      var rest := (line + after)[j..];
      var taken := [rest[0]] + rest[1..][..g + 1];
      assert line == line[..j] + taken + line[j + g + 2..];
      LengthGrows(line[..j], taken, line[j + g + 2..]);
    }
  }

  /** What the first line leaves of the words is a suffix of what the layout's first line leaves. */
  lemma FirstLineLeaves(line: seq<string>, after: seq<string>, j: nat, max: int) returns (k: nat)
    requires LineOk(line, max) && j < |line|
    ensures k <= |after|
    ensures |Fill([], (line + after)[j..], max)| == 1 + |Fill([], after[k..], max)|
  {
    var rest := (line + after)[j..];
    var g := FirstLine([rest[0]], rest[1..], max);
    assert [] + [rest[0]] == [rest[0]];
    FirstLineReaches(line, after, j, g, max);
    k := j + 1 + g - |line|;
    assert after[k..] == rest[1..][g..];
  }

  /** No layout has fewer lines, even when the greedy filling starts later: for every layout of the words
      and every suffix of them. */
  lemma {:induction false} FewestLines(lines: seq<seq<string>>, ws: seq<string>, j: nat, max: int)
    requires Layout(lines, ws, max) && j <= |ws|
    ensures |Fill([], ws[j..], max)| <= |lines|
    decreases |lines|
  {
    if j < |ws| {
      var p, tail := |lines[0]|, lines[1..];
      var after := Flatten(tail);
      assert ws == lines[0] + after;
      assert lines[0] in lines && forall line | line in tail :: line in lines;
      if p <= j {
        FewestLines(tail, after, j - p, max);
        assert after[j - p..] == ws[j..];
      } else {
        var k := FirstLineLeaves(lines[0], after, j, max);
        FewestLines(tail, after, k, max);
      }
    }
  }

  /** When everything fits on one line, it is one line. */
  lemma {:induction false} OneLine(ws: seq<string>, max: int)
    requires ws != [] && Length(ws) <= max
    ensures Fill([], ws, max) == [ws]
  {
    FillIsLayout([], ws, max);
    assert [] + ws == ws;
    assert Flatten([ws]) == ws + Flatten([]);
    FewestLines([ws], ws, 0, max);
    var lines := Fill([], ws, max);
    assert ws[0..] == ws;
    assert |lines| == 1 by {
      assert Flatten([]) == [];
    }
    assert lines == [lines[0]] && lines[1..] == [] && lines[0] + [] == lines[0];
  }

  // ----- what the chunks promise

  lemma {:induction false} JoinFlatten(lines: seq<seq<string>>)
    requires forall line | line in lines :: line != []
    ensures Join(" ", JoinAll(lines)) == Join(" ", Flatten(lines))
  {
    if |lines| >= 1 {
      var tail := lines[1..];
      assert JoinAll(lines)[1..] == JoinAll(tail);
      assert forall line | line in tail :: line in lines;
      JoinFlatten(tail);
      if |lines| == 1 {
        assert Flatten(lines) == lines[0];
      } else {
        assert Flatten(tail) == tail[0] + Flatten(tail[1..]);
        assert tail[0] in lines && lines[0] in lines;
        assert |Flatten(tail)| >= |tail[0]| >= 1;
        JoinConcat(lines[0], Flatten(tail));
      }
    }
  }

  lemma {:induction false} JoinConcat(a: seq<string>, b: seq<string>)
    requires a != [] && b != []
    ensures Join(" ", a + b) == Join(" ", a) + " " + Join(" ", b)
  {
    if |a| == 1 {
      assert (a + b)[1..] == b;
    } else {
      assert (a + b)[1..] == a[1..] + b;
      JoinConcat(a[1..], b);
      assert a[0] + " " + (Join(" ", a[1..]) + " " + Join(" ", b))
          == (a[0] + " " + Join(" ", a[1..])) + " " + Join(" ", b);
    }
  }

  /** The chunks, joined by one space each, are the cleaned text; every chunk is a run of its words,
      and one that is too long is a single word. */
  lemma ChunksRejoin(text: string, max: int)
    ensures Join(" ", Chunks(text, max)) == Clean(text)
    ensures forall chunk | chunk in Chunks(text, max) :: |Words(chunk)| >= 1 && Join(" ", Words(chunk)) == chunk
    ensures forall chunk | chunk in Chunks(text, max) :: |chunk| > max ==> Word(chunk)
  {
    var ws := Words(text);
    var lines := Fill([], ws, max);
    FillIsLayout([], ws, max);
    assert [] + ws == ws;
    JoinFlatten(lines);
    CleanJoinsWords(text);
    forall i | 0 <= i < |lines|
      ensures Words(JoinAll(lines)[i]) == lines[i] && LineOk(lines[i], max)
      ensures |lines[i]| == 1 ==> Word(JoinAll(lines)[i])
    {
      assert lines[i] in lines;
      LineOfWords(lines, lines[i]);
      WordsOfJoin(lines[i]);
      assert |lines[i]| == 1 ==> lines[i][0] in lines[i] && JoinAll(lines)[i] == lines[i][0];
    }
  }

  lemma {:induction false} LineOfWords(lines: seq<seq<string>>, line: seq<string>)
    requires AllWords(Flatten(lines)) && line in lines
    ensures AllWords(line)
  {
    assert Flatten(lines) == lines[0] + Flatten(lines[1..]);
    assert forall w | w in lines[0] :: w in Flatten(lines);
    assert forall w | w in Flatten(lines[1..]) :: w in Flatten(lines);
    if line != lines[0] {
      assert line in lines[1..];
      LineOfWords(lines[1..], line);
    }
  }

  /** No way of cutting the words into lines that are allowed needs fewer lines than there are chunks. */
  lemma {:induction false} FewestChunks(text: string, max: int, lines: seq<seq<string>>)
    requires Layout(lines, Words(text), max)
    ensures |Chunks(text, max)| <= |lines|
  {
    assert Words(text)[0..] == Words(text);
    FewestLines(lines, Words(text), 0, max);
  }

  lemma {:induction false} CandidateLine(current: seq<string>, word: string)
    requires AllWords(current) && Word(word)
    ensures Strip(Join(" ", current) + " " + word) == Join(" ", current + [word]) != []
  {
    JoinSnoc(current, word);
    var line := Join(" ", current + [word]);
    assert word[0] in word && word[|word| - 1] in word;
    assert line[|line| - 1] == word[|word| - 1];
    if current == [] {
      assert Join(" ", current) + " " + word == " " + word;
      LStripOfBlankPrefix(" ", word);
      assert LStrip(word) == word && RStrip(word) == word;
    } else {
      assert current[0] in current && current[0] != [] && current[0][0] in current[0];
      assert (current + [word])[0] == current[0];
      JoinHead(current + [word]);
    }
  }

  lemma {:induction false} JoinHead(ws: seq<string>)
    requires ws != [] && ws[0] != []
    ensures Join(" ", ws) != [] && Join(" ", ws)[0] == ws[0][0]
  {
  }

  /** The loop of _bullet_chunks. */
  method FillLines(words: seq<string>, max: int) returns (out: seq<string>)
    requires AllWords(words)
    ensures out == JoinAll(Fill([], words, max))
  {
    out := [];
    var current := "";
    ghost var lines: seq<seq<string>> := [];
    ghost var line: seq<string> := [];
    var i := 0;
    assert words[0..] == words;
    while i < |words|
      invariant i <= |words|
      invariant current == Join(" ", line) && AllWords(line) && (line == [] <==> current == [])
      invariant out == JoinAll(lines)
      invariant lines + Fill(line, words[i..], max) == Fill([], words, max)
    {
      var word := words[i];
      assert word in words;
      var candidate := Strip(current + " " + word);
      CandidateLine(line, word);
      ghost var rest := words[i..];
      assert rest[1..] == words[i + 1..];
      if current != [] && |candidate| > max {
        out := out + [current];
        assert lines + ([line] + Fill([word], rest[1..], max)) == (lines + [line]) + Fill([word], rest[1..], max);
        lines, line := lines + [line], [word];
        current := word;
      } else {
        current := candidate;
        line := line + [word];
      }
      i := i + 1;
    }
    assert words[i..] == [];
    if current != [] {
      out := out + [current];
    }
  }

  /** _bullet_chunks: one chunk when the cleaned text fits, otherwise greedy lines of its words. */
  method ChunkText(text: string, max: int) returns (out: seq<string>)
    ensures out == Chunks(text, max)
  {
    var clean := Clean(text);
    CleanJoinsWords(text);
    if clean == [] {
      CleanNonEmpty(text);
      WordsOfBlank(text);
      return [];
    }
    var words := Words(clean);
    if |clean| <= max {
      OneLine(words, max);
      return [clean];
    }
    out := FillLines(words, max);
  }
}
