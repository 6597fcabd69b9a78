/** `_separate_equation` and the split that follows it in
    `process_equation`: every character that is neither a word character
    nor `.` is surrounded by blanks, each run of whitespace becomes one
    blank, the ends are stripped, and the text is cut at every blank. */
module Tokenizer {
  import opened Tokens

  // ---------------------------------------------------------------------
  // The three rewriting steps
  // ---------------------------------------------------------------------

  /** The replacement of one character by the first substitution. */
  function Spaced(c: char): string {
    if IsWordChar(c) || c == '.' then [c] else [' ', c, ' ']
  }

  /** First substitution: a blank before and after every character that is
      neither a word character nor `.`. */
  function Pad(s: string): string {
    if s == [] then [] else Spaced(s[0]) + Pad(s[1..])
  }

  /** `s` without its leading whitespace. */
  function SkipSpaces(s: string): (r: string)
    ensures |r| <= |s|
    ensures r == [] || !IsSpace(r[0])
  {
    if s != [] && IsSpace(s[0]) then SkipSpaces(s[1..]) else s
  }

  lemma {:induction false} SkipSpacesSuffix(s: string)
    ensures SkipSpaces(s) == s[|s| - |SkipSpaces(s)|..]
  {
    if s != [] && IsSpace(s[0]) {
      SkipSpacesSuffix(s[1..]);
    }
  }

  /** Second substitution: every run of whitespace becomes one blank. */
  function Collapse(s: string): (r: string)
    ensures |r| <= |s|
    ensures s != [] ==> r != [] && r[0] == (if IsSpace(s[0]) then ' ' else s[0])
    decreases |s|
  {
    if s == [] then []
    else if IsSpace(s[0]) then [' '] + Collapse(SkipSpaces(s[1..]))
    else [s[0]] + Collapse(s[1..])
  }

  /** `s` without its trailing whitespace. */
  function SkipTrailing(s: string): (r: string)
    ensures |r| <= |s|
    ensures r == [] || !IsSpace(r[|r| - 1])
  {
    if s != [] && IsSpace(s[|s| - 1]) then SkipTrailing(s[..|s| - 1]) else s
  }

  lemma {:induction false} SkipTrailingPrefix(s: string)
    ensures SkipTrailing(s) == s[..|SkipTrailing(s)|]
  {
    if s != [] && IsSpace(s[|s| - 1]) {
      SkipTrailingPrefix(s[..|s| - 1]);
    }
  }

  /** `strip()`: no whitespace at either end. */
  function Strip(s: string): string {
    SkipTrailing(SkipSpaces(s))
  }

  /** `_separate_equation`. */
  function Separate(s: string): string {
    Strip(Collapse(Pad(s)))
  }

  /** `split(" ")`: the pieces between blanks, empty ones included. */
  function Split(s: string): (r: seq<string>)
    ensures |r| >= 1
    decreases |s|
  {
    if s == [] then [[]]
    else if s[0] == ' ' then [[]] + Split(s[1..])
    else
      var rest := Split(s[1..]);
      [[s[0]] + rest[0]] + rest[1..]
  }

  /** The pieces with a blank between each two: the inverse of `Split`. */
  function Join(ps: seq<string>): string
    requires |ps| >= 1
  {
    if |ps| == 1 then ps[0] else ps[0] + [' '] + Join(ps[1..])
  }

  // ---------------------------------------------------------------------
  // What the tokenizer promises
  // ---------------------------------------------------------------------

  /** Blanks only: no whitespace other than ` `, and no two in a row. */
  predicate SingleBlanks(s: string) {
    && (forall k :: 0 <= k < |s| && IsSpace(s[k]) ==> s[k] == ' ')
    && (forall k :: 0 < k < |s| && s[k] == ' ' ==> s[k - 1] != ' ')
  }

  /** Every symbol has a blank, or an end of the text, on each side. */
  predicate Isolated(s: string) {
    forall k :: 0 <= k < |s| && IsSymbol(s[k]) ==>
      (k == 0 || s[k - 1] == ' ') && (k == |s| - 1 || s[k + 1] == ' ')
  }

  /** Every symbol has a blank on each side. */
  predicate Surrounded(s: string) {
    forall k :: 0 <= k < |s| && IsSymbol(s[k]) ==> 0 < k < |s| - 1 && s[k - 1] == ' ' && s[k + 1] == ' '
  }

  /** The text without its whitespace. */
  function Visible(s: string): string {
    if s == [] then [] else (if IsSpace(s[0]) then [] else [s[0]]) + Visible(s[1..])
  }

  lemma {:induction false} VisibleAppend(a: string, b: string)
    ensures Visible(a + b) == Visible(a) + Visible(b)
  {
    if a != [] {
      assert (a + b)[1..] == a[1..] + b;
      VisibleAppend(a[1..], b);
    } else {
      assert a + b == b;
    }
  }

  lemma {:induction false} PadEncloses(s: string)
    ensures Surrounded(Pad(s))
  {
    if s != [] {
      PadEncloses(s[1..]);
      var p, r := Spaced(s[0]), Pad(s[1..]);
      assert Pad(s) == p + r;
      forall k | 0 <= k < |p + r| && IsSymbol((p + r)[k])
        ensures 0 < k < |p + r| - 1 && (p + r)[k - 1] == ' ' && (p + r)[k + 1] == ' '
      {
        if k >= |p| {
          assert (p + r)[k] == r[k - |p|];
        }
      }
    }
  }

  lemma VisibleOne(c: char)
    ensures Visible([c]) == if IsSpace(c) then [] else [c]
  {
    assert [c][1..] == [];
  }

  lemma SpacedVisible(c: char)
    ensures Visible(Spaced(c)) == Visible([c])
  {
    if !(IsWordChar(c) || c == '.') {
      assert Spaced(c) == [' '] + [c] + [' '];
      VisibleAppend([' '] + [c], [' ']);
      VisibleAppend([' '], [c]);
      VisibleOne(' ');
    }
  }

  lemma {:induction false} PadKeepsVisible(s: string)
    ensures Visible(Pad(s)) == Visible(s)
  {
    if s != [] {
      PadKeepsVisible(s[1..]);
      VisibleAppend(Spaced(s[0]), Pad(s[1..]));
      SpacedVisible(s[0]);
      VisibleOne(s[0]);
    }
  }

  lemma SkipKeepsVisible(s: string)
    ensures Visible(SkipSpaces(s)) == Visible(s)
    decreases |s|
  {
    if s != [] && IsSpace(s[0]) {
      SkipKeepsVisible(s[1..]);
    }
  }

  lemma {:induction false} CollapseKeepsVisible(s: string)
    ensures Visible(Collapse(s)) == Visible(s)
    decreases |s|
  {
    if s != [] {
      var t := if IsSpace(s[0]) then SkipSpaces(s[1..]) else s[1..];
      CollapseKeepsVisible(t);
      CollapseStep(s);
    }
  }

  lemma CollapseStep(s: string)
    requires s != []
    ensures var t := if IsSpace(s[0]) then SkipSpaces(s[1..]) else s[1..];
      Visible(Collapse(t)) == Visible(t) ==> Visible(Collapse(s)) == Visible(s)
  {
    VisibleOne(s[0]);
    VisibleOne(' ');
    assert [s[0]] + s[1..] == s;
    VisibleAppend([s[0]], s[1..]);
    if IsSpace(s[0]) {
      var t := SkipSpaces(s[1..]);
      SkipKeepsVisible(s[1..]);
      assert Collapse(s) == [' '] + Collapse(t);
      VisibleAppend([' '], Collapse(t));
    } else {
      assert Collapse(s) == [s[0]] + Collapse(s[1..]);
      VisibleAppend([s[0]], Collapse(s[1..]));
    }
  }

  lemma {:induction false} CollapseBlanks(s: string)
    ensures SingleBlanks(Collapse(s))
    decreases |s|
  {
    if s != [] {
      var head, rest;
      if IsSpace(s[0]) {
        head, rest := ' ', SkipSpaces(s[1..]);
      } else {
        head, rest := s[0], s[1..];
      }
      CollapseBlanks(rest);
      var r := Collapse(rest);
      assert Collapse(s) == [head] + r;
      assert head == ' ' && r != [] ==> r[0] != ' ';
    }
  }

  /** A slice of a text whose symbols are isolated has its symbols
      isolated. */
  lemma SliceIsolated(s: string, a: nat, b: nat)
    requires a <= b <= |s| && Isolated(s)
    ensures Isolated(s[a..b])
  {
    var t := s[a..b];
    forall k | 0 <= k < |t| && IsSymbol(t[k])
      ensures (k == 0 || t[k - 1] == ' ') && (k == |t| - 1 || t[k + 1] == ' ')
    {
      assert t[k] == s[a + k];
    }
  }

  lemma {:induction false} SkipIsolated(s: string)
    requires Isolated(s)
    ensures Isolated(SkipSpaces(s))
  {
    if s != [] && IsSpace(s[0]) {
      SliceIsolated(s, 1, |s|);
      SkipIsolated(s[1..]);
    }
  }

  /** A character in front of a text whose symbols are isolated. */
  lemma IsolatedCons(c: char, r: string)
    requires Isolated(r)
    requires IsSymbol(c) && r != [] ==> r[0] == ' '
    requires r != [] && IsSymbol(r[0]) ==> c == ' '
    ensures Isolated([c] + r)
  {
    var t := [c] + r;
    forall k | 0 < k < |t|
      ensures t[k] == r[k - 1]
    {
    }
  }

  lemma {:induction false} CollapseIsolates(s: string)
    requires Isolated(s)
    ensures Isolated(Collapse(s))
    decreases |s|
  {
    if s != [] {
      SliceIsolated(s, 1, |s|);
      if IsSpace(s[0]) {
        var rest := SkipSpaces(s[1..]);
        SkipIsolated(s[1..]);
        CollapseIsolates(rest);
        IsolatedCons(' ', Collapse(rest));
      } else {
        CollapseIsolates(s[1..]);
        assert |s| > 1 && IsSymbol(s[0]) ==> s[1] == ' ';
        IsolatedCons(s[0], Collapse(s[1..]));
      }
    }
  }

  /** A slice of a text with single blanks has single blanks. */
  lemma SliceBlanks(s: string, a: nat, b: nat)
    requires a <= b <= |s| && SingleBlanks(s)
    ensures SingleBlanks(s[a..b])
  {
    var t := s[a..b];
    forall k | 0 < k < |t| && t[k] == ' '
      ensures t[k - 1] != ' '
    {
      assert t[k] == s[a + k];
    }
  }

  lemma SurroundedIsolated(s: string)
    requires Surrounded(s)
    ensures Isolated(s)
  {
  }

  /** The stripped text is a slice of the text whose ends are not
      whitespace. */
  lemma StripSlice(c: string) returns (a: nat, b: nat)
    ensures a <= b <= |c| && Strip(c) == c[a..b]
    ensures a < b ==> !IsSpace(c[a]) && !IsSpace(c[b - 1])
  {
    var f := SkipSpaces(c);
    var r := SkipTrailing(f);
    SkipSpacesSuffix(c);
    SkipTrailingPrefix(f);
    a, b := |c| - |f|, |c| - |f| + |r|;
    assert r == c[a..b];
    if a < b {
      assert c[a] == r[0] && c[b - 1] == r[|r| - 1];
    }
  }

  /** Stripping keeps blanks single and symbols isolated, and leaves no
      whitespace at either end. */
  lemma StripKeeps(c: string)
    requires SingleBlanks(c) && Isolated(c)
    ensures var r := Strip(c);
      && (r != [] ==> r[0] != ' ' && r[|r| - 1] != ' ')
      && SingleBlanks(r) && Isolated(r)
  {
    var a, b := StripSlice(c);
    SliceBlanks(c, a, b);
    SliceIsolated(c, a, b);
  }

  lemma {:induction false} TrailingKeepsVisible(s: string)
    ensures Visible(SkipTrailing(s)) == Visible(s)
    decreases |s|
  {
    if s != [] && IsSpace(s[|s| - 1]) {
      var init := s[..|s| - 1];
      TrailingKeepsVisible(init);
      assert s == init + [s[|s| - 1]];
      VisibleAppend(init, [s[|s| - 1]]);
      VisibleOne(s[|s| - 1]);
    }
  }

  /** Stripping removes whitespace only. */
  lemma StripKeepsVisible(c: string)
    ensures Visible(Strip(c)) == Visible(c)
  {
    SkipKeepsVisible(c);
    TrailingKeepsVisible(SkipSpaces(c));
  }

  /** The separated text: no whitespace at either end, single blanks, and
      every symbol between blanks or at an end. */
  lemma SeparateShape(s: string)
    ensures var r := Separate(s);
      && (r != [] ==> r[0] != ' ' && r[|r| - 1] != ' ')
      && SingleBlanks(r) && Isolated(r)
  {
    PadEncloses(s);
    SurroundedIsolated(Pad(s));
    CollapseIsolates(Pad(s));
    CollapseBlanks(Pad(s));
    StripKeeps(Collapse(Pad(s)));
  }

  /** Separating changes whitespace only: the visible characters are those
      of the input, in order. */
  lemma SeparateVisible(s: string)
    ensures Visible(Separate(s)) == Visible(s)
  {
    PadKeepsVisible(s);
    CollapseKeepsVisible(Pad(s));
    StripKeepsVisible(Collapse(Pad(s)));
  }

  // ---------------------------------------------------------------------
  // The split
  // ---------------------------------------------------------------------

  /** An empty first piece puts a blank in front of the joined text. */
  lemma JoinBlankFront(ps: seq<string>)
    requires |ps| >= 1
    ensures Join([[]] + ps) == [' '] + Join(ps)
  {
    var q := [[]] + ps;
    assert q[0] == [] && q[1..] == ps;
    assert [] + [' '] + Join(ps) == [' '] + Join(ps);
  }

  lemma JoinSplitBlank(s: string)
    requires s != [] && s[0] == ' ' && Join(Split(s[1..])) == s[1..]
    ensures Join(Split(s)) == s
  {
    JoinBlankFront(Split(s[1..]));
    assert [' '] + s[1..] == s;
  }

  lemma Associative(x: string, y: string, z: string)
    ensures (x + y) + z == x + (y + z)
  {
  }

  /** Putting a character in front of the first piece puts it in front of
      the joined text. */
  lemma JoinPrepend(c: char, ps: seq<string>)
    requires |ps| >= 1
    ensures Join([[c] + ps[0]] + ps[1..]) == [c] + Join(ps)
  {
    var h, tl := [c] + ps[0], ps[1..];
    var q := [h] + tl;
    assert q[0] == h && q[1..] == tl && |q| == |ps|;
    if |ps| > 1 {
      var t := Join(tl);
      assert Join(q) == h + [' '] + t;
      assert Join(ps) == ps[0] + [' '] + t;
      Associative([c], ps[0], [' ']);
      Associative([c], ps[0] + [' '], t);
    } else {
      assert Join(q) == h;
    }
  }

  lemma JoinSplitChar(s: string)
    requires s != [] && s[0] != ' ' && Join(Split(s[1..])) == s[1..]
    ensures Join(Split(s)) == s
  {
    var rest := Split(s[1..]);
    JoinPrepend(s[0], rest);
    assert [s[0]] + s[1..] == s;
  }

  /** Joining the pieces with blanks gives the text back. */
  lemma {:induction false} JoinSplit(s: string)
    ensures Join(Split(s)) == s
    decreases |s|
  {
    if s != [] {
      JoinSplit(s[1..]);
      if s[0] == ' ' {
        JoinSplitBlank(s);
      } else {
        JoinSplitChar(s);
      }
    }
  }

  /** No piece holds a blank. */
  lemma {:induction false} SplitPiecesHaveNoBlank(s: string)
    ensures forall i, k :: 0 <= i < |Split(s)| && 0 <= k < |Split(s)[i]| ==> Split(s)[i][k] != ' '
    decreases |s|
  {
    if s != [] {
      SplitPiecesHaveNoBlank(s[1..]);
      var rest := Split(s[1..]);
      var p := Split(s);
      forall i, k | 0 <= i < |p| && 0 <= k < |p[i]|
        ensures p[i][k] != ' '
      {
        if s[0] == ' ' {
          if i > 0 { assert p[i] == rest[i - 1]; }
        } else if i > 0 {
          assert p[i] == rest[i];
        } else if k > 0 {
          assert p[0][k] == rest[0][k - 1];
        }
      }
    }
  }

  /** A text whose second character is a blank splits into its first
      character and the pieces after the blank. */
  lemma SplitAtBlank(s: string)
    requires |s| >= 2 && s[0] != ' ' && s[1] == ' '
    ensures Split(s) == [[s[0]]] + Split(s[2..])
  {
    var rest := Split(s[1..]);
    assert s[1..][1..] == s[2..];
    assert rest == [[]] + Split(s[2..]);
    assert rest[1..] == Split(s[2..]);
    assert [s[0]] + rest[0] == [s[0]];
  }

  /** Sufficient conditions for the pieces of a text to be non-empty and
      for symbols to stand alone. */
  predicate WellSpaced(s: string) {
    s != [] && s[0] != ' ' && s[|s| - 1] != ' ' && SingleBlanks(s) && Isolated(s)
  }

  predicate GoodPieces(p: seq<string>) {
    && (forall i :: 0 <= i < |p| ==> p[i] != [])
    && (forall i, k :: 0 <= i < |p| && 0 <= k < |p[i]| && IsSymbol(p[i][k]) ==> p[i] == [p[i][k]])
  }

  lemma SplitPiecesBlank(s: string)
    requires WellSpaced(s) && |s| >= 2 && s[1] == ' ' && GoodPieces(Split(s[2..]))
    ensures GoodPieces(Split(s))
  {
    SplitAtBlank(s);
    var p, q := Split(s), Split(s[2..]);
    forall i | 0 < i < |p|
      ensures p[i] == q[i - 1]
    {
    }
  }

  lemma SplitPiecesJoin(s: string)
    requires WellSpaced(s) && |s| >= 2 && s[1] != ' ' && GoodPieces(Split(s[1..]))
    ensures GoodPieces(Split(s))
  {
    var p, rest := Split(s), Split(s[1..]);
    assert p == [[s[0]] + rest[0]] + rest[1..];
    assert !IsSymbol(s[0]);
    assert rest[0][0] == s[1];
    assert !IsSymbol(rest[0][0]);
    forall i, k | 0 <= i < |p| && 0 <= k < |p[i]| && IsSymbol(p[i][k])
      ensures p[i] == [p[i][k]]
    {
      if i > 0 {
        assert p[i] == rest[i];
      }
    }
    forall i | 0 < i < |p|
      ensures p[i] != []
    {
      assert p[i] == rest[i];
    }
  }

  /** In a text with single blanks and no blank at either end, every piece
      is non-empty; when its symbols are isolated, a piece holding a symbol
      is that symbol alone. */
  lemma {:induction false} SplitPieces(s: string)
    requires WellSpaced(s)
    ensures GoodPieces(Split(s))
    decreases |s|
  {
    if |s| == 1 {
      assert Split(s) == [[s[0]] + []];
    } else if s[1] == ' ' {
      assert s[2] != ' ';
      SliceIsolated(s, 2, |s|);
      SliceBlanks(s, 2, |s|);
      SplitPieces(s[2..]);
      SplitPiecesBlank(s);
    } else {
      SliceIsolated(s, 1, |s|);
      SliceBlanks(s, 1, |s|);
      SplitPieces(s[1..]);
      SplitPiecesJoin(s);
    }
  }

  /** The token list `process_equation` hands to the evaluator. */
  function Tokenize(s: string): (r: seq<string>)
    ensures |r| >= 1
  {
    Split(Separate(s))
  }

  /** The token list joins back to the separated text; its tokens are
      non-empty and blank-free when the text has a visible character, and a
      token holding a symbol is that symbol alone. */
  lemma TokenizeShape(s: string)
    ensures Join(Tokenize(s)) == Separate(s)
    ensures forall i, k :: 0 <= i < |Tokenize(s)| && 0 <= k < |Tokenize(s)[i]| ==> Tokenize(s)[i][k] != ' '
    ensures Separate(s) != [] ==> GoodPieces(Tokenize(s))
  {
    JoinSplit(Separate(s));
    SplitPiecesHaveNoBlank(Separate(s));
    SeparateShape(s);
    SeparateVisible(s);
    if Separate(s) != [] {
      SplitPieces(Separate(s));
    }
  }

  // ---------------------------------------------------------------------
  // Blank-separated words come back unchanged
  // ---------------------------------------------------------------------

  /** A run of word characters and `.`: the substitutions never cut it. */
  predicate IsRun(w: string) {
    w != [] && forall k :: 0 <= k < |w| ==> IsWordChar(w[k]) || w[k] == '.'
  }

  /** A token the tokenizer keeps whole: a run, or one symbol. */
  predicate IsWord(w: string) {
    IsRun(w) || (|w| == 1 && IsSymbol(w[0]))
  }

  predicate AllSpaces(s: string) {
    forall k :: 0 <= k < |s| ==> IsSpace(s[k])
  }

  predicate NoSpaces(s: string) {
    forall k :: 0 <= k < |s| ==> !IsSpace(s[k])
  }

  /** The blank the first substitution puts on each side of a symbol. */
  function Margin(w: string): (r: string)
    ensures AllSpaces(r) && |r| <= 1
  {
    if |w| == 1 && IsSymbol(w[0]) then " " else ""
  }

  lemma {:induction false} PadAppend(a: string, b: string)
    ensures Pad(a + b) == Pad(a) + Pad(b)
  {
    if a == [] {
      assert a + b == b;
    } else {
      assert (a + b)[1..] == a[1..] + b;
      PadAppend(a[1..], b);
      Associative(Spaced(a[0]), Pad(a[1..]), Pad(b));
    }
  }

  lemma {:induction false} PadRun(w: string)
    requires forall k :: 0 <= k < |w| ==> IsWordChar(w[k]) || w[k] == '.'
    ensures Pad(w) == w
  {
    if w != [] {
      PadRun(w[1..]);
      assert [w[0]] + w[1..] == w;
    }
  }

  /** A word is padded by its margins. */
  lemma PadWord(w: string)
    requires IsWord(w)
    ensures Pad(w) == Margin(w) + w + Margin(w)
    ensures NoSpaces(w)
  {
    if IsRun(w) {
      PadRun(w);
      assert Margin(w) == "";
    } else {
      assert Pad(w) == Spaced(w[0]) + Pad([]);
    }
  }

  lemma {:induction false} SkipAllSpaces(sp: string, y: string)
    requires AllSpaces(sp)
    ensures SkipSpaces(sp + y) == SkipSpaces(y)
  {
    if sp == [] {
      assert sp + y == y;
    } else {
      assert (sp + y)[1..] == sp[1..] + y;
      SkipAllSpaces(sp[1..], y);
    }
  }

  lemma {:induction false} CollapseNoSpaces(a: string, b: string)
    requires NoSpaces(a)
    ensures Collapse(a + b) == a + Collapse(b)
  {
    if a == [] {
      assert a + b == b;
    } else {
      assert (a + b)[1..] == a[1..] + b;
      CollapseNoSpaces(a[1..], b);
      Associative([a[0]], a[1..], Collapse(b));
    }
  }

  /** A run of whitespace in front, of any length, becomes one blank. */
  lemma CollapseLeading(sp: string, y: string)
    requires sp != [] && AllSpaces(sp)
    ensures Collapse(sp + y) == [' '] + Collapse(SkipSpaces(y))
  {
    assert (sp + y)[1..] == sp[1..] + y;
    SkipAllSpaces(sp[1..], y);
  }

  /** What the first substitution leaves after the first word, up to the
      next word. */
  function PadTail(ws: seq<string>): string
    requires |ws| >= 1
  {
    Margin(ws[0]) + (if |ws| == 1 then "" else "   " + Pad(Join(ws[1..])))
  }

  lemma PadTailSpaces(ws: seq<string>)
    requires |ws| >= 2
    ensures PadTail(ws) == (Margin(ws[0]) + "   ") + Pad(Join(ws[1..]))
    ensures Margin(ws[0]) + "   " != [] && AllSpaces(Margin(ws[0]) + "   ")
  {
    Associative(Margin(ws[0]), "   ", Pad(Join(ws[1..])));
  }

  lemma PadBlank(w: string, r: string)
    ensures Pad(w + [' '] + r) == Pad(w) + "   " + Pad(r)
  {
    PadAppend(w + [' '], r);
    PadAppend(w, [' ']);
    assert Pad([' ']) == "   ";
  }

  lemma Regroup(m: string, w: string, b: string, x: string)
    ensures (m + w + m) + b + x == m + (w + (m + (b + x)))
  {
  }

  /** The padded text is the first word between its margins, then the rest. */
  lemma PadJoin(ws: seq<string>)
    requires |ws| >= 1 && IsWord(ws[0])
    ensures Pad(Join(ws)) == Margin(ws[0]) + (ws[0] + PadTail(ws))
  {
    var w, m := ws[0], Margin(ws[0]);
    PadWord(w);
    if |ws| == 1 {
      Associative(m, w, m);
    } else {
      var r := Join(ws[1..]);
      PadBlank(w, r);
      Regroup(m, w, "   ", Pad(r));
    }
  }

  /** Skipping the leading margin lands on the first word. */
  lemma SkipToWord(ws: seq<string>)
    requires |ws| >= 1 && IsWord(ws[0])
    ensures SkipSpaces(Pad(Join(ws))) == ws[0] + PadTail(ws)
  {
    PadJoin(ws);
    SkipAllSpaces(Margin(ws[0]), ws[0] + PadTail(ws));
    PadWord(ws[0]);
  }

  /** From the first word on, the second substitution leaves the words with
      one blank between each two, and the last margin. */
  lemma {:induction false} CollapseWords(ws: seq<string>)
    requires |ws| >= 1 && forall i :: 0 <= i < |ws| ==> IsWord(ws[i])
    ensures Collapse(ws[0] + PadTail(ws)) == Join(ws) + Margin(ws[|ws| - 1])
    decreases |ws|
  {
    var w := ws[0];
    PadWord(w);
    CollapseNoSpaces(w, PadTail(ws));
    if |ws| == 1 {
      assert Collapse(Margin(w)) == Margin(w);
    } else {
      var rest := ws[1..];
      PadTailSpaces(ws);
      CollapseLeading(Margin(w) + "   ", Pad(Join(rest)));
      SkipToWord(rest);
      CollapseWords(rest);
      assert rest[|rest| - 1] == ws[|ws| - 1];
      Associative(w, [' '], Join(rest));
      Associative(w + [' '], Join(rest), Margin(ws[|ws| - 1]));
      Associative(w, [' '], Join(rest) + Margin(ws[|ws| - 1]));
    }
  }

  lemma {:induction false} JoinEnds(ws: seq<string>)
    requires |ws| >= 1 && forall i :: 0 <= i < |ws| ==> IsWord(ws[i])
    ensures Join(ws) != []
    ensures !IsSpace(Join(ws)[0]) && !IsSpace(Join(ws)[|Join(ws)| - 1])
    decreases |ws|
  {
    PadWord(ws[0]);
    PadWord(ws[|ws| - 1]);
    if |ws| > 1 {
      JoinEnds(ws[1..]);
    }
  }

  lemma TrailingMargin(x: string, m: string)
    requires x != [] && !IsSpace(x[|x| - 1]) && AllSpaces(m) && |m| <= 1
    ensures SkipTrailing(x + m) == x
  {
    if m != [] {
      assert (x + m)[..|x + m| - 1] == x;
    }
  }

  /** Words already separated by single blanks are left as they are. */
  lemma SeparateWords(ws: seq<string>)
    requires |ws| >= 1 && forall i :: 0 <= i < |ws| ==> IsWord(ws[i])
    ensures Separate(Join(ws)) == Join(ws)
  {
    var w, j, m := ws[0], Join(ws), Margin(ws[|ws| - 1]);
    PadJoin(ws);
    CollapseWords(ws);
    PadWord(w);
    JoinEnds(ws);
    if Margin(w) != [] {
      CollapseLeading(Margin(w), w + PadTail(ws));
    } else {
      assert Margin(w) + (w + PadTail(ws)) == w + PadTail(ws);
    }
    assert Collapse(Pad(j)) == Margin(w) + (j + m);
    SkipAllSpaces(Margin(w), j + m);
    TrailingMargin(j, m);
  }

  /** A piece without blanks is glued to the first piece of what follows. */
  lemma {:induction false} SplitBlankless(w: string, r: string)
    requires forall k :: 0 <= k < |w| ==> w[k] != ' '
    ensures Split(w + r) == [w + Split(r)[0]] + Split(r)[1..]
  {
    if w == [] {
      assert w + r == r;
      assert w + Split(r)[0] == Split(r)[0];
      assert [Split(r)[0]] + Split(r)[1..] == Split(r);
    } else {
      assert (w + r)[1..] == w[1..] + r;
      SplitBlankless(w[1..], r);
      var rest := Split(w[1..] + r);
      assert rest[1..] == Split(r)[1..];
      Associative([w[0]], w[1..], Split(r)[0]);
      assert [w[0]] + w[1..] == w;
    }
  }

  /** `split(" ")` undoes the joining of blank-free pieces. */
  lemma {:induction false} SplitJoin(ws: seq<string>)
    requires |ws| >= 1
    requires forall i, k :: 0 <= i < |ws| && 0 <= k < |ws[i]| ==> ws[i][k] != ' '
    ensures Split(Join(ws)) == ws
    decreases |ws|
  {
    var w := ws[0];
    assert forall k :: 0 <= k < |w| ==> w[k] != ' ';
    if |ws| == 1 {
      SplitBlankless(w, []);
      assert w + [] == w;
    } else {
      var r := Join(ws[1..]);
      SplitJoin(ws[1..]);
      Associative(w, [' '], r);
      SplitBlankless(w, [' '] + r);
      assert ([' '] + r)[1..] == r;
      assert Split([' '] + r) == [[]] + ws[1..];
      assert w + [] == w;
    }
  }

  /** Words written with one blank between each two come back from the
      tokenizer exactly as written: a run of word characters and `.`, such
      as `12.5`, `pi` or `sin`, is never cut, and a symbol stays alone. */
  lemma TokenizeJoin(ws: seq<string>)
    requires |ws| >= 1 && forall i :: 0 <= i < |ws| ==> IsWord(ws[i])
    ensures Tokenize(Join(ws)) == ws
  {
    SeparateWords(ws);
    forall i, k | 0 <= i < |ws| && 0 <= k < |ws[i]|
      ensures ws[i][k] != ' '
    {
      PadWord(ws[i]);
    }
    SplitJoin(ws);
  }
}
