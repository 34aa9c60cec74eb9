/** Strings the way the web client handles them: white space, trimming, lines, and the ink that blanks leave out. */
module Text {
  import opened Seqs

  /** The class `\s`, which is also what `trim` removes. */
  predicate IsSpace(c: char) {
    || '\t' <= c <= '\r'
    || c == ' ' || c == '\U{00A0}' || c == '\U{1680}'
    || '\U{2000}' <= c <= '\U{200A}'
    || c == '\U{2028}' || c == '\U{2029}' || c == '\U{202F}' || c == '\U{205F}' || c == '\U{3000}' || c == '\U{FEFF}'
  }

  function TrimStart(s: string): string {
    if s != "" && IsSpace(s[0]) then TrimStart(s[1..]) else s
  }

  function TrimEnd(s: string): string {
    if s != "" && IsSpace(s[|s| - 1]) then TrimEnd(s[..|s| - 1]) else s
  }

  function Trim(s: string): string {
    TrimEnd(TrimStart(s))
  }

  predicate IsBlank(l: string) {
    Trim(l) == ""
  }

  // ---- lines ----

  predicate IsBreak(c: char) {
    c == '\n' || c == '\r'
  }

  ghost predicate NoBreaks(l: string) {
    forall c :: c in l ==> !IsBreak(c)
  }

  ghost predicate AllNoBreaks(lines: seq<string>) {
    forall l :: l in lines ==> NoBreaks(l)
  }

  /** `s.replace(/\r\n?/g, "\n")`. */
  function Unify(s: string): string {
    if s == "" then ""
    else if s[0] != '\r' then [s[0]] + Unify(s[1..])
    else if |s| > 1 && s[1] == '\n' then "\n" + Unify(s[2..])
    else "\n" + Unify(s[1..])
  }

  /** `s.split("\n")`. */
  function Split(s: string): (lines: seq<string>)
    ensures lines != []
  {
    if s == "" then [""]
    else if s[0] == '\n' then [""] + Split(s[1..])
    else
      var rest := Split(s[1..]);
      [[s[0]] + rest[0]] + rest[1..]
  }

  /** `lines.join("\n")`. */
  function Join(lines: seq<string>): string {
    if lines == [] then ""
    else if |lines| == 1 then lines[0]
    else lines[0] + "\n" + Join(lines[1..])
  }

  function Lines(src: string): (lines: seq<string>)
    ensures lines != []
  {
    Split(Unify(src))
  }

  function TotalChars(lines: seq<string>): nat {
    if lines == [] then 0 else |lines[0]| + TotalChars(lines[1..])
  }

  lemma TotalCharsTail(lines: seq<string>)
    requires lines != []
    ensures TotalChars(lines[1..]) <= TotalChars(lines)
  {
  }

  lemma {:induction false} TotalCharsConcat(a: seq<string>, b: seq<string>)
    ensures TotalChars(a + b) == TotalChars(a) + TotalChars(b)
  {
    if a == [] {
      assert a + b == b;
    } else {
      assert (a + b)[1..] == a[1..] + b;
      TotalCharsConcat(a[1..], b);
    }
  }

  lemma {:induction false} UnifyHasNoReturn(s: string)
    ensures '\r' !in Unify(s)
  {
    if s != "" {
      UnifyHasNoReturn(s[1..]);
      if |s| > 1 { UnifyHasNoReturn(s[2..]); }
    }
  }

  lemma {:induction false} SplitHasNoBreaks(s: string)
    requires '\r' !in s
    ensures AllNoBreaks(Split(s))
  {
    if s != "" {
      SplitHasNoBreaks(s[1..]);
      var rest := Split(s[1..]);
      assert NoBreaks(rest[0]);
      if s[0] != '\n' { assert NoBreaks([s[0]] + rest[0]); }
    }
  }

  lemma LinesHaveNoBreaks(src: string)
    ensures AllNoBreaks(Lines(src))
  {
    UnifyHasNoReturn(src);
    SplitHasNoBreaks(Unify(src));
  }

  /** Two lists of lines put end to end: the last line of `a` runs on into the first of `b`. */
  function Glue(a: seq<string>, b: seq<string>): (r: seq<string>)
    requires a != [] && b != []
    ensures r != []
  {
    a[..|a| - 1] + [a[|a| - 1] + b[0]] + b[1..]
  }

  lemma GlueAfterChar(c: char, a: seq<string>, b: seq<string>)
    requires a != [] && b != []
    ensures Glue([[c] + a[0]] + a[1..], b) == [[c] + Glue(a, b)[0]] + Glue(a, b)[1..]
  {
    if |a| == 1 {
      assert [c] + (a[0] + b[0]) == ([c] + a[0]) + b[0];
    } else {
      var a' := [[c] + a[0]] + a[1..];
      assert a'[..|a| - 1] == [[c] + a[0]] + a[1..|a| - 1];
      assert Glue(a, b)[1..] == a[1..|a| - 1] + [a[|a| - 1] + b[0]] + b[1..];
    }
  }

  lemma {:induction false} SplitOfConcat(x: string, y: string)
    ensures Split(x + y) == Glue(Split(x), Split(y))
  {
    if x == "" {
      assert x + y == y;
      assert "" + Split(y)[0] == Split(y)[0];
    } else {
      assert (x + y)[1..] == x[1..] + y;
      SplitOfConcat(x[1..], y);
      if x[0] != '\n' {
        GlueAfterChar(x[0], Split(x[1..]), Split(y));
      }
    }
  }

  lemma {:induction false} SplitOfLine(l: string)
    requires '\n' !in l
    ensures Split(l) == [l]
  {
    if l != "" {
      SplitOfLine(l[1..]);
      assert [l[0]] + l[1..] == l;
    }
  }

  lemma SplitBehindLine(l: string, rest: string)
    requires '\n' !in l
    ensures Split(l + ("\n" + rest)) == [l] + Split(rest)
  {
    SplitOfLine(l);
    SplitOfBreak(rest);
    SplitOfConcat(l, "\n" + rest);
    GlueBehindLine(l, Split(rest));
    hide Split, Glue;
  }

  lemma SplitOfBreak(rest: string)
    ensures Split("\n" + rest) == [""] + Split(rest)
  {
    assert ("\n" + rest)[1..] == rest;
  }

  lemma GlueBehindLine(l: string, r: seq<string>)
    ensures Glue([l], [""] + r) == [l] + r
  {
    assert l + "" == l && ([""] + r)[1..] == r;
  }

  lemma {:induction false} UnifyWithoutReturn(s: string)
    requires '\r' !in s
    ensures Unify(s) == s
  {
    if s != "" { UnifyWithoutReturn(s[1..]); }
  }

  lemma {:induction false} JoinHasNoReturn(lines: seq<string>)
    requires AllNoBreaks(lines)
    ensures '\r' !in Join(lines)
  {
    if lines != [] {
      assert NoBreaks(lines[0]);
      JoinHasNoReturn(lines[1..]);
    }
  }

  /** Joining lines and splitting again gives the lines back: the quote's `parseBlocks(inner.join("\n"))` sees `inner`. */
  lemma {:induction false} LinesOfJoin(lines: seq<string>)
    requires lines != [] && AllNoBreaks(lines)
    ensures Lines(Join(lines)) == lines
  {
    JoinHasNoReturn(lines);
    UnifyWithoutReturn(Join(lines));
    SplitOfJoin(lines);
  }

  lemma {:induction false} SplitOfJoin(lines: seq<string>)
    requires lines != [] && AllNoBreaks(lines)
    ensures Split(Join(lines)) == lines
  {
    assert NoBreaks(lines[0]);
    SplitOfLine(lines[0]);
    if |lines| > 1 {
      SplitOfJoin(lines[1..]);
      var t := "\n" + Join(lines[1..]);
      assert t[1..] == Join(lines[1..]);
      assert Split(t) == [""] + lines[1..];
      SplitOfConcat(lines[0], t);
      assert lines[0] + "\n" + Join(lines[1..]) == lines[0] + t;
      assert lines[0] + "" == lines[0];
    }
  }

  /** What a text contributes when `y` follows: the `\n` that completes a final `\r` is swallowed. */
  function UnifyAfter(x: string, y: string): string {
    if x != "" && x[|x| - 1] == '\r' && y != "" && y[0] == '\n' then Unify(y[1..]) else Unify(y)
  }

  /** How many characters of `s` belong to the break that `c` begins. */
  function Swallowed(c: char, s: string): (k: nat)
    ensures k <= |s|
  {
    if c == '\r' && s != "" && s[0] == '\n' then 1 else 0
  }

  lemma UnifyCons(c: char, s: string)
    ensures Unify([c] + s) == [if c == '\r' then '\n' else c] + Unify(s[Swallowed(c, s)..])
  {
    assert ([c] + s)[1..] == s && s[0..] == s;
    if s != "" { assert ([c] + s)[2..] == s[1..]; }
  }

  lemma UnifyOfTwo(c: char, y: string)
    ensures Unify([c] + y) == Unify([c]) + UnifyAfter([c], y)
  {
    UnifyCons(c, y);
    UnifyCons(c, "");
    assert [c] + "" == [c] && y[0..] == y;
  }

  lemma HeadAndTail(x: string, y: string, k: nat)
    requires x != "" && k < |x|
    ensures x == [x[0]] + x[1..] && x + y == [x[0]] + (x[1..] + y) && (x[1..] + y)[k..] == x[1..][k..] + y
  {
  }

  lemma SwallowedAlike(x: string, y: string)
    requires |x| > 1
    ensures var k := Swallowed(x[0], x[1..]);
            k < |x| && Swallowed(x[0], x[1..] + y) == k && UnifyAfter(x[1..][k..], y) == UnifyAfter(x, y)
  {
    hide Unify;
  }

  lemma {:induction false} UnifyOfConcat(x: string, y: string)
    ensures Unify(x + y) == Unify(x) + UnifyAfter(x, y)
    decreases |x|
  {
    if x == "" {
      assert x + y == y;
    } else if |x| == 1 {
      UnifyOfTwo(x[0], y);
      assert x == [x[0]];
    } else {
      hide Unify, UnifyAfter, Swallowed;
      var c, rest := x[0], x[1..];
      var k := Swallowed(c, rest);
      SwallowedAlike(x, y);
      HeadAndTail(x, y, k);
      UnifyCons(c, rest);
      UnifyCons(c, rest + y);
      UnifyOfConcat(rest[k..], y);
      ConcatAssoc([if c == '\r' then '\n' else c], Unify(rest[k..]), UnifyAfter(x, y));
    }
  }

  lemma {:induction false} UnifyBehindLine(l: string, x: string)
    requires NoBreaks(l)
    ensures Unify(l + x) == l + Unify(x)
  {
    if l == "" {
      assert l + x == x;
    } else {
      assert IsBreak('\r') && l[0] in l;
      assert (l + x)[1..] == l[1..] + x;
      UnifyBehindLine(l[1..], x);
    }
  }

  lemma UnifyOfBreak(b: string, rest: string)
    requires b == "\n" || b == "\r\n" || (b == "\r" && !(rest != "" && rest[0] == '\n'))
    ensures Unify(b + rest) == "\n" + Unify(rest)
  {
    var s := b + rest;
    assert s[|b|..] == rest;
  }

  /** Each of the three breaks ends a line, `\r\n` is one break, and nothing else ends a line. */
  lemma BreakEndsLine(l: string, b: string, rest: string)
    requires NoBreaks(l) && (b == "\n" || b == "\r\n" || (b == "\r" && !(rest != "" && rest[0] == '\n')))
    ensures Lines(l + (b + rest)) == [l] + Lines(rest)
    ensures Lines(l) == [l]
  {
    assert IsBreak('\n') && IsBreak('\r');
    UnifyBehindLine(l, b + rest);
    UnifyOfBreak(b, rest);
    SplitBehindLine(l, Unify(rest));
    UnifyWithoutReturn(l);
    SplitOfLine(l);
  }

  /** Text that arrives later never touches a line that was already ended, not even a `\r\n` cut in two. */
  lemma DeltaKeepsEndedLines(src: string, delta: string)
    ensures Lines(src)[..|Lines(src)| - 1] <= Lines(src + delta)
  {
    UnifyOfConcat(src, delta);
    SplitOfConcat(Unify(src), UnifyAfter(src, delta));
  }

  // ---- ink: the characters that are not white space ----

  function Ink(s: string): string {
    if s == "" then "" else (if IsSpace(s[0]) then "" else [s[0]]) + Ink(s[1..])
  }

  function InkOfLines(lines: seq<string>): string {
    if lines == [] then "" else Ink(lines[0]) + InkOfLines(lines[1..])
  }

  lemma {:induction false} InkConcat(a: string, b: string)
    ensures Ink(a + b) == Ink(a) + Ink(b)
  {
    if a == "" {
      assert a + b == b;
    } else {
      assert (a + b)[1..] == a[1..] + b;
      InkConcat(a[1..], b);
    }
  }

  lemma {:induction false} InkOfTrimStart(s: string)
    ensures Ink(TrimStart(s)) == Ink(s)
  {
    if s != "" { InkOfTrimStart(s[1..]); }
  }

  lemma {:induction false} InkOfTrimEnd(s: string)
    ensures Ink(TrimEnd(s)) == Ink(s)
  {
    if s != "" && IsSpace(s[|s| - 1]) {
      InkOfTrimEnd(s[..|s| - 1]);
      InkConcat(s[..|s| - 1], [s[|s| - 1]]);
      assert s == s[..|s| - 1] + [s[|s| - 1]];
    }
  }

  lemma InkOfTrim(s: string)
    ensures Ink(Trim(s)) == Ink(s)
  {
    InkOfTrimStart(s);
    InkOfTrimEnd(TrimStart(s));
  }

  lemma {:induction false} InkOfJoin(lines: seq<string>)
    ensures Ink(Join(lines)) == InkOfLines(lines)
  {
    if lines != [] {
      InkOfJoin(lines[1..]);
      if |lines| == 1 {
        assert InkOfLines(lines[1..]) == "";
      } else {
        InkConcat(lines[0] + "\n", Join(lines[1..]));
        InkConcat(lines[0], "\n");
        assert Ink("\n") == "";
      }
    }
  }

  lemma {:induction false} InkOfLinesConcat(a: seq<string>, b: seq<string>)
    ensures InkOfLines(a + b) == InkOfLines(a) + InkOfLines(b)
  {
    if a == [] {
      assert a + b == b;
    } else {
      assert (a + b)[1..] == a[1..] + b;
      InkOfLinesConcat(a[1..], b);
    }
  }

  /** Blank means that there is no ink. */
  lemma {:induction false} BlankIffNoInk(s: string)
    ensures IsBlank(s) <==> Ink(s) == ""
  {
    InkOfTrim(s);
    var t := Trim(s);
    if t != "" {
      TrimEndIsTight(TrimStart(s));
      assert t == t[..|t| - 1] + [t[|t| - 1]];
      InkConcat(t[..|t| - 1], [t[|t| - 1]]);
      assert Ink([t[|t| - 1]]) == [t[|t| - 1]];
    }
  }

  lemma {:induction false} TrimEndIsTight(s: string)
    ensures var t := TrimEnd(s); t != "" ==> !IsSpace(t[|t| - 1])
  {
    if s != "" && IsSpace(s[|s| - 1]) { TrimEndIsTight(s[..|s| - 1]); }
  }
}
