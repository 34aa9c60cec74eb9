/** Which lines of a message the split takes for the conversation (web/lib/message-layers.ts, lines 92 to 146). */
module LayersHead {
  import opened Options
  import opened Text
  import opened Blocks
  import opened Layers
  import opened LayersProps

  // ---- the head, read off the lines ----

  /** A paragraph: lines with text up to a blank line, a table, a code block or the end. */
  ghost predicate Paragraph(g: Grammar, lines: seq<string>, a: nat, e: nat) {
    && a < e <= |lines|
    && (forall k :: a <= k < e ==> !IsBlank(lines[k]))
    && (forall k :: a < k < e ==> !StartsStructured(g, lines, k))
    && (e < |lines| ==> IsBlank(lines[e]) || StartsStructured(g, lines, e))
  }

  /** The next line with text, from `a` on, is line `k`. */
  ghost predicate TextAt(lines: seq<string>, a: nat, k: nat) {
    a <= k < |lines| && !IsBlank(lines[k]) && forall j :: a <= j < k ==> IsBlank(lines[j])
  }

  ghost predicate NoText(lines: seq<string>, a: nat) {
    forall j :: a <= j < |lines| ==> IsBlank(lines[j])
  }

  /**
   * The head of a message whose text begins at line `i`: its first paragraph; when that is a heading alone, the next
   * paragraph as well, but for a table or a code block.
   */
  ghost predicate IsHead(g: Grammar, lines: seq<string>, i: nat, e: nat)
    requires i < |lines|
  {
    if Paragraph(g, lines, i, i + 1) && g.heading(lines[i]).Some? then
      && (NoText(lines, i + 1) ==> e == i + 1)
      && forall k :: TextAt(lines, i + 1, k) ==> if StartsStructured(g, lines, k) then e == i + 1 else Paragraph(g, lines, k, e)
    else Paragraph(g, lines, i, e)
  }

  /** How many of the lines from `a` to `b` have text. */
  ghost function TextCount(lines: seq<string>, a: nat, b: nat): nat
    requires b <= |lines|
  {
    |set k | 0 <= k < |lines| && !IsBlank(lines[k]) && a <= k < b|
  }

  // ---- the split finds it ----

  lemma {:induction false} ParaEndIs(g: Grammar, lines: seq<string>, a: nat, j: nat, e: nat)
    requires a <= j <= e && Paragraph(g, lines, a, e)
    ensures ParaEnd(g, lines, a, j) == e
    decreases e - j
  {
    hide IsBlank, StartsStructured;
    if j < e { ParaEndIs(g, lines, a, j + 1, e); }
  }

  lemma ParaEndIsParagraph(g: Grammar, lines: seq<string>, a: nat)
    requires a < |lines| && !IsBlank(lines[a])
    ensures Paragraph(g, lines, a, ParaEnd(g, lines, a, a))
  {
    hide IsBlank, StartsStructured;
    ParaEndStops(g, lines, a, a);
  }

  lemma {:induction false} ParaEndStops(g: Grammar, lines: seq<string>, a: nat, j: nat)
    requires a <= j <= |lines|
    ensures var e := ParaEnd(g, lines, a, j);
            e < |lines| ==> IsBlank(lines[e]) || (e > a && StartsStructured(g, lines, e))
    decreases |lines| - j
  {
    hide IsBlank, StartsStructured;
    if j < |lines| && !IsBlank(lines[j]) && !(j > a && StartsStructured(g, lines, j)) { ParaEndStops(g, lines, a, j + 1); }
  }

  lemma ParagraphsAgree(g: Grammar, lines: seq<string>, a: nat, e: nat)
    requires Paragraph(g, lines, a, e)
    ensures e == ParaEnd(g, lines, a, a)
  {
    ParaEndIs(g, lines, a, a, e);
  }

  /** The head that the code finds is the head. */
  lemma HeadEndIff(g: Grammar, lines: seq<string>, i: nat, e: nat)
    requires i < |lines| && !IsBlank(lines[i])
    ensures HeadEnd(g, lines, i) == e <==> IsHead(g, lines, i, e)
  {
    hide IsBlank, StartsStructured, ParaEnd, SkipBlank;
    var p := ParaEnd(g, lines, i, i);
    ParaEndIsParagraph(g, lines, i);
    if Paragraph(g, lines, i, i + 1) { ParagraphsAgree(g, lines, i, i + 1); }
    if p == i + 1 && g.heading(lines[i]).Some? {
      var k := SkipBlank(lines, p);
      if k < |lines| {
        assert TextAt(lines, i + 1, k);
        ParaEndIsParagraph(g, lines, k);
        if Paragraph(g, lines, k, e) { ParagraphsAgree(g, lines, k, e); }
        var a := i + 1;
        forall j | TextAt(lines, a, j) ensures j == k {}
      }
    } else if Paragraph(g, lines, i, e) {
      ParagraphsAgree(g, lines, i, e);
    }
  }

  lemma FirstTextIs(lines: seq<string>, i: nat)
    requires TextAt(lines, 0, i)
    ensures SkipBlank(lines, 0) == i
  {
    hide IsBlank;
    var r := SkipBlank(lines, 0);
  }

  // ---- five lines of it ----

  lemma CountStep(lines: seq<string>, a: nat, b: nat)
    requires a <= b < |lines|
    ensures TextCount(lines, a, b + 1) == TextCount(lines, a, b) + if IsBlank(lines[b]) then 0 else 1
  {
    hide IsBlank;
    var s := set k | 0 <= k < |lines| && !IsBlank(lines[k]) && a <= k < b;
    var t := set k | 0 <= k < |lines| && !IsBlank(lines[k]) && a <= k < b + 1;
    assert t == if IsBlank(lines[b]) then s else s + {b};
  }

  lemma {:induction false} CountIsInkLines(lines: seq<string>, a: nat, b: nat)
    requires a <= b <= |lines|
    ensures TextCount(lines, a, b) == InkLines(lines[a..b])
    decreases b
  {
    hide IsBlank, TextCount;
    if a == b {
      NothingCounts(lines, a);
      assert lines[a..b] == [];
    } else {
      CountIsInkLines(lines, a, b - 1);
      CountStep(lines, a, b - 1);
      assert lines[a..b] == lines[a..b - 1] + [lines[b - 1]];
      InkLinesConcat(lines[a..b - 1], [lines[b - 1]]);
      InkLinesOne(lines[b - 1]);
    }
  }

  lemma NothingCounts(lines: seq<string>, a: nat)
    requires a <= |lines|
    ensures TextCount(lines, a, a) == 0
  {
    assert (set k | 0 <= k < |lines| && !IsBlank(lines[k]) && a <= k < a) == {};
  }

  lemma {:induction false} SixthLineIs(lines: seq<string>, k: nat, seen: nat)
    requires k <= |lines| && seen <= AUTO_HEAD_LINES && seen == InkLines(lines[..k])
    ensures var r := SixthLine(lines, k, seen);
            && InkLines(lines[..r]) <= AUTO_HEAD_LINES
            && (r < |lines| ==> !IsBlank(lines[r]) && InkLines(lines[..r]) == AUTO_HEAD_LINES)
    decreases |lines| - k
  {
    hide IsBlank;
    if k < |lines| {
      assert lines[..k + 1] == lines[..k] + [lines[k]];
      InkLinesConcat(lines[..k], [lines[k]]);
      InkLinesOne(lines[k]);
      var seen' := if IsBlank(lines[k]) then seen else seen + 1;
      if seen' <= AUTO_HEAD_LINES { SixthLineIs(lines, k + 1, seen'); }
    }
  }

  /**
   * The lines that are kept, read off the message: the head, up to the sixth line with text if it has one.
   */
  lemma KeptToIs(g: Grammar, content: string, i: nat, e: nat)
    requires TextAt(Lines(content), 0, i) && IsHead(g, Lines(content), i, e)
    ensures KeptFrom(content) == i && i <= KeptTo(g, content) <= e <= |Lines(content)|
    ensures var lines, m := Lines(content), KeptTo(g, content);
            && TextCount(lines, i, m) <= 5
            && (m < e ==> !IsBlank(lines[m]) && TextCount(lines, i, m) == 5)
  {
    hide IsBlank, StartsStructured, Lines, HeadEnd, SixthLine, TextCount;
    var lines := Lines(content);
    FirstTextIs(lines, i);
    HeadEndIff(g, lines, i, e);
    var head := lines[i..e];
    var m := KeptTo(g, content);
    NoneSeen();
    assert head[..0] == [];
    SixthLineIs(head, 0, 0);
    assert head[..m - i] == lines[i..m];
    assert head[..|head|] == head;
    CountIsInkLines(lines, i, m);
  }

  lemma NoneSeen()
    ensures InkLines([]) == 0
  {
  }

  // ---- what is shown then ----

  lemma {:induction false} TrimStartSkips(s: string, k: nat)
    requires k <= |s| - |TrimStart(s)| && |TrimStart(s)| <= |s|
    ensures TrimStart(s[k..]) == TrimStart(s)
    decreases k
  {
    if k > 0 {
      assert s != "" && IsSpace(s[0]);
      TrimStartIsSuffix(s[1..]);
      TrimStartSkips(s[1..], k - 1);
      assert s[1..][k - 1..] == s[k..];
    } else {
      assert s[0..] == s;
    }
  }

  lemma DropBlankLinesThenTrim(s: string)
    ensures Trim(DropBlankLines(s)) == Trim(s)
  {
    hide IsSpace;
    TrimStartIsSuffix(s);
    var n := |s| - |TrimStart(s)|;
    var k := LastNewline(s, n);
    if k.Some? { TrimStartSkips(s, k.value + 1); }
  }

  lemma TrimBehindNewline(s: string)
    ensures Trim("\n" + s) == Trim(s)
  {
    assert ("\n" + s)[1..] == s;
  }

  lemma {:induction false} JoinBehindEmpty(lines: seq<string>)
    ensures Trim(Join([""] + lines)) == Trim(Join(lines))
  {
    if lines == [] {
      assert [""] + lines == [""];
    } else {
      assert ([""] + lines)[1..] == lines;
      assert Join([""] + lines) == "" + "\n" + Join(lines) == "\n" + Join(lines);
      TrimBehindNewline(Join(lines));
    }
  }

  lemma RestOfWhole(lines: seq<string>)
    ensures RestOf(Cut("", "", false), lines) == Trim(Join(lines))
  {
    hide Trim, DropBlankLines;
    DropBlankLinesThenTrim(Join([""] + lines));
    JoinBehindEmpty(lines);
  }

  lemma {:induction false} TextIsNotTrimmedAway(lines: seq<string>)
    ensures Trim(Join(lines)) == "" <==> NoText(lines, 0)
  {
    hide IsBlank, Trim, Ink, InkOfLines;
    var s := Join(lines);
    BlankIffNoInk(s);
    BlankSays(s);
    InkOfJoin(lines);
    if j :| 0 <= j < |lines| && !IsBlank(lines[j]) {
      TextHasInk(lines, j);
    } else {
      InkOfBlankLines(lines);
    }
  }

  lemma BlankSays(s: string)
    ensures IsBlank(s) <==> Trim(s) == ""
  {
  }

  /**
   * A head of at most five lines with text and 400 characters is the conversation, and what stands behind it is the
   * work; there is no split when nothing does.
   */
  lemma ShortHeadIsShown(g: Grammar, points: string -> nat, content: string, i: nat, e: nat)
    requires (points(content) > 1200 || |Lines(content)| > 25) && TextAt(Lines(content), 0, i) && !StartsStructured(g, Lines(content), i)
    requires i <= e <= |Lines(content)| && IsHead(g, Lines(content), i, e)
    requires TextCount(Lines(content), i, e) <= 5 && |Join(Lines(content)[i..e])| <= 400
    ensures var lines := Lines(content);
            AutoSplit(g, points, content) ==
            if NoText(lines, e) then None else Some(Split2(Trim(Join(lines[i..e])), Trim(Join(lines[e..]))))
  {
    hide IsBlank, StartsStructured, Lines, HeadEnd, SixthLine, TextCount, SkipBlank, Trim, Join, RestOf;
    var lines := Lines(content);
    FirstTextIs(lines, i);
    HeadEndIff(g, lines, i, e);
    CountIsInkLines(lines, i, e);
    var text := Join(lines[i..e]);
    assert HeadOf(text) == Cut(text, "", false);
    assert text + "" == text;
    RestWithoutCut(text, lines[e..]);
    RestOfWhole(lines[e..]);
    TextIsNotTrimmedAway(lines[e..]);
    NoTextBehind(lines, e);
  }

  lemma RestWithoutCut(text: string, lines: seq<string>)
    ensures RestOf(Cut(text, "", false), lines) == RestOf(Cut("", "", false), lines)
  {
  }

  lemma NoTextBehind(lines: seq<string>, e: nat)
    requires e <= |lines|
    ensures NoText(lines[e..], 0) <==> NoText(lines, e)
  {
    hide IsBlank;
    if NoText(lines[e..], 0) {
      forall j | e <= j < |lines| ensures IsBlank(lines[j]) { assert lines[j] == lines[e..][j - e]; }
    }
  }

  /** A message that begins with a table or a code block has no conversation: all of it is work. */
  lemma StructuredFirstIsFolded(g: Grammar, points: string -> nat, content: string, i: nat)
    requires (points(content) > 1200 || |Lines(content)| > 25) && TextAt(Lines(content), 0, i) && StartsStructured(g, Lines(content), i)
    ensures AutoSplit(g, points, content) == Some(Split2("", Trim(content)))
  {
    hide IsBlank, StartsStructured, Lines, HeadEnd, Trim, SkipBlank;
    FirstTextIs(Lines(content), i);
  }

  /** And no split is made of a message that is not long, or blank. */
  lemma NothingToFold(g: Grammar, points: string -> nat, content: string)
    requires (points(content) <= 1200 && |Lines(content)| <= 25) || NoText(Lines(content), 0)
    ensures AutoSplit(g, points, content) == None
  {
    hide IsBlank, StartsStructured, Lines, HeadEnd, Trim;
  }
}
