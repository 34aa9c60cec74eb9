/** The lines of the conversation that a split returns: how they come from the message, and what can start in them. */
module LayersLines {
  import opened Options
  import opened Text
  import opened Blocks
  import opened Layers
  import opened LayersProps

  // ---- lines of cut and trimmed text ----

  lemma EllipsisIsOneLine(s: string)
    ensures var a, n := Text.Split(s), |Text.Split(s)| - 1;
            Text.Split(s + ELLIPSIS) == a[..n] + [a[n] + ELLIPSIS]
  {
    SplitOfLine(ELLIPSIS);
    SplitOfConcat(s, ELLIPSIS);
  }

  /** White space in front of a first line that has text is white space of that line. */
  lemma {:induction false} TrimStartOfLines(s: string)
    requires !IsBlank(Text.Split(s)[0])
    ensures Text.Split(TrimStart(s)) == [TrimStart(Text.Split(s)[0])] + Text.Split(s)[1..]
  {
    hide IsBlank;
    var l := Text.Split(s);
    EmptyIsBlank();
    if s != "" && IsSpace(s[0]) && s[0] != '\n' {
      var rest := Text.Split(s[1..]);
      assert l[0] == [s[0]] + rest[0] && l[1..] == rest[1..];
      assert l[0][1..] == rest[0];
      BlankBehindSpace(s[0], rest[0]);
      TrimStartOfLines(s[1..]);
    } else {
      FirstCharStays(s);
      assert l == [l[0]] + l[1..];
    }
  }

  lemma EmptyIsBlank()
    ensures IsBlank("")
  {
  }

  lemma BlankBehindSpace(c: char, l: string)
    requires IsSpace(c)
    ensures IsBlank([c] + l) <==> IsBlank(l)
  {
    assert ([c] + l)[1..] == l;
  }

  lemma FirstCharStays(s: string)
    requires s != "" && s[0] != '\n'
    requires !IsSpace(s[0])
    ensures TrimStart(s) == s && TrimStart(Text.Split(s)[0]) == Text.Split(s)[0]
  {
  }

  lemma {:induction false} OneLineHasNoBreak(s: string)
    requires |Text.Split(s)| == 1
    ensures Text.Split(s) == [s] && '\n' !in s
  {
    if s != "" {
      assert [s[0]] + s[1..] == s;
      OneLineHasNoBreak(s[1..]);
    }
  }

  // ---- the shape of a conversation ----

  /** The line is the beginning of `l`, perhaps with an ellipsis. */
  ghost predicate CutOff(l: string, c: string) {
    c <= l || exists p :: p <= l && c == p + ELLIPSIS
  }

  /**
   * The conversation's lines: the first trimmed at its start, the last cut off or with an ellipsis, the others as
   * they are in the message.
   */
  ghost predicate ConversationShape(kept: seq<string>, c: seq<string>) {
    && c != [] && |c| <= |kept|
    && (forall k :: 0 < k < |c| - 1 ==> c[k] == kept[k])
    && (|c| == 1 ==> exists t :: CutOff(kept[0], t) && c[0] == TrimStart(t))
    && (|c| >= 2 ==> c[0] == TrimStart(kept[0]) && CutOff(kept[|c| - 1], c[|c| - 1]))
  }

  lemma EllipsisEndsTrimming(s: string)
    ensures Trim(s + ELLIPSIS) == TrimStart(s + ELLIPSIS)
  {
    hide IsSpace;
    var t := s + ELLIPSIS;
    TrimStartIsSuffix(t);
    TrimStartDropsSpace(t);
    EllipsisIsNoSpace();
    assert !IsSpace(t[|t| - 1]);
    var u := TrimStart(t);
    assert u[|u| - 1] == t[|t| - 1] == ELLIPSIS[0];
  }

  lemma EllipsisIsNoSpace()
    ensures |ELLIPSIS| == 1 && !IsSpace(ELLIPSIS[0]) && ELLIPSIS[0] != '\n' && ELLIPSIS[0] != '\r'
  {
  }

  lemma OneLineOfTrimStart(s: string)
    requires '\n' !in s
    ensures Text.Split(TrimStart(s)) == [TrimStart(s)]
  {
    TrimStartIsSuffix(s);
    SplitOfLine(TrimStart(s));
  }

  lemma TrimKeepsReturns(s: string)
    requires '\r' !in s
    ensures '\r' !in Trim(s)
  {
    TrimStartIsSuffix(s);
    TrimEndIsPrefix(TrimStart(s));
  }

  lemma HeadHasNoReturn(text: string)
    requires '\r' !in text
    ensures '\r' !in HeadOf(text).head
  {
    hide LinkSpans, FirstCut, IsSpace;
    if |text| > AUTO_HEAD_CHARS {
      CutIsClean(text);
      var cut := CutIndex(text);
      if cut > 0 { TrimEndIsPrefix(text[..cut]); }
    }
  }

  // ---- the lines that are shown, read off the message ----

  /** Where the text of the conversation's lines is cut: behind all of it when it is short. */
  ghost function SplitAt(text: string): (cut: nat)
    ensures cut <= |text|
  {
    if |text| <= AUTO_HEAD_CHARS then |text| else CutIndex(text)
  }

  /** The lines of the first `n` characters of the joined lines: whole lines and the beginning of one more. */
  function CutLines(kept: seq<string>, n: nat): (r: seq<string>)
    requires kept != []
    ensures r != [] && |r| <= |kept|
  {
    if n <= |kept[0]| then [kept[0][..n]]
    else if |kept| == 1 then kept
    else [kept[0]] + CutLines(kept[1..], n - |kept[0]| - 1)
  }

  /** Without the blank lines at the end, and the last line trimmed at its end. */
  function TrimLast(l: seq<string>): (r: seq<string>)
    requires l != []
    ensures r != [] && |r| <= |l|
  {
    var n := |l| - 1;
    if n > 0 && IsBlank(l[n]) then TrimLast(l[..n]) else l[..n] + [TrimEnd(l[n])]
  }

  /** Is the text cut at a place that is not the end of a sentence or line? */
  ghost predicate CutIsMarked(text: string) {
    |text| > AUTO_HEAD_CHARS && CutIndex(text) > 0 && SentenceCut(text[..AUTO_HEAD_CHARS], AUTO_HEAD_CHARS) != Some(CutIndex(text))
  }

  ghost function CutMark(text: string): string {
    if CutIsMarked(text) then ELLIPSIS else ""
  }

  /**
   * What is shown of the lines: those in front of the cut, the first trimmed at its start, the last with text trimmed
   * at its end and with an ellipsis when the cut needs one.
   */
  ghost function Shown(kept: seq<string>): seq<string>
    requires kept != []
  {
    var l := TrimLast(CutLines(kept, SplitAt(Join(kept))));
    var n := |l| - 1;
    var ended := l[..n] + [l[n] + CutMark(Join(kept))];
    [TrimStart(ended[0])] + ended[1..]
  }

  lemma {:induction false} SplitOfCutLines(kept: seq<string>, n: nat)
    requires kept != [] && AllNoBreaks(kept) && n <= |Join(kept)|
    ensures Text.Split(Join(kept)[..n]) == CutLines(kept, n)
  {
    hide IsBreak, Text.Split;
    var l := kept[0];
    LineHasNoNewline(l);
    if n <= |l| {
      assert Join(kept)[..n] == l[..n];
      SplitOfLine(l[..n]);
    } else {
      assert |kept| > 1;
      var rest := Join(kept[1..])[..n - |l| - 1];
      assert Join(kept)[..n] == l + ("\n" + rest);
      SplitOfCutLines(kept[1..], n - |l| - 1);
      SplitBehindLine(l, rest);
    }
  }

  lemma LineHasNoNewline(l: string)
    requires NoBreaks(l)
    ensures '\n' !in l
  {
    assert IsBreak('\n');
  }

  lemma LastCharOfSplit(s: string)
    requires s != ""
    ensures var c, l := s[|s| - 1], Text.Split(s[..|s| - 1]);
            Text.Split(s) == if c == '\n' then l + [""] else l[..|l| - 1] + [l[|l| - 1] + [c]]
  {
    hide Text.Split, Glue;
    var c, x := s[|s| - 1], s[..|s| - 1];
    assert s == x + [c];
    SplitOfConcat(x, [c]);
    SplitOfChar(c);
    GlueChar(Text.Split(x), c);
  }

  lemma SplitOfChar(c: char)
    ensures Text.Split([c]) == if c == '\n' then ["", ""] else [[c]]
  {
    if c == '\n' { assert [c][1..] == ""; } else { SplitOfLine([c]); }
  }

  lemma GlueChar(l: seq<string>, c: char)
    requires l != []
    ensures Glue(l, ["", ""]) == l + [""]
    ensures Glue(l, [[c]]) == l[..|l| - 1] + [l[|l| - 1] + [c]]
  {
    var last := l[|l| - 1];
    assert last + "" == last && l == l[..|l| - 1] + [last] && ["", ""][1..] == [""];
  }

  lemma BlankEndings(l: string, c: char)
    ensures IsSpace(c) ==> (IsBlank(l + [c]) <==> IsBlank(l)) && TrimEnd(l + [c]) == TrimEnd(l)
    ensures !IsSpace(c) ==> !IsBlank(l + [c]) && TrimEnd(l + [c]) == l + [c]
  {
    BlankIffNoInk(l);
    BlankIffNoInk(l + [c]);
    InkConcat(l, [c]);
    assert [c][1..] == "";
    assert (l + [c])[..|l|] == l;
  }

  /** Trimming the end of a text in terms of its lines. */
  lemma {:induction false} SplitOfTrimEnd(s: string)
    ensures Text.Split(TrimEnd(s)) == TrimLast(Text.Split(s))
    decreases |s|
  {
    hide IsSpace, IsBlank, Text.Split;
    if s == "" {
      EmptyIsOneLine();
    } else {
      var c, x := s[|s| - 1], s[..|s| - 1];
      var l := Text.Split(x);
      var n := |l| - 1;
      LastCharOfSplit(s);
      NewlineIsSpace();
      EmptyIsBlank();
      if c == '\n' {
        assert (l + [""])[..|l|] == l;
      } else {
        BlankEndings(l[n], c);
        assert (l[..n] + [l[n] + [c]])[..n] == l[..n];
      }
      if IsSpace(c) { SplitOfTrimEnd(x); }
    }
  }

  lemma EmptyIsOneLine()
    ensures Text.Split("") == [""] && TrimLast([""]) == [""]
  {
  }

  lemma {:induction false} TrimEndBehind(c: char, s: string)
    ensures TrimEnd([c] + s) == if TrimEnd(s) == "" && IsSpace(c) then "" else [c] + TrimEnd(s)
    decreases |s|
  {
    hide IsSpace;
    if s == "" {
      assert [c] + s == [c];
    } else {
      var n := |s| - 1;
      assert ([c] + s)[..|s|] == [c] + s[..n];
      if IsSpace(s[n]) { TrimEndBehind(c, s[..n]); }
    }
  }

  /** It does not matter which end is trimmed first. */
  lemma {:induction false} TrimsCommute(s: string)
    ensures TrimEnd(TrimStart(s)) == TrimStart(TrimEnd(s))
  {
    hide IsSpace;
    if s != "" {
      assert s == [s[0]] + s[1..];
      TrimEndBehind(s[0], s[1..]);
      if IsSpace(s[0]) {
        TrimsCommute(s[1..]);
        if TrimEnd(s) != "" { assert TrimEnd(s)[1..] == TrimEnd(s[1..]); }
      }
    }
  }

  lemma {:induction false} TrimEndTwice(s: string)
    ensures TrimEnd(TrimEnd(s)) == TrimEnd(s)
  {
    if s != "" && IsSpace(s[|s| - 1]) { TrimEndTwice(s[..|s| - 1]); }
  }

  lemma ConversationIs(text: string)
    ensures Conversation(HeadOf(text)) == TrimStart(TrimEnd(text[..SplitAt(text)]) + CutMark(text))
  {
    hide LinkSpans, IsSpace, TrimStart, TrimEnd, IsSentenceEnd, Boundary;
    var x := text[..SplitAt(text)];
    EllipsisEndsTrimming(TrimEnd(x));
    assert TrimEnd(x) + "" == TrimEnd(x);
    TrimsCommute(x);
    TrimsCommute(TrimEnd(x));
    TrimEndTwice(x);
    if |text| <= AUTO_HEAD_CHARS {
      assert x == text && text + "" == text;
    } else {
      MarkIsEllipsis(text);
    }
  }

  lemma MarkIsEllipsis(text: string)
    requires |text| > AUTO_HEAD_CHARS
    ensures HeadOf(text).ellipsis <==> CutIsMarked(text)
    ensures HeadOf(text).head == TrimEnd(text[..CutIndex(text)])
  {
    hide LinkSpans, IsSpace, IsSentenceEnd, Boundary;
  }

  lemma FirstOfShown(kept: seq<string>, n: nat)
    requires kept != [] && !IsBlank(kept[0])
    ensures var l := TrimLast(CutLines(kept, n)); |l| > 1 ==> l[0] == kept[0]
  {
    hide IsBlank;
    TrimLastKeeps(CutLines(kept, n));
  }

  lemma {:induction false} TrimLastKeeps(l: seq<string>)
    requires l != []
    ensures var r := TrimLast(l); forall k :: 0 <= k < |r| - 1 ==> r[k] == l[k]
  {
    var n := |l| - 1;
    if n > 0 && IsBlank(l[n]) { TrimLastKeeps(l[..n]); }
  }

  lemma {:induction false} CutLinesKeep(kept: seq<string>, n: nat)
    requires kept != []
    ensures var r := CutLines(kept, n);
            (forall k :: 0 <= k < |r| - 1 ==> r[k] == kept[k]) && r[|r| - 1] <= kept[|r| - 1]
  {
    if n > |kept[0]| && |kept| > 1 { CutLinesKeep(kept[1..], n - |kept[0]| - 1); }
  }

  lemma {:induction false} LastIsTrimmed(l: seq<string>)
    requires l != []
    ensures var r := TrimLast(l); r[|r| - 1] == TrimEnd(l[|r| - 1])
  {
    var n := |l| - 1;
    if n > 0 && IsBlank(l[n]) { LastIsTrimmed(l[..n]); }
  }

  /** Between the ends the lines shown are those of the message. */
  lemma ShownIsShaped(kept: seq<string>)
    requires kept != []
    ensures ConversationShape(kept, Shown(kept))
  {
    hide CutIsMarked, TrimStart, TrimEnd, TrimLast, CutLines, Join, IsBlank;
    var n := SplitAt(Join(kept));
    var cut, mark := CutLines(kept, n), CutMark(Join(kept));
    var l := TrimLast(cut);
    CutLinesKeep(kept, n);
    TrimLastKeeps(cut);
    LastIsTrimmed(cut);
    var e := |l| - 1;
    TrimEndIsPrefix(cut[e]);
    assert l[e] <= kept[e];
    assert l[e] + "" == l[e];
    assert CutOff(kept[e], l[e] + mark);
  }

  /** The lines of the conversation are the lines shown. */
  lemma ConversationLines(kept: seq<string>)
    requires kept != [] && !IsBlank(kept[0]) && AllNoBreaks(kept)
    ensures Text.Split(Conversation(HeadOf(Join(kept)))) == Shown(kept)
  {
    hide IsBlank, IsSpace, Text.Split, LinkSpans, FirstCut, TrimStart, TrimEnd, Join, TrimLast, CutLines, HeadOf, CutIsMarked;
    var text := Join(kept);
    var n := SplitAt(text);
    ConversationIs(text);
    SplitOfCutLines(kept, n);
    SplitOfTrimEnd(text[..n]);
    FirstOfShown(kept, n);
    MarkIsOneLine(TrimEnd(text[..n]), text);
    var s := TrimEnd(text[..n]) + CutMark(text);
    if |Text.Split(s)| == 1 {
      OneLineHasNoBreak(s);
      OneLineOfTrimStart(s);
    } else {
      TrimStartOfLines(s);
    }
  }

  lemma MarkIsOneLine(s: string, text: string)
    ensures var a, n := Text.Split(s), |Text.Split(s)| - 1; Text.Split(s + CutMark(text)) == a[..n] + [a[n] + CutMark(text)]
  {
    hide CutIsMarked, Text.Split;
    EllipsisIsOneLine(s);
    assert s + "" == s;
    var a := Text.Split(s);
    assert a[|a| - 1] + "" == a[|a| - 1] && a == a[..|a| - 1] + [a[|a| - 1]];
  }

  // ---- what starts in the conversation ----

  /** The lines of the message that the conversation is made of. */
  ghost function Kept(g: Grammar, content: string): seq<string>
    requires KeptFrom(content) < |Lines(content)|
  {
    Lines(content)[KeptFrom(content)..KeptTo(g, content)]
  }

  lemma {:induction false} TrimStartAddsNothing(s: string, c: char)
    ensures c in TrimStart(s) ==> c in s
  {
    if s != "" && IsSpace(s[0]) { TrimStartAddsNothing(s[1..], c); }
  }

  /** With such a shape only the first and the last line can start something. */
  lemma OnlyTheEndsStart(g: Grammar, kept: seq<string>, c: seq<string>)
    requires ConversationShape(kept, c) && forall k :: 0 <= k < |kept| ==> !StartsStructured(g, kept, k)
    ensures (exists k :: 0 <= k < |c| && StartsStructured(g, c, k)) <==>
            || g.fence(c[0]).Some? || g.fence(c[|c| - 1]).Some?
            || (|c| >= 2 && IsTableStart(g, c, |c| - 2))
  {
    hide TrimStart;
    var n := |c|;
    if g.fence(c[0]).Some? { assert StartsStructured(g, c, 0); }
    if g.fence(c[n - 1]).Some? { assert StartsStructured(g, c, n - 1); }
    if n >= 2 && IsTableStart(g, c, n - 2) { assert StartsStructured(g, c, n - 2); }
    if k :| 0 <= k < n && StartsStructured(g, c, k) {
      if 0 < k < n - 1 { assert c[k] == kept[k] && !StartsStructured(g, kept, k); }
      if k + 1 < n - 1 {
        assert c[k + 1] == kept[k + 1] && !StartsStructured(g, kept, k);
        if k == 0 { TrimStartAddsNothing(kept[0], '|'); }
      }
    }
  }

  lemma KeptIsPlain(g: Grammar, content: string)
    requires KeptFrom(content) < |Lines(content)|
    requires forall l :: IsBlank(l) ==> g.fence(l).None?
    requires !StartsStructured(g, Lines(content), KeptFrom(content))
    ensures AllNoBreaks(Kept(g, content))
    ensures forall k :: 0 <= k < |Kept(g, content)| ==> !StartsStructured(g, Kept(g, content), k)
  {
    hide IsBlank, Lines;
    var lines, i, end := Lines(content), KeptFrom(content), KeptTo(g, content);
    HeadHasNoStructure(g, lines, i);
    LinesHaveNoBreaks(content);
    forall k | 0 <= k < end - i ensures !StartsStructured(g, Kept(g, content), k) {
      assert !StartsStructured(g, lines, i + k);
    }
  }

  lemma {:induction false} SixthIsNotFirst(lines: seq<string>)
    requires lines != []
    ensures KeptLines(lines) > 0
  {
    hide IsBlank;
  }

  lemma NothingStartsInNothing(g: Grammar)
    requires forall l :: IsBlank(l) ==> g.fence(l).None?
    ensures Lines("") == [""] && !StartsStructured(g, [""], 0)
  {
    assert IsBlank("");
  }

  /**
   * The conversation of every split, read off the message: its lines are those shown of the kept ones, so the first is
   * trimmed, the last cut off or with an ellipsis, and those between are unchanged. A table or a code block starts in
   * it if and only if one starts with that first or that last line: trimming and cutting are all that can make one.
   */
  lemma ConversationStartsIff(g: Grammar, points: string -> nat, content: string)
    requires AutoSplit(g, points, content).Some?
    requires forall l :: IsBlank(l) ==> g.fence(l).None?
    ensures KeptFrom(content) < |Lines(content)|
    ensures var c := Lines(AutoSplit(g, points, content).value.conversation);
            if StartsStructured(g, Lines(content), KeptFrom(content)) then c == [""] && !StartsStructured(g, c, 0)
            else
              && Kept(g, content) != [] && ConversationShape(Kept(g, content), c)
              && var shown := Shown(Kept(g, content));
                 && c == shown
                 && ((exists k :: 0 <= k < |c| && StartsStructured(g, c, k)) <==>
                       || g.fence(shown[0]).Some? || g.fence(shown[|shown| - 1]).Some?
                       || (|shown| >= 2 && IsTableStart(g, shown, |shown| - 2)))
  {
    hide Lines, HeadOf, Conversation, RestOf, IsBlank, ConversationShape, AutoSplit, KeptLines, HeadEnd, Shown;
    SplitIs(g, points, content);
    NothingStartsInNothing(g);
    var lines, i := Lines(content), KeptFrom(content);
    if !StartsStructured(g, lines, i) {
      KeptIsPlain(g, content);
      SixthIsNotFirst(lines[i..HeadEnd(g, lines, i)]);
      var kept := Kept(g, content);
      assert kept[0] == lines[i];
      ShownIsShaped(kept);
      ConversationLines(kept);
      ConversationHasNoReturn(kept);
      hide StartsStructured;
      OnlyTheEndsStart(g, kept, Lines(AutoSplit(g, points, content).value.conversation));
    }
  }

  lemma ConversationHasNoReturn(kept: seq<string>)
    requires AllNoBreaks(kept)
    ensures var c := Conversation(HeadOf(Join(kept))); Lines(c) == Text.Split(c)
  {
    hide IsSpace, Text.Split, LinkSpans, FirstCut, Trim, Join, HeadOf;
    var c := HeadOf(Join(kept));
    JoinHasNoReturn(kept);
    HeadHasNoReturn(Join(kept));
    EllipsisIsNoSpace();
    TrimKeepsReturns(c.head + if c.ellipsis then ELLIPSIS else "");
    UnifyWithoutReturn(Conversation(c));
  }

  // ---- both cases occur ----

  /** A message of 27 lines: one with text, 25 empty ones, and one more. */
  function LongMessage(l: string): seq<string> {
    [l] + seq(25, _ => "") + ["x"]
  }

  lemma LongMessageSplits(g: Grammar, points: string -> nat, l: string)
    requires NoBreaks(l) && !IsBlank(l) && '|' !in l && g.fence(l).None? && g.heading(l).None?
    ensures var content := Join(LongMessage(l));
            && Lines(content) == LongMessage(l) && KeptFrom(content) == 0
            && !StartsStructured(g, LongMessage(l), 0)
            && AutoSplit(g, points, content).Some?
            && AutoSplit(g, points, content).value.conversation == Conversation(HeadOf(l))
  {
    hide IsBlank, Join, HeadOf, Trim, DropBlankLines, Ink, InkOfLines, Conversation, Lines, RestOf, KeptLines;
    var lines := LongMessage(l);
    assert forall k :: 0 < k < 26 ==> lines[k] == "";
    assert lines[0] == l && lines[26] == "x";
    assert AllNoBreaks(lines);
    LinesOfJoin(lines);
    EmptyIsBlank();
    assert ParaEnd(g, lines, 0, 1) == 1;
    assert ParaEnd(g, lines, 0, 0) == 1;
    assert lines[0..1] == [l];
    OneLineIsKept(l);
    JoinOne(l);
    SomethingIsLeft(HeadOf(l), lines[1..]);
  }

  lemma OneLineIsKept(l: string)
    requires !IsBlank(l)
    ensures KeptLines([l]) == 1
  {
    hide IsBlank;
    assert [l][1..] == [];
  }

  lemma JoinOne(l: string)
    ensures Join([l]) == l
  {
  }

  lemma SomethingIsLeft(cut: Cut, rest: seq<string>)
    requires rest != [] && rest[|rest| - 1] == "x"
    ensures RestOf(cut, rest) != ""
  {
    hide RestOf, IsBlank, Ink;
    InkOfRest(cut, rest);
    XHasText();
    TextHasInk(rest, |rest| - 1);
    EmptyHasNoInk();
  }

  lemma XHasText()
    ensures !IsBlank("x")
  {
    assert Trim("x") == "x";
  }

  lemma FenceIsText()
    ensures !IsBlank("    ```") && '|' !in "    ```" && Trim("    ```") == "```" && NoBreaks("    ```")
  {
    var s := "    ```";
    assert s[1..] == "   ```" && "   ```"[1..] == "  ```" && "  ```"[1..] == " ```" && " ```"[1..] == "```";
    assert TrimStart("```") == "```" && TrimStart(" ```") == "```" && TrimStart("  ```") == "```";
    assert TrimStart("   ```") == "```";
    assert TrimStart(s) == "```";
  }

  /** A first line that is no fence because of its indentation is one when the conversation is trimmed. */
  lemma TrimmedLineMayBecomeAFence(g: Grammar, points: string -> nat)
    requires g.fence("    ```").None? && g.fence("```").Some? && g.heading("    ```").None?
    ensures var content := Join(LongMessage("    ```"));
            && !StartsStructured(g, Lines(content), 0)
            && AutoSplit(g, points, content).Some?
            && AutoSplit(g, points, content).value.conversation == "```"
  {
    hide IsBlank, Trim, Lines, StartsStructured, AutoSplit, Join;
    FenceIsText();
    LongMessageSplits(g, points, "    ```");
    assert HeadOf("    ```") == Cut("    ```", "", false);
    assert "    ```" + "" == "    ```";
  }

  /** Three backticks and a word that ends a sentence behind the eightieth character. */
  function FenceWord(): (p: string)
    ensures |p| == 81
  {
    "```" + seq(77, _ => 'a') + "."
  }

  function FenceSentence(): string {
    FenceWord() + " " + seq(400, _ => 'b')
  }

  lemma {:induction false} NoBracketNoLink(text: string, from: nat)
    requires from <= |text| && '[' !in text
    ensures LinkSpans(text, from) == []
    decreases |text| - from
  {
    if from < |text| {
      assert text[from..][0] == text[from];
      NoBracketNoLink(text, from + 1);
    }
  }

  lemma FenceSentenceIsCut()
    ensures HeadOf(FenceSentence()) == Cut(FenceWord(), seq(400, _ => 'b'), false)
    ensures Conversation(HeadOf(FenceSentence())) == FenceWord()
  {
    hide LinkSpans, TrimEnd, DropIndent, SentenceCut, LastSpace, TrimStart;
    var p, text := FenceWord(), FenceSentence();
    var win := text[..AUTO_HEAD_CHARS];
    assert text[..81] == p && text[81..] == " " + seq(400, _ => 'b');
    assert win[80] == '.' && win[81] == ' ' && IsSpace(' ');
    LastSentenceIsTaken(text, 81);
    SentenceCutIsBoundary(win, AUTO_HEAD_CHARS);
    assert forall k :: 81 <= k < AUTO_HEAD_CHARS ==> !Boundary(win, k);
    NoBracketNoLink(text, 0);
    EndsInText(p);
    IndentGoes();
  }

  lemma EndsInText(p: string)
    requires p != "" && !IsSpace(p[|p| - 1]) && !IsSpace(p[0])
    ensures TrimEnd(p) == p && Trim(p + "") == p
  {
    assert p + "" == p;
  }

  lemma IndentGoes()
    ensures DropIndent(" " + seq(400, _ => 'b')) == seq(400, _ => 'b')
  {
    var s := " " + seq(400, _ => 'b');
    assert s[1..] == seq(400, _ => 'b') && s[1..][0] == 'b';
  }

  lemma SentenceIsText()
    ensures NoBreaks(FenceSentence()) && !IsBlank(FenceSentence()) && '|' !in FenceSentence()
  {
    var s := FenceSentence();
    assert s[0] == '`';
    TrimEndKeepsFirst(s);
  }

  lemma {:induction false} TrimEndKeepsFirst(s: string)
    requires s != "" && !IsSpace(s[0])
    ensures TrimEnd(s) != ""
    decreases |s|
  {
    if IsSpace(s[|s| - 1]) { TrimEndKeepsFirst(s[..|s| - 1]); }
  }

  /** A line that is no fence because of a blank in it is one when the conversation is cut behind its first sentence. */
  lemma CutLineMayBecomeAFence(g: Grammar, points: string -> nat)
    requires g.fence(FenceSentence()).None? && g.heading(FenceSentence()).None? && g.fence(FenceWord()).Some?
    ensures var content := Join(LongMessage(FenceSentence()));
            && !StartsStructured(g, Lines(content), 0)
            && AutoSplit(g, points, content).Some?
            && AutoSplit(g, points, content).value.conversation == FenceWord()
  {
    hide IsBlank, Trim, Lines, StartsStructured, AutoSplit, Join, HeadOf, Conversation, FenceWord, FenceSentence;
    SentenceIsText();
    LongMessageSplits(g, points, FenceSentence());
    FenceSentenceIsCut();
  }

  // ---- links ----

  /**
   * The split of a message cuts no link of its head: there is one place at which the head is cut, no link lies across
   * it, what is in front of it is the conversation, and what is behind it comes first in the rest.
   */
  lemma SplitCutsNoLink(g: Grammar, points: string -> nat, content: string)
    requires AutoSplit(g, points, content).Some?
    requires KeptFrom(content) < |Lines(content)| && !StartsStructured(g, Lines(content), KeptFrom(content))
    ensures var r, head := AutoSplit(g, points, content).value, Join(Kept(g, content));
            var cut := SplitAt(head);
            && (forall s :: s in LinkSpans(head, 0) ==> s.b <= cut || cut <= s.a)
            && (r.conversation == Trim(head[..cut]) || r.conversation == Trim(TrimEnd(head[..cut]))
                || r.conversation == Trim(TrimEnd(head[..cut]) + ELLIPSIS))
            && Ink(r.rest) == Ink(head[cut..]) + InkOfLines(Lines(content)[KeptTo(g, content)..])
  {
    hide Lines, RestOf, IsBlank, AutoSplit, KeptLines, HeadEnd, Trim, TrimEnd, StartsStructured, LinkSpans, FirstCut, Ink, Join;
    SplitIs(g, points, content);
    var head := Join(Kept(g, content));
    var cut := SplitAt(head);
    HeadAtCut(head);
    var c := HeadOf(head);
    InkOfRest(c, Lines(content)[KeptTo(g, content)..]);
    assert c.head + "" == c.head;
  }

  lemma HeadAtCut(text: string)
    ensures var c, cut := HeadOf(text), SplitAt(text);
            && (forall s :: s in LinkSpans(text, 0) ==> s.b <= cut || cut <= s.a)
            && (c.head == text[..cut] || c.head == TrimEnd(text[..cut]))
            && (c.ellipsis ==> c.head == TrimEnd(text[..cut]))
            && Ink(c.rest) == Ink(text[cut..])
  {
    hide LinkSpans, FirstCut, Ink;
    if |text| > AUTO_HEAD_CHARS {
      CutIsClean(text);
      InkOfDropIndent(text[CutIndex(text)..]);
      assert text[0..] == text && text[..0] == "";
    } else {
      assert text[..|text|] == text && text[|text|..] == "";
    }
  }
}
