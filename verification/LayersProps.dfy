/** What the automatic split promises: it loses nothing, cuts cleanly, and keeps the conversation short. */
module LayersProps {
  import opened Options
  import opened Text
  import opened Blocks
  import opened Layers

  // ---- the cut ----

  ghost predicate Ordered(spans: seq<Span>) {
    && (forall k :: 0 <= k < |spans| ==> spans[k].a < spans[k].b)
    && (forall j, k :: 0 <= j < k < |spans| ==> spans[j].b <= spans[k].a)
  }

  lemma {:induction false} ChainIsOrdered(spans: seq<Span>)
    requires forall k :: 0 <= k < |spans| ==> spans[k].a < spans[k].b
    requires forall k :: 0 <= k < |spans| - 1 ==> spans[k].b <= spans[k + 1].a
    ensures Ordered(spans)
  {
    if spans != [] {
      ChainIsOrdered(spans[1..]);
      forall k | 0 < k < |spans| ensures spans[0].b <= spans[k].a {
        if k > 1 { assert spans[1..][0].b <= spans[1..][k - 1].a; }
      }
      forall j, k | 0 < j < k < |spans| ensures spans[j].b <= spans[k].a {
        assert spans[1..][j - 1].b <= spans[1..][k - 1].a;
      }
    }
  }

  /** A cut in front of all links stays where it is. */
  lemma {:induction false} NothingToPullBack(spans: seq<Span>, cut: nat)
    requires forall k :: 0 <= k < |spans| ==> !Straddles(spans[k], cut)
    ensures PullBack(spans, cut) == cut
  {
    if spans != [] { NothingToPullBack(spans[1..], cut); }
  }

  lemma {:induction false} PulledBackIsClean(spans: seq<Span>, cut: nat)
    requires Ordered(spans)
    ensures forall k :: 0 <= k < |spans| ==> !Straddles(spans[k], PullBack(spans, cut))
    ensures PullBack(spans, cut) == cut || exists k :: 0 <= k < |spans| && Straddles(spans[k], cut) && PullBack(spans, cut) == spans[k].a
  {
    if spans != [] {
      var s := spans[0];
      if Straddles(s, cut) {
        NothingToPullBack(spans[1..], s.a);
      } else {
        PulledBackIsClean(spans[1..], cut);
        var r := PullBack(spans[1..], cut);
        if r != cut {
          var k :| 0 <= k < |spans[1..]| && Straddles(spans[1..][k], cut) && r == spans[1..][k].a;
          assert spans[k + 1] == spans[1..][k];
        }
      }
    }
  }

  /** Where a long text is cut. */
  ghost function CutIndex(text: string): (cut: nat)
    requires |text| > AUTO_HEAD_CHARS
    ensures cut <= AUTO_HEAD_CHARS
  {
    PullBackIsLower(LinkSpans(text, 0), FirstCut(text).0);
    PullBack(LinkSpans(text, 0), FirstCut(text).0)
  }

  /** No link of the text is cut in two, and a cut without an ellipsis stands behind a sentence. */
  lemma CutIsClean(text: string)
    requires |text| > AUTO_HEAD_CHARS
    ensures forall s :: s in LinkSpans(text, 0) ==> !Straddles(s, CutIndex(text))
    ensures var c := HeadOf(text);
            if CutIndex(text) == 0 then c == Cut("", text, false)
            else c.head == TrimEnd(text[..CutIndex(text)]) && c.rest == DropIndent(text[CutIndex(text)..])
                 && (!c.ellipsis ==> CutIndex(text) >= MIN_HEAD_CHARS && Boundary(text[..AUTO_HEAD_CHARS], CutIndex(text) - 1))
  {
    var spans := LinkSpans(text, 0);
    ChainIsOrdered(spans);
    PulledBackIsClean(spans, FirstCut(text).0);
    SentenceCutIsBoundary(text[..AUTO_HEAD_CHARS], AUTO_HEAD_CHARS);
  }

  lemma {:induction false} SentenceCutIsBoundary(win: string, k: nat)
    requires k <= |win|
    ensures var r := SentenceCut(win, k);
            && (r.Some? ==> 0 < r.value <= k && Boundary(win, r.value - 1))
            && (forall b :: r.GetOr(0) <= b < k && b + 1 >= MIN_HEAD_CHARS ==> !Boundary(win, b))
  {
    hide Boundary;
    if k > 0 { SentenceCutIsBoundary(win, k - 1); }
  }

  /** Of all sentence ends in the window that leave enough text, the last one is taken. */
  lemma LastSentenceIsTaken(text: string, end: nat)
    requires |text| > AUTO_HEAD_CHARS && MIN_HEAD_CHARS <= end <= AUTO_HEAD_CHARS
    requires Boundary(text[..AUTO_HEAD_CHARS], end - 1)
    ensures FirstCut(text).1 && end <= FirstCut(text).0
  {
    SentenceCutIsBoundary(text[..AUTO_HEAD_CHARS], AUTO_HEAD_CHARS);
  }

  // ---- ink ----

  lemma {:induction false} InkOfUnify(s: string)
    ensures Ink(Unify(s)) == Ink(s)
    decreases |s|
  {
    if s != "" {
      InkOfUnify(s[1..]);
      if s[0] == '\r' && |s| > 1 && s[1] == '\n' {
        InkOfUnify(s[2..]);
        assert s[1..][1..] == s[2..];
        assert ("\n" + Unify(s[2..]))[1..] == Unify(s[2..]);
      } else {
        assert Unify(s)[1..] == Unify(s[1..]);
      }
    }
  }

  lemma {:induction false} InkOfSplit(s: string)
    ensures InkOfLines(Text.Split(s)) == Ink(s)
  {
    if s == "" {
      assert Text.Split(s)[1..] == [];
    } else {
      InkOfSplit(s[1..]);
      var rest := Text.Split(s[1..]);
      if s[0] == '\n' {
        assert Text.Split(s)[1..] == rest;
      } else {
        assert Text.Split(s)[1..] == rest[1..];
        InkConcat([s[0]], rest[0]);
        assert Ink([s[0]]) == if IsSpace(s[0]) then "" else [s[0]];
      }
    }
  }

  lemma InkOfContent(content: string)
    ensures InkOfLines(Lines(content)) == Ink(content)
  {
    InkOfUnify(content);
    InkOfSplit(Unify(content));
  }

  lemma {:induction false} InkOfBlankLines(lines: seq<string>)
    requires forall k :: 0 <= k < |lines| ==> IsBlank(lines[k])
    ensures InkOfLines(lines) == ""
  {
    hide IsBlank;
    if lines != [] {
      BlankIffNoInk(lines[0]);
      InkOfBlankLines(lines[1..]);
    }
  }

  lemma {:induction false} InkOfDropIndent(s: string)
    ensures Ink(DropIndent(s)) == Ink(s)
  {
    if s != "" && (s[0] == ' ' || s[0] == '\t') {
      InkOfDropIndent(s[1..]);
      assert IsSpace(s[0]);
    }
  }

  lemma {:induction false} TrimStartDropsSpace(s: string)
    ensures var n := |s| - |TrimStart(s)|; n >= 0 && forall k :: 0 <= k < n ==> IsSpace(s[k])
  {
    hide IsSpace;
    if s != "" && IsSpace(s[0]) {
      TrimStartDropsSpace(s[1..]);
      forall k | 0 <= k < |s| - |TrimStart(s)| ensures IsSpace(s[k]) {
        if k > 0 { assert s[k] == s[1..][k - 1]; }
      }
    }
  }

  lemma {:induction false} NoInkInSpace(s: string)
    requires forall k :: 0 <= k < |s| ==> IsSpace(s[k])
    ensures Ink(s) == ""
  {
    hide IsSpace;
    if s != "" { NoInkInSpace(s[1..]); }
  }

  lemma InkOfDropBlankLines(s: string)
    ensures Ink(DropBlankLines(s)) == Ink(s)
  {
    hide IsSpace, Ink;
    TrimStartDropsSpace(s);
    var n := |s| - |TrimStart(s)|;
    var k := LastNewline(s, n);
    if k.Some? {
      NoInkInSpace(s[..k.value + 1]);
      InkConcat(s[..k.value + 1], s[k.value + 1..]);
      assert s == s[..k.value + 1] + s[k.value + 1..];
    }
  }

  lemma InkOfCut(text: string)
    ensures var c := HeadOf(text); Ink(c.head) + Ink(c.rest) == Ink(text) && |c.head| <= AUTO_HEAD_CHARS
    ensures HeadOf(text).ellipsis ==> |text| > AUTO_HEAD_CHARS
  {
    hide Ink, LinkSpans, FirstCut;
    if |text| <= AUTO_HEAD_CHARS {
      assert Ink("") == "" by { EmptyHasNoInk(); }
    } else {
      CutIsClean(text);
      var cut := CutIndex(text);
      assert Ink("") == "" by { EmptyHasNoInk(); }
      InkOfTrimEnd(text[..cut]);
      TrimEndIsPrefix(text[..cut]);
      InkOfDropIndent(text[cut..]);
      InkConcat(text[..cut], text[cut..]);
      assert text == text[..cut] + text[cut..];
    }
  }

  lemma EmptyHasNoInk()
    ensures Ink("") == ""
  {
  }

  lemma {:induction false} TrimEndIsPrefix(s: string)
    ensures TrimEnd(s) <= s
  {
    if s != "" && IsSpace(s[|s| - 1]) { TrimEndIsPrefix(s[..|s| - 1]); }
  }

  lemma {:induction false} TrimStartIsSuffix(s: string)
    ensures |TrimStart(s)| <= |s| && TrimStart(s) == s[|s| - |TrimStart(s)|..]
  {
    if s != "" && IsSpace(s[0]) { TrimStartIsSuffix(s[1..]); }
  }

  lemma InkOfRest(cut: Cut, restLines: seq<string>)
    ensures Ink(RestOf(cut, restLines)) == Ink(cut.rest) + InkOfLines(restLines)
  {
    hide Ink, Trim, DropBlankLines, Join;
    var all := [cut.rest] + restLines;
    InkOfTrim(DropBlankLines(Join(all)));
    InkOfDropBlankLines(Join(all));
    InkOfJoin(all);
    assert all[1..] == restLines;
  }

  /** The lines the split works on: where the text starts and where the conversation ends. */
  ghost function KeptFrom(content: string): nat {
    SkipBlank(Lines(content), 0)
  }

  ghost function KeptTo(g: Grammar, content: string): (end: nat)
    requires KeptFrom(content) < |Lines(content)|
    ensures KeptFrom(content) <= end <= |Lines(content)|
  {
    var lines, i := Lines(content), KeptFrom(content);
    i + KeptLines(lines[i..HeadEnd(g, lines, i)])
  }

  lemma SplitIs(g: Grammar, points: string -> nat, content: string)
    requires AutoSplit(g, points, content).Some?
    ensures KeptFrom(content) < |Lines(content)|
    ensures var r, lines, i := AutoSplit(g, points, content).value, Lines(content), KeptFrom(content);
            if StartsStructured(g, lines, i) then r == Split2("", Trim(content))
            else
              var cut := HeadOf(Join(lines[i..KeptTo(g, content)]));
              r == Split2(Conversation(cut), RestOf(cut, lines[KeptTo(g, content)..])) && r.rest != ""
  {
    hide HeadOf, Conversation, RestOf, StartsStructured, Lines, SkipBlank, KeptLines, HeadEnd, Trim;
  }

  /**
   * Every visible character of the message is in the conversation or in the work, in the order of the message; only
   * an ellipsis may be added between the two, and there is always some work to fold.
   */
  lemma SplitLosesNothing(g: Grammar, points: string -> nat, content: string)
    requires AutoSplit(g, points, content).Some?
    ensures var r := AutoSplit(g, points, content).value;
            && Ink(r.rest) != ""
            && exists shown :: shown + Ink(r.rest) == Ink(content)
                            && (Ink(r.conversation) == shown || Ink(r.conversation) == shown + ELLIPSIS)
  {
    hide Ink, Trim, Join, HeadOf, RestOf, KeptTo, Lines, StartsStructured, AutoSplit, InkOfLines;
    SplitIs(g, points, content);
    var r := AutoSplit(g, points, content).value;
    var lines, i := Lines(content), KeptFrom(content);
    InkOfContent(content);
    assert Ink("") == "" by { EmptyHasNoInk(); }
    if StartsStructured(g, lines, i) {
      InkOfTrim(content);
      TextHasInk(lines, i);
      assert "" + Ink(r.rest) == Ink(content);
    } else {
      var end := KeptTo(g, content);
      var cut := HeadOf(Join(lines[i..end]));
      InkOfCut(Join(lines[i..end]));
      InkOfJoin(lines[i..end]);
      InkOfRest(cut, lines[end..]);
      assert lines == lines[..i] + lines[i..end] + lines[end..];
      InkOfLinesConcat(lines[..i] + lines[i..end], lines[end..]);
      InkOfLinesConcat(lines[..i], lines[i..end]);
      InkOfBlankLines(lines[..i]);
      var shown := Ink(cut.head);
      assert shown + Ink(r.rest) == Ink(content);
      InkOfTrim(cut.head + if cut.ellipsis then ELLIPSIS else "");
      InkConcat(cut.head, if cut.ellipsis then ELLIPSIS else "");
      assert Ink(ELLIPSIS) == ELLIPSIS by { EllipsisIsInk(); }
      RestHasInk(cut, lines[end..]);
    }
  }

  lemma EllipsisIsInk()
    ensures Ink(ELLIPSIS) == ELLIPSIS
  {
    assert ELLIPSIS[1..] == "";
  }

  lemma {:induction false} TextHasInk(lines: seq<string>, i: nat)
    requires i < |lines| && !IsBlank(lines[i])
    ensures InkOfLines(lines) != ""
  {
    hide IsBlank, Ink;
    if i == 0 { BlankIffNoInk(lines[0]); } else { TextHasInk(lines[1..], i - 1); }
  }

  lemma RestHasInk(cut: Cut, restLines: seq<string>)
    requires RestOf(cut, restLines) != ""
    ensures Ink(RestOf(cut, restLines)) != ""
  {
    var s := DropBlankLines(Join([cut.rest] + restLines));
    BlankIffNoInk(s);
    InkOfTrim(s);
  }

  // ---- the size of the conversation ----

  /** The non-blank lines of a text. */
  function TextLines(s: string): nat {
    InkLines(Text.Split(s))
  }

  lemma {:induction false} InkLinesConcat(a: seq<string>, b: seq<string>)
    ensures InkLines(a + b) == InkLines(a) + InkLines(b)
  {
    hide IsBlank;
    if a == [] {
      assert a + b == b;
    } else {
      assert (a + b)[1..] == a[1..] + b;
      InkLinesConcat(a[1..], b);
    }
  }

  function One(l: string): nat {
    if IsBlank(l) then 0 else 1
  }

  lemma InkLinesOne(l: string)
    ensures InkLines([l]) == One(l)
  {
    hide IsBlank;
    assert [l][1..] == [];
  }

  lemma GluedLine(x: string, y: string)
    ensures One(x + y) >= One(x) && One(x + y) >= One(y) && One(x + y) <= One(x) + One(y)
  {
    hide IsBlank, Ink;
    BlankIffNoInk(x);
    BlankIffNoInk(y);
    BlankIffNoInk(x + y);
    InkConcat(x, y);
  }

  /** Two texts end to end: their lines add up, and the two that meet count as one. */
  lemma TextLinesConcat(x: string, y: string)
    ensures var a, b := Text.Split(x), Text.Split(y);
            var l, r := a[|a| - 1], b[0];
            TextLines(x + y) == TextLines(x) - One(l) + One(l + r) + (TextLines(y) - One(r))
    ensures TextLines(x + y) >= TextLines(x) && TextLines(x + y) >= TextLines(y)
  {
    hide IsBlank, One, InkLines;
    var a, b := Text.Split(x), Text.Split(y);
    var l, r := a[|a| - 1], b[0];
    SplitOfConcat(x, y);
    assert a == a[..|a| - 1] + [l] && b == [r] + b[1..];
    InkLinesConcat(a[..|a| - 1], [l]);
    InkLinesConcat([r], b[1..]);
    InkLinesConcat(a[..|a| - 1] + [l + r], b[1..]);
    InkLinesConcat(a[..|a| - 1], [l + r]);
    InkLinesOne(l);
    InkLinesOne(r);
    InkLinesOne(l + r);
    GluedLine(l, r);
  }

  lemma PrefixHasFewerLines(p: string, s: string)
    requires p <= s
    ensures TextLines(p) <= TextLines(s)
  {
    hide TextLines;
    assert s == p + s[|p|..];
    TextLinesConcat(p, s[|p|..]);
  }

  lemma TrimHasFewerLines(s: string)
    ensures TextLines(Trim(s)) <= TextLines(s) && |Trim(s)| <= |s|
  {
    hide TextLines;
    TrimStartIsSuffix(s);
    var t := TrimStart(s);
    assert s == s[..|s| - |t|] + t;
    TextLinesConcat(s[..|s| - |t|], t);
    TrimEndIsPrefix(t);
    PrefixHasFewerLines(TrimEnd(t), t);
  }

  lemma {:induction false} LastLineOf(s: string)
    requires s != "" && s[|s| - 1] != '\n'
    ensures var a := Text.Split(s); var l := a[|a| - 1]; l != "" && l[|l| - 1] == s[|s| - 1]
  {
    if |s| > 1 {
      LastLineOf(s[1..]);
    } else {
      assert Text.Split(s[1..]) == [""];
    }
  }

  /** An ellipsis adds no line to text that does not end in white space. */
  lemma EllipsisAddsNoLine(s: string)
    requires s != "" ==> !IsSpace(s[|s| - 1])
    ensures TextLines(s + ELLIPSIS) == if s == "" then 1 else TextLines(s)
  {
    assert Text.Split(ELLIPSIS) == [ELLIPSIS] by { SplitOfLine(ELLIPSIS); }
    assert One(ELLIPSIS) == 1 by { EllipsisIsInk(); BlankIffNoInk(ELLIPSIS); }
    InkLinesOne(ELLIPSIS);
    if s == "" {
      assert s + ELLIPSIS == ELLIPSIS;
    } else {
      hide IsBlank, InkLines;
      assert s[|s| - 1] != '\n' by { NewlineIsSpace(); }
      LastLineOf(s);
      var a := Text.Split(s);
      var l := a[|a| - 1];
      LastCharIsInk(l);
      TextLinesConcat(s, ELLIPSIS);
      GluedLine(l, ELLIPSIS);
    }
  }

  lemma NewlineIsSpace()
    ensures IsSpace('\n')
  {
  }

  lemma LastCharIsInk(l: string)
    requires l != "" && !IsSpace(l[|l| - 1])
    ensures One(l) == 1
  {
    hide IsBlank, IsSpace;
    BlankIffNoInk(l);
    assert l == l[..|l| - 1] + [l[|l| - 1]];
    InkConcat(l[..|l| - 1], [l[|l| - 1]]);
  }

  lemma {:induction false} SixthLineKeepsFive(lines: seq<string>, k: nat, seen: nat)
    requires k <= |lines| && seen == InkLines(lines[..k]) <= AUTO_HEAD_LINES
    ensures InkLines(lines[..SixthLine(lines, k, seen)]) <= AUTO_HEAD_LINES
    decreases |lines| - k
  {
    hide IsBlank, InkLines;
    if k < |lines| {
      var seen' := if IsBlank(lines[k]) then seen else seen + 1;
      assert lines[..k + 1] == lines[..k] + [lines[k]];
      InkLinesConcat(lines[..k], [lines[k]]);
      InkLinesOne(lines[k]);
      if seen' <= AUTO_HEAD_LINES { SixthLineKeepsFive(lines, k + 1, seen'); }
    }
  }

  lemma KeptAreFive(head: seq<string>)
    ensures InkLines(head[..KeptLines(head)]) <= AUTO_HEAD_LINES
  {
    hide IsBlank;
    assert InkLines(head[..0]) == 0;
    SixthLineKeepsFive(head, 0, 0);
    assert head[..|head|] == head;
  }

  lemma ConversationSize(text: string)
    ensures var c := HeadOf(text);
            && |Conversation(c)| <= AUTO_HEAD_CHARS + 1
            && TextLines(Conversation(c)) <= if TextLines(text) == 0 then 1 else TextLines(text)
  {
    hide TextLines, LinkSpans, FirstCut, Trim, TrimEnd;
    var c := HeadOf(text);
    InkOfCut(text);
    if |text| > AUTO_HEAD_CHARS {
      CutIsClean(text);
      var cut := CutIndex(text);
      assert c.head <= text by { TrimEndIsPrefix(text[..cut]); }
      TrimEndIsTight(text[..cut]);
    }
    PrefixHasFewerLines(c.head, text);
    var s := c.head + if c.ellipsis then ELLIPSIS else "";
    if c.ellipsis { EllipsisAddsNoLine(c.head); } else { assert s == c.head; }
    TrimHasFewerLines(s);
  }

  lemma KeptLinesAreFew(g: Grammar, content: string)
    requires KeptFrom(content) < |Lines(content)|
    ensures var kept := Lines(content)[KeptFrom(content)..KeptTo(g, content)];
            AllNoBreaks(kept) && InkLines(kept) <= AUTO_HEAD_LINES
  {
    hide Lines, KeptLines, HeadEnd, InkLines, SkipBlank;
    var lines, i := Lines(content), KeptFrom(content);
    LinesHaveNoBreaks(content);
    var head := lines[i..HeadEnd(g, lines, i)];
    KeptAreFive(head);
    assert head[..KeptLines(head)] == lines[i..KeptTo(g, content)];
  }

  /** The conversation has at most five lines with text and at most 401 characters, the ellipsis included. */
  lemma ConversationIsShort(g: Grammar, points: string -> nat, content: string)
    requires AutoSplit(g, points, content).Some?
    ensures var c := AutoSplit(g, points, content).value.conversation;
            |c| <= AUTO_HEAD_CHARS + 1 && TextLines(c) <= AUTO_HEAD_LINES
  {
    hide HeadOf, Conversation, RestOf, KeptTo, KeptFrom, Lines, StartsStructured, AutoSplit, InkLines, Trim, Join;
    SplitIs(g, points, content);
    var lines, i := Lines(content), KeptFrom(content);
    if !StartsStructured(g, lines, i) {
      var kept := lines[i..KeptTo(g, content)];
      KeptLinesAreFew(g, content);
      ConversationSize(Join(kept));
      if kept == [] {
        assert Join(kept) == "" by { NothingJoined(); }
      } else {
        SplitOfJoin(kept);
      }
    }
  }

  lemma NothingJoined()
    ensures Join([]) == ""
  {
  }

  // ---- no table and no code block in the conversation ----

  lemma HeadHasNoStructure(g: Grammar, lines: seq<string>, i: nat)
    requires i < |lines| && !IsBlank(lines[i]) && !StartsStructured(g, lines, i)
    requires forall l :: IsBlank(l) ==> g.fence(l).None?
    ensures forall k :: i <= k < HeadEnd(g, lines, i) ==> !StartsStructured(g, lines, k)
  {
    hide IsBlank, ParaEnd, SkipBlank;
    var e := ParaEnd(g, lines, i, i);
    var k0 := SkipBlank(lines, e);
    forall k | i <= k < HeadEnd(g, lines, i) ensures !StartsStructured(g, lines, k) {
      if e <= k < k0 { BlankHasNoPipe(lines[k]); }
    }
  }

  lemma BlankHasNoPipe(l: string)
    requires IsBlank(l)
    ensures '|' !in l
  {
    hide IsBlank;
    BlankIffNoInk(l);
    if '|' in l {
      var k :| 0 <= k < |l| && l[k] == '|';
      assert l == l[..k] + ["|"[0]] + l[k + 1..];
      InkConcat(l[..k] + "|", l[k + 1..]);
      InkConcat(l[..k], "|");
      assert Ink("|") == "|" by { PipeIsInk(); }
    }
  }

  lemma PipeIsInk()
    ensures Ink("|") == "|"
  {
    assert "|"[1..] == "";
  }

  /**
   * No table and no code block starts in a line of the message that goes into the conversation, and the conversation
   * starts with the first line that has text.
   */
  lemma ConversationHasNoStructure(g: Grammar, points: string -> nat, content: string)
    requires AutoSplit(g, points, content).Some?
    requires forall l :: IsBlank(l) ==> g.fence(l).None?
    requires !StartsStructured(g, Lines(content), KeptFrom(content))
    ensures var lines := Lines(content);
            && !IsBlank(lines[KeptFrom(content)])
            && forall k :: KeptFrom(content) <= k < KeptTo(g, content) ==> !StartsStructured(g, lines, k)
  {
    hide StartsStructured, Lines, HeadOf, Conversation, RestOf;
    SplitIs(g, points, content);
    HeadHasNoStructure(g, Lines(content), KeptFrom(content));
  }
}
