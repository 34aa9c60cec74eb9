/**
 * What emphasis comes to: marked words are read as what they are marked as, and underscores inside words stay
 * (web/lib/markdown.tsx, lines 231 to 315).
 */
module InlineMarks {
  import opened Options
  import opened Text
  import opened Mentions
  import opened Inline

  // ---- the first closing mark ----

  lemma {:induction false} FirstCloseIff(s: string, from: nat, i: nat, mark: string, j: nat)
    requires from <= i && mark != ""
    ensures FirstClose(s, from, i, mark) == Some(j) <==>
            i <= j && ClosesAt(s, from, j, mark) && forall k :: i <= k < j ==> !ClosesAt(s, from, k, mark)
    decreases |s| - i
  {
    hide MarkAt, IsSpace;
    if i >= |s| {
      forall k: nat | i <= k ensures !ClosesAt(s, from, k, mark) { NoMarkBehindEnd(s, k, mark); }
    } else if !ClosesAt(s, from, i, mark) {
      FirstCloseIff(s, from, i + 1, mark, j);
    }
  }

  lemma NoMarkBehindEnd(s: string, k: nat, mark: string)
    requires mark != "" && |s| <= k
    ensures !MarkAt(s, k, mark)
  {
  }

  lemma NoneCloses(s: string, from: nat, mark: string)
    requires mark != "" && forall k: nat :: from <= k ==> !ClosesAt(s, from, k, mark)
    ensures FirstClose(s, from, from, mark) == None
  {
    hide ClosesAt;
    var r := FirstClose(s, from, from, mark);
  }

  // ---- plain text ----

  predicate PlainChar(c: char) {
    !Escapable(c) && c != '\n'
  }

  predicate PlainText(t: string) {
    forall c :: c in t ==> PlainChar(c)
  }

  lemma {:induction false} PlainRun(word: char -> bool, s: string, i: nat, j: nat, buf: string)
    requires i <= j <= |s| && forall k :: i <= k < j ==> PlainChar(s[k])
    ensures NodesFrom(word, s, i, buf) == NodesFrom(word, s, j, buf + s[i..j])
    decreases j - i
  {
    hide StepAt, Escapable;
    if i == j {
      assert buf + s[i..j] == buf;
    } else {
      PlainIsPut(word, s, i);
      PlainRun(word, s, i + 1, j, buf + [s[i]]);
      assert (buf + [s[i]]) + s[i + 1..j] == buf + s[i..j];
    }
  }

  lemma PlainIsPut(word: char -> bool, s: string, i: nat)
    requires i < |s| && PlainChar(s[i])
    ensures StepAt(word, s, i) == Put([s[i]], i + 1)
  {
    hide MatchLink, AcceptedLink, StrongClose, EmClose, DelClose, CodeStep;
    assert Escapable('\\') && Escapable('`') && Escapable('[') && Escapable('*') && Escapable('_') && Escapable('~');
    NoPlainMark(word, s, i);
  }

  lemma NoPlainMark(word: char -> bool, s: string, i: nat)
    requires i < |s| && s[i] != '*' && s[i] != '_' && s[i] != '~'
    ensures StrongClose(word, s, i).None? && EmClose(word, s, i).None? && DelClose(s, i).None?
  {
    hide FirstClose, InkAt;
  }

  lemma PlainIsRead(word: char -> bool, t: string)
    requires PlainText(t)
    ensures NodesOf(word, t) == Flush(t) && (t != "" ==> NodesOf(word, t) == [Plain(t)])
  {
    hide PlainChar;
    PlainRun(word, t, 0, |t|, "");
    assert "" + t[0..|t|] == t;
  }

  // ---- marked words ----

  predicate IsMark(m: string) {
    m == "*" || m == "_" || m == "**" || m == "__" || m == "~~"
  }

  function MarkOf(m: string): Mark {
    if |m| == 1 then EmMark else if m == "~~" then DelMark else StrongMark
  }

  predicate BlankFreeEnds(t: string) {
    t != "" && !IsSpace(t[0]) && !IsSpace(t[|t| - 1])
  }

  /** Underscores mark only at the edge of a word: single ones on both sides, double ones behind. */
  predicate AtWordEdges(word: char -> bool, a: string, m: string, b: string) {
    && (m == "_" && a != "" ==> !word(a[|a| - 1]))
    && ((m == "_" || m == "__") && b != "" ==> !word(b[0]))
  }

  function Marked(a: string, m: string, t: string, b: string): string {
    a + m + t + m + b
  }

  /** Between the marks anything may stand in which the mark's own character does not occur. */
  predicate Encloses(m: string, t: string) {
    IsMark(m) && BlankFreeEnds(t) && m[0] !in t
  }

  ghost predicate Framed(a: string, m: string, t: string, b: string) {
    PlainText(a) && PlainText(b) && Encloses(m, t)
  }

  ghost predicate Setting(a: string, m: string, t: string, b: string) {
    PlainText(t) && Framed(a, m, t, b)
  }

  lemma PlainIsFramed(a: string, m: string, t: string, b: string)
    requires PlainText(a) && PlainText(t) && PlainText(b) && IsMark(m) && BlankFreeEnds(t)
    ensures Setting(a, m, t, b)
  {
    forall c | c in t ensures c != m[0] { PlainIsNoMark(c, m); }
  }

  lemma MarkedParts(a: string, m: string, t: string, b: string)
    requires m != "" && t != ""
    ensures var s := Marked(a, m, t, b);
            var p := |a| + |m| + |t|;
            && |s| == p + |m| + |b| && s[..|a|] == a && s[|a|..|a| + |m|] == m && s[|a| + |m|..p] == t
            && s[p..p + |m|] == m && s[p + |m|..] == b && s[|a| + |m|] == t[0] && s[p - 1] == t[|t| - 1]
            && (b != "" ==> s[p + |m|] == b[0]) && (a != "" ==> s[|a| - 1] == a[|a| - 1])
  {
  }

  lemma PlainIsNoMark(c: char, m: string)
    requires PlainChar(c) && IsMark(m)
    ensures c != m[0]
  {
  }

  lemma CloseInside(s: string, from: nat, p: nat, m: string)
    requires from < p && m != "" && MarkAt(s, p, m) && p <= |s| && !IsSpace(s[p - 1])
    requires forall k :: from <= k < p ==> s[k] != m[0]
    ensures FirstClose(s, from, from, m) == Some(p)
  {
    hide MarkAt, IsSpace, FirstClose;
    FirstCloseIff(s, from, from, m, p);
    forall k | from <= k < p ensures !ClosesAt(s, from, k, m) { MarkStarts(s, k, m); }
  }

  lemma CloseOfMarked(a: string, m: string, t: string, b: string)
    requires Encloses(m, t)
    ensures FirstClose(Marked(a, m, t, b), |a| + |m|, |a| + |m|, m) == Some(|a| + |m| + |t|)
  {
    hide Marked, PlainChar, FirstClose, IsSpace, ClosesAt;
    MarkedParts(a, m, t, b);
    var s, from, p := Marked(a, m, t, b), |a| + |m|, |a| + |m| + |t|;
    forall k | from <= k < p ensures s[k] != m[0] { assert s[k] == s[from..p][k - from] == t[k - from]; }
    CloseInside(s, from, p, m);
  }

  lemma MarkStarts(s: string, k: int, m: string)
    requires 0 <= k < |s| && m != "" && s[k] != m[0]
    ensures !MarkAt(s, k, m)
  {
  }

  lemma EmOpens(word: char -> bool, s: string, i: nat, p: nat, c: char)
    requires i + 1 < p < |s| && s[i] == c && (c == '*' || c == '_') && s[i + 1] != c && !IsSpace(s[i + 1])
    requires FirstClose(s, i + 1, i + 1, [c]) == Some(p)
    requires c == '_' ==> !(i > 0 && word(s[i - 1])) && !IsWordAt(word, s, p + 1)
    ensures StepAt(word, s, i) == Nest(EmMark, s[i + 1..p], p + 1)
  {
    hide FirstClose, IsSpace, MatchLink, AcceptedLink, CodeStep, DelClose, IsWordAt;
  }

  lemma StrongOpens(word: char -> bool, s: string, i: nat, p: nat, c: char)
    requires i + 2 < p && p + 2 <= |s| && s[i] == s[i + 1] == c && (c == '*' || c == '_') && !IsSpace(s[i + 2])
    requires FirstClose(s, i + 2, i + 2, [c, c]) == Some(p)
    requires c == '_' ==> !IsWordAt(word, s, p + 2)
    ensures StepAt(word, s, i) == Nest(StrongMark, s[i + 2..p], p + 2)
  {
    hide FirstClose, IsSpace, MatchLink, AcceptedLink, CodeStep, DelClose, EmClose, IsWordAt;
  }

  lemma DelOpens(word: char -> bool, s: string, i: nat, p: nat)
    requires i + 2 < p && p + 2 <= |s| && s[i] == s[i + 1] == '~' && !IsSpace(s[i + 2])
    requires FirstClose(s, i + 2, i + 2, "~~") == Some(p)
    ensures StepAt(word, s, i) == Nest(DelMark, s[i + 2..p], p + 2)
  {
    hide FirstClose, IsSpace, MatchLink, AcceptedLink, CodeStep, IsWordAt;
  }

  lemma MarkChars(s: string, i: nat, m: string)
    requires i + |m| <= |s| && s[i..i + |m|] == m
    ensures forall j :: i <= j < i + |m| ==> s[j] == m[j - i]
  {
    forall j | i <= j < i + |m| ensures s[j] == m[j - i] { assert s[j] == s[i..i + |m|][j - i]; }
  }

  lemma MarkIsDoubled(m: string)
    requires IsMark(m)
    ensures |m| == 1 ==> m == [m[0]] && (m[0] == '*' || m[0] == '_')
    ensures |m| != 1 ==> m == [m[0], m[0]] && (m[0] == '*' || m[0] == '_' || m[0] == '~')
    ensures m == "_" <==> |m| == 1 && m[0] == '_'
    ensures m == "__" <==> |m| == 2 && m[0] == '_'
    ensures m == "~~" <==> |m| == 2 && m[0] == '~'
  {
  }

  lemma MarkedIsNested(word: char -> bool, a: string, m: string, t: string, b: string)
    requires Encloses(m, t) && AtWordEdges(word, a, m, b)
    ensures StepAt(word, Marked(a, m, t, b), |a|) == Nest(MarkOf(m), t, |a| + 2 * |m| + |t|)
  {
    hide Marked, PlainChar, FirstClose, IsSpace, PlainText, StepAt, IsMark;
    MarkIsDoubled(m);
    MarkedParts(a, m, t, b);
    CloseOfMarked(a, m, t, b);
    var s, p := Marked(a, m, t, b), |a| + |m| + |t|;
    MarkChars(s, |a|, m);
    if m == "~~" {
      DelOpens(word, s, |a|, p);
    } else if |m| == 2 {
      StrongOpens(word, s, |a|, p, m[0]);
    } else {
      assert t[0] in t;
      EmOpens(word, s, |a|, p, m[0]);
    }
  }

  lemma FirstOfPlain(t: string, m: string)
    requires PlainText(t) && t != "" && IsMark(m)
    ensures t[0] != m[0]
  {
    PlainIsNoMark(t[0], m);
  }

  // ---- underscores that mark nothing ----

  lemma NoneBehind(s: string, from: nat, m: string)
    requires IsMark(m) && from <= |s| && PlainText(s[from..])
    ensures FirstClose(s, from, from, m) == None
  {
    hide MarkAt, IsSpace, FirstClose, PlainChar;
    forall k: nat | from <= k ensures !ClosesAt(s, from, k, m) {
      if k < |s| {
        assert s[k] == s[from..][k - from];
        PlainIsNoMark(s[k], m);
        MarkStarts(s, k, m);
      } else {
        NoMarkBehindEnd(s, k, m);
      }
    }
    NoneCloses(s, from, m);
  }

  lemma NoCloseIsPut(word: char -> bool, s: string, i: nat)
    requires i < |s| && s[i] == '_' && StrongClose(word, s, i).None? && EmClose(word, s, i).None?
    ensures StepAt(word, s, i) == Put("_", i + 1)
  {
    hide MatchLink, AcceptedLink, StrongClose, EmClose, CodeStep;
  }

  lemma SingleStays(word: char -> bool, s: string, i: nat, p: nat)
    requires i < |s| && s[i] == '_' && (i + 1 < |s| ==> s[i + 1] != '_')
    requires (i > 0 && word(s[i - 1])) || FirstClose(s, i + 1, i + 1, "_") == None
             || (FirstClose(s, i + 1, i + 1, "_") == Some(p) && IsWordAt(word, s, p + 1))
    ensures StepAt(word, s, i) == Put("_", i + 1)
  {
    hide FirstClose, InkAt, StepAt, IsWordAt;
    assert ['_'] == "_";
    NoCloseIsPut(word, s, i);
  }

  lemma DoubleStays(word: char -> bool, s: string, i: nat, p: nat)
    requires i + 1 < |s| && s[i] == s[i + 1] == '_'
    requires FirstClose(s, i + 2, i + 2, "__") == None
             || (FirstClose(s, i + 2, i + 2, "__") == Some(p) && IsWordAt(word, s, p + 2))
    ensures StepAt(word, s, i) == Put("_", i + 1)
  {
    hide FirstClose, InkAt, StepAt, IsWordAt;
    assert ['_', '_'] == "__";
    NoCloseIsPut(word, s, i);
  }

  lemma OpeningChars(a: string, m: string, t: string, b: string)
    requires m != "" && t != ""
    ensures var s := Marked(a, m, t, b);
            && |s| == |a| + 2 * |m| + |t| + |b| && (forall j :: |a| <= j < |a| + |m| ==> s[j] == m[j - |a|])
            && s[|a| + |m|] == t[0] && (a != "" ==> s[|a| - 1] == a[|a| - 1]) && (b != "" ==> s[|a| + 2 * |m| + |t|] == b[0])
  {
    hide Marked;
    MarkedParts(a, m, t, b);
    MarkChars(Marked(a, m, t, b), |a|, m);
  }

  /** The opening underscore or underscores of a word that is not at the edges. */
  lemma OpeningStays(word: char -> bool, a: string, m: string, t: string, b: string, i: nat)
    requires Setting(a, m, t, b) && !AtWordEdges(word, a, m, b) && word('_') && |a| <= i < |a| + |m|
    ensures StepAt(word, Marked(a, m, t, b), i) == Put("_", i + 1)
  {
    hide Marked, PlainChar, FirstClose, IsSpace, PlainText, StepAt, IsMark;
    OpeningChars(a, m, t, b);
    CloseOfMarked(a, m, t, b);
    FirstOfPlain(t, m);
    var s, p := Marked(a, m, t, b), |a| + |m| + |t|;
    if m == "__" && i == |a| { DoubleStays(word, s, i, p); } else { SingleStays(word, s, i, p); }
  }

  lemma ClosingStays(word: char -> bool, a: string, m: string, t: string, b: string, i: nat)
    requires Setting(a, m, t, b) && !AtWordEdges(word, a, m, b) && word('_')
    requires |a| + |m| + |t| <= i < |a| + 2 * |m| + |t|
    ensures StepAt(word, Marked(a, m, t, b), i) == Put("_", i + 1)
  {
    hide Marked, PlainChar, FirstClose, IsSpace, PlainText, StepAt, IsMark;
    MarkedParts(a, m, t, b);
    var s, p := Marked(a, m, t, b), |a| + |m| + |t|;
    MarkChars(s, p, m);
    NoneBehind(s, p + |m|, m);
    if b != "" { FirstOfPlain(b, m); }
    if m == "__" && i == p { DoubleStays(word, s, i, 0); } else { SingleStays(word, s, i, 0); }
  }

  // ---- the text around it ----

  lemma NodesAtPut(word: char -> bool, s: string, i: nat, text: string, next: nat, buf: string)
    requires i < |s| && i < next <= |s| && StepAt(word, s, i) == Put(text, next)
    ensures NodesFrom(word, s, i, buf) == NodesFrom(word, s, next, buf + text)
  {
    hide StepAt;
  }

  lemma NodesAtNest(word: char -> bool, s: string, i: nat, mark: Mark, t: string, next: nat, buf: string)
    requires i < |s| && i < next <= |s| && StepAt(word, s, i) == Nest(mark, t, next)
    ensures NodesFrom(word, s, i, buf) == Flush(buf) + [Enclose(mark, NodesOf(word, t))] + NodesFrom(word, s, next, "")
  {
    hide StepAt, Flush;
  }

  lemma PlainPart(word: char -> bool, s: string, i: nat, t: string, buf: string)
    requires i + |t| <= |s| && s[i..i + |t|] == t && PlainText(t)
    ensures NodesFrom(word, s, i, buf) == NodesFrom(word, s, i + |t|, buf + t)
  {
    hide PlainChar, NodesFrom;
    forall k | i <= k < i + |t| ensures PlainChar(s[k]) { assert s[k] == s[i..i + |t|][k - i]; }
    PlainRun(word, s, i, i + |t|, buf);
  }

  lemma MarksArePut(word: char -> bool, s: string, i: nat, m: string, buf: string)
    requires 1 <= |m| <= 2 && i + |m| <= |s| && s[i..i + |m|] == m && (m == "_" || m == "__")
    requires forall k: nat :: i <= k < i + |m| ==> StepAt(word, s, k) == Put("_", k + 1)
    ensures NodesFrom(word, s, i, buf) == NodesFrom(word, s, i + |m|, buf + m)
  {
    hide StepAt, NodesFrom;
    NodesAtPut(word, s, i, "_", i + 1, buf);
    if m == "__" {
      NodesAtPut(word, s, i + 1, "_", i + 2, buf + "_");
      assert (buf + "_") + "_" == buf + m;
    }
  }

  /**
   * What stands between marks is read as marked, whatever else is marked inside: links, code and the other marks are
   * found there as they are on their own.
   */
  lemma MarkedTextIsRead(word: char -> bool, a: string, m: string, t: string, b: string)
    requires PlainText(a) && PlainText(b) && IsMark(m) && BlankFreeEnds(t) && m[0] !in t && AtWordEdges(word, a, m, b)
    ensures NodesOf(word, Marked(a, m, t, b)) == Flush(a) + [Enclose(MarkOf(m), NodesOf(word, t))] + Flush(b)
  {
    hide Marked, PlainText, AtWordEdges, NodesFrom, StepAt, IsSpace, Enclose, MarkOf, Flush, IsMark;
    MarkIsDoubled(m);
    MarkedParts(a, m, t, b);
    PlainPart(word, Marked(a, m, t, b), 0, a, "");
    assert "" + a == a;
    ReadMarks(word, a, m, t, b);
  }

  /** Words without marks in particular, and underscores inside a word are shown as what they are. */
  lemma MarkedWordsAreRead(word: char -> bool, a: string, m: string, t: string, b: string)
    requires PlainText(a) && PlainText(t) && PlainText(b) && IsMark(m) && BlankFreeEnds(t) && word('_')
    ensures NodesOf(word, Marked(a, m, t, b)) ==
            if AtWordEdges(word, a, m, b) then Flush(a) + [Enclose(MarkOf(m), [Plain(t)])] + Flush(b)
            else [Plain(Marked(a, m, t, b))]
  {
    hide Marked, PlainText, AtWordEdges, NodesFrom, StepAt, IsSpace, Flush, Enclose, MarkOf, IsMark;
    PlainIsFramed(a, m, t, b);
    if AtWordEdges(word, a, m, b) {
      MarkedTextIsRead(word, a, m, t, b);
      PlainIsRead(word, t);
    } else {
      MarkIsDoubled(m);
      MarkedParts(a, m, t, b);
      PlainPart(word, Marked(a, m, t, b), 0, a, "");
      assert "" + a == a;
      UnreadMarks(word, a, m, t, b);
    }
  }

  lemma ReadMarks(word: char -> bool, a: string, m: string, t: string, b: string)
    requires Framed(a, m, t, b) && AtWordEdges(word, a, m, b)
    ensures NodesFrom(word, Marked(a, m, t, b), |a|, a) == Flush(a) + [Enclose(MarkOf(m), NodesOf(word, t))] + Flush(b)
  {
    hide Marked, PlainText, AtWordEdges, NodesFrom, NodesOf, StepAt, IsSpace, Enclose, MarkOf, Flush, IsMark;
    var s, n := Marked(a, m, t, b), |a| + 2 * |m| + |t|;
    FramedSays(a, m, t, b);
    MarkedIsNested(word, a, m, t, b);
    NodesAtNest(word, s, |a|, MarkOf(m), t, n, a);
    TailIsRead(word, s, n, b);
  }

  lemma FramedSays(a: string, m: string, t: string, b: string)
    requires Framed(a, m, t, b)
    ensures t != "" && m != "" && |Marked(a, m, t, b)| == |a| + 2 * |m| + |t| + |b|
    ensures Marked(a, m, t, b)[|a| + 2 * |m| + |t|..] == b
  {
    hide PlainText, IsSpace, Marked;
    MarkedParts(a, m, t, b);
  }

  lemma TailIsRead(word: char -> bool, s: string, i: nat, b: string)
    requires i + |b| == |s| && s[i..] == b && PlainText(b)
    ensures NodesFrom(word, s, i, "") == Flush(b)
  {
    hide PlainText, NodesFrom, Flush;
    PlainPart(word, s, i, b, "");
    assert "" + b == b;
    NodesAtEnd(word, s, b);
  }

  lemma NodesAtEnd(word: char -> bool, s: string, buf: string)
    ensures NodesFrom(word, s, |s|, buf) == Flush(buf)
  {
  }

  lemma OpeningIsPut(word: char -> bool, a: string, m: string, t: string, b: string)
    requires Setting(a, m, t, b) && !AtWordEdges(word, a, m, b) && word('_')
    ensures var s := Marked(a, m, t, b);
            |s| >= |a| + |m| && NodesFrom(word, s, |a|, a) == NodesFrom(word, s, |a| + |m|, a + m)
  {
    hide Marked, PlainChar, PlainText, NodesFrom, StepAt, IsSpace, IsMark;
    MarkIsDoubled(m);
    MarkedParts(a, m, t, b);
    var s := Marked(a, m, t, b);
    forall i: nat | |a| <= i < |a| + |m| ensures StepAt(word, s, i) == Put("_", i + 1) { OpeningStays(word, a, m, t, b, i); }
    MarksArePut(word, s, |a|, m, a);
  }

  lemma ClosingIsPut(word: char -> bool, a: string, m: string, t: string, b: string)
    requires Setting(a, m, t, b) && !AtWordEdges(word, a, m, b) && word('_')
    ensures var s, p := Marked(a, m, t, b), |a| + |m| + |t|;
            |s| >= p + |m| && NodesFrom(word, s, p, a + m + t) == NodesFrom(word, s, p + |m|, a + m + t + m)
  {
    hide Marked, PlainChar, PlainText, NodesFrom, StepAt, IsSpace, IsMark;
    MarkIsDoubled(m);
    MarkedParts(a, m, t, b);
    var s, p := Marked(a, m, t, b), |a| + |m| + |t|;
    forall i: nat | p <= i < p + |m| ensures StepAt(word, s, i) == Put("_", i + 1) { ClosingStays(word, a, m, t, b, i); }
    MarksArePut(word, s, p, m, a + m + t);
  }

  lemma UnreadMarks(word: char -> bool, a: string, m: string, t: string, b: string)
    requires Setting(a, m, t, b) && !AtWordEdges(word, a, m, b) && word('_')
    ensures NodesFrom(word, Marked(a, m, t, b), |a|, a) == [Plain(Marked(a, m, t, b))]
  {
    hide Marked, PlainChar, PlainText, NodesFrom, StepAt, IsSpace, IsMark, AtWordEdges;
    MarkIsDoubled(m);
    MarkedParts(a, m, t, b);
    var s, p := Marked(a, m, t, b), |a| + |m| + |t|;
    OpeningIsPut(word, a, m, t, b);
    PlainPart(word, s, |a| + |m|, t, a + m);
    ClosingIsPut(word, a, m, t, b);
    PlainPart(word, s, p + |m|, b, a + m + t + m);
    NodesAtEnd(word, s, a + m + t + m + b);
    MarkedIs(a, m, t, b);
  }

  lemma MarkedIs(a: string, m: string, t: string, b: string)
    ensures Marked(a, m, t, b) == a + m + t + m + b
  {
  }

  // ---- identifiers ----

  /** Every mark is an underscore between characters of words. */
  ghost predicate Identifiers(word: char -> bool, s: string) {
    forall i :: 0 <= i < |s| && !PlainChar(s[i]) ==> s[i] == '_' && 0 < i && i + 1 < |s| && word(s[i - 1]) && word(s[i + 1])
  }

  lemma UnderscoreInWordStays(word: char -> bool, s: string, i: nat)
    requires i < |s| && s[i] == '_' && Identifiers(word, s) && word('_')
    ensures StepAt(word, s, i) == Put("_", i + 1)
  {
    hide StrongClose, EmClose;
    WordEndsStrong(word, s, i);
    WordStopsEm(word, s, i);
    NoCloseIsPut(word, s, i);
  }

  lemma WordStopsEm(word: char -> bool, s: string, i: nat)
    requires i < |s| && s[i] == '_' && Identifiers(word, s)
    ensures EmClose(word, s, i).None?
  {
    hide FirstClose, InkAt;
    assert !PlainChar(s[i]);
  }

  lemma WordEndsStrong(word: char -> bool, s: string, i: nat)
    requires i < |s| && s[i] == '_' && Identifiers(word, s)
    ensures StrongClose(word, s, i).None?
  {
    hide FirstClose, InkAt, ClosesAt, Identifiers;
    assert ['_', '_'] == "__";
    var two := FirstClose(s, i + 2, i + 2, "__");
    if two.Some? {
      CloseIsThere(s, i + 2, two.value, "__");
      WordBehind(word, s, two.value);
    }
  }

  lemma WordBehind(word: char -> bool, s: string, j: nat)
    requires Identifiers(word, s) && j + 2 <= |s| && s[j..j + 2] == "__"
    ensures IsWordAt(word, s, j + 2)
  {
    assert s[j..j + 2][1] == s[j + 1];
    assert !PlainChar(s[j + 1]);
  }

  lemma CloseIsThere(s: string, from: nat, j: nat, m: string)
    requires ClosesAt(s, from, j, m)
    ensures j + |m| <= |s| && s[j..j + |m|] == m
  {
  }

  lemma {:induction false} IdentifiersFrom(word: char -> bool, s: string, i: nat, buf: string)
    requires i <= |s| && Identifiers(word, s) && word('_')
    ensures NodesFrom(word, s, i, buf) == Flush(buf + s[i..])
    decreases |s| - i
  {
    hide StepAt, PlainChar, Flush;
    if i == |s| {
      assert buf + s[i..] == buf;
    } else {
      if PlainChar(s[i]) { PlainIsPut(word, s, i); } else { UnderscoreInWordStays(word, s, i); }
      IdentifiersFrom(word, s, i + 1, buf + [s[i]]);
      assert (buf + [s[i]]) + s[i + 1..] == buf + s[i..];
    }
  }

  /** Names like `snake_case` are shown as they are, however many of them and of their underscores there are. */
  lemma IdentifiersStay(word: char -> bool, s: string)
    requires Identifiers(word, s) && word('_')
    ensures NodesOf(word, s) == Flush(s)
  {
    IdentifiersFrom(word, s, 0, "");
    assert "" + s[0..] == s;
  }
}
