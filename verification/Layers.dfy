/**
 * The automatic split of a long message into conversation and work (web/lib/message-layers.ts).
 *
 * One `char` stands for one UTF-16 code unit, which is what `length` and `slice` count. Dafny's `char` has no
 * surrogates, so characters outside the basic plane are not represented. The number of code points is the parameter
 * `points`.
 */
module Layers {
  import opened Options
  import opened Text
  import opened Blocks

  const AUTO_FOLD_CHARS := 1200
  const AUTO_FOLD_LINES := 25
  const AUTO_HEAD_CHARS := 400
  const AUTO_HEAD_LINES := 5
  const MIN_HEAD_CHARS := 80
  const ELLIPSIS := "\U{2026}"

  datatype Cut = Cut(head: string, rest: string, ellipsis: bool)
  datatype Split2 = Split2(conversation: string, rest: string)
  datatype Span = Span(a: nat, b: nat)

  predicate ExceedsAutoFold(points: string -> nat, content: string) {
    points(content) > AUTO_FOLD_CHARS || |Lines(content)| > AUTO_FOLD_LINES
  }

  // ---- cutHead ----

  predicate IsSentenceEnd(c: char) {
    c == '.' || c == '?' || c == '!' || c == '\U{3002}'
  }

  /** `/[.?!.](?=\s)|[.?!.]$|\n/` at `k`: the end of a sentence or of a line. */
  predicate Boundary(win: string, k: nat)
    requires k < |win|
  {
    win[k] == '\n' || (IsSentenceEnd(win[k]) && (k + 1 == |win| || IsSpace(win[k + 1])))
  }

  /** The last place in front of `k` at which a sentence ends, if it leaves enough text. */
  function SentenceCut(win: string, k: nat): (r: Option<nat>)
    requires k <= |win|
    ensures r.Some? ==> MIN_HEAD_CHARS <= r.value <= k
  {
    if k == 0 then None
    else if k >= MIN_HEAD_CHARS && Boundary(win, k - 1) then Some(k)
    else SentenceCut(win, k - 1)
  }

  /** `win.lastIndexOf(" ")`, looking in front of `k`. */
  function LastSpace(win: string, k: nat): (r: Option<nat>)
    requires k <= |win|
    ensures r.Some? ==> r.value < k && win[r.value] == ' '
  {
    if k == 0 then None
    else if win[k - 1] == ' ' then Some(k - 1)
    else LastSpace(win, k - 1)
  }

  function RunLen(s: string, stop: char): (n: nat)
    ensures n <= |s|
  {
    if s == "" || s[0] == stop || s[0] == '\n' then 0 else 1 + RunLen(s[1..], stop)
  }

  /** The length of `/\[[^\]\n]*\]\([^)\n]*\)/` at the start of `s`. */
  function LinkLen(s: string): (r: Option<nat>)
    ensures r.Some? ==> 4 <= r.value <= |s|
  {
    if s == "" || s[0] != '[' then None
    else
      var n := RunLen(s[1..], ']');
      var rest := s[1 + n..];
      if |rest| < 2 || rest[0] != ']' || rest[1] != '(' then None
      else
        var m := RunLen(rest[2..], ')');
        if 2 + m == |rest| || rest[2 + m] != ')' then None else Some(n + m + 4)
  }

  /** All links of the text from `from` on, left to right. */
  function LinkSpans(text: string, from: nat): (spans: seq<Span>)
    requires from <= |text|
    ensures forall k :: 0 <= k < |spans| ==> from <= spans[k].a < spans[k].b <= |text|
    ensures forall k :: 0 <= k < |spans| - 1 ==> spans[k].b <= spans[k + 1].a
    decreases |text| - from
  {
    if from == |text| then []
    else match LinkLen(text[from..])
      case None => LinkSpans(text, from + 1)
      case Some(n) => [Span(from, from + n)] + LinkSpans(text, from + n)
  }

  /** Does the cut fall inside this link? */
  predicate Straddles(s: Span, cut: nat) {
    s.a < cut < s.b
  }

  function PullBack(spans: seq<Span>, cut: nat): nat {
    if spans == [] then cut
    else PullBack(spans[1..], if Straddles(spans[0], cut) then spans[0].a else cut)
  }

  /** Where the window wants to be cut, and whether that is the end of a sentence. */
  function FirstCut(text: string): (r: (nat, bool))
    requires |text| > AUTO_HEAD_CHARS
    ensures r.0 <= AUTO_HEAD_CHARS
  {
    var win := text[..AUTO_HEAD_CHARS];
    match SentenceCut(win, |win|)
    case Some(cut) => (cut, true)
    case None =>
      var sp := LastSpace(win, |win|);
      (if sp.Some? && sp.value >= MIN_HEAD_CHARS then sp.value else AUTO_HEAD_CHARS, false)
  }

  function DropIndent(s: string): string {
    if s != "" && (s[0] == ' ' || s[0] == '\t') then DropIndent(s[1..]) else s
  }

  function CutAt(text: string, cut: nat, ellipsis: bool): Cut
    requires cut <= |text|
  {
    if cut == 0 then Cut("", text, false)
    else Cut(TrimEnd(text[..cut]), DropIndent(text[cut..]), ellipsis)
  }

  lemma {:induction false} PullBackIsLower(spans: seq<Span>, cut: nat)
    ensures PullBack(spans, cut) <= cut
  {
    if spans != [] { PullBackIsLower(spans[1..], if Straddles(spans[0], cut) then spans[0].a else cut); }
  }

  function HeadOf(text: string): Cut {
    if |text| <= AUTO_HEAD_CHARS then Cut(text, "", false)
    else
      var (want, sentence) := FirstCut(text);
      var cut := PullBack(LinkSpans(text, 0), want);
      PullBackIsLower(LinkSpans(text, 0), want);
      CutAt(text, cut, !sentence || cut != want)
  }

  lemma {:induction false} PullBackAppend(spans: seq<Span>, s: Span, cut: nat)
    ensures PullBack(spans + [s], cut) == PullBack([s], PullBack(spans, cut))
  {
    if spans == [] {
      assert spans + [s] == [s];
    } else {
      assert (spans + [s])[1..] == spans[1..] + [s];
      PullBackAppend(spans[1..], s, if Straddles(spans[0], cut) then spans[0].a else cut);
    }
  }

  method CutHead(text: string) returns (r: Cut)
    ensures r == HeadOf(text)
  {
    hide IsSpace, LinkLen, IsSentenceEnd;
    if |text| <= AUTO_HEAD_CHARS { return Cut(text, "", false); }
    var win := text[..AUTO_HEAD_CHARS];
    var cut: Option<nat> := None;
    for k := 0 to |win|
      invariant cut == SentenceCut(win, k)
    {
      if Boundary(win, k) {
        var end := k + 1;
        if end >= MIN_HEAD_CHARS { cut := Some(end); }
      }
    }
    var ellipsis := false;
    var c := cut.GetOr(0);
    if cut.None? {
      var sp := LastSpace(win, |win|);
      c := if sp.Some? && sp.value >= MIN_HEAD_CHARS then sp.value else AUTO_HEAD_CHARS;
      ellipsis := true;
    }
    ghost var (want, sentence) := FirstCut(text);
    var spans := LinkSpans(text, 0);
    for k := 0 to |spans|
      invariant c == PullBack(spans[..k], want)
      invariant c <= want
      invariant ellipsis == (!sentence || c != want)
    {
      assert spans[..k + 1] == spans[..k] + [spans[k]];
      PullBackAppend(spans[..k], spans[k], want);
      if Straddles(spans[k], c) {
        c := spans[k].a;
        ellipsis := true;
      }
    }
    assert spans[..|spans|] == spans;
    if c == 0 { return Cut("", text, false); }
    return Cut(TrimEnd(text[..c]), DropIndent(text[c..]), ellipsis);
  }

  // ---- splitAuto ----

  /** A table or a code block starts at line `i`. */
  predicate StartsStructured(g: Grammar, lines: seq<string>, i: nat)
    requires i < |lines|
  {
    g.fence(lines[i]).Some? || IsTableStart(g, lines, i)
  }

  function SkipBlank(lines: seq<string>, i: nat): (r: nat)
    requires i <= |lines|
    ensures i <= r <= |lines|
    ensures forall k :: i <= k < r ==> IsBlank(lines[k])
    ensures r < |lines| ==> !IsBlank(lines[r])
    decreases |lines| - i
  {
    if i < |lines| && IsBlank(lines[i]) then SkipBlank(lines, i + 1) else i
  }

  /** The end of the paragraph that starts at `from`, looked for from `j` on. */
  function ParaEnd(g: Grammar, lines: seq<string>, from: nat, j: nat): (e: nat)
    requires from <= j <= |lines|
    ensures j <= e <= |lines|
    ensures forall k :: j <= k < e ==> !IsBlank(lines[k]) && (k > from ==> !StartsStructured(g, lines, k))
    decreases |lines| - j
  {
    if j < |lines| && !IsBlank(lines[j]) && !(j > from && StartsStructured(g, lines, j)) then ParaEnd(g, lines, from, j + 1)
    else j
  }

  method Para(g: Grammar, lines: seq<string>, from: nat) returns (j: nat)
    requires from <= |lines|
    ensures j == ParaEnd(g, lines, from, from)
  {
    hide IsBlank, StartsStructured;
    j := from;
    while j < |lines| && !IsBlank(lines[j]) && !(j > from && StartsStructured(g, lines, j))
      invariant from <= j <= |lines|
      invariant ParaEnd(g, lines, from, j) == ParaEnd(g, lines, from, from)
    {
      j := j + 1;
    }
  }

  /** The first paragraph, or a heading with the paragraph behind it. */
  function HeadEnd(g: Grammar, lines: seq<string>, i: nat): (e: nat)
    requires i < |lines| && !IsBlank(lines[i])
    ensures i < e <= |lines|
  {
    var e := ParaEnd(g, lines, i, i);
    if e - i == 1 && g.heading(lines[i]).Some? then
      var k := SkipBlank(lines, e);
      if k < |lines| && !StartsStructured(g, lines, k) then ParaEnd(g, lines, k, k) else e
    else e
  }

  function InkLines(lines: seq<string>): (n: nat)
    ensures n <= |lines|
  {
    if lines == [] then 0 else (if IsBlank(lines[0]) then 0 else 1) + InkLines(lines[1..])
  }

  /** The line at which the count of non-blank lines gets beyond the limit. */
  function SixthLine(lines: seq<string>, k: nat, seen: nat): (r: nat)
    requires k <= |lines|
    ensures k <= r <= |lines|
    decreases |lines| - k
  {
    if k == |lines| then k
    else
      var seen' := if IsBlank(lines[k]) then seen else seen + 1;
      if seen' > AUTO_HEAD_LINES then k else SixthLine(lines, k + 1, seen')
  }

  function KeptLines(head: seq<string>): (k: nat)
    ensures k <= |head|
  {
    if InkLines(head) > AUTO_HEAD_LINES then SixthLine(head, 0, 0) else |head|
  }

  /** `s.replace(/^\s*\n/, "")`: blank lines in front go, the indentation of the first line with text stays. */
  function DropBlankLines(s: string): string {
    var n := |s| - |TrimStart(s)|;
    var k := LastNewline(s, if n >= 0 then n else 0);
    if k.Some? then s[k.value + 1..] else s
  }

  function LastNewline(s: string, k: nat): (r: Option<nat>)
    requires k <= |s|
    ensures r.Some? ==> r.value < k
  {
    if k == 0 then None
    else if s[k - 1] == '\n' then Some(k - 1)
    else LastNewline(s, k - 1)
  }

  function Conversation(cut: Cut): string {
    Trim(cut.head + if cut.ellipsis then ELLIPSIS else "")
  }

  function RestOf(cut: Cut, restLines: seq<string>): string {
    Trim(DropBlankLines(Join([cut.rest] + restLines)))
  }

  function AutoSplit(g: Grammar, points: string -> nat, content: string): Option<Split2> {
    var lines := Lines(content);
    var i := SkipBlank(lines, 0);
    if !ExceedsAutoFold(points, content) || i == |lines| then None
    else if StartsStructured(g, lines, i) then Some(Split2("", Trim(content)))
    else
      var end := i + KeptLines(lines[i..HeadEnd(g, lines, i)]);
      var cut := HeadOf(Join(lines[i..end]));
      var rest := RestOf(cut, lines[end..]);
      if rest == "" then None else Some(Split2(Conversation(cut), rest))
  }

  method FirstText(lines: seq<string>, from: nat) returns (k: nat)
    requires from <= |lines|
    ensures k == SkipBlank(lines, from)
  {
    hide IsBlank;
    k := from;
    while k < |lines| && IsBlank(lines[k])
      invariant from <= k <= |lines|
      invariant SkipBlank(lines, k) == SkipBlank(lines, from)
    {
      k := k + 1;
    }
  }

  /** Lines 120-126: the first paragraph, or a lone heading and the paragraph after it. */
  method FindHeadEnd(g: Grammar, lines: seq<string>, i: nat) returns (end: nat)
    requires i < |lines| && !IsBlank(lines[i])
    ensures end == HeadEnd(g, lines, i)
  {
    hide IsBlank, StartsStructured, ParaEnd, SkipBlank;
    end := Para(g, lines, i);
    if end - i == 1 && g.heading(lines[i]).Some? {
      var k := FirstText(lines, end);
      if k < |lines| && !StartsStructured(g, lines, k) { end := Para(g, lines, k); }
    }
  }

  /** Lines 129-139: how many lines stay in the conversation. */
  method CountKept(headLines: seq<string>) returns (k: nat)
    ensures k == KeptLines(headLines)
  {
    hide IsBlank;
    if InkLines(headLines) <= AUTO_HEAD_LINES { return |headLines|; }
    var seen := 0;
    k := 0;
    while k < |headLines|
      invariant 0 <= k <= |headLines|
      invariant SixthLine(headLines, k, seen) == SixthLine(headLines, 0, 0)
    {
      if !IsBlank(headLines[k]) { seen := seen + 1; }
      if seen > AUTO_HEAD_LINES { break; }
      k := k + 1;
    }
  }

  method SplitAuto(g: Grammar, points: string -> nat, content: string) returns (r: Option<Split2>)
    ensures r == AutoSplit(g, points, content)
  {
    hide IsBlank, StartsStructured, Join, Trim, HeadOf, DropBlankLines, Lines, KeptLines, HeadEnd, SkipBlank;
    if !ExceedsAutoFold(points, content) { return None; }
    var lines := Lines(content);
    var i := FirstText(lines, 0);
    if i >= |lines| { return None; }
    if StartsStructured(g, lines, i) { return Some(Split2("", Trim(content))); }
    var end := FindHeadEnd(g, lines, i);
    var headLines, restLines := lines[i..end], lines[end..];
    var k := CountKept(headLines);
    assert headLines[k..] + restLines == lines[i + k..];
    assert headLines[..k] == lines[i..i + k];
    headLines, restLines := headLines[..k], headLines[k..] + restLines;
    var cut := CutHead(Join(headLines));
    var conversation := Trim(cut.head + if cut.ellipsis then ELLIPSIS else "");
    var rest := Trim(DropBlankLines(Join([cut.rest] + restLines)));
    if rest == "" { return None; }
    return Some(Split2(conversation, rest));
  }
}
