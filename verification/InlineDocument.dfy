/**
 * Reading back: text that is written span by span is read as exactly those spans (web/lib/markdown.tsx, lines 241 to
 * 322). What a span looks like in the text and what it means is said here without the parser.
 */
module InlineDocument {
  import opened Options
  import opened Text
  import opened Mentions
  import opened Inline
  import opened InlineMarks
  import opened InlineShape

  // ---- what can be written ----

  datatype Span =
    | Words(text: string)
    | LineBreak
    | Ticked(ticks: nat, text: string)
    | Mentioned(target: Target)
    | Linked(inner: seq<Span>, href: string)
    | MarkedAs(mark: string, inner: seq<Span>)

  function TextOf(p: Span): string
    decreases p
  {
    match p
    case Words(t) => Escaped(t)
    case LineBreak => "\n"
    case Ticked(k, t) => Ticks(k) + t + Ticks(k)
    case Mentioned(t) => Raw(t)
    case Linked(inner, href) => "[" + Written(inner) + "](" + href + ")"
    case MarkedAs(m, inner) => m + Written(inner) + m
  }

  function Written(ps: seq<Span>): string
    decreases ps
  {
    if ps == [] then "" else TextOf(ps[0]) + Written(ps[1..])
  }

  // ---- what it means ----

  /** Spaces stand for newlines. */
  function Spaced(t: string): (r: string)
    ensures |r| == |t| && forall i :: 0 <= i < |t| ==> r[i] == if t[i] == '\n' then ' ' else t[i]
  {
    seq(|t|, i requires 0 <= i < |t| => if t[i] == '\n' then ' ' else t[i])
  }

  /** The node of a span that is not plain words. */
  function SpanNode(p: Span): Node
    requires !p.Words?
    decreases p
  {
    match p
    case LineBreak => Br
    case Ticked(_, t) => CodeSpan(Trim(Spaced(t)))
    case Mentioned(t) => Mention(t)
    case Linked(inner, href) => Anchor(href, Meaning(inner, ""))
    case MarkedAs(m, inner) =>
      if m == "*" || m == "_" then Em(Meaning(inner, ""))
      else if m == "~~" then Del(Meaning(inner, ""))
      else Strong(Meaning(inner, ""))
  }

  /** The nodes of the spans, where `words` stand in front of them. */
  function Meaning(ps: seq<Span>, words: string): seq<Node>
    decreases ps
  {
    if ps == [] then (if words == "" then [] else [Plain(words)])
    else if ps[0].Words? then Meaning(ps[1..], words + ps[0].text)
    else (if words == "" then [] else [Plain(words)]) + [SpanNode(ps[0])] + Meaning(ps[1..], "")
  }

  // ---- which spans may stand where ----

  /** The closing run of `k` backticks is the first one of that length behind the opening one. */
  predicate ClosesFirst(t: string, k: nat) {
    t != "" && t[0] != '`' && forall j :: 0 <= j < |t| ==> !MarkAt(t + Ticks(k), j, Ticks(k))
  }

  ghost predicate Fits(word: char -> bool, before: string, p: Span, after: string)
    decreases p
  {
    match p
    case Words(t) => '\n' !in t
    case LineBreak => true
    case Ticked(k, t) => k > 0 && ClosesFirst(t, k)
    case Mentioned(t) => Linkable(t)
    case Linked(inner, href) =>
      SafeHref(href) && ')' !in href && ']' !in Written(inner) && '\n' !in Written(inner) && AllFit(word, "", inner)
    case MarkedAs(m, inner) =>
      Encloses(m, Written(inner)) && AtWordEdges(word, before, m, after) && AllFit(word, "", inner)
  }

  ghost predicate AllFit(word: char -> bool, before: string, ps: seq<Span>)
    decreases ps
  {
    ps != [] ==> Fits(word, before, ps[0], Written(ps[1..])) && AllFit(word, before + TextOf(ps[0]), ps[1..])
  }

  // ---- one span ----

  lemma {:induction false} TickLenIs(k: nat, rest: string)
    requires rest != "" && rest[0] != '`'
    ensures TickLen(Ticks(k) + rest) == k
    decreases k
  {
    if k > 0 {
      assert (Ticks(k) + rest)[1..] == Ticks(k - 1) + rest;
      TickLenIs(k - 1, rest);
    } else {
      assert Ticks(k) + rest == rest;
    }
  }

  lemma {:induction false} NoNewlinesIs(t: string)
    ensures NoNewlines(t) == Spaced(t)
  {
    if t != "" {
      NoNewlinesIs(t[1..]);
      assert Spaced(t) == [Spaced(t)[0]] + Spaced(t[1..]);
    }
  }

  lemma MarkFurtherOn(before: string, x: string, after: string, j: nat, mark: string)
    requires j + |mark| <= |x|
    ensures MarkAt(before + x + after, |before| + j, mark) == MarkAt(x, j, mark)
  {
    var s := before + x + after;
    assert s[|before| + j..|before| + j + |mark|] == x[j..j + |mark|];
  }

  lemma CodeIs(s: string, i: nat, k: nat, close: nat)
    requires i < |s| && k > 0 && TickLen(s[i..]) == k && i + k <= close && close + k <= |s| && MarkAt(s, close, Ticks(k))
    requires forall j :: i + k <= j < close ==> !MarkAt(s, j, Ticks(k))
    ensures CodeStep(s, i) == Leaf(CodeSpan(Trim(Spaced(s[i + k..close]))), close + k)
  {
    hide MarkAt, Trim;
    NoNewlinesIs(s[i + k..close]);
  }

  lemma StepAtTick(word: char -> bool, s: string, i: nat)
    requires i < |s| && s[i] == '`'
    ensures StepAt(word, s, i) == CodeStep(s, i)
  {
    hide CodeStep, StrongClose, EmClose, DelClose, MatchLink, AcceptedLink;
  }

  lemma TickedParts(before: string, k: nat, t: string, after: string)
    requires k > 0
    ensures var s := before + (Ticks(k) + t + Ticks(k)) + after;
            && |s| == |before| + 2 * k + |t| + |after| && s[|before|] == '`'
            && s == (before + Ticks(k)) + (t + Ticks(k)) + after
            && s[|before|..] == Ticks(k) + (t + Ticks(k) + after) && s[|before| + k..|before| + k + |t|] == t
  {
  }

  lemma TickedIsRead(word: char -> bool, before: string, k: nat, t: string, after: string)
    requires k > 0 && ClosesFirst(t, k)
    ensures var s := before + (Ticks(k) + t + Ticks(k)) + after;
            StepAt(word, s, |before|) == Leaf(CodeSpan(Trim(Spaced(t))), |before| + 2 * k + |t|)
  {
    hide MarkAt, Trim, StepAt, CodeStep;
    var s, i := before + (Ticks(k) + t + Ticks(k)) + after, |before|;
    var from, x := before + Ticks(k), t + Ticks(k);
    TickedParts(before, k, t, after);
    TickLenIs(k, x + after);
    var close := i + k + |t|;
    forall j | i + k <= j < close ensures !MarkAt(s, j, Ticks(k)) { MarkFurtherOn(from, x, after, j - i - k, Ticks(k)); }
    MarkFurtherOn(from, x, after, |t|, Ticks(k));
    TicksAtEnd(t, k);
    CodeIs(s, i, k, close);
    StepAtTick(word, s, i);
  }

  lemma TicksAtEnd(t: string, k: nat)
    ensures MarkAt(t + Ticks(k), |t|, Ticks(k))
  {
  }

  lemma {:induction false} TextLenIs(t: string, rest: string)
    requires ']' !in t && '\n' !in t && rest != "" && rest[0] == ']'
    ensures TextLen(t + rest) == |t|
  {
    if t == "" {
      assert t + rest == rest;
    } else {
      assert (t + rest)[1..] == t[1..] + rest;
      TextLenIs(t[1..], rest);
    }
  }

  lemma {:induction false} HrefLenIs(t: string, rest: string)
    requires ')' !in t && (forall c :: c in t ==> !IsSpace(c)) && rest != "" && rest[0] == ')'
    ensures HrefLen(t + rest) == |t|
  {
    hide IsSpace;
    if t == "" {
      assert t + rest == rest;
    } else {
      assert (t + rest)[1..] == t[1..] + rest;
      HrefLenIs(t[1..], rest);
    }
  }

  lemma SafeIsTight(href: string)
    requires SafeHref(href)
    ensures href != "" && href[0] != 'm' && forall c :: c in href ==> !IsSpace(c)
  {
    var r := if Lower(href[4]) == 's' then href[5..] else href[4..];
    forall k | 0 <= k < |href| ensures !IsSpace(href[k]) {
      var d := |href| - |r|;
      if k >= d + 3 { assert href[k] == r[3..][k - d - 3]; } else if k >= d { assert href[k] == r[k - d]; }
    }
  }

  lemma LinkParts(t: string, href: string, after: string)
    ensures var u, tail := "[" + t + "](" + href + ")" + after, ")" + after;
            var rest := "](" + (href + tail);
            && u[1..] == t + rest && u[1 + |t|..] == rest && rest[2..] == href + tail
            && u[1..1 + |t|] == t && rest[2..2 + |href|] == href
  {
  }

  lemma LinkHeadOf(t: string, href: string, after: string)
    requires ']' !in t && '\n' !in t && SafeHref(href) && ')' !in href
    ensures var u := "[" + t + "](" + href + ")" + after;
            LinkHead(u) == Some(Head(t, href, |t| + |href| + 4))
  {
    hide SafeHref, IsSpace, TextLen, HrefLen;
    SafeIsTight(href);
    LinkParts(t, href, after);
    TextLenIs(t, "](" + (href + (")" + after)));
    HrefLenIs(href, ")" + after);
  }

  lemma {:induction false} NameLenAt(t: string, rest: string)
    requires ']' !in t && rest != "" && rest[0] == ']'
    ensures NameLen(t + rest) == |t|
  {
    if t == "" { assert t + rest == rest; } else { NameLenOf(t, rest); }
  }

  /** A link to a web page is no mention. */
  lemma LinkIsNoMention(t: string, href: string, after: string)
    requires ']' !in t && SafeHref(href)
    ensures MatchLink("[" + t + "](" + href + ")" + after) == None
  {
    hide SafeHref, ReadAddress;
    SafeIsTight(href);
    var u := "[" + t + "](" + href + ")" + after;
    if "[@" <= u && t != "" {
      var rest := "](" + href + ")" + after;
      assert u[1] == t[0] == '@';
      assert u[2..] == t[1..] + rest;
      NameLenAt(t[1..], rest);
      assert u[2 + (|t| - 1)..] == rest;
      assert rest[2] == href[0];
      MiddleSays();
    } else if t == "" {
      assert u[1] == ']';
    }
  }

  lemma MiddleSays()
    ensures Middle()[2] == 'm'
  {
  }

  lemma LinkedIsRead(word: char -> bool, before: string, t: string, href: string, after: string)
    requires ']' !in t && '\n' !in t && SafeHref(href) && ')' !in href
    ensures var s := before + ("[" + t + "](" + href + ")") + after;
            StepAt(word, s, |before|) == Nest(AnchorMark(href), t, |before| + |t| + |href| + 4)
  {
    hide SafeHref, LinkHead, MatchLink, StrongClose, EmClose, DelClose, CodeStep;
    var s := before + ("[" + t + "](" + href + ")") + after;
    assert s[|before|..] == "[" + t + "](" + href + ")" + after;
    assert s[|before|] == '[';
    LinkHeadOf(t, href, after);
    LinkIsNoMention(t, href, after);
  }

  lemma MentionIsRead(word: char -> bool, before: string, t: Target, after: string)
    requires Linkable(t)
    ensures StepAt(word, before + Raw(t) + after, |before|) == Leaf(Mention(t), |before| + |Raw(t)|)
  {
    hide MatchLink, StrongClose, EmClose, DelClose, CodeStep, AcceptedLink, Linkable;
    var s := before + Raw(t) + after;
    assert s[|before|..] == Raw(t) + after;
    RawIsMatched(t, after);
    assert s[|before|] == '[';
  }

  lemma BreakIsRead(word: char -> bool, before: string, after: string)
    ensures StepAt(word, before + "\n" + after, |before|) == Leaf(Br, |before| + 1)
  {
    hide MatchLink, StrongClose, EmClose, DelClose, CodeStep, AcceptedLink;
  }

  /** The mark closes at the first place that holds its character. */
  lemma MarkIsRead(word: char -> bool, before: string, m: string, t: string, after: string)
    requires Encloses(m, t) && AtWordEdges(word, before, m, after)
    ensures var s := before + (m + t + m) + after;
            StepAt(word, s, |before|) == Nest(MarkOf(m), t, |before| + 2 * |m| + |t|)
  {
    assert before + (m + t + m) + after == Marked(before, m, t, after);
    MarkedIsNested(word, before, m, t, after);
  }

  /** Escaped words go to the buffer as they are. */
  lemma {:induction false} WordsAreRead(word: char -> bool, before: string, t: string, after: string, buf: string)
    requires '\n' !in t
    ensures var s := before + Escaped(t) + after;
            NodesFrom(word, s, |before|, buf) == NodesFrom(word, s, |before + Escaped(t)|, buf + t)
    decreases |t|
  {
    hide Escapable, StepAt, NodesFrom;
    var s := before + Escaped(t) + after;
    if t == "" {
      assert buf + t == buf;
    } else {
      var e := if Escapable(t[0]) then ['\\', t[0]] else [t[0]];
      assert s == (before + e) + Escaped(t[1..]) + after;
      assert s[|before|] == e[0];
      if Escapable(t[0]) {
        assert s[|before| + 1] == e[1];
        EscapeStep(word, s, |before|);
      } else {
        PlainStep(word, s, |before|);
      }
      NodesAtPut(word, s, |before|, [t[0]], |before + e|, buf);
      WordsAreRead(word, before + e, t[1..], after, buf + [t[0]]);
      assert (buf + [t[0]]) + t[1..] == buf + t;
      assert before + Escaped(t) == (before + e) + Escaped(t[1..]);
    }
  }

  lemma NodesAtLeaf(word: char -> bool, s: string, i: nat, node: Node, next: nat, buf: string)
    requires i < |s| && i < next <= |s| && StepAt(word, s, i) == Leaf(node, next)
    ensures NodesFrom(word, s, i, buf) == Flush(buf) + [node] + NodesFrom(word, s, next, "")
  {
    hide StepAt, Flush;
  }

  // ---- all spans ----

  lemma LeafSpan(word: char -> bool, before: string, p: Span, after: string, buf: string)
    requires (p.LineBreak? || p.Ticked? || p.Mentioned?) && Fits(word, before, p, after)
    ensures var s := before + TextOf(p) + after;
            NodesFrom(word, s, |before|, buf) == Flush(buf) + [SpanNode(p)] + NodesFrom(word, s, |before + TextOf(p)|, "")
  {
    hide StepAt, NodesFrom, Raw, Flush, ClosesFirst, Linkable;
    match p {
      case LineBreak => BreakIsRead(word, before, after);
      case Ticked(k, t) => TickedIsRead(word, before, k, t, after);
      case Mentioned(t) => MentionIsRead(word, before, t, after);
    }
    var s := before + TextOf(p) + after;
    NodesAtLeaf(word, s, |before|, SpanNode(p), |before + TextOf(p)|, buf);
  }

  lemma NestSpan(word: char -> bool, before: string, p: Span, after: string, buf: string)
    requires (p.Linked? || p.MarkedAs?) && Fits(word, before, p, after)
    requires NodesOf(word, Written(p.inner)) == Meaning(p.inner, "")
    ensures var s := before + TextOf(p) + after;
            NodesFrom(word, s, |before|, buf) == Flush(buf) + [SpanNode(p)] + NodesFrom(word, s, |before + TextOf(p)|, "")
  {
    hide StepAt, NodesFrom, NodesOf, Flush, Written, Meaning, SafeHref, AtWordEdges, BlankFreeEnds;
    var s := before + TextOf(p) + after;
    var t := Written(p.inner);
    match p
    case Linked(_, href) =>
      LinkedIsRead(word, before, t, href, after);
      NodesAtNest(word, s, |before|, AnchorMark(href), t, |before + TextOf(p)|, buf);
    case MarkedAs(m, _) =>
      MarkIsRead(word, before, m, t, after);
      NodesAtNest(word, s, |before|, MarkOf(m), t, |before + TextOf(p)|, buf);
  }

  lemma {:induction false} SpansAreRead(word: char -> bool, before: string, ps: seq<Span>, buf: string)
    requires AllFit(word, before, ps)
    ensures NodesFrom(word, before + Written(ps), |before|, buf) == Meaning(ps, buf)
    decreases ps, 0
  {
    hide NodesFrom, Fits, TextOf, NodesOf, SpanNode;
    var s := before + Written(ps);
    if ps == [] {
      assert s == before;
      NodesAtEnd(word, s, buf);
    } else {
      var p, after := ps[0], Written(ps[1..]);
      var next := before + TextOf(p);
      assert s == next + after;
      if p.Words? {
        WordsSpan(word, before, p, after, buf);
        SpansAreRead(word, next, ps[1..], buf + p.text);
      } else {
        if p.Linked? || p.MarkedAs? {
          InnerFits(word, before, p, after);
          TextIsRead(word, p.inner);
          NestSpan(word, before, p, after, buf);
        } else {
          LeafSpan(word, before, p, after, buf);
        }
        SpansAreRead(word, next, ps[1..], "");
      }
    }
  }

  lemma WordsSpan(word: char -> bool, before: string, p: Span, after: string, buf: string)
    requires p.Words? && Fits(word, before, p, after)
    ensures var s := before + TextOf(p) + after;
            NodesFrom(word, s, |before|, buf) == NodesFrom(word, s, |before + TextOf(p)|, buf + p.text)
  {
    hide NodesFrom;
    WordsAreRead(word, before, p.text, after, buf);
  }

  lemma InnerFits(word: char -> bool, before: string, p: Span, after: string)
    requires (p.Linked? || p.MarkedAs?) && Fits(word, before, p, after)
    ensures AllFit(word, "", p.inner)
  {
  }

  /** Every text is read as what it was written from, marks inside marks and links included. */
  lemma {:induction false} TextIsRead(word: char -> bool, ps: seq<Span>)
    requires AllFit(word, "", ps)
    ensures NodesOf(word, Written(ps)) == Meaning(ps, "")
    decreases ps, 1
  {
    SpansAreRead(word, "", ps, "");
    assert "" + Written(ps) == Written(ps);
  }
}
