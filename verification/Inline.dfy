/**
 * The inline half of the message renderer: `parseInline` and `findClose` of web/lib/markdown.tsx.
 * `word` is the test WORD (a letter, a digit or `_` of any script); MENTION_RE is the grammar of Mentions.
 */
module Inline {
  import opened Options
  import opened Text
  import opened Mentions

  // ---- data model ----

  datatype Node =
    | Plain(text: string)
    | Br
    | CodeSpan(text: string)
    | Strong(children: seq<Node>)
    | Em(children: seq<Node>)
    | Del(children: seq<Node>)
    | Anchor(href: string, children: seq<Node>)
    | Mention(target: Target)

  /** What encloses text that is parsed again. */
  datatype Mark = StrongMark | EmMark | DelMark | AnchorMark(href: string)

  function Enclose(mark: Mark, children: seq<Node>): Node {
    match mark
    case StrongMark => Strong(children)
    case EmMark => Em(children)
    case DelMark => Del(children)
    case AnchorMark(href) => Anchor(href, children)
  }

  /** One round of the parser: characters for the buffer, a finished node, or enclosed text. */
  datatype Step =
    | Put(text: string, next: nat)
    | Leaf(node: Node, next: nat)
    | Nest(mark: Mark, inner: string, next: nat)

  // ---- regexes and searches ----

  predicate Escapable(c: char) {
    c == '\\' || c == '`' || c == '*' || c == '_' || c == '{' || c == '}' || c == '[' || c == ']' || c == '(' || c == ')'
    || c == '#' || c == '+' || c == '-' || c == '.' || c == '!' || c == '>' || c == '~' || c == '|'
  }

  function TextLen(s: string): (n: nat)
    ensures n <= |s|
    ensures forall k :: 0 <= k < n ==> s[k] != ']' && s[k] != '\n'
  {
    if s == "" || s[0] == ']' || s[0] == '\n' then 0 else 1 + TextLen(s[1..])
  }

  function HrefLen(s: string): (n: nat)
    ensures n <= |s|
  {
    if s == "" || s[0] == ')' || IsSpace(s[0]) then 0 else 1 + HrefLen(s[1..])
  }

  datatype Head = Head(text: string, href: string, len: nat)

  /** LINK_HEAD_RE at the start of `s`. */
  function LinkHead(s: string): (r: Option<Head>)
    ensures r.Some? ==> r.value.len == |r.value.text| + |r.value.href| + 4 <= |s|
  {
    if s == "" || s[0] != '[' then None
    else
      var n := TextLen(s[1..]);
      var rest := s[1 + n..];
      if |rest| < 2 || rest[0] != ']' || rest[1] != '(' then None
      else
        var m := HrefLen(rest[2..]);
        if m == 0 || 2 + m == |rest| || rest[2 + m] != ')' then None
        else Some(Head(s[1..1 + n], rest[2..2 + m], n + m + 4))
  }

  lemma LinkHeadIs(s: string)
    requires LinkHead(s).Some?
    ensures var h := LinkHead(s).value; s[..h.len] == "[" + h.text + "](" + h.href + ")"
  {
    hide TextLen, HrefLen;
    var n := TextLen(s[1..]);
    var rest := s[1 + n..];
    var m := HrefLen(rest[2..]);
    assert rest[..2 + m + 1] == "](" + rest[2..2 + m] + ")";
    HeadIsWhole(s, n, rest[..2 + m + 1]);
  }

  lemma HeadIsWhole(s: string, n: nat, end: string)
    requires s != "" && s[0] == '[' && 1 + n + |end| <= |s| && end == s[1 + n..][..|end|]
    ensures s[..1 + n + |end|] == "[" + s[1..1 + n] + end
  {
  }

  function Lower(c: char): char {
    if 'A' <= c <= 'Z' then (c as int - 'A' as int + 'a' as int) as char else c
  }

  predicate SafeTail(s: string) {
    s != "" && forall c :: c in s ==> !IsSpace(c) && c != '<' && c != '>' && c != '"' && c != '\''
  }

  /** SAFE_HREF_RE: only `http` and `https`, in any case. */
  predicate SafeHref(s: string) {
    && |s| > 4
    && Lower(s[0]) == 'h' && Lower(s[1]) == 't' && Lower(s[2]) == 't' && Lower(s[3]) == 'p'
    && var r := if Lower(s[4]) == 's' then s[5..] else s[4..];
       |r| > 3 && r[0] == ':' && r[1] == '/' && r[2] == '/' && SafeTail(r[3..])
  }

  predicate MarkAt(s: string, i: nat, mark: string) {
    i + |mark| <= |s| && s[i..i + |mark|] == mark
  }

  /** `s.indexOf(mark, from)`, or None where it is -1. */
  function IndexOf(s: string, mark: string, from: nat): (r: Option<nat>)
    ensures r.Some? ==> from <= r.value && MarkAt(s, r.value, mark) && forall k :: from <= k < r.value ==> !MarkAt(s, k, mark)
    ensures r.None? ==> forall k :: from <= k ==> !MarkAt(s, k, mark)
    decreases |s| - from
  {
    if from + |mark| > |s| then None
    else if MarkAt(s, from, mark) then Some(from)
    else IndexOf(s, mark, from + 1)
  }

  /** A closing mark: not directly behind the opening one, and not behind white space. */
  predicate ClosesAt(s: string, from: nat, i: nat, mark: string) {
    MarkAt(s, i, mark) && i > from && i <= |s| && !IsSpace(s[i - 1])
  }

  /** The first closing mark from `i` on. */
  function FirstClose(s: string, from: nat, i: nat, mark: string): (r: Option<nat>)
    requires from <= i
    ensures r.Some? ==> i <= r.value && ClosesAt(s, from, r.value, mark)
    decreases |s| - i
  {
    if i >= |s| then None
    else if ClosesAt(s, from, i, mark) then Some(i)
    else FirstClose(s, from, i + 1, mark)
  }

  lemma {:induction false} NothingToClose(s: string, from: nat, i: nat, j: nat, mark: string)
    requires from <= i <= j && mark != ""
    requires forall k :: i <= k < j ==> !MarkAt(s, k, mark)
    ensures FirstClose(s, from, i, mark) == FirstClose(s, from, j, mark)
    decreases j - i
  {
    if i < j { NothingToClose(s, from, i + 1, j, mark); }
  }

  /** What the search finds at a mark, and behind the end. */
  lemma CloseAt(s: string, from: nat, i: nat, mark: string)
    requires from <= i
    ensures i >= |s| ==> FirstClose(s, from, i, mark) == None
    ensures i < |s| && MarkAt(s, i, mark) ==>
              FirstClose(s, from, i, mark) == if i > from && !IsSpace(s[i - 1]) then Some(i) else FirstClose(s, from, i + 1, mark)
  {
    hide IsSpace, MarkAt;
  }

  lemma MarkIsInside(s: string, i: nat, mark: string)
    requires mark != "" && MarkAt(s, i, mark)
    ensures i < |s|
  {
  }

  method FindClose(s: string, from: nat, mark: string) returns (r: Option<nat>)
    requires mark != ""
    ensures r == FirstClose(s, from, from, mark)
  {
    hide IndexOf, IsSpace, MarkAt, FirstClose, ClosesAt;
    var at := IndexOf(s, mark, from);
    NothingToClose(s, from, from, at.GetOr(from + |s|), mark);
    CloseAt(s, from, from + |s|, mark);
    while at.Some?
      invariant at.Some? ==> from <= at.value && MarkAt(s, at.value, mark)
      invariant at.Some? ==> FirstClose(s, from, from, mark) == FirstClose(s, from, at.value, mark)
      invariant at.None? ==> FirstClose(s, from, from, mark) == None
      decreases if at.Some? then |s| + 1 - at.value else 0
    {
      var i := at.value;
      MarkIsInside(s, i, mark);
      CloseAt(s, from, i, mark);
      if i > from && !IsSpace(s[i - 1]) {
        return Some(i);
      }
      at := IndexOf(s, mark, i + 1);
      NothingToClose(s, from, i + 1, at.GetOr(i + 1 + |s|), mark);
      CloseAt(s, from, i + 1 + |s|, mark);
      if at.Some? { MarkIsInside(s, at.value, mark); }
    }
    return None;
  }

  // ---- one round ----

  function TickLen(s: string): (n: nat)
    ensures n <= |s| && forall k :: 0 <= k < n ==> s[k] == '`'
    ensures n == |s| || s[n] != '`'
  {
    if s == "" || s[0] != '`' then 0 else 1 + TickLen(s[1..])
  }

  function Ticks(n: nat): string {
    seq(n, _ => '`')
  }

  /** `text.replace(/\n/g, " ")`. */
  function NoNewlines(s: string): string {
    if s == "" then "" else (if s[0] == '\n' then " " else [s[0]]) + NoNewlines(s[1..])
  }

  predicate IsWordAt(word: char -> bool, s: string, i: nat) {
    i < |s| && word(s[i])
  }

  /** Does visible text stand at `i`? */
  predicate InkAt(s: string, i: nat) {
    i < |s| && !IsSpace(s[i])
  }

  function CodeStep(s: string, i: nat): Step
    requires i < |s|
  {
    var n := TickLen(s[i..]);
    var close := IndexOf(s, Ticks(n), i + n);
    if close.Some? then Leaf(CodeSpan(Trim(NoNewlines(s[i + n..close.value]))), close.value + n)
    else Put(Ticks(n), i + n)
  }

  function StrongClose(word: char -> bool, s: string, i: nat): (r: Option<nat>)
    requires i < |s|
    ensures r.Some? ==> i + 2 < r.value && r.value + 2 <= |s|
  {
    var c := s[i];
    if (c == '*' || c == '_') && i + 1 < |s| && s[i + 1] == c && InkAt(s, i + 2) then
      var close := FirstClose(s, i + 2, i + 2, [c, c]);
      if close.Some? && (c == '*' || !IsWordAt(word, s, close.value + 2)) then close else None
    else None
  }

  /** `_` emphasises only at the edge of a word, so that `snake_case` stays as it is. */
  function EmClose(word: char -> bool, s: string, i: nat): (r: Option<nat>)
    requires i < |s|
    ensures r.Some? ==> i + 1 < r.value && r.value + 1 <= |s|
  {
    var c := s[i];
    if (c == '*' || c == '_') && InkAt(s, i + 1) && s[i + 1] != c && (c == '*' || !(i > 0 && word(s[i - 1]))) then
      var close := FirstClose(s, i + 1, i + 1, [c]);
      if close.Some? && (c == '*' || !IsWordAt(word, s, close.value + 1)) then close else None
    else None
  }

  function DelClose(s: string, i: nat): (r: Option<nat>)
    requires i < |s|
    ensures r.Some? ==> i + 2 < r.value && r.value + 2 <= |s|
  {
    if s[i] == '~' && i + 1 < |s| && s[i + 1] == '~' && InkAt(s, i + 2) then FirstClose(s, i + 2, i + 2, "~~") else None
  }

  function AcceptedLink(s: string, i: nat): (r: Option<Head>)
    requires i < |s|
    ensures r.Some? ==> r == LinkHead(s[i..]) && SafeHref(r.value.href)
  {
    var h := LinkHead(s[i..]);
    if h.Some? && SafeHref(h.value.href) then h else None
  }

  function StepAt(word: char -> bool, s: string, i: nat): Step
    requires i < |s|
  {
    var c := s[i];
    if c == '\\' && i + 1 < |s| && Escapable(s[i + 1]) then Put([s[i + 1]], i + 2)
    else if c == '\n' then Leaf(Br, i + 1)
    else if c == '`' then CodeStep(s, i)
    else if c == '[' && MatchLink(s[i..]).Some? then
      var m := MatchLink(s[i..]).value;
      Leaf(Mention(m.target), i + m.len)
    else if c == '[' && AcceptedLink(s, i).Some? then
      var h := AcceptedLink(s, i).value;
      Nest(AnchorMark(h.href), h.text, i + h.len)
    else if StrongClose(word, s, i).Some? then
      var close := StrongClose(word, s, i).value;
      Nest(StrongMark, s[i + 2..close], close + 2)
    else if EmClose(word, s, i).Some? then
      var close := EmClose(word, s, i).value;
      Nest(EmMark, s[i + 1..close], close + 1)
    else if DelClose(s, i).Some? then
      var close := DelClose(s, i).value;
      Nest(DelMark, s[i + 2..close], close + 2)
    else Put([c], i + 1)
  }

  lemma StepMoves(word: char -> bool, s: string, i: nat)
    requires i < |s|
    ensures var st := StepAt(word, s, i); i < st.next <= |s| && (st.Nest? ==> |st.inner| < |s|)
  {
    if MatchLink(s[i..]).Some? { MatchIsRaw(s[i..]); }
  }

  // ---- parseInline ----

  function Flush(buf: string): seq<Node> {
    if buf == "" then [] else [Plain(buf)]
  }

  /** The nodes of `s` from `i` on, where `buf` holds the text that is not yet written. */
  function NodesFrom(word: char -> bool, s: string, i: nat, buf: string): seq<Node>
    requires i <= |s|
    decreases |s|, |s| - i
  {
    if i == |s| then Flush(buf)
    else
      StepMoves(word, s, i);
      match StepAt(word, s, i)
      case Put(text, next) => NodesFrom(word, s, next, buf + text)
      case Leaf(node, next) => Flush(buf) + [node] + NodesFrom(word, s, next, "")
      case Nest(mark, inner, next) =>
        Flush(buf) + [Enclose(mark, NodesFrom(word, inner, 0, ""))] + NodesFrom(word, s, next, "")
  }

  function NodesOf(word: char -> bool, s: string): seq<Node> {
    NodesFrom(word, s, 0, "")
  }

  method ReadCode(s: string, i: nat) returns (st: Step)
    requires i < |s| && s[i] == '`'
    ensures st == CodeStep(s, i)
  {
    var n := 1;
    while i + n < |s| && s[i + n] == '`'
      invariant 1 <= n <= TickLen(s[i..])
    {
      n := n + 1;
    }
    var mark := Ticks(n);
    var close := IndexOf(s, mark, i + n);
    if close.Some? { return Leaf(CodeSpan(Trim(NoNewlines(s[i + n..close.value]))), close.value + n); }
    return Put(mark, i + n);
  }

  method ReadStrong(word: char -> bool, s: string, i: nat) returns (r: Option<nat>)
    requires i < |s|
    ensures r == StrongClose(word, s, i)
  {
    var c := s[i];
    if (c == '*' || c == '_') && i + 1 < |s| && s[i + 1] == c && i + 2 < |s| && !IsSpace(s[i + 2]) {
      var close := FindClose(s, i + 2, [c, c]);
      if close.Some? && (c == '*' || !IsWordAt(word, s, close.value + 2)) { return close; }
    }
    return None;
  }

  method ReadEm(word: char -> bool, s: string, i: nat) returns (r: Option<nat>)
    requires i < |s|
    ensures r == EmClose(word, s, i)
  {
    var c := s[i];
    if (c == '*' || c == '_') && i + 1 < |s| && !IsSpace(s[i + 1]) && s[i + 1] != c {
      var wordBefore := i > 0 && word(s[i - 1]);
      if c == '*' || !wordBefore {
        var close := FindClose(s, i + 1, [c]);
        if close.Some? && (c == '*' || !IsWordAt(word, s, close.value + 1)) { return close; }
      }
    }
    return None;
  }

  method ReadDel(s: string, i: nat) returns (r: Option<nat>)
    requires i < |s|
    ensures r == DelClose(s, i)
  {
    r := None;
    if s[i] == '~' && i + 1 < |s| && s[i + 1] == '~' && i + 2 < |s| && !IsSpace(s[i + 2]) {
      r := FindClose(s, i + 2, "~~");
    }
  }

  /** The body of the loop, down to the choice of what to do next. */
  method ReadStep(word: char -> bool, s: string, i: nat) returns (st: Step)
    requires i < |s|
    ensures st == StepAt(word, s, i)
  {
    hide MatchLink, LinkHead, SafeHref, Escapable, CodeStep, StrongClose, EmClose, DelClose;
    var c := s[i];
    if c == '\\' && i + 1 < |s| && Escapable(s[i + 1]) { return Put([s[i + 1]], i + 2); }
    if c == '\n' { return Leaf(Br, i + 1); }
    if c == '`' {
      st := ReadCode(s, i);
      return;
    }
    if c == '[' {
      var rest := s[i..];
      var mm := MatchLink(rest);
      if mm.Some? { return Leaf(Mention(mm.value.target), i + mm.value.len); }
      var lm := LinkHead(rest);
      if lm.Some? && SafeHref(lm.value.href) { return Nest(AnchorMark(lm.value.href), lm.value.text, i + lm.value.len); }
    }
    var close := ReadStrong(word, s, i);
    if close.Some? { return Nest(StrongMark, s[i + 2..close.value], close.value + 2); }
    close := ReadEm(word, s, i);
    if close.Some? { return Nest(EmMark, s[i + 1..close.value], close.value + 1); }
    close := ReadDel(s, i);
    if close.Some? { return Nest(DelMark, s[i + 2..close.value], close.value + 2); }
    return Put([c], i + 1);
  }

  lemma PushNode(out: seq<Node>, buf: string, node: Node, rest: seq<Node>)
    ensures out + (Flush(buf) + [node] + rest) == (out + Flush(buf) + [node]) + rest
  {
    hide Flush;
  }

  function NodeOf(word: char -> bool, st: Step): Node
    requires !st.Put?
  {
    match st
    case Leaf(node, _) => node
    case Nest(mark, inner, _) => Enclose(mark, NodesOf(word, inner))
  }

  /** One round, seen from the nodes that are already out. */
  lemma RoundOfNodes(word: char -> bool, s: string, i: nat, buf: string, out: seq<Node>)
    requires i < |s|
    ensures var st := StepAt(word, s, i);
            && st.next <= |s|
            && NodesFrom(word, s, i, buf) ==
                 (if st.Put? then NodesFrom(word, s, st.next, buf + st.text)
                  else Flush(buf) + [NodeOf(word, st)] + NodesFrom(word, s, st.next, ""))
            && (!st.Put? ==> out + NodesFrom(word, s, i, buf) ==
                               (out + Flush(buf) + [NodeOf(word, st)]) + NodesFrom(word, s, st.next, ""))
  {
    hide StepAt, Flush;
    StepMoves(word, s, i);
    var st := StepAt(word, s, i);
    if !st.Put? { PushNode(out, buf, NodeOf(word, st), NodesFrom(word, s, st.next, "")); }
  }

  lemma LastNodes(word: char -> bool, s: string, buf: string)
    ensures NodesFrom(word, s, |s|, buf) == Flush(buf)
  {
  }

  /** The finished node of a round; enclosed text is parsed again. */
  method TakeNode(word: char -> bool, src: string, st: Step) returns (node: Node)
    requires !st.Put? && (st.Nest? ==> |st.inner| < |src|)
    ensures node == NodeOf(word, st)
    decreases |src|, 0
  {
    hide NodesOf, Enclose;
    if st.Leaf? { return st.node; }
    var children := ParseInline(word, st.inner);
    return Enclose(st.mark, children);
  }

  method ParseInline(word: char -> bool, src: string) returns (out: seq<Node>)
    ensures out == NodesOf(word, src)
    decreases |src|, 1
  {
    hide StepAt, NodesFrom, NodeOf;
    out := [];
    var buf := "";
    var i := 0;
    while i < |src|
      invariant 0 <= i <= |src|
      invariant out + NodesFrom(word, src, i, buf) == NodesOf(word, src)
      decreases |src| - i
    {
      StepMoves(word, src, i);
      var st := ReadStep(word, src, i);
      RoundOfNodes(word, src, i, buf, out);
      if st.Put? {
        buf := buf + st.text;
      } else {
        var node := TakeNode(word, src, st);
        if buf != "" {
          out := out + [Plain(buf)];
          buf := "";
        }
        out := out + [node];
      }
      i := st.next;
    }
    LastNodes(word, src, buf);
    if buf != "" { out := out + [Plain(buf)]; }
  }
}
