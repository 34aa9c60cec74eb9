/** `parseInline` invents nothing: the visible characters of the nodes stand in the text, in this order. */
module InlineInk {
  import opened Options
  import opened Text
  import opened Subsequence
  import opened Mentions
  import opened Inline

  /** All that a node shows or carries, in the order of the source. */
  function FlatNode(n: Node): string {
    match n
    case Plain(t) => t
    case Br => "\n"
    case CodeSpan(t) => t
    case Strong(c) => Flat(c)
    case Em(c) => Flat(c)
    case Del(c) => Flat(c)
    case Anchor(href, c) => Flat(c) + href
    case Mention(t) => t.name + Word(t.kind) + t.id
  }

  function Flat(nodes: seq<Node>): string {
    if nodes == [] then "" else FlatNode(nodes[0]) + Flat(nodes[1..])
  }

  lemma {:induction false} FlatConcat(a: seq<Node>, b: seq<Node>)
    ensures Flat(a + b) == Flat(a) + Flat(b)
  {
    hide FlatNode;
    if a == [] {
      assert a + b == b;
    } else {
      assert (a + b)[1..] == a[1..] + b;
      FlatConcat(a[1..], b);
    }
  }

  lemma FlatOne(n: Node)
    ensures Flat([n]) == FlatNode(n)
  {
    assert [n][1..] == [];
    assert FlatNode(n) + "" == FlatNode(n);
  }

  lemma FlatFlush(buf: string)
    ensures Flat(Flush(buf)) == buf
  {
    if buf != "" { FlatOne(Plain(buf)); }
  }

  lemma FlatPush(buf: string, n: Node, rest: seq<Node>)
    ensures Flat(Flush(buf) + [n] + rest) == buf + FlatNode(n) + Flat(rest)
  {
    hide FlatNode, Flat, Flush;
    FlatConcat(Flush(buf) + [n], rest);
    FlatConcat(Flush(buf), [n]);
    FlatOne(n);
    FlatFlush(buf);
  }

  // ---- what one round takes from the text ----

  lemma {:induction false} InkOfNoNewlines(s: string)
    ensures Ink(NoNewlines(s)) == Ink(s)
  {
    if s != "" { InkOfNoNewlines(s[1..]); }
  }

  lemma SliceIsPart(s: string, i: nat, a: nat, b: nat, j: nat)
    requires i <= a <= b <= j <= |s|
    ensures Sub(s[a..b], s[i..j])
  {
    assert s[i..j] == s[i..a] + s[a..b] + s[b..j];
    SubPart(s[i..a], s[a..b], s[b..j]);
  }

  /** What a step will show, before the parser looks inside enclosed text. */
  function StepText(st: Step): string {
    match st
    case Put(text, _) => text
    case Leaf(node, _) => FlatNode(node)
    case Nest(AnchorMark(href), inner, _) => inner + href
    case Nest(_, inner, _) => inner
  }

  lemma CodeStepSource(s: string, i: nat)
    requires i < |s| && s[i] == '`'
    ensures var st := CodeStep(s, i); i < st.next <= |s| && Sub(Ink(StepText(st)), Ink(s[i..st.next]))
  {
    hide Trim, IsSpace, IndexOf;
    var n := TickLen(s[i..]);
    var close := IndexOf(s, Ticks(n), i + n);
    if close.Some? {
      var code := s[i + n..close.value];
      InkOfNoNewlines(code);
      InkOfTrim(NoNewlines(code));
      SliceIsPart(s, i, i + n, close.value, close.value + n);
      SubInk(code, s[i..close.value + n]);
    } else {
      assert s[i..i + n] == Ticks(n) by {
        assert forall k :: 0 <= k < n ==> s[i..][k] == s[i + k];
      }
      SubRefl(Ticks(n));
      SubInk(Ticks(n), s[i..i + n]);
    }
  }

  lemma MentionSource(t: Target)
    ensures Sub(t.name + Word(t.kind) + t.id, Raw(t))
  {
    hide Word, Middle;
    SubPart("[@", t.name, Middle());
    SubPart("", Word(t.kind), "/");
    SubPart("", t.id, ")");
    SubConcat(t.name, "[@" + t.name + Middle(), Word(t.kind), "" + Word(t.kind) + "/");
    SubConcat(t.name + Word(t.kind), "[@" + t.name + Middle() + ("" + Word(t.kind) + "/"), t.id, "" + t.id + ")");
    assert Raw(t) == "[@" + t.name + Middle() + ("" + Word(t.kind) + "/") + ("" + t.id + ")");
  }

  lemma AnchorSource(h: Head)
    ensures Sub(h.text + h.href, "[" + h.text + "](" + h.href + ")")
  {
    SubPart("[", h.text, "](");
    SubPart("", h.href, ")");
    SubConcat(h.text, "[" + h.text + "](", h.href, "" + h.href + ")");
    assert "[" + h.text + "](" + ("" + h.href + ")") == "[" + h.text + "](" + h.href + ")";
  }

  lemma StepSource(word: char -> bool, s: string, i: nat)
    requires i < |s|
    ensures var st := StepAt(word, s, i); i < st.next <= |s| && Sub(Ink(StepText(st)), Ink(s[i..st.next]))
  {
    hide MatchLink, LinkHead, SafeHref, Escapable, CodeStep, StrongClose, EmClose, DelClose, Ink, Sub, Raw, IsSpace;
    StepMoves(word, s, i);
    var st := StepAt(word, s, i);
    var c := s[i];
    if c == '`' {
      CodeStepSource(s, i);
    } else if st.Put? {
      assert st.text == s[st.next - 1..st.next];
      SliceIsPart(s, i, st.next - 1, st.next, st.next);
      SubInk(st.text, s[i..st.next]);
    } else if st.Leaf? {
      if st.node.Mention? {
        MatchIsRaw(s[i..]);
        var t := st.node.target;
        assert s[i..st.next] == s[i..][..|Raw(t)|] == Raw(t);
        MentionSource(t);
        SubInk(StepText(st), s[i..st.next]);
      } else if st.node.Br? {
        assert s[i..i + 1] == "\n";
        SubRefl("\n");
        SubInk("\n", "\n");
      }
    } else if st.mark.AnchorMark? {
      var h := AcceptedLink(s, i).value;
      LinkHeadIs(s[i..]);
      assert s[i..st.next] == s[i..][..h.len];
      AnchorSource(h);
      SubInk(StepText(st), s[i..st.next]);
    } else {
      var a := if st.mark.EmMark? then i + 1 else i + 2;
      SliceIsPart(s, i, a, a + |st.inner|, st.next);
      SubInk(st.inner, s[i..st.next]);
    }
  }

  // ---- the whole text ----

  lemma EncloseText(mark: Mark, inner: string, next: nat, children: seq<Node>)
    requires Sub(Ink(Flat(children)), Ink(inner))
    ensures Sub(Ink(FlatNode(Enclose(mark, children))), Ink(StepText(Nest(mark, inner, next))))
  {
    if mark.AnchorMark? {
      InkConcat(Flat(children), mark.href);
      InkConcat(inner, mark.href);
      SubRefl(Ink(mark.href));
      SubConcat(Ink(Flat(children)), Ink(inner), Ink(mark.href), Ink(mark.href));
    }
  }

  lemma {:induction false} NodesInventNothing(word: char -> bool, s: string, i: nat, buf: string)
    requires i <= |s|
    ensures Sub(Ink(Flat(NodesFrom(word, s, i, buf))), Ink(buf + s[i..]))
    decreases |s|, |s| - i
  {
    hide StepAt, Sub, Ink, Flat, FlatNode, Flush;
    if i == |s| {
      FlatFlush(buf);
      assert buf + s[i..] == buf;
      SubRefl(Ink(buf));
    } else {
      StepMoves(word, s, i);
      StepSource(word, s, i);
      var st := StepAt(word, s, i);
      var taken := s[i..st.next];
      assert s[i..] == taken + s[st.next..];
      assert buf + s[i..] == (buf + taken) + s[st.next..];
      InkConcat(buf + taken, s[st.next..]);
      InkConcat(buf, taken);
      SubRefl(Ink(buf));
      if st.Put? {
        NodesInventNothing(word, s, st.next, buf + st.text);
        InkConcat(buf, st.text);
        InkConcat(buf + st.text, s[st.next..]);
        SubConcat(Ink(buf), Ink(buf), Ink(st.text), Ink(taken));
        SubRefl(Ink(s[st.next..]));
        SubConcat(Ink(buf + st.text), Ink(buf + taken), Ink(s[st.next..]), Ink(s[st.next..]));
        SubTrans(Ink(Flat(NodesFrom(word, s, i, buf))), Ink(buf + st.text + s[st.next..]), Ink(buf + s[i..]));
      } else {
        var node := if st.Leaf? then st.node else Enclose(st.mark, NodesFrom(word, st.inner, 0, ""));
        var rest := NodesFrom(word, s, st.next, "");
        if st.Nest? {
          NodesInventNothing(word, st.inner, 0, "");
          assert "" + st.inner[0..] == st.inner;
          EncloseText(st.mark, st.inner, st.next, NodesFrom(word, st.inner, 0, ""));
        } else {
          SubRefl(Ink(FlatNode(node)));
        }
        SubTrans(Ink(FlatNode(node)), Ink(StepText(st)), Ink(taken));
        NodesInventNothing(word, s, st.next, "");
        assert "" + s[st.next..] == s[st.next..];
        FlatPush(buf, node, rest);
        InkConcat(buf + FlatNode(node), Flat(rest));
        InkConcat(buf, FlatNode(node));
        SubConcat(Ink(buf), Ink(buf), Ink(FlatNode(node)), Ink(taken));
        SubConcat(Ink(buf + FlatNode(node)), Ink(buf + taken), Ink(Flat(rest)), Ink(s[st.next..]));
      }
    }
  }

  /** Every visible character shown by the nodes, however nested, stands in the text, once and in this order. */
  lemma InlineInventsNothing(word: char -> bool, s: string)
    ensures Sub(Ink(Flat(NodesOf(word, s))), Ink(s))
  {
    NodesInventNothing(word, s, 0, "");
    assert "" + s[0..] == s;
  }
}
