/** What the renderer of inline nodes may take for granted, and what escaping and mentions come to. */
module InlineShape {
  import opened Options
  import opened Text
  import opened Mentions
  import opened Inline

  // ---- safe and tidy nodes ----

  /** Anchors lead to http or https only, mentions are well formed, and text comes in whole pieces. */
  ghost predicate TidyNode(n: Node) {
    match n
    case Plain(t) => t != ""
    case Br => true
    case CodeSpan(_) => true
    case Strong(c) => Tidy(c)
    case Em(c) => Tidy(c)
    case Del(c) => Tidy(c)
    case Anchor(href, c) => SafeHref(href) && Tidy(c)
    case Mention(t) => Linkable(t)
  }

  ghost predicate Tidy(nodes: seq<Node>) {
    && (forall k :: 0 <= k < |nodes| ==> TidyNode(nodes[k]))
    && (forall k :: 0 <= k < |nodes| - 1 ==> !(nodes[k].Plain? && nodes[k + 1].Plain?))
  }

  lemma StepIsSafe(word: char -> bool, s: string, i: nat)
    requires i < |s|
    ensures var st := StepAt(word, s, i);
            && (st.Leaf? ==> TidyNode(st.node) && !st.node.Plain?)
            && (st.Nest? && st.mark.AnchorMark? ==> SafeHref(st.mark.href))
            && (st.Put? ==> st.text != "")
  {
    hide MatchLink, LinkHead, SafeHref, Escapable, StrongClose, EmClose, DelClose, Linkable, IndexOf;
    if MatchLink(s[i..]).Some? { MatchIsRaw(s[i..]); }
  }

  lemma TidyEnclose(mark: Mark, children: seq<Node>)
    requires Tidy(children) && (mark.AnchorMark? ==> SafeHref(mark.href))
    ensures TidyNode(Enclose(mark, children)) && !Enclose(mark, children).Plain?
  {
  }

  lemma TidyPush(buf: string, n: Node, rest: seq<Node>)
    requires TidyNode(n) && !n.Plain? && Tidy(rest)
    ensures Tidy(Flush(buf) + [n] + rest)
  {
    hide TidyNode;
    assert TidyNode(Plain(buf)) == (buf != "") by { PlainIsTidy(buf); }
    var all := Flush(buf) + [n] + rest;
    var m := |Flush(buf)|;
    forall k | 0 <= k < |all| ensures TidyNode(all[k]) {
      if k > m { assert all[k] == rest[k - m - 1]; }
    }
    forall k | 0 <= k < |all| - 1 ensures !(all[k].Plain? && all[k + 1].Plain?) {
      if k > m { assert all[k] == rest[k - m - 1] && all[k + 1] == rest[k - m]; }
    }
  }

  lemma PlainIsTidy(t: string)
    ensures TidyNode(Plain(t)) <==> t != ""
  {
  }

  lemma {:induction false} NodesAreTidy(word: char -> bool, s: string, i: nat, buf: string)
    requires i <= |s|
    ensures Tidy(NodesFrom(word, s, i, buf))
    decreases |s|, |s| - i
  {
    hide StepAt, Tidy, TidyNode;
    if i == |s| {
      TidyFlush(buf);
    } else {
      StepMoves(word, s, i);
      StepIsSafe(word, s, i);
      var st := StepAt(word, s, i);
      if st.Put? {
        NodesAreTidy(word, s, st.next, buf + st.text);
      } else {
        NodesAreTidy(word, s, st.next, "");
        if st.Leaf? {
          TidyPush(buf, st.node, NodesFrom(word, s, st.next, ""));
        } else {
          NodesAreTidy(word, st.inner, 0, "");
          var children := NodesFrom(word, st.inner, 0, "");
          TidyEnclose(st.mark, children);
          TidyPush(buf, Enclose(st.mark, children), NodesFrom(word, s, st.next, ""));
        }
      }
    }
  }

  lemma TidyFlush(buf: string)
    ensures Tidy(Flush(buf))
  {
  }

  /** No text can smuggle in a link of another scheme, at any depth. */
  lemma InlineIsTidy(word: char -> bool, s: string)
    ensures Tidy(NodesOf(word, s))
  {
    NodesAreTidy(word, s, 0, "");
  }

  // ---- escaping ----

  /** The text with a backslash in front of everything the parser could act on. */
  function Escaped(t: string): string {
    if t == "" then "" else (if Escapable(t[0]) then ['\\', t[0]] else [t[0]]) + Escaped(t[1..])
  }

  lemma PlainStep(word: char -> bool, s: string, i: nat)
    requires i < |s| && !Escapable(s[i]) && s[i] != '\n'
    ensures StepAt(word, s, i) == Put([s[i]], i + 1)
  {
    assert Escapable('\\') && Escapable('`') && Escapable('[') && Escapable('*') && Escapable('_') && Escapable('~');
  }

  lemma {:induction false} EscapedIsRead(word: char -> bool, t: string, before: string, buf: string)
    requires '\n' !in t
    ensures NodesFrom(word, before + Escaped(t), |before|, buf) == Flush(buf + t)
    decreases |t|
  {
    hide Escapable, StepAt, Flush;
    var s := before + Escaped(t);
    if t == "" {
      assert s == before && buf + t == buf;
    } else {
      var e := if Escapable(t[0]) then ['\\', t[0]] else [t[0]];
      assert s == (before + e) + Escaped(t[1..]);
      assert s[|before|] == e[0];
      if Escapable(t[0]) {
        assert s[|before| + 1] == e[1];
        EscapeStep(word, s, |before|);
      } else {
        PlainStep(word, s, |before|);
      }
      EscapedIsRead(word, t[1..], before + e, buf + [t[0]]);
      assert (buf + [t[0]]) + t[1..] == buf + t;
    }
  }

  lemma EscapeStep(word: char -> bool, s: string, i: nat)
    requires i + 1 < |s| && s[i] == '\\' && Escapable(s[i + 1])
    ensures StepAt(word, s, i) == Put([s[i + 1]], i + 2)
  {
  }

  /** Escaped text of one line is shown as it is, whatever marks it holds. */
  lemma EscapingRoundTrip(word: char -> bool, t: string)
    requires '\n' !in t
    ensures NodesOf(word, Escaped(t)) == Flush(t)
  {
    EscapedIsRead(word, t, "", "");
    assert "" + Escaped(t) == Escaped(t) && "" + t == t;
  }

  // ---- the renderer and the mention grammar agree ----

  /** Nothing but links to people, line breaks and plain text can come out of `s`. */
  ghost predicate OnlyMentions(s: string) {
    && (forall k :: 0 <= k < |s| ==> s[k] != '\\' && s[k] != '`' && s[k] != '*' && s[k] != '_' && s[k] != '~')
    && (forall k :: 0 <= k < |s| && s[k] == '[' && MatchLink(s[k..]).None? ==> AcceptedLink(s, k).None?)
  }

  function Prepend(t: string, parts: seq<ContentPart>): seq<ContentPart> {
    if t == "" then parts
    else if parts != [] && parts[0].TextPart? then [TextPart(t + parts[0].text)] + parts[1..]
    else [TextPart(t)] + parts
  }

  /** The nodes as parts of the content: breaks are newlines again and runs of text are one. */
  function Merged(nodes: seq<Node>): Option<seq<ContentPart>> {
    if nodes == [] then Some([])
    else match (nodes[0], Merged(nodes[1..]))
      case (Plain(t), Some(parts)) => Some(Prepend(t, parts))
      case (Br, Some(parts)) => Some(Prepend("\n", parts))
      case (Mention(t), Some(parts)) => Some([MentionPart(t)] + parts)
      case _ => None
  }

  lemma MentionStep(word: char -> bool, s: string, i: nat)
    requires i < |s| && OnlyMentions(s)
    ensures StepAt(word, s, i) ==
            if s[i] == '\n' then Leaf(Br, i + 1)
            else if MatchLink(s[i..]).Some? then Leaf(Mention(MatchLink(s[i..]).value.target), i + MatchLink(s[i..]).value.len)
            else Put([s[i]], i + 1)
  {
    hide AcceptedLink;
    assert MatchLink(s[i..]).Some? ==> s[i] == '[';
  }

  lemma PrependTwice(a: string, b: string, parts: seq<ContentPart>)
    ensures Prepend(a + b, parts) == Prepend(a, Prepend(b, parts))
  {
    if a == "" {
      assert a + b == b;
    } else if b == "" {
      assert a + b == a;
    } else if parts != [] && parts[0].TextPart? {
      assert a + b + parts[0].text == a + (b + parts[0].text);
    }
  }

  lemma MergedPush(buf: string, n: Node, rest: seq<Node>)
    requires Merged(rest).Some?
    ensures n == Br ==> Merged(Flush(buf) + [n] + rest) == Some(Prepend(buf, Prepend("\n", Merged(rest).value)))
    ensures n.Mention? ==> Merged(Flush(buf) + [n] + rest) == Some(Prepend(buf, [MentionPart(n.target)] + Merged(rest).value))
  {
    hide Prepend;
    var tail := [n] + rest;
    assert tail[1..] == rest;
    if buf == "" {
      assert Flush(buf) + [n] + rest == tail;
      PrependNothing(Prepend("\n", Merged(rest).value));
      if n.Mention? { PrependNothing([MentionPart(n.target)] + Merged(rest).value); }
    } else {
      var all := Flush(buf) + [n] + rest;
      assert all[1..] == tail && all[0] == Plain(buf);
    }
  }

  lemma PrependNothing(parts: seq<ContentPart>)
    ensures Prepend("", parts) == parts
  {
  }

  lemma AddCharIsPrepend(c: char, parts: seq<ContentPart>)
    ensures AddChar(c, parts) == Prepend([c], parts)
  {
  }

  lemma PartsAt(s: string)
    requires s != ""
    ensures MatchLink(s).None? ==> PartsOf(Tokens(s)) == Prepend([s[0]], PartsOf(Tokens(s[1..])))
    ensures MatchLink(s).Some? ==>
      var m := MatchLink(s).value;
      m.len <= |s| && PartsOf(Tokens(s)) == [MentionPart(m.target)] + PartsOf(Tokens(s[m.len..]))
  {
    hide MatchLink, Prepend, AddChar;
    if MatchLink(s).Some? {
      MatchIsRaw(s);
      var m := MatchLink(s).value;
      assert Tokens(s) == [Link(m.target)] + Tokens(s[m.len..]);
    } else {
      assert Tokens(s) == [Ch(s[0])] + Tokens(s[1..]);
      AddCharIsPrepend(s[0], PartsOf(Tokens(s[1..])));
    }
  }

  lemma {:induction false} NodesAgreeWithParts(word: char -> bool, s: string, i: nat, buf: string)
    requires i <= |s| && OnlyMentions(s)
    ensures Merged(NodesFrom(word, s, i, buf)) == Some(Prepend(buf, PartsOf(Tokens(s[i..]))))
    decreases |s| - i
  {
    hide StepAt, OnlyMentions, MatchLink, Tokens, PartsOf, Prepend, Merged;
    if i == |s| {
      NothingLeft(buf);
      assert s[i..] == "";
    } else {
      StepMoves(word, s, i);
      MentionStep(word, s, i);
      PartsAt(s[i..]);
      var st := StepAt(word, s, i);
      if st.Put? {
        NodesAgreeWithParts(word, s, i + 1, buf + [s[i]]);
        assert s[i..][1..] == s[i + 1..];
        PrependTwice(buf, [s[i]], PartsOf(Tokens(s[i + 1..])));
      } else {
        NodesAgreeWithParts(word, s, st.next, "");
        PrependNothing(PartsOf(Tokens(s[st.next..])));
        MergedPush(buf, st.node, NodesFrom(word, s, st.next, ""));
        assert s[i..][st.next - i..] == s[st.next..];
        if s[i] == '\n' { NewlineIsNoLink(s[i..]); }
      }
    }
  }

  lemma NothingLeft(buf: string)
    ensures Merged(Flush(buf)) == Some(Prepend(buf, PartsOf(Tokens(""))))
  {
    assert Merged([]) == Some([]) && Tokens("") == [];
    if buf != "" { assert [Plain(buf)][1..] == []; }
  }

  lemma NewlineIsNoLink(s: string)
    requires s != "" && s[0] == '\n'
    ensures MatchLink(s).None?
  {
  }

  /** On such text the renderer shows exactly the pieces that `splitContent` finds, and nothing else. */
  lemma RendererAgreesWithSplit(word: char -> bool, s: string)
    requires OnlyMentions(s)
    ensures Merged(NodesOf(word, s)) == Some(PartsOf(Tokens(s)))
  {
    NodesAgreeWithParts(word, s, 0, "");
    PrependNothing(PartsOf(Tokens(s)));
    assert s[0..] == s;
  }
}
