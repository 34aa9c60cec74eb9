/** Where a long head is cut (web/lib/message-layers.ts, lines 64 to 89), and what counts as a link there. */
module LayersCut {
  import opened Options
  import opened Text
  import opened Layers
  import opened LayersProps

  // ---- links ----

  /** `[t](u)`, without a bracket or a line break in `t`, or a parenthesis or a line break in `u`. */
  ghost predicate LinkOf(x: string, t: string, u: string) {
    && x == "[" + t + "](" + u + ")"
    && ']' !in t && '\n' !in t && ')' !in u && '\n' !in u
  }

  ghost predicate IsLink(x: string) {
    exists t, u :: LinkOf(x, t, u)
  }

  lemma {:induction false} RunLenIs(t: string, stop: char, rest: string)
    requires stop !in t && '\n' !in t && rest != "" && rest[0] == stop
    ensures RunLen(t + rest, stop) == |t|
  {
    if t == "" {
      assert t + rest == rest;
    } else {
      assert (t + rest)[1..] == t[1..] + rest;
      RunLenIs(t[1..], stop, rest);
    }
  }

  lemma {:induction false} RunLenSays(s: string, stop: char)
    ensures var n := RunLen(s, stop); forall k :: 0 <= k < n ==> s[k] != stop && s[k] != '\n'
  {
    if s != "" && s[0] != stop && s[0] != '\n' { RunLenSays(s[1..], stop); }
  }

  lemma WrittenLinkIsFound(s: string, x: string, t: string, u: string)
    requires x <= s && LinkOf(x, t, u)
    ensures LinkLen(s) == Some(|x|)
  {
    var after := s[|x|..];
    assert s == x + after;
    var tail := ")" + after;
    var rest := "](" + (u + tail);
    assert s[1..] == t + rest;
    RunLenIs(t, ']', rest);
    assert s[1 + |t|..] == rest && rest[2..] == u + tail;
    RunLenIs(u, ')', tail);
    assert rest[2 + |u|] == ')';
  }

  lemma FoundLinkIsWritten(s: string)
    requires LinkLen(s).Some?
    ensures IsLink(s[..LinkLen(s).value])
  {
    hide RunLen;
    var n := RunLen(s[1..], ']');
    var rest := s[1 + n..];
    var m := RunLen(rest[2..], ')');
    RunLenSays(s[1..], ']');
    RunLenSays(rest[2..], ')');
    var t, u := s[1..1 + n], rest[2..2 + m];
    assert t == s[1..][..n] && u == rest[2..][..m];
    assert s[..n + m + 4] == "[" + t + "](" + u + ")" by {
      assert rest[..m + 3] == "](" + u + ")";
      assert s[..n + m + 4] == "[" + t + rest[..m + 3];
    }
    assert LinkOf(s[..n + m + 4], t, u);
  }

  /** A link begins at `k`. */
  ghost predicate LinkAt(text: string, k: nat, e: nat) {
    k <= e <= |text| && IsLink(text[k..e])
  }

  lemma LinkAtIff(text: string, k: nat, e: nat)
    requires k <= |text|
    ensures LinkAt(text, k, e) <==> LinkLen(text[k..]).Some? && e == k + LinkLen(text[k..]).value
  {
    hide LinkLen;
    var s := text[k..];
    if LinkLen(s).Some? {
      FoundLinkIsWritten(s);
      assert s[..LinkLen(s).value] == text[k..k + LinkLen(s).value];
    }
    if LinkAt(text, k, e) {
      var t, u :| LinkOf(text[k..e], t, u);
      assert s[..e - k] == text[k..e];
      WrittenLinkIsFound(s, text[k..e], t, u);
    }
  }

  /** The links of a text from `from` on: the leftmost one, and then those behind it. */
  lemma {:induction false} LinksAreFound(text: string, from: nat)
    requires from <= |text|
    ensures var spans := LinkSpans(text, from);
            if spans == [] then forall k, e :: from <= k ==> !LinkAt(text, k, e)
            else
              && from <= spans[0].a < spans[0].b <= |text|
              && LinkAt(text, spans[0].a, spans[0].b) && (forall k, e :: from <= k < spans[0].a ==> !LinkAt(text, k, e))
              && spans[1..] == LinkSpans(text, spans[0].b)
    decreases |text| - from
  {
    hide LinkLen, IsLink;
    if from < |text| {
      forall e ensures LinkAt(text, from, e) <==> LinkLen(text[from..]).Some? && e == from + LinkLen(text[from..]).value {
        LinkAtIff(text, from, e);
      }
      if LinkLen(text[from..]).None? { LinksAreFound(text, from + 1); }
    } else {
      forall k, e | from <= k ensures !LinkAt(text, k, e) { NoLinkAtEnd(text, k, e); }
    }
  }

  lemma NothingIsNoLink()
    ensures !IsLink("")
  {
  }

  lemma NoLinkAtEnd(text: string, k: nat, e: nat)
    requires |text| <= k
    ensures !LinkAt(text, k, e)
  {
    hide IsLink;
    NothingIsNoLink();
    if k == |text| { assert text[|text|..|text|] == ""; }
  }

  // ---- the cut ----

  /** A sentence or a line ends in front of `e`, within the first 400 characters and not in the first 80. */
  ghost predicate SentenceEnd(text: string, e: int)
    requires |text| > 400
  {
    && 80 <= e <= 400
    && (text[e - 1] == '\n'
        || (text[e - 1] in ['.', '?', '!', '\U{3002}'] && (e == 400 || IsSpace(text[e]))))
  }

  ghost predicate SpaceAt(text: string, p: int)
    requires |text| > 400
  {
    80 <= p < 400 && text[p] == ' '
  }

  /** Where the text wants to be cut: behind its last sentence, else at its last space, else at 400. */
  ghost predicate Wanted(text: string, w: nat)
    requires |text| > 400
  {
    if exists e :: SentenceEnd(text, e) then SentenceEnd(text, w) && forall e :: SentenceEnd(text, e) ==> e <= w
    else if exists p :: SpaceAt(text, p) then SpaceAt(text, w) && forall p :: SpaceAt(text, p) ==> p <= w
    else w == 400
  }

  lemma BoundaryIff(text: string, e: nat)
    requires |text| > 400 && 80 <= e <= 400
    ensures Boundary(text[..400], e - 1) <==> SentenceEnd(text, e)
  {
    hide IsSpace;
    var win := text[..400];
    assert win[e - 1] == text[e - 1];
    if e < 400 { assert win[e] == text[e]; }
  }

  lemma {:induction false} SentenceCutIs(text: string, k: nat)
    requires |text| > 400 && k <= 400
    ensures match SentenceCut(text[..400], k)
            case Some(c) => SentenceEnd(text, c) && c <= k && forall e :: SentenceEnd(text, e) && e <= k ==> e <= c
            case None => forall e :: SentenceEnd(text, e) ==> e > k
    decreases k
  {
    hide Boundary, SentenceEnd;
    if k > 0 {
      if k >= 80 { BoundaryIff(text, k); }
      if !(k >= 80 && Boundary(text[..400], k - 1)) {
        SentenceCutIs(text, k - 1);
        TooEarly(text, k);
      }
    } else {
      TooEarly(text, 0);
    }
  }

  lemma TooEarly(text: string, k: int)
    requires |text| > 400
    ensures k < 80 ==> !SentenceEnd(text, k)
    ensures forall e :: SentenceEnd(text, e) ==> e >= 80
  {
  }

  lemma {:induction false} LastSpaceIs(text: string, k: nat)
    requires |text| > 400 && k <= 400
    ensures match LastSpace(text[..400], k)
            case Some(p) => p < k && text[p] == ' ' && forall q :: p < q < k ==> text[q] != ' '
            case None => forall q :: 0 <= q < k ==> text[q] != ' '
    decreases k
  {
    if k > 0 && text[..400][k - 1] != ' ' { LastSpaceIs(text, k - 1); }
  }

  lemma FirstCutIsWanted(text: string)
    requires |text| > 400
    ensures Wanted(text, FirstCut(text).0)
    ensures FirstCut(text).1 <==> exists e :: SentenceEnd(text, e)
  {
    hide SentenceCut, LastSpace, SentenceEnd;
    SentenceCutIs(text, 400);
    LastSpaceIs(text, 400);
    NoneLater(text);
    var win := text[..AUTO_HEAD_CHARS];
    assert |win| == 400 && win == text[..400];
    var w := FirstCut(text).0;
    if SentenceCut(win, 400).None? {
      assert !exists e :: SentenceEnd(text, e);
      var sp := LastSpace(win, 400);
      assert sp.Some? && sp.value >= 80 ==> SpaceAt(text, sp.value) && w == sp.value;
    }
  }

  lemma NoneLater(text: string)
    requires |text| > 400
    ensures forall e :: SentenceEnd(text, e) ==> e <= 400
  {
  }

  /**
   * The cut of a text of more than 400 characters, read off the text: where it wants to be cut, or in front of the link
   * that this would cut in two. It is marked with an ellipsis unless a sentence or a line ends there.
   */
  lemma CutIs(text: string, w: nat)
    requires |text| > 400 && Wanted(text, w)
    ensures var cut, c := CutIndex(text), HeadOf(text);
            && ((forall s :: s in LinkSpans(text, 0) ==> !(s.a < w < s.b)) ==> cut == w)
            && (forall s :: s in LinkSpans(text, 0) && s.a < w < s.b ==> cut == s.a)
            && c == if cut == 0 then Cut("", text, false)
                    else Cut(TrimEnd(text[..cut]), DropIndent(text[cut..]), cut != w || !SentenceEnd(text, w))
  {
    hide LinkSpans, SentenceEnd, SpaceAt, FirstCut, TrimEnd, DropIndent;
    FirstCutIsWanted(text);
    WantedIsOne(text, w, FirstCut(text).0);
    SentenceIsWanted(text, w);
    var spans := LinkSpans(text, 0);
    ChainIsOrdered(spans);
    PulledBackIsClean(spans, w);
    PullBackIsLower(spans, w);
    OneLinkIsCut(spans, w);
  }

  lemma WantedIsOne(text: string, v: nat, w: nat)
    requires |text| > 400 && Wanted(text, v) && Wanted(text, w)
    ensures v == w
  {
    hide SentenceEnd, SpaceAt;
  }

  lemma SentenceIsWanted(text: string, w: nat)
    requires |text| > 400 && Wanted(text, w)
    ensures SentenceEnd(text, w) <==> exists e :: SentenceEnd(text, e)
  {
    hide SentenceEnd, SpaceAt;
  }

  lemma OneLinkIsCut(spans: seq<Span>, w: nat)
    requires Ordered(spans)
    ensures forall s, t :: s in spans && t in spans && s.a < w < s.b && t.a < w < t.b ==> s == t
    ensures forall s :: s in spans && s.a < w < s.b ==> PullBack(spans, w) == s.a
  {
    PulledBackIsClean(spans, w);
    forall s, t | s in spans && t in spans && s.a < w < s.b && t.a < w < t.b ensures s == t {
      var j :| 0 <= j < |spans| && spans[j] == s;
      var k :| 0 <= k < |spans| && spans[k] == t;
    }
  }

  /** The rest of the head loses the blanks and tabs in front, and nothing else. */
  lemma {:induction false} IndentIs(s: string)
    ensures var r := DropIndent(s);
            && |r| <= |s| && r == s[|s| - |r|..] && (r != "" ==> r[0] != ' ' && r[0] != '\t')
            && forall k :: 0 <= k < |s| - |r| ==> s[k] == ' ' || s[k] == '\t'
  {
    if s != "" && (s[0] == ' ' || s[0] == '\t') { IndentIs(s[1..]); }
  }
}
