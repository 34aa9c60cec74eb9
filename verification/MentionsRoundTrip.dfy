/**
 * Sending a text and showing it again: exactly when the screen shows what was written, and what the server then finds
 * (web/lib/mentions.ts, lines 85 to 123).
 */
module MentionsRoundTrip {
  import opened Options
  import opened Seqs
  import opened Text
  import opened Sorting
  import opened Mentions
  import opened MentionsWire

  // ---- the condition ----

  /** A `[@` in the text whose `@` names nobody: it is copied as it stands. */
  predicate Leftover(seg: string, i: nat, known: seq<Target>)
    requires i < |seg|
  {
    seg[i] == '[' && i + 1 < |seg| && seg[i + 1] == '@' && HitAt(seg, i + 1, known).None?
  }

  /** From `j` on a name is replaced before any `]` comes. */
  predicate HitFirst(seg: string, j: nat, known: seq<Target>)
    requires j <= |seg|
    decreases |seg| - j
  {
    j < |seg| && (HitAt(seg, j, known).Some? || (seg[j] != ']' && HitFirst(seg, j + 1, known)))
  }

  predicate TrappedAt(seg: string, i: nat, known: seq<Target>)
    requires i < |seg|
  {
    Leftover(seg, i, known) && HitFirst(seg, i + 1, known)
  }

  /** In a piece of text between links, from `i` on: some `[@` that names nobody has a name behind it before any `]`. */
  predicate Trapped(seg: string, i: nat, known: seq<Target>)
    requires i <= |seg|
    decreases |seg| - i
  {
    i < |seg| &&
    match HitAt(seg, i, known)
    case Some(t) => Trapped(seg, i + 1 + |t.name|, known)
    case None => TrappedAt(seg, i, known) || Trapped(seg, i + 1, known)
  }

  /** The same for a text with links: some piece between them is trapped. */
  predicate TrappedText(text: string, last: nat, known: seq<Target>)
    requires last <= |text|
    decreases |text| - last
  {
    TokensUpToMatch(text, last);
    var ms := AllMatches(text, last);
    if ms == [] then Trapped(text[last..], 0, known)
    else Trapped(text[last..ms[0].index], 0, known) || TrappedText(text, ms[0].index + ms[0].m.len, known)
  }

  // ---- copied text ----

  lemma ReplacedAt(seg: string, i: nat, known: seq<Target>)
    requires i < |seg|
    ensures HitAt(seg, i, known).None? ==> Replaced(seg, i, known) == [seg[i]] + Replaced(seg, i + 1, known)
    ensures HitAt(seg, i, known).Some? ==>
              var t := HitAt(seg, i, known).value;
              Replaced(seg, i, known) == MentionLink(t) + Replaced(seg, i + 1 + |t.name|, known)
  {
    hide HitAt, MentionLink;
  }

  lemma LinkStarts(t: Target)
    ensures |MentionLink(t)| > 1 && MentionLink(t)[0] == '[' && MentionLink(t)[1] == '@'
  {
  }

  /** Without a name before the next `]` the text up to that `]`, or to its end, is copied. */
  lemma {:induction false} NoHitCopies(seg: string, j: nat, known: seq<Target>) returns (k: nat)
    requires j <= |seg| && !HitFirst(seg, j, known)
    ensures j <= k <= |seg| && ']' !in seg[j..k] && (k < |seg| ==> seg[k] == ']')
    ensures Replaced(seg, j, known) == seg[j..k] + Replaced(seg, k, known)
    decreases |seg| - j
  {
    hide HitAt, Replaced;
    if j == |seg| || seg[j] == ']' {
      k := j;
      assert "" + Replaced(seg, j, known) == Replaced(seg, j, known);
    } else {
      k := NoHitCopies(seg, j + 1, known);
      ReplacedAt(seg, j, known);
      assert seg[j..k] == [seg[j]] + seg[j + 1..k];
      assert [seg[j]] + (seg[j + 1..k] + Replaced(seg, k, known)) == seg[j..k] + Replaced(seg, k, known);
    }
  }

  /** Otherwise the text up to the name is copied. */
  lemma {:induction false} HitCopies(seg: string, j: nat, known: seq<Target>) returns (q: nat)
    requires j <= |seg| && HitFirst(seg, j, known)
    ensures j <= q < |seg| && ']' !in seg[j..q] && HitAt(seg, q, known).Some?
    ensures Replaced(seg, j, known) == seg[j..q] + Replaced(seg, q, known)
    decreases |seg| - j
  {
    hide HitAt, Replaced;
    if HitAt(seg, j, known).Some? {
      q := j;
      assert "" + Replaced(seg, j, known) == Replaced(seg, j, known);
    } else {
      q := HitCopies(seg, j + 1, known);
      ReplacedAt(seg, j, known);
      assert seg[j..q] == [seg[j]] + seg[j + 1..q];
      assert [seg[j]] + (seg[j + 1..q] + Replaced(seg, q, known)) == seg[j..q] + Replaced(seg, q, known);
    }
  }

  /** Text without a `[` that stands at the start of the wire text stands at the start of the screen text. */
  lemma {:induction false} CopiedPrefix(a: string, seg: string, j: nat, known: seq<Target>, tail: string)
    requires j <= |seg| && '[' !in a && a <= Replaced(seg, j, known) + tail && (tail == "" || tail[0] == '[')
    ensures a <= seg[j..]
    decreases |a|
  {
    hide HitAt, Replaced, MentionLink;
    if a != "" {
      assert a[0] in a && a[0] != '[';
      var wire := Replaced(seg, j, known) + tail;
      assert a[0] == wire[0];
      if j == |seg| {
        NothingReplaced(seg, known);
      } else {
        ReplacedAt(seg, j, known);
        if HitAt(seg, j, known).Some? {
          LinkStarts(HitAt(seg, j, known).value);
        } else {
          assert wire == [seg[j]] + (Replaced(seg, j + 1, known) + tail);
          assert wire[1..] == Replaced(seg, j + 1, known) + tail;
          assert a[1..] <= wire[1..];
          CopiedPrefix(a[1..], seg, j + 1, known, tail);
          assert a == [a[0]] + a[1..] && seg[j..] == [seg[j]] + seg[j + 1..];
        }
      }
    }
  }

  // ---- a copied character is read as a character ----

  /** What follows a piece on the wire and in the text: nothing, or the same link. */
  ghost predicate SameTails(tail: string, orig: string) {
    || (tail == "" && orig == "")
    || exists l, x, y :: LinkTails(l, x, y, tail, orig)
  }

  ghost predicate LinkTails(l: Target, x: string, y: string, tail: string, orig: string) {
    Linkable(l) && tail == Raw(l) + x && orig == Raw(l) + y
  }

  lemma TailStarts(tail: string, orig: string)
    requires SameTails(tail, orig)
    ensures tail == "" || tail[0] == '['
  {
    hide Raw;
    if tail != "" {
      var l, x, y :| LinkTails(l, x, y, tail, orig);
      RawStarts(l);
    }
  }

  /** A link behind an open `[@` is one longer link with it. */
  lemma JoinedRaw(u: string, l: Target) returns (t: Target)
    requires Linkable(l) && ']' !in u
    ensures Linkable(t) && t.name == u + "[@" + l.name && Raw(t) == "[@" + u + Raw(l)
  {
    hide Middle, Address, IsIdChar;
    t := Target(l.kind, l.id, u + "[@" + l.name);
    assert "[@" + (u + "[@" + l.name) + Middle() + Address(l.kind, l.id)
        == "[@" + u + ("[@" + l.name + Middle() + Address(l.kind, l.id));
  }

  lemma RawParts(t: Target)
    requires Linkable(t)
    ensures var p, a := "[@" + t.name + "]", Raw(t)[3 + |t.name|..];
            Raw(t) == p + a && '[' !in a && |Raw(t)| > 3 + |t.name|
  {
    hide Linkable;
    NoBracketInAddress(t);
    var rest := Middle()[1..] + Address(t.kind, t.id);
    assert Middle() == "]" + Middle()[1..];
    assert Raw(t) == ("[@" + t.name + "]") + rest;
    assert Raw(t)[3 + |t.name|..] == rest;
  }

  lemma NoBracketInAddress(t: Target)
    requires Linkable(t)
    ensures '[' !in Middle()[1..] + Address(t.kind, t.id)
  {
    assert !IsIdChar('[');
    assert '[' !in t.id;
    assert '[' !in Word(t.kind);
  }

  lemma OpeningIsLeftover(seg: string, i: nat, known: seq<Target>, tail: string)
    requires i < |seg| && HitAt(seg, i, known).None? && (tail == "" || tail[0] == '[')
    requires var s := Replaced(seg, i, known) + tail; |s| > 1 && s[0] == '[' && s[1] == '@'
    ensures Leftover(seg, i, known)
  {
    hide HitAt, Replaced, MentionLink;
    ReplacedAt(seg, i, known);
    var rest := Replaced(seg, i + 1, known) + tail;
    assert Replaced(seg, i, known) + tail == [seg[i]] + rest;
    assert rest[0] == '@';
    if i + 1 == |seg| {
      NothingReplaced(seg, known);
    } else {
      ReplacedAt(seg, i + 1, known);
      if HitAt(seg, i + 1, known).Some? { LinkStarts(HitAt(seg, i + 1, known).value); }
    }
  }

  /** The case without a `]` up to the end of the piece. */
  lemma OpenToTheEnd(seg: string, i: nat, t: Target, tail: string, orig: string)
    requires i + 1 < |seg| && seg[i] == '[' && seg[i + 1] == '@' && ']' !in seg[i + 1..]
    requires SameTails(tail, orig) && Linkable(t) && Raw(t) <= seg[i..] + tail
    ensures MatchLink(seg[i..] + orig).Some?
  {
    hide MatchLink, Linkable;
    var u := seg[i + 2..];
    assert seg[i..] == "[@" + u && seg[i + 1..] == "@" + u;
    assert tail == "" ==> (seg[i..] + tail)[1..] == seg[i + 1..];
    if tail == "" {
      CloseIsInside(t, seg[i..] + tail);
    } else {
      var l, x, y :| LinkTails(l, x, y, tail, orig);
      var t2 := JoinedRaw(u, l);
      assert seg[i..] + (Raw(l) + y) == Raw(t2) + y;
      RawIsMatched(t2, y);
    }
  }

  lemma CloseIsInside(t: Target, s: string)
    requires Linkable(t) && Raw(t) <= s
    ensures ']' in s[1..]
  {
    RawParts(t);
    hide Raw, Linkable;
    var k := 2 + |t.name|;
    assert Raw(t)[k] == ("[@" + t.name + "]")[k] == ']';
    assert s[1..][k - 1] == s[k] == Raw(t)[k];
  }

  /** The case with a copied `]`: the link that is read on the wire stands in the text as well. */
  lemma ClosedByACopy(seg: string, i: nat, k: nat, t: Target, known: seq<Target>, tail: string, orig: string)
    requires i + 1 < k < |seg| && seg[i] == '[' && ']' !in seg[i + 1..k] && seg[k] == ']'
    requires Linkable(t) && (tail == "" || tail[0] == '[')
    requires Raw(t) <= seg[i..k] + (Replaced(seg, k, known) + tail)
    ensures MatchLink(seg[i..] + orig).Some?
  {
    hide MatchLink, HitAt, Replaced, Raw;
    var r := Replaced(seg, k + 1, known) + tail;
    ReplacedAt(seg, k, known);
    assert HitAt(seg, k, known).None?;
    var s := seg[i..k] + (Replaced(seg, k, known) + tail);
    assert s == seg[i..k] + "]" + r;
    RawParts(t);
    var a := Raw(t)[3 + |t.name|..];
    FirstClose(seg[i..k], r, t, s);
    assert s[k - i + 1..] == r;
    assert a <= r;
    CopiedPrefix(a, seg, k + 1, known, tail);
    assert Raw(t)[..k - i + 1] == s[..k - i + 1] == seg[i..k] + "]" == seg[i..k + 1];
    assert Raw(t) == Raw(t)[..k - i + 1] + a;
    assert seg[i..] == seg[i..k + 1] + seg[k + 1..];
    assert Raw(t) <= seg[i..];
    var rest := seg[i..][|Raw(t)|..] + orig;
    assert seg[i..] + orig == Raw(t) + rest;
    RawIsMatched(t, rest);
  }

  /** The first `]` of a link that `s` starts with is the first `]` of `s`. */
  lemma FirstClose(before: string, r: string, t: Target, s: string)
    requires s == before + "]" + r && before != "" && before[0] == '[' && ']' !in before[1..]
    requires Linkable(t) && Raw(t) <= s
    ensures |before| == 2 + |t.name|
  {
    RawParts(t);
    hide Raw;
    var n := 2 + |t.name|;
    var p := "[@" + t.name + "]";
    assert Raw(t)[n] == p[n] == ']';
    assert s[n] == ']' && s[|before|] == ']';
    if n < |before| {
      NoCloseBefore(before, n);
    } else if |before| < n {
      assert Raw(t)[|before|] == p[|before|] == ']';
      NoCloseInName(t, |before|);
    }
  }

  lemma NoCloseBefore(before: string, n: int)
    requires 0 < n < |before| && ']' !in before[1..]
    ensures before[n] != ']'
  {
    assert before[1..][n - 1] == before[n];
  }

  lemma NoCloseInName(t: Target, k: nat)
    requires Linkable(t) && 0 < k < 2 + |t.name|
    ensures ("[@" + t.name + "]")[k] != ']'
  {
    if k >= 2 { assert t.name[k - 2] in t.name; }
  }

  /** A copied character that is no trap and starts no link in the text starts none on the wire. */
  lemma CopyIsPlain(seg: string, i: nat, known: seq<Target>, tail: string, orig: string)
    requires i < |seg| && HitAt(seg, i, known).None? && !TrappedAt(seg, i, known)
    requires SameTails(tail, orig) && MatchLink(seg[i..] + orig).None?
    ensures MatchLink(Replaced(seg, i, known) + tail).None?
  {
    hide MatchLink, HitAt, Replaced, SameTails, Linkable;
    var s := Replaced(seg, i, known) + tail;
    if MatchLink(s).Some? {
      var t := MatchedTarget(s);
      TailStarts(tail, orig);
      OpeningIsLeftover(seg, i, known, tail);
      var k := NoHitCopies(seg, i + 1, known);
      ReplacedAt(seg, i, known);
      assert seg[i..k] == [seg[i]] + seg[i + 1..k];
      assert s == seg[i..k] + (Replaced(seg, k, known) + tail);
      if k == |seg| {
        NothingReplaced(seg, known);
        assert "" + tail == tail && seg[i..k] == seg[i..] && seg[i + 1..k] == seg[i + 1..];
        OpenToTheEnd(seg, i, t, tail, orig);
      } else {
        ClosedByACopy(seg, i, k, t, known, tail, orig);
      }
    }
  }

  lemma MatchedTarget(s: string) returns (t: Target)
    requires MatchLink(s).Some?
    ensures Linkable(t) && Raw(t) <= s && |s| > 1 && s[0] == '[' && s[1] == '@'
  {
    MatchIsRaw(s);
    t := MatchLink(s).value.target;
    hide MatchLink, Linkable;
    assert Raw(t)[0] == '[' && Raw(t)[1] == '@';
  }

  // ---- a trap is read as a longer link ----

  lemma MentionLinkIsRaw(t: Target)
    requires Sound(t)
    ensures MentionLink(t) == Raw(Canon(t)) && Linkable(Canon(t))
  {
    assert Raw(EVERYBODY) == "[@all](mention://all/all)";
    assert Linkable(EVERYBODY) by { assert forall c :: c in "all" ==> IsIdChar(c); }
  }

  lemma TrapShows(seg: string, i: nat, known: seq<Target>, tail: string)
    requires i < |seg| && HitAt(seg, i, known).None? && TrappedAt(seg, i, known) && AllSound(known)
    ensures var shown := ScreenOf(Tokens(Replaced(seg, i, known) + tail)); shown != "" && shown[0] == '@' && seg[i] == '['
  {
    hide HitAt, Replaced, MentionLink, MatchLink, Raw, Tokens, Linkable;
    var q := HitCopies(seg, i + 1, known);
    var t := HitAt(seg, q, known).value;
    HitIsKnown(seg, q, known);
    MentionLinkIsRaw(t);
    ReplacedAt(seg, i, known);
    ReplacedAt(seg, q, known);
    var rest := Replaced(seg, q + 1 + |t.name|, known) + tail;
    var u := seg[i + 2..q];
    assert seg[i + 1..q] == "@" + u;
    assert ']' !in u;
    var t2 := JoinedRaw(u, Canon(t));
    var s := Replaced(seg, i, known) + tail;
    assert s == "[" + (("@" + u) + (Raw(Canon(t)) + Replaced(seg, q + 1 + |t.name|, known))) + tail;
    assert s == ("[@" + u + Raw(Canon(t))) + rest;
    TokensAfterRaw(t2, rest);
    ScreenOfLink(t2, Tokens(rest));
  }

  lemma HitIsKnown(seg: string, q: nat, known: seq<Target>)
    requires q < |seg| && HitAt(seg, q, known).Some? && AllSound(known)
    ensures Sound(HitAt(seg, q, known).value)
  {
    hide Sound;
  }

  lemma ScreenOfLink(t: Target, ts: seq<Token>)
    ensures ScreenOf([Link(t)] + ts) == "@" + t.name + ScreenOf(ts)
  {
    assert ([Link(t)] + ts)[1..] == ts;
  }

  lemma ScreenOfChar(c: char, ts: seq<Token>)
    ensures ScreenOf([Ch(c)] + ts) == [c] + ScreenOf(ts)
  {
    assert ([Ch(c)] + ts)[1..] == ts;
  }

  // ---- a piece of text ----

  /** No link of the text starts inside the piece. */
  ghost predicate NoLinkIn(seg: string, orig: string) {
    forall i :: 0 <= i < |seg| ==> MatchLink(seg[i..] + orig).None?
  }

  lemma TokensAtPlain(c: char, rest: string)
    requires MatchLink([c] + rest).None?
    ensures Tokens([c] + rest) == [Ch(c)] + Tokens(rest)
  {
    hide MatchLink;
    assert ([c] + rest)[1..] == rest;
  }

  /** A piece that is not trapped is read back as exactly the links that were written and the characters between them. */
  lemma {:induction false} TokensOfReplaced(seg: string, i: nat, known: seq<Target>, tail: string, orig: string)
    requires i <= |seg| && AllSound(known) && !Trapped(seg, i, known) && NoLinkIn(seg, orig) && SameTails(tail, orig)
    ensures Tokens(Replaced(seg, i, known) + tail) == ReplacedTokens(seg, i, known) + Tokens(tail)
    decreases |seg| - i
  {
    hide HitAt, Canon, Sound, Tokens, Replaced, MatchLink, SameTails, TrappedAt, AllSound, MentionLink;
    if i == |seg| {
      NothingReplaced(seg, known);
      assert "" + tail == tail;
      assert [] + Tokens(tail) == Tokens(tail);
    } else {
      var hit := HitAt(seg, i, known);
      if hit.Some? {
        TokensOfHit(seg, i, known, tail);
        TokensOfReplaced(seg, i + 1 + |hit.value.name|, known, tail, orig);
        ConsConcat(Link(Canon(hit.value)), ReplacedTokens(seg, i + 1 + |hit.value.name|, known), Tokens(tail));
      } else {
        CopyIsPlain(seg, i, known, tail, orig);
        ReplacedAt(seg, i, known);
        var rest := Replaced(seg, i + 1, known) + tail;
        assert Replaced(seg, i, known) + tail == [seg[i]] + rest;
        TokensAtPlain(seg[i], rest);
        TokensOfReplaced(seg, i + 1, known, tail, orig);
        ConsConcat(Ch(seg[i]), ReplacedTokens(seg, i + 1, known), Tokens(tail));
      }
    }
  }

  /** A trapped piece shows something else than it says, whatever stands behind it. */
  lemma {:induction false} TrappedShowsElse(seg: string, i: nat, known: seq<Target>, tail: string, orig: string, z: string)
    requires i <= |seg| && AllSound(known) && Trapped(seg, i, known) && NoLinkIn(seg, orig) && SameTails(tail, orig)
    ensures ScreenOf(Tokens(Replaced(seg, i, known) + tail)) != seg[i..] + z
    decreases |seg| - i
  {
    hide HitAt, Canon, Sound, Tokens, Replaced, MatchLink, SameTails, TrappedAt, AllSound, MentionLink, ScreenOf;
    var hit := HitAt(seg, i, known);
    var shown := ScreenOf(Tokens(Replaced(seg, i, known) + tail));
    if hit.Some? {
      var n := i + 1 + |hit.value.name|;
      TokensOfHit(seg, i, known, tail);
      ScreenOfLink(Canon(hit.value), Tokens(Replaced(seg, n, known) + tail));
      HitSays(seg, i, known);
      TrappedShowsElse(seg, n, known, tail, orig, z);
      DifferBehind(seg[i..n], ScreenOf(Tokens(Replaced(seg, n, known) + tail)), seg[n..] + z);
      assert seg[i..] + z == seg[i..n] + (seg[n..] + z);
    } else if TrappedAt(seg, i, known) {
      TrapShows(seg, i, known, tail);
      assert (seg[i..] + z)[0] == seg[i];
    } else {
      CopyIsPlain(seg, i, known, tail, orig);
      ReplacedAt(seg, i, known);
      var rest := Replaced(seg, i + 1, known) + tail;
      assert Replaced(seg, i, known) + tail == [seg[i]] + rest;
      TokensAtPlain(seg[i], rest);
      ScreenOfChar(seg[i], Tokens(rest));
      TrappedShowsElse(seg, i + 1, known, tail, orig, z);
      DifferBehind([seg[i]], ScreenOf(Tokens(rest)), seg[i + 1..] + z);
      assert seg[i..] + z == [seg[i]] + (seg[i + 1..] + z);
    }
  }

  lemma DifferBehind(a: string, x: string, y: string)
    requires x != y
    ensures a + x != a + y
  {
    assert (a + x)[|a|..] == x && (a + y)[|a|..] == y;
  }

  lemma HitSays(seg: string, i: nat, known: seq<Target>)
    requires i < |seg| && HitAt(seg, i, known).Some? && AllSound(known)
    ensures var t := HitAt(seg, i, known).value;
            i + 1 + |t.name| <= |seg| && seg[i..i + 1 + |t.name|] == "@" + Canon(t).name
  {
    hide AtBoundary, FindName, Linkable;
    var t := HitAt(seg, i, known).value;
    assert Sound(t) && Canon(t).name == t.name;
    assert seg[i + 1..][..|t.name|] == seg[i + 1..i + 1 + |t.name|];
  }

  // ---- a text with links ----

  lemma {:induction false} NoMatchBefore(text: string, from: nat, j: nat)
    requires from <= j < |text| && (AllMatches(text, from) == [] || j < AllMatches(text, from)[0].index)
    ensures MatchLink(text[j..]).None?
    decreases |text| - from
  {
    hide MatchLink;
    if from < j && MatchLink(text[from..]).None? {
      NoMatchBefore(text, from + 1, j);
    } else {
      NextIsNotHere(text, from);
    }
  }

  lemma NextIsNotHere(text: string, from: nat)
    requires from < |text|
    requires AllMatches(text, from) == [] || from < AllMatches(text, from)[0].index
    ensures MatchLink(text[from..]).None?
  {
    hide MatchLink;
  }

  /** The piece up to the next link, and what comes behind it. */
  lemma PieceIsPlain(text: string, last: nat)
    requires last <= |text|
    ensures var ms := AllMatches(text, last);
            var end := if ms == [] then |text| else ms[0].index;
            last <= end <= |text| && NoLinkIn(text[last..end], text[end..])
  {
    hide MatchLink, AllMatches, Tokens, Chars, Raw, Linkable;
    TokensUpToMatch(text, last);
    var ms := AllMatches(text, last);
    var end := if ms == [] then |text| else ms[0].index;
    forall i | 0 <= i < end - last ensures MatchLink(text[last..end][i..] + text[end..]).None? {
      NoMatchBefore(text, last, last + i);
      assert text[last..end][i..] + text[end..] == text[last + i..];
    }
  }

  lemma NextLinkIs(text: string, last: nat, wire: string) returns (f: Found, next: nat)
    requires last <= |text| && AllMatches(text, last) != []
    ensures f == AllMatches(text, last)[0] && next == f.index + f.m.len && last <= f.index < next <= |text|
    ensures Linkable(f.m.target) && text[f.index..next] == Raw(f.m.target)
    ensures SameTails(Raw(f.m.target) + wire, text[f.index..])
    ensures Tokens(text[last..]) == Chars(text[last..f.index]) + [Link(f.m.target)] + Tokens(text[next..])
  {
    hide MatchLink, AllMatches, Tokens, Chars, Raw, Linkable;
    TokensUpToMatch(text, last);
    f := AllMatches(text, last)[0];
    next := f.index + f.m.len;
    assert text[f.index..] == text[f.index..next] + text[next..];
    assert LinkTails(f.m.target, wire, text[next..], Raw(f.m.target) + wire, text[f.index..]);
  }

  lemma {:induction false} TokensOfWire(text: string, last: nat, known: seq<Target>)
    requires last <= |text| && !TrappedText(text, last, known) && AllSound(known)
    ensures Tokens(WireFrom(text, last, known)) == WireTokens(text, last, known)
    decreases |text| - last
  {
    hide AllMatches, Tokens, Raw, Linkable, Replaced, ReplacedTokens, AllSound, Trapped, NoLinkIn, SameTails, Chars;
    PieceIsPlain(text, last);
    var ms := AllMatches(text, last);
    if ms == [] {
      assert text[last..|text|] == text[last..] && text[|text|..] == "";
      NoTails();
      TokensOfReplaced(text[last..], 0, known, "", "");
      assert Replaced(text[last..], 0, known) + "" == Replaced(text[last..], 0, known);
      NoTokens();
      assert ReplacedTokens(text[last..], 0, known) + [] == ReplacedTokens(text[last..], 0, known);
    } else {
      var rest := WireFrom(text, ms[0].index + ms[0].m.len, known) by { TokensUpToMatch(text, last); }
      var f, next := NextLinkIs(text, last, rest);
      var seg := text[last..f.index];
      TokensOfWire(text, next, known);
      TokensAfterRaw(f.m.target, rest);
      TokensOfReplaced(seg, 0, known, Raw(f.m.target) + rest, text[f.index..]);
      assert Replaced(seg, 0, known) + (Raw(f.m.target) + rest) == Replaced(seg, 0, known) + Raw(f.m.target) + rest;
      assert ReplacedTokens(seg, 0, known) + ([Link(f.m.target)] + Tokens(rest))
          == ReplacedTokens(seg, 0, known) + [Link(f.m.target)] + Tokens(rest);
    }
  }

  lemma NoTails()
    ensures SameTails("", "")
  {
  }

  lemma ScreenOfTail(t: Target, wire: string)
    requires Linkable(t)
    ensures ScreenOf(Tokens(Raw(t) + wire)) == "@" + t.name + ScreenOf(Tokens(wire))
  {
    hide Tokens, Raw, Linkable, ScreenOf;
    TokensAfterRaw(t, wire);
    ScreenOfLink(t, Tokens(wire));
  }

  lemma {:induction false} TrappedTextShowsElse(text: string, last: nat, known: seq<Target>)
    requires last <= |text| && TrappedText(text, last, known) && AllSound(known)
    ensures ScreenOf(Tokens(WireFrom(text, last, known))) != ScreenOf(Tokens(text[last..]))
    decreases |text| - last
  {
    hide AllMatches, Tokens, Raw, Linkable, Replaced, ReplacedTokens, AllSound, Trapped, NoLinkIn, SameTails, Chars, ScreenOf;
    PieceIsPlain(text, last);
    var ms := AllMatches(text, last);
    if ms == [] {
      var seg := text[last..];
      assert text[last..|text|] == seg && text[|text|..] == "";
      NoTails();
      assert Replaced(seg, 0, known) + "" == Replaced(seg, 0, known) && seg[0..] + "" == seg;
      TrappedShowsElse(seg, 0, known, "", "", "");
      TokensUpToMatch(text, last);
      ScreenOfChars(seg);
    } else {
      var rest := WireFrom(text, ms[0].index + ms[0].m.len, known) by { TokensUpToMatch(text, last); }
      var f, next := NextLinkIs(text, last, rest);
      var seg, t := text[last..f.index], f.m.target;
      var behind := "@" + t.name + ScreenOf(Tokens(text[next..]));
      ScreenOfThree(Chars(seg), t, Tokens(text[next..]));
      ScreenOfChars(seg);
      assert seg + ("@" + t.name) + ScreenOf(Tokens(text[next..])) == seg + behind;
      assert Replaced(seg, 0, known) + (Raw(t) + rest) == Replaced(seg, 0, known) + Raw(t) + rest;
      assert seg[0..] == seg;
      if Trapped(seg, 0, known) {
        TrappedShowsElse(seg, 0, known, Raw(t) + rest, text[f.index..], behind);
      } else {
        TrappedTextShowsElse(text, next, known);
        TokensOfReplaced(seg, 0, known, Raw(t) + rest, text[f.index..]);
        ScreenConcat(ReplacedTokens(seg, 0, known), Tokens(Raw(t) + rest));
        ScreenOfReplaced(seg, 0, known);
        ScreenOfTail(t, rest);
        DifferBehind("@" + t.name, ScreenOf(Tokens(rest)), ScreenOf(Tokens(text[next..])));
        DifferBehind(seg, "@" + t.name + ScreenOf(Tokens(rest)), behind);
      }
    }
  }

  // ---- the round trip ----

  /**
   * Sending a text and showing it again shows what was written if and only if no `[@` that names nobody has a
   * replaced name behind it, in the same piece between links and before any `]`: such a `[@` swallows the link.
   */
  lemma RoundTripIff(text: string, targets: seq<Target>)
    requires SoundTargets(targets)
    ensures ToDisplay(Wire(text, targets)) == ToDisplay(text) <==> !TrappedText(text, 0, Known(targets))
  {
    hide Tokens, WireFrom, WireTokens, TrappedText, ScreenOf, SoundTargets, AllSound, Known;
    KnownAreSound(targets);
    assert text[0..] == text;
    if TrappedText(text, 0, Known(targets)) {
      TrappedTextShowsElse(text, 0, Known(targets));
    } else {
      TokensOfWire(text, 0, Known(targets));
      ScreenOfWire(text, 0, Known(targets));
    }
  }

  /** The server finds in such a text exactly what the text mentions. */
  lemma SentMentions(text: string, targets: seq<Target>)
    requires SoundTargets(targets) && !TrappedText(text, 0, Known(targets))
    ensures TargetsOf(Tokens(Wire(text, targets))) == Mentioned(text, 0, Known(targets))
  {
    hide Tokens, WireFrom, WireTokens, TrappedText, TargetsOf, SoundTargets, AllSound, Known, Mentioned;
    KnownAreSound(targets);
    TokensOfWire(text, 0, Known(targets));
    TargetsOfWire(text, 0, Known(targets));
  }

  lemma {:induction false} NoOpeningNoTrap(seg: string, i: nat, known: seq<Target>)
    requires i <= |seg| && NoOpening(seg)
    ensures !Trapped(seg, i, known)
    decreases |seg| - i
  {
    hide HitAt;
    if i < |seg| {
      var hit := HitAt(seg, i, known);
      NoOpeningNoTrap(seg, if hit.Some? then i + 1 + |hit.value.name| else i + 1, known);
    }
  }

  lemma {:induction false} OnlyLinksNoTrap(text: string, last: nat, known: seq<Target>)
    requires last <= |text| && OnlyLinksOpen(text, last)
    ensures !TrappedText(text, last, known)
    decreases |text| - last
  {
    hide AllMatches, NoOpening, Trapped, Tokens, Chars, Raw, Linkable;
    TokensUpToMatch(text, last);
    var ms := AllMatches(text, last);
    if ms == [] {
      NoOpeningNoTrap(text[last..], 0, known);
    } else {
      NoOpeningNoTrap(text[last..ms[0].index], 0, known);
      OnlyLinksNoTrap(text, ms[0].index + ms[0].m.len, known);
    }
  }

  /** A simple case: outside links there is no `[@`. */
  lemma RoundTrip(text: string, targets: seq<Target>)
    requires OnlyLinksOpen(text, 0) && SoundTargets(targets)
    ensures ToDisplay(Wire(text, targets)) == ToDisplay(text)
  {
    hide ToDisplay, Wire, OnlyLinksOpen, SoundTargets, TrappedText;
    OnlyLinksNoTrap(text, 0, Known(targets));
    RoundTripIff(text, targets);
  }

  lemma {:induction false} NoOpeningNoMatch(text: string, last: nat)
    requires last <= |text| && NoOpening(text)
    ensures AllMatches(text, last) == []
    decreases |text| - last
  {
    if last < |text| {
      var s := text[last..];
      assert s[0] == text[last] && (|s| > 1 ==> s[1] == text[last + 1]);
      assert MatchLink(s).None?;
      hide MatchLink;
      NoOpeningNoMatch(text, last + 1);
    }
  }

  /** The case of a composer: no `[@` in the text, and the screen gets back the text itself. */
  lemma PlainRoundTrip(text: string, targets: seq<Target>)
    requires NoOpening(text) && SoundTargets(targets)
    ensures ToDisplay(Wire(text, targets)) == text
  {
    NoOpeningNoMatch(text, 0);
    assert text[0..] == text;
    hide Tokens, ScreenOf, AllMatches, SoundTargets, NoOpening;
    RoundTrip(text, targets);
    TokensUpToMatch(text, 0);
    ScreenOfChars(text);
  }

  lemma KnownWithOne(a: Target)
    requires |a.name| == 1
    ensures Known([a]) == [EVERYBODY, a]
  {
    assert ([a] + [EVERYBODY])[1..] == [EVERYBODY] && [EVERYBODY][1..] == [] && [a, EVERYBODY][1..] == [EVERYBODY];
    assert Named([EVERYBODY]) == [EVERYBODY] + [] == [EVERYBODY];
    assert Named([a] + [EVERYBODY]) == [a] + [EVERYBODY] == [a, EVERYBODY];
    assert StableSort([EVERYBODY], LongestFirst) == [EVERYBODY] by { assert StableSort([], LongestFirst) == []; }
    assert Insert(a, [EVERYBODY], LongestFirst) == [EVERYBODY] + Insert(a, [], LongestFirst) == [EVERYBODY, a];
  }

  lemma LeftoverIsCopied(a: Target)
    requires a.name == "A"
    ensures Replaced("[@x @A", 0, [EVERYBODY, a]) == "[@x " + MentionLink(a)
  {
    hide MentionLink, IsSpace;
    var seg, known := "[@x @A", [EVERYBODY, a];
    assert IsSpace(' ') by { SpaceIsSpace(); }
    assert seg[2..] == "x @A" && seg[5..] == "A";
    assert "x @A"[0] == 'x' && "A"[0] == 'A';
    hide FindName;
    assert HitAt(seg, 0, known) == None && HitAt(seg, 1, known) == None && HitAt(seg, 2, known) == None
        && HitAt(seg, 3, known) == None && HitAt(seg, 4, known) == Some(a);
    hide HitAt;
    assert Replaced(seg, 6, known) == "";
    assert Replaced(seg, 4, known) == MentionLink(a) + "" == MentionLink(a);
    assert Replaced(seg, 2, known) == "x" + (" " + MentionLink(a));
    assert Replaced(seg, 0, known) == "[" + ("@" + ("x" + (" " + MentionLink(a))));
  }

  lemma SpaceIsSpace()
    ensures IsSpace(' ')
  {
  }

  lemma MatchHasSlash(s: string)
    requires MatchLink(s).Some?
    ensures '/' in s
  {
    assert Middle()[10] == '/';
    assert s[2 + NameLen(s[2..])..][10] == '/';
    assert s[2 + NameLen(s[2..]) + 10] == '/';
  }

  lemma {:induction false} NoSlashNoMatch(s: string, last: nat)
    requires last <= |s| && '/' !in s
    ensures AllMatches(s, last) == []
    decreases |s| - last
  {
    hide MatchLink;
    if last < |s| {
      if MatchLink(s[last..]).Some? { MatchHasSlash(s[last..]); }
      NoSlashNoMatch(s, last + 1);
    }
  }

  lemma WithoutLinks(text: string, targets: seq<Target>)
    requires AllMatches(text, 0) == []
    ensures Wire(text, targets) == Replaced(text, 0, Known(targets)) && ToDisplay(text) == text
  {
    hide AllMatches, Tokens, Raw, Known, Replaced, Chars;
    TokensUpToMatch(text, 0);
    ScreenOfChars(text);
    assert text[0..] == text;
  }

  lemma DisplayOfLink(t: Target)
    requires Linkable(t)
    ensures ToDisplay(Raw(t)) == "@" + t.name
  {
    hide Raw, Tokens;
    TokensAfterRaw(t, "");
    NoTokens();
    assert [Link(t)][1..] == [] && [Link(t)] + [] == [Link(t)] && Raw(t) + "" == Raw(t);
    assert ScreenOf([Link(t)]) == "@" + t.name + "" == "@" + t.name;
  }

  lemma SwallowedLink(a: Target, whole: Target)
    requires a.kind == whole.kind && a.id == whole.id && a.kind != All
    requires whole.name == "x [@" + a.name
    ensures "[@x " + MentionLink(a) == Raw(whole)
  {
    hide Middle, Address;
    var rest := Middle() + Address(a.kind, a.id);
    assert Raw(a) == "[@" + a.name + rest;
    assert Raw(whole) == "[@" + whole.name + rest;
    assert "[@" + ("x [@" + a.name) == "[@x " + ("[@" + a.name);
  }

  /** An example: the `[@` swallows the link written behind it. */
  lemma LeftoverOpeningBreaksRoundTrip()
    ensures var targets := [Target(Agent, "1", "A")];
            && SoundTargets(targets)
            && ToDisplay(Wire("[@x @A", targets)) == "@x [@A"
            && ToDisplay("[@x @A") == "[@x @A"
  {
    hide AllMatches, Raw, MentionLink, Known, Replaced, ToDisplay, Wire;
    var a := Target(Agent, "1", "A");
    var whole := Target(Agent, "1", "x [@A");
    assert Sound(a) && Linkable(whole);
    hide Linkable;
    assert "x [@" + "A" == "x [@A";
    SwallowedLink(a, whole);
    KnownWithOne(a);
    LeftoverIsCopied(a);
    NoSlashNoMatch("[@x @A", 0);
    WithoutLinks("[@x @A", [a]);
    DisplayOfLink(whole);
    assert "@" + "x [@A" == "@x [@A";
  }
}
