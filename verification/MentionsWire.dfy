/** `toWire` turns `@name` into links, and `toDisplay` takes them back (web/lib/mentions.ts). */
module MentionsWire {
  import opened Options
  import opened Seqs
  import opened Text
  import opened Sorting
  import opened Mentions

  // ---- the known names, longest first ----

  const EVERYBODY := Target(All, "all", "all")

  function LongestFirst(t: Target): int {
    -|t.name|
  }

  function Named(ts: seq<Target>): seq<Target> {
    if ts == [] then []
    else (if ts[0].name != "" then [ts[0]] else []) + Named(ts[1..])
  }

  function Known(targets: seq<Target>): seq<Target> {
    StableSort(Named(targets + [EVERYBODY]), LongestFirst)
  }

  /**
   * The first known name that `s` starts with. The source also tests NAME_END, but that regex is not anchored and
   * has the alternative `$`, so the test holds for every string.
   */
  function FindName(known: seq<Target>, s: string): (r: Option<Target>)
    ensures r.Some? ==> r.value in known && r.value.name <= s
    ensures r.None? ==> forall u :: u in known ==> !(u.name <= s)
  {
    if known == [] then None
    else if known[0].name <= s then Some(known[0])
    else FindName(known[1..], s)
  }

  predicate AtBoundary(seg: string, i: nat)
    requires i < |seg|
  {
    i == 0 || IsSpace(seg[i - 1]) || seg[i - 1] == '(' || seg[i - 1] == '['
  }

  /** The target that the `@` at `i` stands for. */
  function HitAt(seg: string, i: nat, known: seq<Target>): (r: Option<Target>)
    requires i < |seg|
    ensures r.Some? ==> seg[i] == '@' && r.value in known && r.value.name <= seg[i + 1..]
  {
    if seg[i] == '@' && AtBoundary(seg, i) then FindName(known, seg[i + 1..]) else None
  }

  // ---- replaceDisplay ----

  function Replaced(seg: string, i: nat, known: seq<Target>): string
    requires i <= |seg|
    decreases |seg| - i
  {
    if i == |seg| then ""
    else match HitAt(seg, i, known)
      case Some(t) => MentionLink(t) + Replaced(seg, i + 1 + |t.name|, known)
      case None => [seg[i]] + Replaced(seg, i + 1, known)
  }

  lemma ReplacedFrom(out: string, seg: string, i: nat, known: seq<Target>)
    requires i < |seg|
    ensures var hit := HitAt(seg, i, known);
            out + Replaced(seg, i, known) ==
            if hit.Some? then (out + MentionLink(hit.value)) + Replaced(seg, i + 1 + |hit.value.name|, known)
            else (out + [seg[i]]) + Replaced(seg, i + 1, known)
  {
    hide MentionLink, HitAt;
    match HitAt(seg, i, known)
    case Some(t) => ConcatAssoc(out, MentionLink(t), Replaced(seg, i + 1 + |t.name|, known));
    case None => ConcatAssoc(out, [seg[i]], Replaced(seg, i + 1, known));
  }

  method ReplaceDisplay(seg: string, known: seq<Target>) returns (out: string)
    ensures out == Replaced(seg, 0, known)
  {
    hide FindName, AtBoundary, MentionLink, Replaced;
    out := "";
    var i := 0;
    while i < |seg|
      invariant 0 <= i <= |seg|
      invariant out + Replaced(seg, i, known) == Replaced(seg, 0, known)
    {
      ReplacedFrom(out, seg, i, known);
      if seg[i] == '@' && AtBoundary(seg, i) {
        var hit := FindName(known, seg[i + 1..]);
        if hit.Some? {
          out := out + MentionLink(hit.value);
          i := i + 1 + |hit.value.name|;
          continue;
        }
      }
      out := out + [seg[i]];
      i := i + 1;
    }
    NothingReplaced(seg, known);
  }

  lemma NothingReplaced(seg: string, known: seq<Target>)
    ensures Replaced(seg, |seg|, known) == ""
  {
  }

  // ---- toWire ----

  /** Links that are already there stay as they are; the text between them is replaced piece by piece. */
  function WireFrom(text: string, last: nat, known: seq<Target>): string
    requires last <= |text|
    decreases |text| - last
  {
    TokensUpToMatch(text, last);
    var ms := AllMatches(text, last);
    if ms == [] then Replaced(text[last..], 0, known)
    else
      var next := ms[0].index + ms[0].m.len;
      Replaced(text[last..ms[0].index], 0, known) + text[ms[0].index..next] + WireFrom(text, next, known)
  }

  function Wire(text: string, targets: seq<Target>): string {
    WireFrom(text, 0, Known(targets))
  }

  function Concat(parts: seq<string>): string {
    if parts == [] then "" else parts[0] + Concat(parts[1..])
  }

  lemma {:induction false} ConcatTwo(a: seq<string>, b: seq<string>)
    ensures Concat(a + b) == Concat(a) + Concat(b)
  {
    if a == [] {
      assert a + b == b;
    } else {
      assert (a + b)[1..] == a[1..] + b;
      ConcatTwo(a[1..], b);
    }
  }

  lemma ConcatPair(x: string, y: string)
    ensures Concat([x, y]) == x + y && Concat([x]) == x
  {
    assert [x, y][1..] == [y] && [x][1..] == [] && [y][1..] == [];
    assert Concat([y]) == y + "" == y && Concat([x]) == x + "" == x;
  }

  /** `known` always holds everybody, so the early return of the source for an empty list never happens. */
  method ToWire(text: string, targets: seq<Target>) returns (wire: string)
    ensures wire == Wire(text, targets)
  {
    hide AllMatches, Tokens, Raw, Linkable, Replaced, Concat, Known;
    var known := Known(targets);
    var parts: seq<string> := [];
    var last := 0;
    var ms := AllMatches(text, 0);
    assert Concat([]) == "" by { NothingToConcat(); }
    for k := 0 to |ms|
      invariant 0 <= last <= |text|
      invariant ms[k..] == AllMatches(text, last)
      invariant Concat(parts) + WireFrom(text, last, known) == Wire(text, targets)
    {
      TokensUpToMatch(text, last);
      assert ms[k..][0] == ms[k] && ms[k..][1..] == ms[k + 1..];
      var next := ms[k].index + ms[k].m.len;
      var seg := ReplaceDisplay(text[last..ms[k].index], known);
      ConcatTwo(parts, [seg, text[ms[k].index..next]]);
      ConcatPair(seg, text[ms[k].index..next]);
      parts := parts + [seg, text[ms[k].index..next]];
      last := next;
    }
    var seg := ReplaceDisplay(text[last..], known);
    ConcatTwo(parts, [seg]);
    ConcatPair(seg, "");
    wire := Concat(parts + [seg]);
  }

  lemma NothingToConcat()
    ensures Concat([]) == ""
  {
  }

  // ---- which name is meant ----

  lemma {:induction false} NamedKeeps(ts: seq<Target>)
    ensures forall t :: t in Named(ts) <==> t in ts && t.name != ""
  {
    if ts != [] { NamedKeeps(ts[1..]); }
  }

  lemma {:induction false} FirstFoundIsLongest(known: seq<Target>, s: string)
    requires Sorted(known, LongestFirst)
    ensures var r := FindName(known, s);
            r.Some? ==> forall u :: u in known && u.name <= s ==> |u.name| <= |r.value.name|
  {
    if known != [] {
      if known[0].name <= s {
        forall u | u in known && u.name <= s ensures |u.name| <= |known[0].name| {
          var j :| 0 <= j < |known| && known[j] == u;
          assert j == 0 || LongestFirst(known[0]) <= LongestFirst(known[j]);
        }
      } else {
        FirstFoundIsLongest(known[1..], s);
      }
    }
  }

  ghost predicate Candidate(t: Target, targets: seq<Target>, s: string) {
    (t in targets || t == EVERYBODY) && t.name != "" && t.name <= s
  }

  /** An `@` at a boundary stands for the longest name there is, and for nothing only when no name fits. */
  lemma LongestNameWins(targets: seq<Target>, seg: string, i: nat)
    requires i < |seg|
    ensures seg[i] != '@' || (i > 0 && !IsSpace(seg[i - 1]) && seg[i - 1] != '(' && seg[i - 1] != '[') ==>
              HitAt(seg, i, Known(targets)).None?
    ensures seg[i] == '@' && (i == 0 || IsSpace(seg[i - 1]) || seg[i - 1] == '(' || seg[i - 1] == '[') ==>
            var hit := HitAt(seg, i, Known(targets));
            var s := seg[i + 1..];
            if hit.Some? then
              && Candidate(hit.value, targets, s)
              && forall u :: Candidate(u, targets, s) ==> |u.name| <= |hit.value.name|
            else forall u :: !Candidate(u, targets, s)
  {
    hide FindName, IsSpace, Candidate, Known;
    NameFound(targets, seg[i + 1..]);
  }

  lemma NameFound(targets: seq<Target>, s: string)
    ensures match FindName(Known(targets), s)
            case Some(t) => Candidate(t, targets, s) && forall u :: Candidate(u, targets, s) ==> |u.name| <= |t.name|
            case None => forall u :: !Candidate(u, targets, s)
  {
    hide FindName;
    var all := Named(targets + [EVERYBODY]);
    NamedKeeps(targets + [EVERYBODY]);
    StableSortSpec(all, LongestFirst);
    var known := Known(targets);
    assert forall t :: t in known <==> t in multiset(known);
    assert forall t :: t in all <==> t in multiset(all);
    FirstFoundIsLongest(known, s);
  }

  // ---- the round trip ----

  /** A target whose link says what the screen says. */
  ghost predicate Sound(t: Target) {
    Linkable(t) && (t.kind == All ==> t.name == "all")
  }

  ghost predicate AllSound(ts: seq<Target>) {
    forall t :: t in ts ==> Sound(t)
  }

  /** There is no `[@` in the text that could be the start of a link. */
  ghost predicate NoOpening(seg: string) {
    forall k :: 0 <= k < |seg| - 1 ==> !(seg[k] == '[' && seg[k + 1] == '@')
  }

  function ReplacedTokens(seg: string, i: nat, known: seq<Target>): seq<Token>
    requires i <= |seg|
    decreases |seg| - i
  {
    if i == |seg| then []
    else match HitAt(seg, i, known)
      case Some(t) => [Link(Canon(t))] + ReplacedTokens(seg, i + 1 + |t.name|, known)
      case None => [Ch(seg[i])] + ReplacedTokens(seg, i + 1, known)
  }

  lemma SoundLinkIsMatched(t: Target, rest: string)
    requires Sound(t)
    ensures MatchLink(MentionLink(t) + rest) == Some(Match(Canon(t), |MentionLink(t)|))
    ensures MentionLink(t) != "" && MentionLink(t)[0] == '['
  {
    assert Linkable(EVERYBODY) by { assert forall c :: c in "all" ==> IsIdChar(c); }
    assert Raw(EVERYBODY) == "[@all](mention://all/all)";
    RawIsMatched(Canon(t), rest);
  }

  lemma TokensAtLink(s: string, t: Target, n: nat)
    requires MatchLink(s) == Some(Match(t, n)) && s != ""
    ensures n <= |s| && Tokens(s) == [Link(t)] + Tokens(s[n..])
  {
    MatchIsRaw(s);
  }

  /** Where the `@` at `i` becomes a link. */
  lemma TokensOfHit(seg: string, i: nat, known: seq<Target>, tail: string)
    requires i < |seg| && AllSound(known) && HitAt(seg, i, known).Some?
    ensures var t := HitAt(seg, i, known).value;
            Tokens(Replaced(seg, i, known) + tail) == [Link(Canon(t))] + Tokens(Replaced(seg, i + 1 + |t.name|, known) + tail)
  {
    hide MatchLink, MentionLink, HitAt, Canon, Sound, Tokens;
    var t := HitAt(seg, i, known).value;
    var rest := Replaced(seg, i + 1 + |t.name|, known) + tail;
    SoundLinkIsMatched(t, rest);
    var s := Replaced(seg, i, known) + tail;
    assert s == MentionLink(t) + rest;
    assert s[|MentionLink(t)|..] == rest;
    TokensAtLink(s, Canon(t), |MentionLink(t)|);
  }

  /** On the screen the replaced text looks as before. */
  lemma {:induction false} ScreenOfReplaced(seg: string, i: nat, known: seq<Target>)
    requires i <= |seg| && AllSound(known)
    ensures ScreenOf(ReplacedTokens(seg, i, known)) == seg[i..]
    decreases |seg| - i
  {
    hide FindName, AtBoundary, Linkable;
    if i < |seg| {
      var hit := HitAt(seg, i, known);
      if hit.Some? {
        var t := hit.value;
        assert Sound(t) && Canon(t).name == t.name;
        ScreenOfReplaced(seg, i + 1 + |t.name|, known);
        assert seg[i..] == "@" + t.name + seg[i + 1 + |t.name|..];
      } else {
        ScreenOfReplaced(seg, i + 1, known);
      }
    }
  }

  /** The targets that a piece of text names, in order. */
  function Resolved(seg: string, i: nat, known: seq<Target>): seq<Target>
    requires i <= |seg|
    decreases |seg| - i
  {
    if i == |seg| then []
    else match HitAt(seg, i, known)
      case Some(t) => [Canon(t)] + Resolved(seg, i + 1 + |t.name|, known)
      case None => Resolved(seg, i + 1, known)
  }

  lemma {:induction false} TargetsOfReplaced(seg: string, i: nat, known: seq<Target>)
    requires i <= |seg|
    ensures TargetsOf(ReplacedTokens(seg, i, known)) == Resolved(seg, i, known)
    decreases |seg| - i
  {
    hide HitAt, Canon;
    if i < |seg| {
      var hit := HitAt(seg, i, known);
      TargetsOfReplaced(seg, if hit.Some? then i + 1 + |hit.value.name| else i + 1, known);
    }
  }

  /** Outside links there is no `[@` left over. A text without any `[@` is the simplest case. */
  ghost predicate OnlyLinksOpen(text: string, last: nat)
    requires last <= |text|
    decreases |text| - last
  {
    TokensUpToMatch(text, last);
    var ms := AllMatches(text, last);
    if ms == [] then NoOpening(text[last..])
    else NoOpening(text[last..ms[0].index]) && OnlyLinksOpen(text, ms[0].index + ms[0].m.len)
  }

  function WireTokens(text: string, last: nat, known: seq<Target>): seq<Token>
    requires last <= |text|
    decreases |text| - last
  {
    TokensUpToMatch(text, last);
    var ms := AllMatches(text, last);
    if ms == [] then ReplacedTokens(text[last..], 0, known)
    else
      var f := ms[0];
      ReplacedTokens(text[last..f.index], 0, known) + [Link(f.m.target)] + WireTokens(text, f.index + f.m.len, known)
  }

  /** What a text mentions: its links and its resolved names, in order. */
  function Mentioned(text: string, last: nat, known: seq<Target>): seq<Target>
    requires last <= |text|
    decreases |text| - last
  {
    TokensUpToMatch(text, last);
    var ms := AllMatches(text, last);
    if ms == [] then Resolved(text[last..], 0, known)
    else
      var f := ms[0];
      Resolved(text[last..f.index], 0, known) + [f.m.target] + Mentioned(text, f.index + f.m.len, known)
  }

  lemma RawStarts(t: Target)
    ensures Raw(t)[0] == '['
  {
  }

  lemma TokensAfterRaw(t: Target, rest: string)
    requires Linkable(t)
    ensures Tokens(Raw(t) + rest) == [Link(t)] + Tokens(rest)
  {
    hide MatchLink, Raw, Linkable, Tokens;
    RawIsMatched(t, rest);
    TokensAtLink(Raw(t) + rest, t, |Raw(t)|);
    assert (Raw(t) + rest)[|Raw(t)|..] == rest;
  }

  lemma NoTokens()
    ensures Tokens("") == []
  {
  }

  lemma {:induction false} ScreenConcat(a: seq<Token>, b: seq<Token>)
    ensures ScreenOf(a + b) == ScreenOf(a) + ScreenOf(b)
  {
    if a == [] {
      assert a + b == b;
    } else {
      assert (a + b)[1..] == a[1..] + b;
      ScreenConcat(a[1..], b);
    }
  }

  lemma {:induction false} ScreenOfChars(s: string)
    ensures ScreenOf(Chars(s)) == s
  {
    if s != "" { ScreenOfChars(s[1..]); }
  }

  lemma ScreenOfThree(a: seq<Token>, t: Target, b: seq<Token>)
    ensures ScreenOf(a + [Link(t)] + b) == ScreenOf(a) + ("@" + t.name) + ScreenOf(b)
  {
    ScreenConcat(a + [Link(t)], b);
    ScreenConcat(a, [Link(t)]);
    assert [Link(t)][1..] == [];
    assert ScreenOf([Link(t)]) == "@" + t.name + "";
    assert "@" + t.name + "" == "@" + t.name;
  }

  lemma {:induction false} ScreenOfWire(text: string, last: nat, known: seq<Target>)
    requires last <= |text| && AllSound(known)
    ensures ScreenOf(WireTokens(text, last, known)) == ScreenOf(Tokens(text[last..]))
    decreases |text| - last
  {
    hide AllMatches, Tokens, Raw, Linkable, Replaced, ReplacedTokens, AllSound, ScreenOf;
    TokensUpToMatch(text, last);
    var ms := AllMatches(text, last);
    var seg := if ms == [] then text[last..] else text[last..ms[0].index];
    ScreenOfReplaced(seg, 0, known);
    ScreenOfChars(seg);
    assert seg[0..] == seg;
    if ms != [] {
      var f := ms[0];
      var next := f.index + f.m.len;
      ScreenOfWire(text, next, known);
      ScreenOfThree(ReplacedTokens(seg, 0, known), f.m.target, WireTokens(text, next, known));
      ScreenOfThree(Chars(seg), f.m.target, Tokens(text[next..]));
    }
  }

  lemma {:induction false} TargetsOfWire(text: string, last: nat, known: seq<Target>)
    requires last <= |text|
    ensures TargetsOf(WireTokens(text, last, known)) == Mentioned(text, last, known)
    decreases |text| - last
  {
    hide AllMatches, Tokens, Raw, Linkable, Replaced, ReplacedTokens, Resolved, TargetsOf;
    TokensUpToMatch(text, last);
    var ms := AllMatches(text, last);
    if ms == [] {
      TargetsOfReplaced(text[last..], 0, known);
    } else {
      var f := ms[0];
      var next := f.index + f.m.len;
      var seg := text[last..f.index];
      TargetsOfReplaced(seg, 0, known);
      TargetsOfWire(text, next, known);
      TargetsConcat(ReplacedTokens(seg, 0, known) + [Link(f.m.target)], WireTokens(text, next, known));
      TargetsConcat(ReplacedTokens(seg, 0, known), [Link(f.m.target)]);
      OneTarget(f.m.target);
    }
  }

  lemma OneTarget(t: Target)
    ensures TargetsOf([Link(t)]) == [t]
  {
    assert [Link(t)][1..] == [];
  }

  ghost predicate SoundTargets(targets: seq<Target>) {
    forall t :: t in targets && t.name != "" ==> Sound(t)
  }

  lemma KnownAreSound(targets: seq<Target>)
    requires SoundTargets(targets)
    ensures AllSound(Known(targets))
  {
    var all := Named(targets + [EVERYBODY]);
    NamedKeeps(targets + [EVERYBODY]);
    StableSortSpec(all, LongestFirst);
    forall t | t in Known(targets) ensures Sound(t) {
      assert t in multiset(Known(targets));
      assert t in multiset(all);
      if t == EVERYBODY { assert forall c :: c in "all" ==> IsIdChar(c); }
    }
  }
}
