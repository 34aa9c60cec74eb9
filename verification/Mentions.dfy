/**
 * Mentions: `[@name](mention://kind/id)` on the wire, `@name` on the screen (web/lib/mentions.ts).
 * `MatchLink` is the regex LINK_RE at one position, `AllMatches` is `matchAll`.
 */
module Mentions {
  import opened Options
  import opened Text
  import opened Sorting

  // ---- data model ----

  datatype Kind = Agent | User | All

  datatype Target = Target(kind: Kind, id: string, name: string)

  datatype Match = Match(target: Target, len: nat)
  datatype Found = Found(index: nat, m: Match)
  datatype ContentPart = TextPart(text: string) | MentionPart(target: Target)

  function Word(k: Kind): string {
    match k
    case Agent => "agent"
    case User => "user"
    case All => "all"
  }

  predicate IsIdChar(c: char) {
    '0' <= c <= '9' || 'a' <= c <= 'z' || 'A' <= c <= 'Z' || c == '-'
  }

  /** The targets that a link can carry. */
  ghost predicate Linkable(t: Target) {
    && t.name != "" && ']' !in t.name
    && t.id != "" && forall c :: c in t.id ==> '0' <= c <= '9' || 'a' <= c <= 'z' || 'A' <= c <= 'Z' || c == '-'
  }

  lemma IdCharsAre(id: string)
    ensures (forall c :: c in id ==> IsIdChar(c)) <==>
            forall c :: c in id ==> '0' <= c <= '9' || 'a' <= c <= 'z' || 'A' <= c <= 'Z' || c == '-'
  {
  }

  /** What stands between the name and the address. */
  function Middle(): (r: string)
    ensures |r| == 12 && r[0] == ']'
  {
    "](mention://"
  }

  /** The address of a link, from its kind to the closing parenthesis. */
  function Address(kind: Kind, id: string): string {
    Word(kind) + "/" + id + ")"
  }

  /** The text of a link to `t`. */
  function Raw(t: Target): (r: string)
    ensures r != ""
  {
    "[@" + t.name + Middle() + Address(t.kind, t.id)
  }

  function MentionLink(t: Target): string {
    if t.kind == All then "[@all](mention://all/all)" else Raw(t)
  }

  /** What the link to `t` says: everybody is always called `all`. */
  function Canon(t: Target): Target {
    if t.kind == All then Target(All, "all", "all") else t
  }

  // ---- LINK_RE ----

  function NameLen(s: string): (n: nat)
    ensures n <= |s|
  {
    if s == "" || s[0] == ']' then 0 else 1 + NameLen(s[1..])
  }

  function IdLen(s: string): (n: nat)
    ensures n <= |s|
  {
    if s == "" || !IsIdChar(s[0]) then 0 else 1 + IdLen(s[1..])
  }

  function ReadKind(s: string): (r: Option<Kind>)
    ensures r.Some? ==> Word(r.value) + "/" <= s
  {
    if "agent/" <= s then Some(Agent)
    else if "user/" <= s then Some(User)
    else if "all/" <= s then Some(All)
    else None
  }

  /** Kind, slash, id and parenthesis: the captured kind and id. */
  function ReadAddress(u: string): (r: Option<(Kind, string)>)
  {
    var kind := ReadKind(u);
    if kind.None? then None
    else
      var w := |Word(kind.value)| + 1;
      var m := IdLen(u[w..]);
      if m == 0 || w + m == |u| || u[w + m] != ')' then None else Some((kind.value, u[w..w + m]))
  }

  /** LINK_RE anchored at the start of `s`. */
  function MatchLink(s: string): (r: Option<Match>)
  {
    if !("[@" <= s) then None
    else
      var n := NameLen(s[2..]);
      var afterName := s[2 + n..];
      if n == 0 || !(Middle() <= afterName) then None
      else match ReadAddress(afterName[12..])
        case None => None
        case Some((kind, id)) =>
          Some(Match(Target(kind, id, s[2..2 + n]), 14 + n + |Address(kind, id)|))
  }

  lemma {:induction false} NameLenOf(name: string, rest: string)
    requires ']' !in name && rest != "" && rest[0] == ']'
    ensures NameLen(name + rest) == |name|
  {
    if name == "" {
      assert name + rest == rest;
    } else {
      assert (name + rest)[1..] == name[1..] + rest;
      NameLenOf(name[1..], rest);
    }
  }

  lemma {:induction false} IdLenOf(id: string, rest: string)
    requires forall c :: c in id ==> IsIdChar(c)
    requires rest != "" && !IsIdChar(rest[0])
    ensures IdLen(id + rest) == |id|
  {
    if id == "" {
      assert id + rest == rest;
    } else {
      assert (id + rest)[1..] == id[1..] + rest;
      assert id[0] in id;
      IdLenOf(id[1..], rest);
    }
  }

  lemma {:induction false} NameLenRun(s: string)
    ensures ']' !in s[..NameLen(s)]
  {
    if s != "" && s[0] != ']' {
      NameLenRun(s[1..]);
      assert s[..NameLen(s)] == [s[0]] + s[1..][..NameLen(s[1..])];
    }
  }

  lemma {:induction false} IdLenRun(s: string)
    ensures forall c :: c in s[..IdLen(s)] ==> IsIdChar(c)
  {
    if s != "" && IsIdChar(s[0]) {
      IdLenRun(s[1..]);
      assert s[..IdLen(s)] == [s[0]] + s[1..][..IdLen(s[1..])];
    }
  }

  lemma ReadKindOf(k: Kind, rest: string)
    ensures ReadKind(Word(k) + "/" + rest) == Some(k)
  {
    var s := Word(k) + "/" + rest;
    match k
    case Agent =>
      assert "agent" + "/" == "agent/";
    case User =>
      assert "user" + "/" == "user/";
      assert s[0] == 'u';
    case All =>
      assert "all" + "/" == "all/";
      assert s[1] == 'l' && s[0] == 'a';
  }

  lemma ClosingIsNoIdChar()
    ensures !IsIdChar(')')
  {
  }

  lemma AddressIsRead(kind: Kind, id: string, rest: string)
    requires id != "" && forall c :: c in id ==> IsIdChar(c)
    ensures ReadAddress(Address(kind, id) + rest) == Some((kind, id))
  {
    hide ReadKind, IsIdChar, Word;
    var u := Address(kind, id) + rest;
    var tail := ")" + rest;
    var w := |Word(kind)| + 1;
    assert u == Word(kind) + "/" + (id + tail);
    ReadKindOf(kind, id + tail);
    assert u[w..] == id + tail;
    ClosingIsNoIdChar();
    IdLenOf(id, tail);
    assert u[w..w + |id|] == id && u[w + |id|] == tail[0];
  }

  lemma ReadIsAddress(u: string)
    requires ReadAddress(u).Some?
    ensures var (kind, id) := ReadAddress(u).value;
            Address(kind, id) <= u && id != "" && forall c :: c in id ==> IsIdChar(c)
  {
    hide ReadKind, IsIdChar, Word;
    var kind := ReadKind(u).value;
    var w := |Word(kind)| + 1;
    var m := IdLen(u[w..]);
    IdLenRun(u[w..]);
    assert u[w..][..m] == u[w..w + m];
    assert u == (Word(kind) + "/") + u[w..w + m] + ")" + u[w + m + 1..];
  }

  /** What a link to somebody looks like in a message. */
  lemma LinkLooksLike(t: Target)
    ensures Raw(t) == "[@" + t.name + "](mention://"
                      + (match t.kind case Agent => "agent/" case User => "user/" case All => "all/") + t.id + ")"
    ensures MentionLink(t) == if t.kind == All then "[@all](mention://all/all)" else Raw(t)
  {
    assert "agent" + "/" == "agent/" && "user" + "/" == "user/" && "all" + "/" == "all/";
    var w := match t.kind case Agent => "agent/" case User => "user/" case All => "all/";
    assert Address(t.kind, t.id) == w + t.id + ")";
    assert Raw(t) == "[@" + t.name + "](mention://" + w + t.id + ")";
  }

  /** Every link that can be written is read back, whatever follows it. */
  lemma RawIsMatched(t: Target, rest: string)
    requires Linkable(t)
    ensures MatchLink(Raw(t) + rest) == Some(Match(t, |Raw(t)|))
  {
    hide ReadAddress, Address, IsIdChar, Middle;
    var s := Raw(t) + rest;
    var address := Address(t.kind, t.id) + rest;
    var afterName := Middle() + address;
    assert s == "[@" + (t.name + afterName);
    var tail := t.name + afterName;
    assert s[2..] == tail && tail[..|t.name|] == t.name;
    NameLenOf(t.name, afterName);
    assert s[2 + |t.name|..] == afterName;
    assert afterName[12..] == address;
    IdCharsAre(t.id);
    AddressIsRead(t.kind, t.id, rest);
    assert s[2..2 + |t.name|] == tail[..|t.name|];
  }

  /** What the regex accepts is exactly the text of a link. */
  lemma MatchIsRaw(s: string)
    requires MatchLink(s).Some?
    ensures var m := MatchLink(s).value; Linkable(m.target) && m.len == |Raw(m.target)| && Raw(m.target) <= s
  {
    hide ReadAddress, Address, IsIdChar, Middle, Raw;
    var n := NameLen(s[2..]);
    var t := MatchLink(s).value.target;
    NameLenRun(s[2..]);
    assert s[2..][..n] == s[2..2 + n];
    ReadIsAddress(s[2 + n..][12..]);
    IdCharsAre(t.id);
    LinkParts(s, n, t);
  }

  lemma LinkParts(s: string, n: nat, t: Target)
    requires 2 + n <= |s| && "[@" <= s && s[2..2 + n] == t.name && Middle() <= s[2 + n..]
    requires Address(t.kind, t.id) <= s[2 + n..][12..]
    ensures Raw(t) <= s && |Raw(t)| == 14 + n + |Address(t.kind, t.id)|
  {
    hide Address, Middle;
    var address, tail := Address(t.kind, t.id), s[2 + n..];
    var u := tail[12..];
    assert u == address + u[|address|..];
    assert tail == Middle() + u;
    assert s == s[..2] + s[2..2 + n] + tail && s[..2] == "[@";
    assert s == Raw(t) + u[|address|..];
  }

  // ---- a text as plain characters and links ----

  datatype Token = Ch(c: char) | Link(t: Target)

  function Tokens(s: string): seq<Token>
    decreases |s|
  {
    if s == "" then []
    else match MatchLink(s)
      case None => [Ch(s[0])] + Tokens(s[1..])
      case Some(m) => MatchIsRaw(s); [Link(m.target)] + Tokens(s[m.len..])
  }

  function Chars(s: string): seq<Token> {
    if s == "" then [] else [Ch(s[0])] + Chars(s[1..])
  }

  function TargetsOf(ts: seq<Token>): seq<Target> {
    if ts == [] then []
    else match ts[0]
      case Ch(_) => TargetsOf(ts[1..])
      case Link(t) => [t] + TargetsOf(ts[1..])
  }

  function WireOf(ts: seq<Token>): string {
    if ts == [] then ""
    else match ts[0]
      case Ch(c) => [c] + WireOf(ts[1..])
      case Link(t) => Raw(t) + WireOf(ts[1..])
  }

  function ScreenOf(ts: seq<Token>): string {
    if ts == [] then ""
    else match ts[0]
      case Ch(c) => [c] + ScreenOf(ts[1..])
      case Link(t) => "@" + t.name + ScreenOf(ts[1..])
  }

  /** `toDisplay`: every link is replaced by `@name`. */
  function ToDisplay(content: string): string {
    ScreenOf(Tokens(content))
  }

  lemma {:induction false} TokensLoseNothing(s: string)
    ensures WireOf(Tokens(s)) == s
    decreases |s|
  {
    hide MatchLink, Raw;
    if s != "" {
      if MatchLink(s).Some? {
        MatchIsRaw(s);
        TokensLoseNothing(s[MatchLink(s).value.len..]);
      } else {
        TokensLoseNothing(s[1..]);
      }
    }
  }

  // ---- matchAll ----

  /** `s.matchAll(LINK_RE)` from position `from` on: leftmost matches that do not overlap. */
  function AllMatches(s: string, from: nat): seq<Found>
    requires from <= |s|
    decreases |s| - from
  {
    if from == |s| then []
    else match MatchLink(s[from..])
      case None => AllMatches(s, from + 1)
      case Some(m) => MatchIsRaw(s[from..]); [Found(from, m)] + AllMatches(s, from + m.len)
  }

  /** Up to the next match there are only characters, and after it the search goes on behind the match. */
  lemma {:induction false} TokensUpToMatch(s: string, from: nat)
    requires from <= |s|
    ensures var ms := AllMatches(s, from);
            if ms == [] then Tokens(s[from..]) == Chars(s[from..])
            else
              var f := ms[0];
              && from <= f.index && f.index + f.m.len <= |s| && 0 < f.m.len
              && Linkable(f.m.target) && s[f.index..f.index + f.m.len] == Raw(f.m.target)
              && ms[1..] == AllMatches(s, f.index + f.m.len)
              && Tokens(s[from..]) == Chars(s[from..f.index]) + [Link(f.m.target)] + Tokens(s[f.index + f.m.len..])
    decreases |s| - from
  {
    hide MatchLink, Raw, Linkable, Tokens, Chars;
    TokensStep(s[from..]);
    if from < |s| {
      var rest := s[from..];
      if MatchLink(rest).Some? {
        var m := MatchLink(rest).value;
        assert rest[m.len..] == s[from + m.len..] && rest[..m.len] == s[from..from + m.len];
        assert s[from..from] == "";
        assert AllMatches(s, from) == [Found(from, m)] + AllMatches(s, from + m.len);
        assert Chars("") + [Link(m.target)] + Tokens(rest[m.len..]) == [Link(m.target)] + Tokens(rest[m.len..]);
      } else {
        TokensUpToMatch(s, from + 1);
        assert rest[1..] == s[from + 1..];
        assert AllMatches(s, from) == AllMatches(s, from + 1);
        if AllMatches(s, from) != [] {
          var f := AllMatches(s, from)[0];
          CharsStep(s, from, f.index);
          assert [Ch(s[from])] + (Chars(s[from + 1..f.index]) + [Link(f.m.target)] + Tokens(s[f.index + f.m.len..]))
              == ([Ch(s[from])] + Chars(s[from + 1..f.index])) + [Link(f.m.target)] + Tokens(s[f.index + f.m.len..]);
        } else {
          CharsStep(s, from, |s|);
          assert s[from..|s|] == rest && s[from + 1..|s|] == rest[1..];
        }
      }
    }
  }

  lemma TokensStep(s: string)
    ensures Chars("") == [] && (s == "" ==> Tokens(s) == Chars(s))
    ensures s != "" && MatchLink(s).None? ==> Tokens(s) == [Ch(s[0])] + Tokens(s[1..])
    ensures s != "" && MatchLink(s).Some? ==>
              var m := MatchLink(s).value;
              && 0 < m.len <= |s| && Linkable(m.target) && s[..m.len] == Raw(m.target)
              && Tokens(s) == [Link(m.target)] + Tokens(s[m.len..])
  {
    hide MatchLink, Raw, Linkable;
    if MatchLink(s).Some? { MatchIsRaw(s); }
  }

  lemma CharsStep(s: string, i: nat, j: nat)
    requires i < j <= |s|
    ensures Chars(s[i..j]) == [Ch(s[i])] + Chars(s[i + 1..j])
  {
    assert s[i..j] == [s[i]] + s[i + 1..j];
  }

  // ---- extractMentions ----

  /** The key under which a mention counts once. */
  function Key(t: Target): string {
    Word(t.kind) + ":" + t.id
  }

  /** Different kinds or ids have different keys. */
  lemma KeyIsInjective(a: Target, b: Target)
    requires Key(a) == Key(b)
    ensures a.kind == b.kind && a.id == b.id
  {
    assert Key(a)[0] == Word(a.kind)[0] && Key(b)[0] == Word(b.kind)[0];
    assert Key(a)[1] == Word(a.kind)[1] && Key(b)[1] == Word(b.kind)[1];
    assert a.kind == b.kind;
    assert Key(a)[|Word(a.kind)| + 1..] == a.id && Key(b)[|Word(b.kind)| + 1..] == b.id;
  }

  /** The targets in order, each key at its first place only. */
  function FirstOfEachKey(ts: seq<Target>): seq<Target> {
    if ts == [] then []
    else
      var n := |ts| - 1;
      var r := FirstOfEachKey(ts[..n]);
      if exists j :: 0 <= j < n && Key(ts[j]) == Key(ts[n]) then r else r + [ts[n]]
  }

  ghost predicate HasKey(ts: seq<Target>, key: string) {
    exists t :: t in ts && Key(t) == key
  }

  /** Nobody is named twice and nobody is left out. */
  lemma {:induction false} EachKeyOnce(ts: seq<Target>)
    ensures var r := FirstOfEachKey(ts);
            && (forall t :: t in r ==> t in ts)
            && (forall key :: HasKey(r, key) <==> HasKey(ts, key))
            && (forall i, j :: 0 <= i < j < |r| ==> Key(r[i]) != Key(r[j]))
  {
    hide Key;
    if ts != [] {
      var n := |ts| - 1;
      var before := FirstOfEachKey(ts[..n]);
      EachKeyOnce(ts[..n]);
      assert forall t :: t in ts <==> t in ts[..n] || t == ts[n] by { assert ts == ts[..n] + [ts[n]]; }
      var again := exists j :: 0 <= j < n && Key(ts[j]) == Key(ts[n]);
      assert again == HasKey(ts[..n], Key(ts[n])) by {
        if again { var j :| 0 <= j < n && Key(ts[j]) == Key(ts[n]); assert ts[j] in ts[..n]; }
      }
      var r := FirstOfEachKey(ts);
      assert r == if again then before else before + [ts[n]];
      hide FirstOfEachKey;
      forall key ensures HasKey(r, key) <==> HasKey(ts, key) {
        assert HasKey(ts, key) <==> HasKey(ts[..n], key) || Key(ts[n]) == key;
        assert HasKey(r, key) <==> HasKey(before, key) || (!again && Key(ts[n]) == key);
      }
      if !again {
        forall i | 0 <= i < |before| ensures Key(before[i]) != Key(ts[n]) {
          assert before[i] in ts[..n];
        }
      }
    }
  }

  lemma {:induction false} TargetsConcat(a: seq<Token>, b: seq<Token>)
    ensures TargetsOf(a + b) == TargetsOf(a) + TargetsOf(b)
  {
    if a == [] {
      assert a + b == b;
    } else {
      assert (a + b)[1..] == a[1..] + b;
      TargetsConcat(a[1..], b);
    }
  }

  lemma {:induction false} CharsHaveNoTargets(s: string, rest: seq<Token>)
    ensures TargetsOf(Chars(s) + rest) == TargetsOf(rest)
  {
    if s == "" {
      assert Chars(s) + rest == rest;
    } else {
      assert (Chars(s) + rest)[1..] == Chars(s[1..]) + rest;
      CharsHaveNoTargets(s[1..], rest);
    }
  }

  lemma TargetsUpToLink(s: string, t: Target, rest: seq<Token>)
    ensures TargetsOf(Chars(s) + [Link(t)] + rest) == [t] + TargetsOf(rest)
  {
    assert Chars(s) + [Link(t)] + rest == Chars(s) + ([Link(t)] + rest);
    CharsHaveNoTargets(s, [Link(t)] + rest);
    assert ([Link(t)] + rest)[1..] == rest;
  }

  function MatchTargets(ms: seq<Found>): (ts: seq<Target>)
    ensures |ts| == |ms| && forall k :: 0 <= k < |ms| ==> ts[k] == ms[k].m.target
  {
    seq(|ms|, k requires 0 <= k < |ms| => ms[k].m.target)
  }

  lemma NoTargets()
    ensures TargetsOf([]) == []
  {
  }

  lemma MatchTargetsCons(f: Found, ms: seq<Found>)
    ensures MatchTargets([f] + ms) == [f.m.target] + MatchTargets(ms)
  {
  }

  lemma {:induction false} MatchesAreTheTargets(s: string, from: nat)
    requires from <= |s|
    ensures MatchTargets(AllMatches(s, from)) == TargetsOf(Tokens(s[from..]))
    decreases |s| - from
  {
    hide AllMatches, Tokens, Raw, Linkable, Chars, TargetsOf, MatchTargets;
    TokensUpToMatch(s, from);
    var ms := AllMatches(s, from);
    if ms == [] {
      CharsHaveNoTargets(s[from..], []);
      assert Chars(s[from..]) + [] == Chars(s[from..]);
      NoTargets();
    } else {
      var f := ms[0];
      var next := f.index + f.m.len;
      MatchesAreTheTargets(s, next);
      TargetsUpToLink(s[from..f.index], f.m.target, Tokens(s[next..]));
      MatchTargetsCons(f, ms[1..]);
      assert ms == [f] + ms[1..];
    }
  }

  lemma KeyStep(ts: seq<Target>, k: nat)
    requires k < |ts|
    ensures forall x :: HasKey(ts[..k + 1], x) <==> HasKey(ts[..k], x) || x == Key(ts[k])
    ensures FirstOfEachKey(ts[..k + 1]) == FirstOfEachKey(ts[..k]) + if HasKey(ts[..k], Key(ts[k])) then [] else [ts[k]]
  {
    hide Key;
    var now, t := ts[..k + 1], ts[k];
    assert now[..k] == ts[..k] && now == ts[..k] + [t];
    assert HasKey(ts[..k], Key(t)) <==> exists j :: 0 <= j < k && Key(now[j]) == Key(t) by {
      assert forall j :: 0 <= j < k ==> now[j] == ts[..k][j];
    }
  }

  method ExtractMentions(content: string) returns (out: seq<Target>)
    ensures out == FirstOfEachKey(TargetsOf(Tokens(content)))
  {
    hide AllMatches, Tokens, Key, HasKey, FirstOfEachKey;
    var ms := AllMatches(content, 0);
    MatchesAreTheTargets(content, 0);
    assert content[0..] == content;
    ghost var ts := MatchTargets(ms);
    NoKeys();
    out := [];
    var seen: set<string> := {};
    assert ts[..0] == [];
    for k := 0 to |ms|
      invariant out == FirstOfEachKey(ts[..k])
      invariant forall x :: x in seen <==> HasKey(ts[..k], x)
    {
      var t := ms[k].m.target;
      var key := Key(t);
      KeyStep(ts, k);
      assert out + [] == out;
      if key in seen { continue; }
      seen := seen + {key};
      out := out + [t];
    }
    assert ts[..|ms|] == ts;
  }

  lemma NoKeys()
    ensures FirstOfEachKey([]) == [] && forall x :: !HasKey([], x)
  {
  }

  // ---- splitContent ----

  function AddChar(c: char, parts: seq<ContentPart>): seq<ContentPart> {
    if parts != [] && parts[0].TextPart? then [TextPart([c] + parts[0].text)] + parts[1..]
    else [TextPart([c])] + parts
  }

  /** Links, and between them the longest runs of text. */
  function PartsOf(ts: seq<Token>): seq<ContentPart> {
    if ts == [] then []
    else match ts[0]
      case Ch(c) => AddChar(c, PartsOf(ts[1..]))
      case Link(t) => [MentionPart(t)] + PartsOf(ts[1..])
  }

  function TextParts(s: string): seq<ContentPart> {
    if s == "" then [] else [TextPart(s)]
  }

  lemma {:induction false} PartsOfChars(s: string, rest: seq<Token>)
    requires rest == [] || rest[0].Link?
    ensures PartsOf(Chars(s) + rest) == TextParts(s) + PartsOf(rest)
  {
    if s == "" {
      assert Chars(s) + rest == rest;
    } else {
      assert Chars(s) + rest == [Ch(s[0])] + (Chars(s[1..]) + rest);
      assert ([Ch(s[0])] + (Chars(s[1..]) + rest))[1..] == Chars(s[1..]) + rest;
      PartsOfChars(s[1..], rest);
      CharInFront(s, PartsOf(rest));
    }
  }

  lemma CharInFront(s: string, parts: seq<ContentPart>)
    requires s != "" && (parts == [] || parts[0].MentionPart?)
    ensures AddChar(s[0], TextParts(s[1..]) + parts) == TextParts(s) + parts
  {
    if s[1..] == "" {
      assert s == [s[0]] && [] + parts == parts;
    } else {
      assert [s[0]] + s[1..] == s;
    }
  }

  method SplitContent(content: string) returns (parts: seq<ContentPart>)
    ensures parts == PartsOf(Tokens(content))
  {
    hide AllMatches, Tokens, Raw, Linkable, PartsOf;
    var ms := AllMatches(content, 0);
    parts := [];
    var last := 0;
    assert content[0..] == content;
    for k := 0 to |ms|
      invariant 0 <= last <= |content|
      invariant ms[k..] == AllMatches(content, last)
      invariant parts + PartsOf(Tokens(content[last..])) == PartsOf(Tokens(content))
    {
      TokensUpToMatch(content, last);
      assert ms[k..][0] == ms[k] && ms[k..][1..] == ms[k + 1..];
      var idx := ms[k].index;
      var target := ms[k].m.target;
      ghost var rest := Tokens(content[idx + ms[k].m.len..]);
      ghost var before := parts;
      PartsOfChars(content[last..idx], [Link(target)] + rest);
      PartsOfLink(target, rest);
      assert Chars(content[last..idx]) + [Link(target)] + rest == Chars(content[last..idx]) + ([Link(target)] + rest);
      if idx > last { parts := parts + [TextPart(content[last..idx])]; }
      parts := parts + [MentionPart(target)];
      assert parts == before + TextParts(content[last..idx]) + [MentionPart(target)];
      last := idx + ms[k].m.len;
    }
    TokensUpToMatch(content, last);
    PartsOfChars(content[last..], []);
    assert Chars(content[last..]) + [] == Chars(content[last..]);
    assert PartsOf([]) == [] by { NoParts(); }
    if last < |content| { parts := parts + [TextPart(content[last..])]; }
  }

  lemma PartsOfLink(t: Target, rest: seq<Token>)
    ensures PartsOf([Link(t)] + rest) == [MentionPart(t)] + PartsOf(rest)
  {
  }

  lemma NoParts()
    ensures PartsOf([]) == []
  {
  }

  function WireOfParts(parts: seq<ContentPart>): string {
    if parts == [] then ""
    else (match parts[0] case TextPart(t) => t case MentionPart(t) => Raw(t)) + WireOfParts(parts[1..])
  }

  ghost predicate Alternating(parts: seq<ContentPart>) {
    && (forall k :: 0 <= k < |parts| && parts[k].TextPart? ==> parts[k].text != "")
    && (forall k :: 0 <= k < |parts| - 1 ==> !(parts[k].TextPart? && parts[k + 1].TextPart?))
  }

  lemma {:induction false} PartsOfTokens(ts: seq<Token>)
    ensures WireOfParts(PartsOf(ts)) == WireOf(ts)
    ensures Alternating(PartsOf(ts))
  {
    hide Raw;
    if ts != [] {
      var p := PartsOf(ts[1..]);
      PartsOfTokens(ts[1..]);
      if ts[0].Ch? {
        var q := AddChar(ts[0].c, p);
        if p != [] && p[0].TextPart? {
          assert q[1..] == p[1..];
          assert ([ts[0].c] + p[0].text) + WireOfParts(p[1..]) == [ts[0].c] + (p[0].text + WireOfParts(p[1..]));
        } else {
          assert q[1..] == p;
        }
      }
    }
  }

  /** Splitting loses nothing, makes no empty text, and never cuts text in two. */
  lemma SplitLosesNothing(content: string)
    ensures var parts := PartsOf(Tokens(content)); WireOfParts(parts) == content && Alternating(parts)
  {
    PartsOfTokens(Tokens(content));
    TokensLoseNothing(content);
  }
}
