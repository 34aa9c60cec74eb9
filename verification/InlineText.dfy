/** What the inline parser does not read: which characters of a text are shown as they are (web/lib/markdown.tsx). */
module InlineText {
  import opened Options
  import opened Text
  import opened Mentions
  import opened Inline
  import opened InlineMarks
  import opened InlineDocument

  // ---- the patterns, letter by letter ----

  lemma EscapableIff(c: char)
    ensures Escapable(c) <==> c in "\\`*_{}[]()#+-.!>~|"
  {
    var all := "\\`*_{}[]()#+-.!>~|";
    assert all[0] == '\\' && all[1] == '`' && all[2] == '*' && all[3] == '_' && all[4] == '{' && all[5] == '}';
    assert all[6] == '[' && all[7] == ']' && all[8] == '(' && all[9] == ')' && all[10] == '#' && all[11] == '+';
    assert all[12] == '-' && all[13] == '.' && all[14] == '!' && all[15] == '>' && all[16] == '~' && all[17] == '|';
  }

  /** `s` begins with these small letters and signs, the letters in any case. */
  predicate BeginsWith(s: string, small: string) {
    |small| <= |s| && forall k :: 0 <= k < |small| ==>
      s[k] == small[k] || ('a' <= small[k] <= 'z' && s[k] as int == small[k] as int - 'a' as int + 'A' as int)
  }

  predicate UrlChar(c: char) {
    !IsSpace(c) && c != '<' && c != '>' && c != '"' && c != '\''
  }

  predicate SafeUrl(s: string, scheme: string) {
    BeginsWith(s, scheme) && |s| > |scheme| && forall k :: |scheme| <= k < |s| ==> UrlChar(s[k])
  }

  lemma LowerIs(c: char, small: char)
    requires 'a' <= small <= 'z'
    ensures Lower(c) == small <==> c == small || c as int == small as int - 'a' as int + 'A' as int
  {
  }

  lemma BeginsWithHttp(s: string)
    requires |s| > 4
    ensures BeginsWith(s[..4], "http") <==> Lower(s[0]) == 'h' && Lower(s[1]) == 't' && Lower(s[2]) == 't' && Lower(s[3]) == 'p'
  {
    hide Lower;
    var p := "http";
    assert p[0] == 'h' && p[1] == 't' && p[2] == 't' && p[3] == 'p';
    LowerIs(s[0], 'h');
    LowerIs(s[1], 't');
    LowerIs(s[2], 't');
    LowerIs(s[3], 'p');
  }

  lemma BeginsWithParts(s: string, x: string, y: string)
    requires |x| <= |s|
    ensures BeginsWith(s, x + y) <==> BeginsWith(s[..|x|], x) && BeginsWith(s[|x|..], y)
  {
    if BeginsWith(s, x + y) {
      forall k | 0 <= k < |x| ensures (x + y)[k] == x[k] && s[..|x|][k] == s[k] {}
      forall k | 0 <= k < |y| ensures (x + y)[|x| + k] == y[k] && s[|x|..][k] == s[|x| + k] {}
    }
  }

  lemma TailIs(s: string, n: nat)
    requires n <= |s|
    ensures SafeTail(s[n..]) <==> n < |s| && forall k :: n <= k < |s| ==> UrlChar(s[k])
  {
    hide IsSpace;
    if SafeTail(s[n..]) {
      forall k | n <= k < |s| ensures UrlChar(s[k]) { assert s[k] in s[n..]; }
    }
  }

  lemma SlashesAre(r: string)
    ensures BeginsWith(r, "://") <==> |r| >= 3 && r[0] == ':' && r[1] == '/' && r[2] == '/'
  {
    var p := "://";
    assert p[0] == ':' && p[1] == '/' && p[2] == '/';
  }

  /** The addresses that links may lead to. */
  lemma SafeHrefIff(s: string)
    ensures SafeHref(s) <==> SafeUrl(s, "http://") || SafeUrl(s, "https://")
  {
    assert "http://" == "http" + "://" && "https://" == "http" + ("s" + "://");
    if |s| > 4 {
      BeginsWithHttp(s);
      BeginsWithParts(s, "http", "://");
      BeginsWithParts(s, "http", "s" + "://");
      BeginsWithParts(s[4..], "s", "://");
      assert s[4..][1..] == s[5..] && s[4..][..1] == [s[4]];
      SlashesAre(s[4..]);
      SlashesAre(s[5..]);
      LowerIs(s[4], 's');
      assert BeginsWith([s[4]], "s") <==> Lower(s[4]) == 's' by { assert "s"[0] == 's'; }
      if |s| > 7 {
        assert s[4..][3..] == s[7..];
        TailIs(s, 7);
      }
      if |s| > 8 {
        assert s[5..][3..] == s[8..];
        TailIs(s, 8);
      }
      hide BeginsWith, SafeTail, UrlChar, Lower;
    }
  }

  // ---- what stays text ----

  /** A mark that closes one opened in front of `from`. */
  ghost predicate Closed(s: string, from: nat, mark: string) {
    exists k: nat :: MarkAt(s, k, mark) && from < k && !IsSpace(s[k - 1])
  }

  /** Text with a link, of a person or to a safe address, at its start. */
  ghost predicate StartsWithLink(s: string) {
    || (exists t :: Linkable(t) && Raw(t) <= s)
    || (exists t, href :: ']' !in t && '\n' !in t && SafeHref(href) && ')' !in href && "[" + t + "](" + href + ")" <= s)
  }

  ghost predicate BlankBehind(s: string, i: nat) {
    i >= |s| || IsSpace(s[i])
  }

  /** Nothing begins at `i`: no escape, no link, no code, no mark that opens and is closed again. */
  ghost predicate Stays(s: string, i: nat)
    requires i < |s|
  {
    var c := s[i];
    var twice := i + 1 < |s| && s[i + 1] == c;
    if c == '\\' then i + 1 == |s| || !Escapable(s[i + 1])
    else if c == '[' then !StartsWithLink(s[i..])
    else if c == '`' then forall k :: i + TickLen(s[i..]) <= k ==> !MarkAt(s, k, Ticks(TickLen(s[i..])))
    else if c == '*' || c == '_' then
      if twice then BlankBehind(s, i + 2) || !Closed(s, i + 2, [c, c]) else BlankBehind(s, i + 1) || !Closed(s, i + 1, [c])
    else if c == '~' then !twice || BlankBehind(s, i + 2) || !Closed(s, i + 2, "~~")
    else c != '\n'
  }

  /** Backticks are read as whole runs, everything else one by one. */
  function Width(s: string, i: nat): (w: nat)
    requires i < |s|
    ensures 1 <= w <= |s| - i
  {
    if s[i] == '`' then TickLen(s[i..]) else 1
  }

  ghost predicate AllStays(s: string, i: nat)
    requires i <= |s|
    decreases |s| - i
  {
    i < |s| ==> Stays(s, i) && AllStays(s, i + Width(s, i))
  }

  lemma NoCloser(s: string, from: nat, mark: string)
    requires mark != "" && !Closed(s, from, mark)
    ensures FirstClose(s, from, from, mark) == None
  {
    hide IsSpace, MarkAt, FirstClose;
    NoneCloses(s, from, mark);
  }

  lemma NoLinkStays(word: char -> bool, s: string, i: nat)
    requires i < |s| && s[i] == '[' && !StartsWithLink(s[i..])
    ensures StepAt(word, s, i) == Put([s[i]], i + 1)
  {
    hide MatchLink, LinkHead, SafeHref, Linkable, Raw, StrongClose, EmClose, DelClose, CodeStep;
    NoMarks(word, s, i);
    var rest := s[i..];
    if MatchLink(rest).Some? { MatchIsRaw(rest); }
    var h := LinkHead(rest);
    if h.Some? && SafeHref(h.value.href) { HeadIsLink(rest); }
  }

  lemma HeadIsLink(s: string)
    requires LinkHead(s).Some? && SafeHref(LinkHead(s).value.href)
    ensures StartsWithLink(s)
  {
    hide LinkHead, SafeHref;
    var h := LinkHead(s).value;
    LinkHeadIs(s);
    HeadChars(s);
    assert "[" + h.text + "](" + h.href + ")" <= s;
  }

  lemma NoMarks(word: char -> bool, s: string, i: nat)
    requires i < |s| && s[i] != '*' && s[i] != '_'
    ensures StrongClose(word, s, i) == None && EmClose(word, s, i) == None && (s[i] != '~' ==> DelClose(s, i) == None)
  {
  }

  lemma {:induction false} HrefRun(s: string)
    ensures ')' !in s[..HrefLen(s)]
  {
    if s != "" && s[0] != ')' && !IsSpace(s[0]) {
      HrefRun(s[1..]);
      assert s[..HrefLen(s)] == [s[0]] + s[1..][..HrefLen(s[1..])];
    }
  }

  lemma HeadChars(s: string)
    requires LinkHead(s).Some?
    ensures var h := LinkHead(s).value; ']' !in h.text && '\n' !in h.text && ')' !in h.href
  {
    hide HrefLen;
    var n := TextLen(s[1..]);
    var rest := s[1 + n..];
    HrefRun(rest[2..]);
    assert rest[2..][..HrefLen(rest[2..])] == LinkHead(s).value.href;
  }

  lemma MarksStay(word: char -> bool, s: string, i: nat)
    requires i < |s| && (s[i] == '*' || s[i] == '_' || s[i] == '~') && Stays(s, i)
    ensures StepAt(word, s, i) == Put([s[i]], i + 1)
  {
    hide IsSpace, Closed, FirstClose;
    var c := s[i];
    if i + 1 < |s| && s[i + 1] == c {
      if !Closed(s, i + 2, [c, c]) { NoCloser(s, i + 2, [c, c]); }
    } else if !Closed(s, i + 1, [c]) {
      NoCloser(s, i + 1, [c]);
    }
  }

  lemma TicksStay(word: char -> bool, s: string, i: nat)
    requires i < |s| && s[i] == '`' && Stays(s, i)
    ensures StepAt(word, s, i) == Put(Ticks(Width(s, i)), i + Width(s, i)) && Ticks(Width(s, i)) == s[i..i + Width(s, i)]
  {
    hide IndexOf;
    assert TickLen(s[i..]) > 0;
  }

  lemma CharStays(word: char -> bool, s: string, i: nat)
    requires i < |s| && Stays(s, i)
    ensures StepAt(word, s, i) == Put(s[i..i + Width(s, i)], i + Width(s, i))
  {
    if s[i] == '`' {
      TicksStay(word, s, i);
    } else {
      assert s[i..i + 1] == [s[i]];
      if s[i] == '[' { NoLinkStays(word, s, i); }
      if s[i] == '*' || s[i] == '_' || s[i] == '~' { MarksStay(word, s, i); }
      if s[i] != '*' && s[i] != '_' { NoMarks(word, s, i); }
    }
  }

  lemma {:induction false} StaysFrom(word: char -> bool, s: string, i: nat, buf: string)
    requires i <= |s| && AllStays(s, i)
    ensures NodesFrom(word, s, i, buf) == Flush(buf + s[i..])
    decreases |s| - i
  {
    hide StepAt, Stays, Width, Flush;
    if i == |s| {
      NodesAtEnd(word, s, buf);
      assert buf + s[i..] == buf;
    } else {
      var w := Width(s, i);
      CharStays(word, s, i);
      NodesAtPut(word, s, i, s[i..i + w], i + w, buf);
      StaysFrom(word, s, i + w, buf + s[i..i + w]);
      assert buf + s[i..i + w] + s[i + w..] == buf + s[i..];
    }
  }

  /**
   * A text in which nothing begins is shown as it is, marks and all: `a * b * c`, a link to an address that is not safe,
   * backticks without an end.
   */
  lemma NothingIsRead(word: char -> bool, s: string)
    requires AllStays(s, 0)
    ensures NodesOf(word, s) == if s == "" then [] else [Plain(s)]
  {
    StaysFrom(word, s, 0, "");
    assert "" + s[0..] == s;
  }
}
