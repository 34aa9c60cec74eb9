/** How often a marker is counted in the work file, `MarkerCount` at line 658 of daemon/worktreesim/worktreesim.go. */
module WorkCounts {
  import opened Options
  import opened WorkFile

  /** `strings.Count` for a marker that is not empty: non-overlapping occurrences from the left. */
  function Count(c: string, m: string): nat
    requires m != ""
  {
    if |c| < |m| then 0
    else if c[..|m|] == m then 1 + Count(c[|m|..], m)
    else Count(c[1..], m)
  }

  /** A marker that the counts below are about. */
  predicate OneLine(m: string) {
    m != "" && '\n' !in m
  }

  ghost predicate EndsClean(c: string) {
    c == "" || c[|c| - 1] == '\n'
  }

  lemma NoBreakInside(m: string, t: string, i: int, k: int)
    requires At(m, t, i) && '\n' !in m && i <= k < i + |m|
    ensures t[k] != '\n'
  {
    assert t[i..i + |m|][k - i] == t[k];
  }

  lemma CleanLines(c0: string, ms: seq<string>)
    requires EndsClean(c0)
    ensures EndsClean(c0 + LinesOf(ms))
  {
    if ms == [] {
      assert c0 + LinesOf(ms) == c0;
    }
  }

  // ---- counts add up over lines ----

  lemma NoMatchAcross(x: string, y: string, m: string)
    requires OneLine(m) && |m| <= |x + "\n" + y| && (x + "\n" + y)[..|m|] == m
    ensures |m| <= |x| && x[..|m|] == m
  {
    var t := x + "\n" + y;
    assert t[|x|] == '\n' && At(m, t, 0);
    if |m| > |x| {
      NoBreakInside(m, t, 0, |x|);
    } else {
      assert t[..|m|] == x[..|m|];
    }
  }

  lemma {:induction false} CountOfBreak(x: string, y: string, m: string)
    requires OneLine(m)
    ensures Count(x + "\n" + y, m) == Count(x, m) + Count(y, m)
    decreases |x|
  {
    var t := x + "\n" + y;
    if |t| < |m| {
    } else if t[..|m|] == m {
      NoMatchAcross(x, y, m);
      assert t[|m|..] == x[|m|..] + "\n" + y;
      CountOfBreak(x[|m|..], y, m);
    } else if x == "" {
      assert t[1..] == y;
    } else {
      assert t[1..] == x[1..] + "\n" + y;
      assert |m| <= |x| ==> t[..|m|] == x[..|m|];
      CountOfBreak(x[1..], y, m);
    }
  }

  lemma CountOfLine(c: string, n: string, m: string)
    requires OneLine(m) && EndsClean(c)
    ensures Count(c + Line(n), m) == Count(c, m) + Count(n, m)
  {
    CountOfBreak(n, "", m);
    assert n + "\n" + "" == Line(n);
    if c == "" {
      assert c + Line(n) == Line(n);
    } else {
      var d := c[..|c| - 1];
      assert c == d + "\n" + "" && c + Line(n) == d + "\n" + Line(n);
      CountOfBreak(d, "", m);
      CountOfBreak(d, Line(n), m);
    }
  }

  function CountIn(ns: seq<string>, m: string): nat
    requires m != ""
    decreases |ns|
  {
    if ns == [] then 0 else CountIn(ns[..|ns| - 1], m) + Count(ns[|ns| - 1], m)
  }

  /** The count in a file of whole lines is the sum of the counts in its lines. */
  lemma {:induction false} CountOfLines(c: string, ns: seq<string>, m: string)
    requires OneLine(m) && EndsClean(c)
    ensures Count(c + LinesOf(ns), m) == Count(c, m) + CountIn(ns, m)
    decreases |ns|
  {
    if ns == [] {
      assert c + LinesOf(ns) == c;
    } else {
      var k := |ns| - 1;
      CountOfLines(c, ns[..k], m);
      CleanLines(c, ns[..k]);
      CountOfLine(c + LinesOf(ns[..k]), ns[k], m);
      assert (c + LinesOf(ns[..k])) + Line(ns[k]) == c + LinesOf(ns);
    }
  }

  lemma {:induction false} CountOfNone(c: string, m: string)
    requires m != "" && !Contains(m, c)
    ensures Count(c, m) == 0
    decreases |c|
  {
    if |c| >= |m| {
      assert !At(m, c, 0);
      forall i | 0 <= i <= |c[1..]| ensures !At(m, c[1..], i) {
        assert i + 1 + |m| <= |c| ==> c[1..][i..i + |m|] == c[i + 1..i + 1 + |m|];
        assert !At(m, c, i + 1);
      }
      CountOfNone(c[1..], m);
    }
  }

  lemma {:induction false} CountOfSome(c: string, m: string, i: int)
    requires m != "" && At(m, c, i)
    ensures Count(c, m) >= 1
    decreases |c|
  {
    if c[..|m|] != m {
      assert c[1..][i - 1..i - 1 + |m|] == c[i..i + |m|];
      CountOfSome(c[1..], m, i - 1);
    }
  }

  lemma CountsIffContained(c: string, m: string)
    requires m != ""
    ensures Count(c, m) == 0 <==> !Contains(m, c)
  {
    if Contains(m, c) {
      var i :| At(m, c, i);
      CountOfSome(c, m, i);
    } else {
      CountOfNone(c, m);
    }
  }

  /** One of the lines holds the marker once and the others do not hold it. */
  ghost predicate OnceAmong(ns: seq<string>, m: string)
    requires m != ""
  {
    exists i :: 0 <= i < |ns| && Count(ns[i], m) == 1 && forall j :: 0 <= j < |ns| && j != i ==> !Contains(m, ns[j])
  }

  lemma {:induction false} NoneCounts(ns: seq<string>, m: string)
    requires m != ""
    ensures CountIn(ns, m) == 0 <==> forall j :: 0 <= j < |ns| ==> !Contains(m, ns[j])
    decreases |ns|
  {
    hide Contains;
    if ns != [] {
      NoneCounts(ns[..|ns| - 1], m);
      CountsIffContained(ns[|ns| - 1], m);
    }
  }

  lemma {:induction false} CountsOnce(ns: seq<string>, m: string)
    requires m != ""
    ensures CountIn(ns, m) == 1 <==> OnceAmong(ns, m)
    decreases |ns|
  {
    hide Contains, Count;
    if ns != [] {
      var k := |ns| - 1;
      var front := ns[..k];
      CountsOnce(front, m);
      NoneCounts(front, m);
      CountsIffContained(ns[k], m);
      if OnceAmong(front, m) && !Contains(m, ns[k]) {
        var i :| 0 <= i < |front| && Count(front[i], m) == 1 && forall j :: 0 <= j < |front| && j != i ==> !Contains(m, front[j]);
        assert Count(ns[i], m) == 1;
      }
      if OnceAmong(ns, m) { OnceInFrontOrLast(ns, m); }
    }
  }

  lemma OnceInFrontOrLast(ns: seq<string>, m: string)
    requires m != "" && ns != [] && OnceAmong(ns, m)
    ensures var k := |ns| - 1;
            || (Count(ns[k], m) == 1 && forall j :: 0 <= j < k ==> !Contains(m, ns[..k][j]))
            || (!Contains(m, ns[k]) && OnceAmong(ns[..k], m))
  {
    hide Contains, Count;
    var k := |ns| - 1;
    var i :| 0 <= i < |ns| && Count(ns[i], m) == 1 && forall j :: 0 <= j < |ns| && j != i ==> !Contains(m, ns[j]);
    if i < k {
      assert Count(ns[..k][i], m) == 1;
    }
  }

  // ---- what the marker count reads ----

  /**
   * In every run, races and kills included, over a file that ended in whole lines without the marker: it is counted
   * once exactly when one of the appended lines holds it once and no other holds it.
   */
  lemma CountsOneIff(file0: Option<string>, acts: seq<Move>, s: Shop, m: string)
    requires Leads(file0, acts, s) && OneLine(m) && EndsClean(Content(file0)) && !Contains(m, Content(file0))
    ensures Count(Content(s.file), m) == CountIn(s.wrote, m)
    ensures Count(Content(s.file), m) == 1 <==> OnceAmong(s.wrote, m)
  {
    hide Contains, OnceAmong, CountIn, Leads;
    FileOnlyGrows(file0, acts, s);
    CountsIffContained(Content(file0), m);
    CountOfLines(Content(file0), s.wrote, m);
    CountsOnce(s.wrote, m);
  }

  /** While nobody races and no other appended marker holds it, every marker that was answered for is counted once. */
  lemma MarkersCountOne(file0: Option<string>, acts: seq<Move>, s: Shop, m: string)
    requires Leads(file0, acts, s) && OneAtATime(file0, acts)
    requires m in s.handled && m != "" && EndsClean(Content(file0)) && !Contains(m, Content(file0))
    requires forall n :: n in s.wrote && Contains(m, n) ==> n == m
    ensures Count(Content(s.file), m) == 1 && m in s.wrote
  {
    hide Contains, LinesOf, OneAtATime, Leads, Count;
    EveryShopKeepsInv(file0, acts, s);
    EditsAreExactlyOnce(file0, acts, s);
    CountsOneIff(file0, acts, s, m);
    ContainedInALine(Content(file0), s.wrote, m);
    SelfContained(m);
    var i :| 0 <= i < |s.wrote| && Contains(m, s.wrote[i]);
    forall j | 0 <= j < |s.wrote| && j != i ensures !Contains(m, s.wrote[j]) {
      assert s.wrote[j] in s.wrote && s.wrote[i] in s.wrote;
    }
  }

  // ---- markers served one after the other ----

  predicate InOne(m: string, ns: seq<string>) {
    exists i :: 0 <= i < |ns| && Contains(m, ns[i])
  }

  /** The markers that are appended when `ms` are served in turn: those that no earlier one holds. */
  function Kept(ms: seq<string>): seq<string>
    decreases |ms|
  {
    if ms == [] then []
    else
      var before := Kept(ms[..|ms| - 1]);
      var m := ms[|ms| - 1];
      if InOne(m, before) then before else before + [m]
  }

  ghost predicate Fit(file0: Option<string>, ms: seq<string>) {
    EndsClean(Content(file0)) && forall m :: m in ms ==> OneLine(m) && !Contains(m, Content(file0))
  }

  lemma {:induction false} ContainedInALine(c: string, ns: seq<string>, m: string)
    requires OneLine(m) && EndsClean(c) && !Contains(m, c)
    ensures Contains(m, c + LinesOf(ns)) <==> InOne(m, ns)
  {
    hide Contains, LinesOf;
    CountsIffContained(c, m);
    CountsIffContained(c + LinesOf(ns), m);
    CountOfLines(c, ns, m);
    NoneCounts(ns, m);
  }

  /** One more marker is served. */
  lemma ServedStep(file0: Option<string>, ms: seq<string>)
    requires ms != []
    ensures var n := |ms| - 1;
            var file, before := ServedAll(file0, ms[..n]).0, Kept(ms[..n]);
            && ServedAll(file0, ms).0 == (if Grep(ms[n], file) then file else Append(file, ms[n]))
            && Kept(ms) == (if InOne(ms[n], before) then before else before + [ms[n]])
  {
    hide Grep, InOne;
  }

  lemma AppendIsMore(file: Option<string>, c: string, ns: seq<string>, m: string)
    requires Content(file) == c + LinesOf(ns)
    ensures Content(Append(file, m)) == c + LinesOf(ns + [m]) && Append(file, m).Some?
  {
    LinesOfMore(ns, m);
    assert c + (LinesOf(ns) + Line(m)) == (c + LinesOf(ns)) + Line(m);
  }

  /** The file then: the old one and the kept markers as lines. */
  lemma {:induction false} ServedKeeps(file0: Option<string>, ms: seq<string>)
    requires Fit(file0, ms)
    ensures Content(ServedAll(file0, ms).0) == Content(file0) + LinesOf(Kept(ms))
    ensures Kept(ms) == [] ==> ServedAll(file0, ms).0 == file0
    decreases |ms|
  {
    if ms == [] {
      NoLines(file0);
    } else {
      var n := |ms| - 1;
      ServedKeeps(file0, ms[..n]);
      assert ms[n] in ms;
      var before := ServedAll(file0, ms[..n]).0;
      ServedStep(file0, ms);
      hide Contains, InOne, LinesOf, OneLine, EndsClean, ServedAll, Kept, Grep, Append;
      ContainedInALine(Content(file0), Kept(ms[..n]), ms[n]);
      GrepIsContained(ms[n], before);
      AppendIsMore(before, Content(file0), Kept(ms[..n]), ms[n]);
    }
  }

  lemma NoLines(file0: Option<string>)
    ensures Content(file0) == Content(file0) + LinesOf([])
  {
  }

  lemma GrepIsContained(m: string, file: Option<string>)
    requires OneLine(m)
    ensures Grep(m, file) <==> Contains(m, Content(file))
  {
  }

  /** Served in turn, a marker is counted once exactly when one of the kept markers holds it once and no other does. */
  lemma ServedCountsOneIff(file0: Option<string>, ms: seq<string>, m: string)
    requires Fit(file0, ms) && m in ms
    ensures OneLine(m)
    ensures Count(Content(ServedAll(file0, ms).0), m) == 1 <==> OnceAmong(Kept(ms), m)
  {
    hide Contains, OnceAmong, CountIn, LinesOf, Kept, ServedAll, EndsClean;
    ServedKeeps(file0, ms);
    CountsIffContained(Content(file0), m);
    CountOfLines(Content(file0), Kept(ms), m);
    CountsOnce(Kept(ms), m);
  }

  // ---- which markers are counted once in any order ----

  ghost predicate AllCountOne(file0: Option<string>, ms: seq<string>) {
    forall m :: m in ms && m != "" ==> Count(Content(ServedAll(file0, ms).0), m) == 1
  }

  ghost predicate NoneInside(ms: seq<string>) {
    forall m, n :: m in ms && n in ms && Contains(m, n) ==> m == n
  }

  ghost predicate SameMarkers(ks: seq<string>, ms: seq<string>) {
    forall m :: m in ks <==> m in ms
  }

  lemma SelfContained(m: string)
    ensures Contains(m, m)
    ensures m != "" ==> Count(m, m) == 1
  {
    assert At(m, m, 0);
    if m != "" { assert m[..|m|] == m && m[|m|..] == ""; }
  }

  lemma {:induction false} KeptAre(ms: seq<string>)
    ensures forall k :: k in Kept(ms) ==> k in ms
    ensures forall m :: m in ms ==> InOne(m, Kept(ms))
    ensures forall i, j :: 0 <= i < j < |Kept(ms)| ==> Kept(ms)[i] != Kept(ms)[j]
    decreases |ms|
  {
    hide Contains;
    if ms != [] {
      var n := |ms| - 1;
      KeptAre(ms[..n]);
      var before, m := Kept(ms[..n]), ms[n];
      SelfContained(m);
      forall k | k in ms ensures InOne(k, Kept(ms)) {
        if k in ms[..n] {
          var i :| 0 <= i < |before| && Contains(k, before[i]);
          assert Contains(k, Kept(ms)[i]);
        } else if !InOne(m, before) {
          assert Contains(k, Kept(ms)[|before|]);
        }
      }
    }
  }

  /** Markers of which none holds another are counted once each, whatever the order and the repeats. */
  lemma ApartCountsOne(file0: Option<string>, ms: seq<string>)
    requires Fit(file0, ms) && NoneInside(ms)
    ensures AllCountOne(file0, ms)
  {
    hide Contains, Kept, ServedAll, Count, EndsClean;
    KeptAre(ms);
    forall m | m in ms && m != "" ensures Count(Content(ServedAll(file0, ms).0), m) == 1 {
      ServedCountsOneIff(file0, ms, m);
      SelfContained(m);
      var i :| 0 <= i < |Kept(ms)| && Contains(m, Kept(ms)[i]);
      assert Kept(ms)[i] in ms && Kept(ms)[i] == m;
      forall j | 0 <= j < |Kept(ms)| && j != i ensures !Contains(m, Kept(ms)[j]) {
        assert Kept(ms)[j] in ms && Kept(ms)[j] != m;
      }
    }
  }

  lemma {:induction false} KeptGrows(ms: seq<string>, more: seq<string>)
    ensures Kept(ms) <= Kept(ms + more)
    decreases |more|
  {
    hide InOne;
    if more == [] {
      assert ms + more == ms;
    } else {
      var n := |more| - 1;
      KeptGrows(ms, more[..n]);
      assert (ms + more)[..|ms + more| - 1] == ms + more[..n];
    }
  }

  lemma LongerIsNotInside(m: string, n: string)
    requires Contains(m, n) && m != n
    ensures !Contains(n, m)
  {
    var i :| At(m, n, i);
    assert n[0..|n|] == n;
  }

  lemma TwoKept(m: string, n: string)
    requires Contains(m, n) && m != n
    ensures Kept([m, n]) == [m, n]
  {
    hide Contains;
    LongerIsNotInside(m, n);
    assert [m, n][..1] == [m] && [m][..0] == [];
    assert Kept([m]) == [m] by { assert Kept([]) == []; assert !InOne(m, []); }
    assert !InOne(n, [m]);
    assert [m] + [n] == [m, n];
  }

  /** Served first, a marker that another one holds is counted twice. */
  lemma InsideMiscounts(file0: Option<string>, ms: seq<string>, m: string, n: string)
    requires Fit(file0, ms) && m in ms && n in ms && Contains(m, n) && m != n
    ensures SameMarkers([m, n] + ms, ms) && !AllCountOne(file0, [m, n] + ms)
  {
    hide Contains, Kept, ServedAll, Count, EndsClean;
    var ks := [m, n] + ms;
    TwoKept(m, n);
    KeptGrows([m, n], ms);
    ServedCountsOneIff(file0, ks, m);
    SelfContained(m);
    assert Kept(ks)[0] == m && Kept(ks)[1] == n;
    assert m in ks;
  }

  /**
   * Exactly the sets of markers of which none holds another are counted once each in every order in which they may be
   * dispatched, repeats included.
   */
  lemma EveryOrderCountsOneIff(file0: Option<string>, ms: seq<string>)
    requires Fit(file0, ms)
    ensures (forall ks :: SameMarkers(ks, ms) ==> AllCountOne(file0, ks)) <==> NoneInside(ms)
  {
    hide Contains, AllCountOne, EndsClean, OneLine;
    if NoneInside(ms) {
      forall ks | SameMarkers(ks, ms) ensures AllCountOne(file0, ks) { ApartCountsOne(file0, ks); }
    } else {
      var m, n :| m in ms && n in ms && Contains(m, n) && m != n;
      InsideMiscounts(file0, ms, m, n);
    }
  }

  lemma CountInAb()
    ensures Contains("a", "ab") && Count("ab", "a") == 1
  {
    assert At("a", "ab", 0);
    assert "ab"[..1] == "a" && "ab"[1..] == "b" && "b"[..1] == "b" && "b"[1..] == "";
    assert Count("", "a") == 0 && Count("b", "a") == 0;
  }

  /** In one given order a marker inside another may still be counted once: "ab" and then "a". */
  lemma PartMayCountOne()
    ensures Contains("a", "ab") && Kept(["ab", "a"]) == ["ab"] && OnceAmong(["ab"], "a")
  {
    hide Contains, Count;
    CountInAb();
    assert ["ab", "a"][..1] == ["ab"] && ["ab"][..0] == [];
    assert Kept(["ab"]) == ["ab"];
    assert ["ab"][0] == "ab" && InOne("a", ["ab"]);
  }

  /** A marker inside another is never written and yet counted twice. */
  lemma PartOfAMarkerMiscounts(w: nat) returns (acts: seq<Move>, s: Shop)
    ensures Leads(None, acts, s) && "a" in s.handled && "a" !in s.wrote
    ensures Count(Content(s.file), "a") == 2
  {
    hide Contains;
    s := Opened(None);
    acts := [];
    assert Leads(None, acts, s);
    acts, s := ShopOn(None, acts, s, Put(w, "aa"));
    acts, s := ShopOn(None, acts, s, Put(w, "a"));
    acts, s := ShopOn(None, acts, s, Look(w));
    acts, s := ShopOn(None, acts, s, Act(w));
    var c := Content(s.file);
    assert c == "aa\n";
    assert s.inbox[w][0] == "a";
    AIsInside(c);
    acts, s := ShopOn(None, acts, s, Look(w));
    acts, s := ShopOn(None, acts, s, Act(w));
    assert c[..1] == "a" && c[1..] == "a\n" && c[1..][..1] == "a" && c[1..][1..] == "\n";
    assert c[1..][1..][..1] == "\n" && c[1..][1..][1..] == "";
    assert Count("", "a") == 0 && Count("\n", "a") == 0 && Count("a\n", "a") == 1;
  }

  lemma AIsInside(c: string)
    requires c == "aa\n"
    ensures Contains("a", c)
  {
    assert At("a", c, 0);
  }
}
