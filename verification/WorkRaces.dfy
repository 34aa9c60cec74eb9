/** When a marker is appended twice: exactly when two writers grep before either appends, and both append. */
module WorkRaces {
  import opened Options
  import opened WorkFile

  // ---- looks and what follows ----

  /** The writer has found the marker missing and has not acted on it yet. */
  predicate Blind(s: Shop, w: nat, m: string) {
    w in s.looked && !s.looked[w] && Waiting(s, w) != [] && Waiting(s, w)[0] == m
  }

  /** The shop at moment `n` of a run. */
  function Moment(file0: Option<string>, acts: seq<Move>, n: nat): Shop
    requires n <= |acts| && ShopAfter(file0, acts[..n]).Some?
  {
    ShopAfter(file0, acts[..n]).value
  }

  /** From moment `n` on the writer is left alone until it acts. */
  ghost predicate Finishes(acts: seq<Move>, n: nat, w: nat) {
    exists i :: n <= i < |acts| && acts[i] == Act(w) && LeftAlone(acts, n, i, w)
  }

  ghost predicate LeftAlone(acts: seq<Move>, n: nat, i: nat, w: nat) {
    forall k :: n <= k < i && k < |acts| ==> acts[k] != Act(w) && acts[k] != Kill(w)
  }

  /** At one moment two writers have both found the marker missing, and both go on to act. */
  ghost predicate RaceAt(file0: Option<string>, acts: seq<Move>, m: string, n: nat, v: nat, w: nat) {
    && n <= |acts| && ShopAfter(file0, acts[..n]).Some? && v != w
    && Blind(Moment(file0, acts, n), v, m) && Blind(Moment(file0, acts, n), w, m)
    && Finishes(acts, n, v) && Finishes(acts, n, w)
  }

  ghost predicate TwiceIn(ms: seq<string>, m: string) {
    exists i, j :: 0 <= i < j < |ms| && ms[i] == m && ms[j] == m
  }

  // ---- runs and their prefixes ----

  lemma {:induction false} PrefixRuns(file0: Option<string>, acts: seq<Move>, n: nat)
    requires ShopAfter(file0, acts).Some? && n <= |acts|
    ensures ShopAfter(file0, acts[..n]).Some?
    decreases |acts|
  {
    if n == |acts| {
      assert acts[..n] == acts;
    } else {
      assert acts[..|acts| - 1][..n] == acts[..n];
      PrefixRuns(file0, acts[..|acts| - 1], n);
    }
  }

  lemma MomentStep(file0: Option<string>, acts: seq<Move>, n: nat)
    requires ShopAfter(file0, acts).Some? && n < |acts|
    ensures ShopAfter(file0, acts[..n]).Some? && ShopAfter(file0, acts[..n + 1]).Some?
    ensures CanMove(Moment(file0, acts, n), acts[n])
    ensures Moment(file0, acts, n + 1) == Moved(Moment(file0, acts, n), acts[n])
  {
    PrefixRuns(file0, acts, n + 1);
    assert acts[..n + 1][..n] == acts[..n];
  }

  lemma {:induction false} WroteGrows(file0: Option<string>, acts: seq<Move>, n: nat, j: nat)
    requires ShopAfter(file0, acts).Some? && n <= j <= |acts|
    ensures ShopAfter(file0, acts[..n]).Some? && ShopAfter(file0, acts[..j]).Some?
    ensures Moment(file0, acts, n).wrote <= Moment(file0, acts, j).wrote
    decreases j
  {
    PrefixRuns(file0, acts, n);
    PrefixRuns(file0, acts, j);
    if n < j {
      WroteGrows(file0, acts, n, j - 1);
      MomentStep(file0, acts, j - 1);
    }
  }

  // ---- a race appends twice ----

  lemma BlindStep(s: Shop, a: Move, w: nat, m: string)
    requires CanMove(s, a) && Blind(s, w, m) && a != Act(w) && a != Kill(w)
    ensures Blind(Moved(s, a), w, m)
  {
    hide Grep, Append;
  }

  lemma {:induction false} BlindStays(file0: Option<string>, acts: seq<Move>, n: nat, i: nat, w: nat, m: string)
    requires ShopAfter(file0, acts).Some? && n <= i <= |acts| && LeftAlone(acts, n, i, w)
    requires ShopAfter(file0, acts[..n]).Some? && Blind(Moment(file0, acts, n), w, m)
    ensures ShopAfter(file0, acts[..i]).Some? && Blind(Moment(file0, acts, i), w, m)
    decreases i
  {
    hide Moved, CanMove, Blind;
    PrefixRuns(file0, acts, i);
    if n < i {
      BlindStays(file0, acts, n, i - 1, w, m);
      MomentStep(file0, acts, i - 1);
      BlindStep(Moment(file0, acts, i - 1), acts[i - 1], w, m);
    }
  }

  lemma BlindActs(file0: Option<string>, acts: seq<Move>, n: nat, i: nat, w: nat, m: string)
    requires ShopAfter(file0, acts).Some? && n <= i < |acts| && LeftAlone(acts, n, i, w) && acts[i] == Act(w)
    requires ShopAfter(file0, acts[..n]).Some? && Blind(Moment(file0, acts, n), w, m)
    ensures ShopAfter(file0, acts[..i]).Some? && ShopAfter(file0, acts[..i + 1]).Some?
    ensures Moment(file0, acts, i + 1).wrote == Moment(file0, acts, i).wrote + [m]
  {
    BlindStays(file0, acts, n, i, w, m);
    MomentStep(file0, acts, i);
  }

  lemma TwoAppends(file0: Option<string>, acts: seq<Move>, m: string, i: nat, j: nat)
    requires ShopAfter(file0, acts).Some? && i < j < |acts|
    requires ShopAfter(file0, acts[..i]).Some? && ShopAfter(file0, acts[..i + 1]).Some?
    requires ShopAfter(file0, acts[..j]).Some? && ShopAfter(file0, acts[..j + 1]).Some?
    requires Moment(file0, acts, i + 1).wrote == Moment(file0, acts, i).wrote + [m]
    requires Moment(file0, acts, j + 1).wrote == Moment(file0, acts, j).wrote + [m]
    ensures TwiceIn(ShopAfter(file0, acts).value.wrote, m)
  {
    hide ShopAfter;
    WroteGrows(file0, acts, i + 1, j);
    WroteGrows(file0, acts, j + 1, |acts|);
    assert acts[..|acts|] == acts;
    var all := ShopAfter(file0, acts).value.wrote;
    assert all[|Moment(file0, acts, i).wrote|] == m && all[|Moment(file0, acts, j).wrote|] == m;
  }

  lemma RaceAppendsTwice(file0: Option<string>, acts: seq<Move>, m: string, n: nat, v: nat, w: nat)
    requires ShopAfter(file0, acts).Some? && RaceAt(file0, acts, m, n, v, w)
    ensures TwiceIn(ShopAfter(file0, acts).value.wrote, m)
  {
    hide ShopAfter, Blind, TwiceIn;
    var i :| n <= i < |acts| && acts[i] == Act(v) && LeftAlone(acts, n, i, v);
    var j :| n <= j < |acts| && acts[j] == Act(w) && LeftAlone(acts, n, j, w);
    BlindActs(file0, acts, n, i, v, m);
    BlindActs(file0, acts, n, j, w, m);
    if i < j { TwoAppends(file0, acts, m, i, j); } else { TwoAppends(file0, acts, m, j, i); }
  }

  // ---- a marker appended twice was raced for ----

  /** Whoever still means to append a marker that is already there was overtaken by another writer with the same look. */
  lemma {:induction false} Overtaken(file0: Option<string>, acts: seq<Move>, s: Shop, w: nat, m: string) returns (k: nat, v: nat)
    requires Leads(file0, acts, s) && Blind(s, w, m) && m in s.wrote
    ensures k < |acts| && v != w && acts[k] == Act(v) && LeftAlone(acts, k, |acts|, w)
    ensures ShopAfter(file0, acts[..k]).Some?
    ensures Blind(Moment(file0, acts, k), v, m) && Blind(Moment(file0, acts, k), w, m)
    decreases |acts|
  {
    var n := |acts| - 1;
    var before, a := ShopAfter(file0, acts[..n]).value, acts[n];
    BlindBefore(file0, acts[..n], before, a, w, m);
    if m in before.wrote {
      k, v := Overtaken(file0, acts[..n], before, w, m);
      assert acts[..n][..k] == acts[..k];
    } else {
      k, v := n, a.w;
    }
  }

  /** The step before: the look is older than the step that made the marker appear. */
  lemma BlindBefore(file0: Option<string>, acts: seq<Move>, before: Shop, a: Move, w: nat, m: string)
    requires Leads(file0, acts, before) && CanMove(before, a)
    requires Blind(Moved(before, a), w, m) && m in Moved(before, a).wrote
    ensures Blind(before, w, m) && a != Act(w) && a != Kill(w)
    ensures m !in before.wrote ==> a.Act? && a.w != w && Blind(before, a.w, m)
  {
    EveryShopKeepsInv(file0, acts, before);
    hide Grep, Append, LinesOf;
  }

  lemma {:induction false} TwiceWasRaced(file0: Option<string>, acts: seq<Move>, s: Shop, m: string) returns (n: nat, v: nat, w: nat)
    requires Leads(file0, acts, s) && TwiceIn(s.wrote, m)
    ensures RaceAt(file0, acts, m, n, v, w)
    decreases |acts|
  {
    hide Moved, CanMove, Blind;
    var last := |acts| - 1;
    var front := acts[..last];
    var before, a := ShopAfter(file0, front).value, acts[last];
    if TwiceIn(before.wrote, m) {
      n, v, w := TwiceWasRaced(file0, front, before, m);
      RaceGoesOn(file0, acts, m, n, v, w);
    } else {
      w := SecondAppend(before, a, m);
      n, v := Overtaken(file0, front, before, w, m);
      assert front[..n] == acts[..n];
      assert acts[n] == Act(v) && LeftAlone(acts, n, n, v);
      assert acts[last] == Act(w) && LeftAlone(acts, n, last, w);
    }
  }

  lemma SecondAppend(before: Shop, a: Move, m: string) returns (w: nat)
    requires CanMove(before, a) && TwiceIn(Moved(before, a).wrote, m) && !TwiceIn(before.wrote, m)
    ensures a == Act(w) && Blind(before, w, m) && m in before.wrote
  {
    hide Grep, Append;
    var all := Moved(before, a).wrote;
    var i, j :| 0 <= i < j < |all| && all[i] == m && all[j] == m;
    assert a.Act?;
    w := a.w;
    assert j == |before.wrote| && before.wrote[i] == m;
  }

  lemma RaceGoesOn(file0: Option<string>, acts: seq<Move>, m: string, n: nat, v: nat, w: nat)
    requires acts != [] && RaceAt(file0, acts[..|acts| - 1], m, n, v, w)
    ensures RaceAt(file0, acts, m, n, v, w)
  {
    hide ShopAfter, Blind;
    var front := acts[..|acts| - 1];
    assert front[..n] == acts[..n];
    var i :| n <= i < |front| && front[i] == Act(v) && LeftAlone(front, n, i, v);
    var j :| n <= j < |front| && front[j] == Act(w) && LeftAlone(front, n, j, w);
    assert acts[i] == Act(v) && LeftAlone(acts, n, i, v);
    assert acts[j] == Act(w) && LeftAlone(acts, n, j, w);
  }

  /**
   * In every run, kills included, a marker is appended twice if and only if at some moment two writers have both found
   * it missing and both go on to act: nothing else duplicates an edit.
   */
  lemma DoubleAppendIff(file0: Option<string>, acts: seq<Move>, s: Shop, m: string)
    requires Leads(file0, acts, s)
    ensures TwiceIn(s.wrote, m) <==> exists n, v, w :: RaceAt(file0, acts, m, n, v, w)
  {
    hide TwiceIn, RaceAt;
    if TwiceIn(s.wrote, m) {
      var n, v, w := TwiceWasRaced(file0, acts, s, m);
    }
    if n, v, w :| RaceAt(file0, acts, m, n, v, w) {
      RaceAppendsTwice(file0, acts, m, n, v, w);
    }
  }
}
