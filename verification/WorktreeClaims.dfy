/** Whom the harness talks to, what the sweep kills, and what a claim phase claims. */
module WorktreeClaims {
  import opened Options
  import opened Worktree
  import opened WorktreeSafety

  // ---- the live writer ----

  /** Where the newest of the live writers stands, or -1. */
  lemma {:induction false} LastLiveIsNewest(w: World, ws: seq<Writer>, n: nat) returns (i: int)
    requires n <= |ws|
    ensures -1 <= i < n && forall j :: i < j < n ==> ws[j].pgid !in w.alive
    ensures i >= 0 ==> ws[i].pgid in w.alive
    ensures LastLive(w, ws, n) == if i >= 0 then Some(ws[i]) else None
    decreases n
  {
    if n == 0 {
      i := -1;
    } else if IsAlive(w, ws[n - 1]) {
      i := n - 1;
    } else {
      i := LastLiveIsNewest(w, ws, n - 1);
      hide IsAlive;
      assert LastLive(w, ws, n) == LastLive(w, ws, n - 1);
    }
  }

  /** The live writer of a checkout is the newest: everybody started there after it is dead. */
  lemma LiveWriterIsNewest(w: World, path: string)
    ensures var ws := On(w, path);
            match LiveWriter(w, path)
            case None => forall j :: 0 <= j < |ws| ==> ws[j].pgid !in w.alive
            case Some(x) => exists i :: 0 <= i < |ws| && ws[i] == x && x.pgid in w.alive && forall j :: i < j < |ws| ==> ws[j].pgid !in w.alive
  {
    var i := LastLiveIsNewest(w, On(w, path), |On(w, path)|);
  }

  // ---- the sweep ----

  /** Every record names a group that was started for its attempt. */
  ghost predicate RecordsStarted(w: World) {
    forall k :: k in w.records ==> exists p, x :: x in On(w, p) && x.pgid == w.records[k] && x.key == k
  }

  lemma WritersStay(m: Machine, a: Action, p: string, x: Writer)
    requires Enabled(m, a) && x in On(m.w, p)
    ensures x in On(Do(m, a).w, p)
  {
    hide LiveWriter, IsOrderOf;
  }

  lemma StepKeepsRecordsStarted(m: Machine, a: Action)
    requires Enabled(m, a) && OpFits(m) && RecordsStarted(m.w)
    ensures RecordsStarted(Do(m, a).w)
  {
    hide LiveWriter, IsOrderOf, On;
    var w := Do(m, a).w;
    forall k | k in w.records ensures exists p, x :: x in On(w, p) && x.pgid == w.records[k] && x.key == k {
      if k in m.w.records && w.records[k] == m.w.records[k] {
        var p, x :| x in On(m.w, p) && x.pgid == m.w.records[k] && x.key == k;
        WritersStay(m, a, p, x);
      } else if a.StartRecord? {
        var x :| x in On(m.w, m.op.path) && x.pgid == m.op.pgid && x.key == m.op.key;
        WritersStay(m, a, m.op.path, x);
      } else {
        var path := m.w.lanes[m.op.cur.value.task].path;
        var x :| x in On(m.w, path) && x.pgid == m.op.cur.value.pgid && x.key == KeyOf(m.w, m.op.cur.value.task);
        WritersStay(m, a, path, x);
      }
    }
  }

  lemma {:induction false} EveryRunStartsRecords(acts: seq<Action>, m: Machine)
    requires Reaches(acts, m)
    ensures RecordsStarted(m.w)
    decreases |acts|
  {
    hide Do, Enabled, Inv, RecordsStarted, OpFits;
    if acts == [] {
      NoRecords();
    } else {
      var n := |acts| - 1;
      var before := After(acts[..n]).value;
      EveryRunStartsRecords(acts[..n], before);
      OpAlwaysFits(acts[..n], before);
      StepKeepsRecordsStarted(before, acts[n]);
    }
  }

  lemma OpAlwaysFits(acts: seq<Action>, m: Machine)
    requires Reaches(acts, m)
    ensures OpFits(m) && Consistent(m.w)
  {
    EveryRunKeepsInv(acts, m);
  }

  lemma NoRecords()
    ensures RecordsStarted(START.w)
  {
  }

  /** A set and its image under a map that sends no two members to one. */
  lemma {:induction false} ImageSize(keys: set<Key>, f: map<Key, nat>, image: set<nat>)
    requires (forall k :: k in keys ==> k in f) && (forall g :: g in image <==> exists k :: k in keys && f[k] == g)
    requires forall j, k :: j in keys && k in keys && f[j] == f[k] ==> j == k
    ensures |keys| == |image|
    decreases |keys|
  {
    if k :| k in keys {
      assert f[k] in image;
      ImageSize(keys - {k}, f, image - {f[k]});
    } else {
      assert keys == {};
      forall g ensures g !in image {}
      assert image == {};
    }
  }

  /** The sweep counts what it kills: exactly so many groups fewer live afterwards, and no recorded one. */
  lemma SweepCountsItsKills(acts: seq<Action>, m: Machine)
    requires Reaches(acts, m)
    ensures |m.w.alive| == |Sweep(m.w).alive| + SweptAlive(m.w)
    ensures Sweep(m.w).records == map[] && forall k :: k in m.w.records ==> m.w.records[k] !in Sweep(m.w).alive
  {
    hide OpFits, Reaches, Consistent, RecordsStarted;
    EveryRunStartsRecords(acts, m);
    OpAlwaysFits(acts, m);
    var w := m.w;
    var keys := set k | k in w.records && w.records[k] in w.alive;
    var hit := w.alive * RecordedGroups(w);
    forall j, k | j in keys && k in keys && w.records[j] == w.records[k] ensures j == k { OneRecordEach(w, j, k); }
    ImageSize(keys, w.records, hit);
    SizeOfParts(w.alive, Sweep(w).alive, hit);
  }

  lemma SizeOfParts(all: set<nat>, a: set<nat>, b: set<nat>)
    requires (forall g :: g in all <==> g in a || g in b) && forall g :: g in a ==> g !in b
    ensures |all| == |a| + |b|
  {
    assert all == a + b && a * b == {};
  }

  lemma OneRecordEach(w: World, j: Key, k: Key)
    requires Consistent(w) && RecordsStarted(w) && j in w.records && k in w.records && w.records[j] == w.records[k]
    ensures j == k
  {
    hide On;
    var p, x :| x in On(w, p) && x.pgid == w.records[j] && x.key == j;
    var q, y :| y in On(w, q) && y.pgid == w.records[k] && y.key == k;
  }

  // ---- one claim for each checkout ----

  /** The first requeued lane of the checkout in this order. */
  function FirstOn(w: World, order: seq<string>, p: string): Option<string>
    decreases |order|
  {
    if order == [] then None
    else
      var r := FirstOn(w, order[..|order| - 1], p);
      var t := order[|order| - 1];
      if r.Some? then r
      else if t in w.lanes && w.lanes[t].path == p && w.lanes[t].attempt >= 2 then Some(t)
      else None
  }

  ghost predicate GroupsStarted(w: World) {
    (forall g :: g in w.alive ==> g < w.next) && (forall p, x :: x in On(w, p) ==> x.pgid < w.next)
  }

  /** What a claim phase made of the checkout: nothing, or one new writer at work for the first requeued lane. */
  ghost predicate Claimed(w: World, r: World, order: seq<string>, p: string) {
    var t := FirstOn(w, order, p);
    if LiveWriter(w, p).Some? || t.None? then On(r, p) == On(w, p) && LiveWriter(w, p).Some? == LiveWriter(r, p).Some?
    else
      t.value in w.lanes &&
      var k := Key(t.value, w.lanes[t.value].attempt);
      exists g :: w.next <= g < r.next && On(r, p) == On(w, p) + [Writer(g, k, Ctk(k))]
                  && g in r.alive && k in r.gates && k in r.records && r.records[k] == g
  }

  /** A claim that puts its writer elsewhere, or none. */
  lemma OtherClaim(r: World, t: string, p: string)
    requires t in r.lanes && GroupsStarted(r) && (r.lanes[t].path != p || !Claimable(r, t))
    ensures var c := ClaimLane(r, t);
            && On(c, p) == On(r, p) && LiveWriter(c, p).Some? == LiveWriter(r, p).Some?
            && r.alive <= c.alive && r.gates <= c.gates && r.next <= c.next
            && forall k :: k in r.records && k.task != t ==> k in c.records && c.records[k] == r.records[k]
  {
    var c := ClaimLane(r, t);
    assert forall x :: x in On(r, p) ==> (IsAlive(c, x) <==> IsAlive(r, x));
  }

  lemma ClaimHere(r: World, t: string)
    requires t in r.lanes && Claimable(r, t)
    ensures var c, k, p := ClaimLane(r, t), Key(t, r.lanes[t].attempt), r.lanes[t].path;
            && On(c, p) == On(r, p) + [Writer(r.next, k, Ctk(k))] && c.next == r.next + 1
            && r.next in c.alive && k in c.gates && k in c.records && c.records[k] == r.next
  {
    hide Ctk, LiveWriter;
  }

  lemma ClaimKeepsGroups(r: World, t: string)
    requires t in r.lanes && GroupsStarted(r)
    ensures GroupsStarted(ClaimLane(r, t)) && r.next <= ClaimLane(r, t).next
  {
    hide Ctk, LiveWriter, Claimable;
    var c := ClaimLane(r, t);
    forall p, x | x in On(c, p) ensures x.pgid < c.next {
      if x !in On(r, p) { assert x.pgid == r.next && c.next == r.next + 1; }
    }
  }

  lemma ClaimedWriterLives(w: World, r: World, order: seq<string>, p: string)
    requires Claimed(w, r, order, p) && LiveWriter(w, p).None? && FirstOn(w, order, p).Some?
    ensures LiveWriter(r, p).Some?
  {
    hide Ctk;
    var t := FirstOn(w, order, p).value;
    var k := Key(t, w.lanes[t].attempt);
    var g :| w.next <= g < r.next && On(r, p) == On(w, p) + [Writer(g, k, Ctk(k))] && g in r.alive;
    assert Writer(g, k, Ctk(k)) in On(r, p);
  }

  lemma ClaimStep(w: World, r: World, order: seq<string>, t: string, p: string)
    requires t in w.lanes && r.lanes == w.lanes && GroupsStarted(r) && w.next <= r.next && Claimed(w, r, order, p)
    ensures Claimed(w, ClaimLane(r, t), order + [t], p)
  {
    hide Ctk, LiveWriter, GroupsStarted, ClaimLane, On;
    assert (order + [t])[..|order|] == order;
    var first := FirstOn(w, order, p);
    if w.lanes[t].path == p && Claimable(r, t) {
      if LiveWriter(w, p).None? && first.Some? { ClaimedWriterLives(w, r, order, p); }
      ClaimHere(r, t);
    } else {
      OtherClaim(r, t, p);
      if first.Some? && LiveWriter(w, p).None? {
        ClaimedWriterLives(w, r, order, p);
        ClaimStays(w, r, order, t, p);
      }
    }
  }

  lemma ClaimStays(w: World, r: World, order: seq<string>, t: string, p: string)
    requires t in w.lanes && r.lanes == w.lanes && GroupsStarted(r) && Claimed(w, r, order, p)
    requires LiveWriter(w, p).None? && FirstOn(w, order, p).Some? && (w.lanes[t].path != p || !Claimable(r, t))
    ensures Claimed(w, ClaimLane(r, t), order, p)
  {
    hide Ctk, LiveWriter, GroupsStarted, On;
    OtherClaim(r, t, p);
    var u := FirstOn(w, order, p).value;
    FirstIsOn(w, order, p);
    var k := Key(u, w.lanes[u].attempt);
    var g :| w.next <= g < r.next && On(r, p) == On(w, p) + [Writer(g, k, Ctk(k))]
             && g in r.alive && k in r.gates && k in r.records && r.records[k] == g;
    if t == u { assert !Claimable(r, t); }
  }

  lemma {:induction false} FirstIsOn(w: World, order: seq<string>, p: string)
    requires FirstOn(w, order, p).Some?
    ensures var t := FirstOn(w, order, p).value; t in order && t in w.lanes && w.lanes[t].path == p && w.lanes[t].attempt >= 2
    decreases |order|
  {
    if FirstOn(w, order[..|order| - 1], p).Some? { FirstIsOn(w, order[..|order| - 1], p); }
  }

  /**
   * Whatever the order of the lanes: in every checkout where nobody lives the first requeued lane, and no other, gets one
   * new writer, with its token, past its gate and recorded; in all other checkouts nothing changes.
   */
  lemma {:induction false} ClaimsOnePerCheckout(w: World, order: seq<string>, p: string)
    requires GroupsStarted(w) && forall t :: t in order ==> t in w.lanes
    ensures var r := ClaimAll(w, order); Claimed(w, r, order, p) && GroupsStarted(r) && w.next <= r.next
    decreases |order|
  {
    hide Claimed, GroupsStarted, ClaimLane;
    if order == [] {
      NothingClaimed(w, p);
    } else {
      var n := |order| - 1;
      var r := ClaimAll(w, order[..n]);
      ClaimsOnePerCheckout(w, order[..n], p);
      assert order == order[..n] + [order[n]];
      ClaimStep(w, r, order[..n], order[n], p);
      ClaimKeepsGroups(r, order[n]);
    }
  }

  lemma NothingClaimed(w: World, p: string)
    ensures Claimed(w, w, [], p)
  {
  }

  /** In every run the worlds that a claim phase can begin in are such worlds. */
  lemma SweptGroupsAreStarted(acts: seq<Action>, m: Machine)
    requires Reaches(acts, m)
    ensures GroupsStarted(Sweep(m.w))
  {
    EveryRunKeepsInv(acts, m);
    assert forall p :: On(Sweep(m.w), p) == On(m.w, p);
  }
}
