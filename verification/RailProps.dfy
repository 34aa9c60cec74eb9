/** The rows of the rail are the groups of the standing events: what each row holds and what new events change. */
module RailProps {
  import opened Options
  import opened Events
  import opened Sorting
  import opened Rail

  // ---- groups of positions, independent of the fold ----

  ghost predicate Same(es: seq<Event>, i: nat, j: nat) {
    && i < |es| && j < |es|
    && (i == j || (ToolCallKey(es[i]).Some? && ToolCallKey(es[i]) == ToolCallKey(es[j])))
  }

  /** The first position of its group. */
  ghost predicate IsHead(es: seq<Event>, i: nat) {
    i < |es| && forall j: nat :: j < i ==> !Same(es, j, i)
  }

  ghost function Heads(es: seq<Event>): (r: seq<nat>)
    ensures forall h: nat :: h in r <==> IsHead(es, h)
    ensures forall a, b :: 0 <= a < b < |r| ==> r[a] < r[b]
    decreases |es|
  {
    if es == [] then []
    else
      var n: nat := |es| - 1;
      var r := Heads(es[..n]);
      assert forall i: nat, j: nat :: i < n && j < n ==> (Same(es[..n], i, j) <==> Same(es, i, j));
      assert forall h: nat :: h < n ==> (IsHead(es[..n], h) <==> IsHead(es, h));
      assert forall a :: 0 <= a < |r| ==> r[a] in r;
      if IsHead(es, n) then r + [n] else r
  }

  /** The last position of the group that starts at `h`. */
  ghost predicate IsLast(es: seq<Event>, h: nat, l: nat) {
    h <= l < |es| && Same(es, h, l) && forall k :: l < k < |es| ==> !Same(es, h, k)
  }

  ghost predicate IsGroup(es: seq<Event>, row: Row, h: nat) {
    h < |es| && row.first == es[h] && exists l: nat :: IsLast(es, h, l) && row.latest == es[l]
  }

  lemma {:induction false} HeadOf(es: seq<Event>, k: nat) returns (h: nat)
    requires k < |es|
    ensures h <= k && IsHead(es, h) && Same(es, h, k)
    decreases k
  {
    if IsHead(es, k) { return k; }
    var j: nat :| j < k && Same(es, j, k);
    h := HeadOf(es, j);
  }

  /** Each event belongs to exactly one row. */
  lemma OneHeadEach(es: seq<Event>, k: nat)
    requires k < |es|
    ensures exists r :: 0 <= r < |Heads(es)| && Same(es, Heads(es)[r], k)
    ensures forall q, r :: 0 <= q < |Heads(es)| && 0 <= r < |Heads(es)| && Same(es, Heads(es)[q], k) && Same(es, Heads(es)[r], k) ==> q == r
  {
    var h := HeadOf(es, k);
    var hs := Heads(es);
    assert h in hs;
    forall q, r | 0 <= q < |hs| && 0 <= r < |hs| && Same(es, hs[q], k) && Same(es, hs[r], k) ensures q == r {
      assert hs[q] in hs && hs[r] in hs;
      assert Same(es, hs[q], hs[r]) && Same(es, hs[r], hs[q]);
    }
  }

  lemma MoreHeads(es: seq<Event>)
    requires es != []
    ensures var n := |es| - 1; Heads(es) == Heads(es[..n]) + (if IsHead(es, n) then [n as nat] else [])
  {
  }

  ghost predicate FoldsTo(es: seq<Event>, rows: seq<Row>) {
    |rows| == |Heads(es)| && forall r :: 0 <= r < |rows| ==> IsGroup(es, rows[r], Heads(es)[r])
  }

  lemma KnownKeyIsNoHead(es: seq<Event>, rows: seq<Row>, n: nat, r: nat)
    requires n + 1 == |es| && FoldsTo(es[..n], rows) && r < |rows| && ToolCallKey(es[n]).Some?
    requires ToolCallKey(rows[r].first) == ToolCallKey(es[n])
    ensures !IsHead(es, n) && Same(es, Heads(es[..n])[r], n)
  {
    var h := Heads(es[..n])[r];
    assert IsGroup(es[..n], rows[r], h);
    assert Same(es, h, n);
  }

  lemma NewKeyIsHead(es: seq<Event>, rows: seq<Row>, n: nat)
    requires n + 1 == |es| && FoldsTo(es[..n], rows) && RowAt(rows, ToolCallKey(es[n])) >= |rows|
    ensures IsHead(es, n)
  {
    forall j: nat | j < n ensures !Same(es, j, n) {
      if Same(es, j, n) { SharedKeyIsKnown(es, rows, n, j); }
    }
  }

  lemma SharedKeyIsKnown(es: seq<Event>, rows: seq<Row>, n: nat, j: nat)
    requires n + 1 == |es| && FoldsTo(es[..n], rows) && j < n && Same(es, j, n)
    ensures RowAt(rows, ToolCallKey(es[n])) < |rows|
  {
    var h := HeadOf(es[..n], j);
    assert h in Heads(es[..n]);
    var r :| 0 <= r < |rows| && Heads(es[..n])[r] == h;
    assert IsGroup(es[..n], rows[r], h);
    assert ToolCallKey(rows[r].first) == ToolCallKey(es[n]);
  }

  lemma GroupStays(es: seq<Event>, n: nat, row: Row, h: nat)
    requires n + 1 == |es| && IsGroup(es[..n], row, h) && !Same(es, h, n)
    ensures IsGroup(es, row, h)
  {
    var l: nat :| IsLast(es[..n], h, l) && row.latest == es[..n][l];
    forall k | l < k < |es| ensures !Same(es, h, k) {
      if k < n { assert !Same(es[..n], h, k); }
    }
    assert Same(es[..n], h, l) && IsLast(es, h, l);
  }

  lemma GroupGrows(es: seq<Event>, n: nat, row: Row, h: nat)
    requires n + 1 == |es| && IsGroup(es[..n], row, h) && Same(es, h, n) && Sorted(es, SeqOf)
    ensures es[n].number >= row.latest.number && IsGroup(es, Row(row.first, es[n]), h)
  {
    var l: nat :| IsLast(es[..n], h, l) && row.latest == es[..n][l];
    assert SeqOf(es[l]) <= SeqOf(es[n]);
    assert IsLast(es, h, n);
  }

  lemma OneGroupGrows(es: seq<Event>, n: nat, q: nat, r: nat)
    requires n + 1 == |es| && q < |Heads(es[..n])| && r < |Heads(es[..n])| && q != r && !IsHead(es, n)
    requires Same(es, Heads(es[..n])[r], n)
    ensures !Same(es, Heads(es[..n])[q], n)
  {
    OneHeadEach(es, n);
    MoreHeads(es);
  }

  lemma KnownRowGrows(es: seq<Event>, n: nat, rows: seq<Row>)
    requires n + 1 == |es| && Sorted(es, SeqOf) && FoldsTo(es[..n], rows) && rows == Fold(es[..n])
    requires RowAt(rows, ToolCallKey(es[n])) < |rows|
    ensures FoldsTo(es, Fold(es))
  {
    hide IsGroup, Heads, Same, ToolCallKey, RowAt;
    var hs, r := Heads(es[..n]), RowAt(rows, ToolCallKey(es[n]));
    MoreHeads(es);
    RowHasKey(rows, ToolCallKey(es[n]));
    KnownKeyIsNoHead(es, rows, n, r);
    GroupGrows(es, n, rows[r], hs[r]);
    forall q | 0 <= q < |rows| ensures IsGroup(es, Fold(es)[q], hs[q]) {
      if q != r {
        OneGroupGrows(es, n, q, r);
        GroupStays(es, n, rows[q], hs[q]);
      }
    }
  }

  lemma NewRowComesLast(es: seq<Event>, n: nat, rows: seq<Row>)
    requires n + 1 == |es| && FoldsTo(es[..n], rows) && rows == Fold(es[..n])
    requires RowAt(rows, ToolCallKey(es[n])) >= |rows|
    ensures FoldsTo(es, Fold(es))
  {
    hide IsGroup, Heads, Same, ToolCallKey, RowAt;
    var hs := Heads(es[..n]);
    MoreHeads(es);
    NewKeyIsHead(es, rows, n);
    NewGroup(es, n);
    forall q | 0 <= q < |rows| ensures IsGroup(es, rows[q], hs[q]) {
      HeadsLieBefore(es, n, q);
      GroupStays(es, n, rows[q], hs[q]);
    }
  }

  /** The fold is the group-by: one row for each group, with its first and its last event, in the order of the first ones. */
  lemma {:induction false} FoldIsGroupBy(es: seq<Event>)
    requires Sorted(es, SeqOf)
    ensures FoldsTo(es, Fold(es))
    decreases |es|
  {
    if es == [] {
      NoHeads();
    } else {
      hide FoldsTo, RowAt, ToolCallKey;
      var n: nat := |es| - 1;
      var rows := Fold(es[..n]);
      FoldIsGroupBy(es[..n]);
      if RowAt(rows, ToolCallKey(es[n])) < |rows| {
        KnownRowGrows(es, n, rows);
      } else {
        NewRowComesLast(es, n, rows);
      }
    }
  }

  lemma NoHeads()
    ensures Heads([]) == []
  {
  }

  lemma RowHasKey(rows: seq<Row>, key: Option<string>)
    requires RowAt(rows, key) < |rows|
    ensures key.Some? && ToolCallKey(rows[RowAt(rows, key)].first) == key
  {
  }

  lemma NewGroup(es: seq<Event>, n: nat)
    requires n + 1 == |es|
    ensures IsGroup(es, Row(es[n], es[n]), n)
  {
    assert IsLast(es, n, n);
  }

  lemma HeadsLieBefore(es: seq<Event>, n: nat, q: nat)
    requires n + 1 == |es| && IsHead(es, n) && q < |Heads(es[..n])|
    ensures !Same(es, Heads(es[..n])[q], n)
  {
    assert Heads(es[..n])[q] in Heads(es[..n]);
  }

  // ---- what a row shows ----

  /** The events of a row: its own, or all that share its key. */
  ghost predicate InRow(row: Row, e: Event) {
    e == row.first || (ToolCallKey(e).Some? && ToolCallKey(e) == ToolCallKey(row.first))
  }

  lemma InOrderHolds(events: seq<Event>)
    ensures Sorted(InOrder(events), SeqOf)
    ensures forall e :: e in InOrder(events) <==> e in events && Stands(e)
  {
    StableSortSpec(Standing(events), SeqOf);
    assert forall e :: e in InOrder(events) <==> e in multiset(InOrder(events));
  }

  lemma RowIsSpanned(es: seq<Event>, r: nat)
    requires Sorted(es, SeqOf) && FoldsTo(es, Fold(es)) && r < |Fold(es)|
    ensures var row := Fold(es)[r];
            && row.first in es && row.latest in es && InRow(row, row.latest)
            && forall e :: e in es && InRow(row, e) ==> row.first.number <= e.number <= row.latest.number
  {
    var row, h := Fold(es)[r], Heads(es)[r];
    assert IsGroup(es, row, h);
    var l: nat :| IsLast(es, h, l) && row.latest == es[l];
    assert h in Heads(es);
    forall e | e in es && InRow(row, e) ensures row.first.number <= e.number <= row.latest.number {
      if e != row.first {
        var k: nat :| k < |es| && es[k] == e;
        assert Same(es, h, k);
        assert Same(es, k, h);
        assert SeqOf(es[h]) <= SeqOf(es[k]) || h == k;
        assert SeqOf(es[k]) <= SeqOf(es[l]) || k == l;
      } else {
        assert SeqOf(es[h]) <= SeqOf(es[l]) || h == l;
      }
    }
  }

  lemma RowOf(events: seq<Event>, e: Event) returns (row: Row)
    requires e in events && Stands(e)
    ensures row in FoldEvents(events) && InRow(row, e)
  {
    var es := InOrder(events);
    InOrderHolds(events);
    FoldIsGroupBy(es);
    var k: nat :| k < |es| && es[k] == e;
    OneHeadEach(es, k);
    var r :| 0 <= r < |Heads(es)| && Same(es, Heads(es)[r], k);
    assert IsGroup(es, Fold(es)[r], Heads(es)[r]);
    row := Fold(es)[r];
  }

  lemma RowBounds(events: seq<Event>, row: Row)
    requires row in FoldEvents(events)
    ensures row.first in events && Stands(row.first) && row.latest in events && Stands(row.latest)
    ensures InRow(row, row.latest)
    ensures forall e :: e in events && Stands(e) && InRow(row, e) ==> row.first.number <= e.number <= row.latest.number
  {
    hide InRow, Stands;
    var es := InOrder(events);
    InOrderHolds(events);
    FoldIsGroupBy(es);
    var r :| 0 <= r < |Fold(es)| && Fold(es)[r] == row;
    RowIsSpanned(es, r);
  }

  /** Every standing event is in a row, and a row starts with the smallest and shows the largest `seq` among its events. */
  lemma RowsHoldExtremes(events: seq<Event>)
    ensures forall e :: e in events && Stands(e) ==> exists row :: row in FoldEvents(events) && InRow(row, e)
    ensures forall row, e :: row in FoldEvents(events) && e in events && Stands(e) && InRow(row, e) ==>
              row.first.number <= e.number <= row.latest.number
    ensures forall row :: row in FoldEvents(events) ==>
              && row.first in events && Stands(row.first) && row.latest in events && Stands(row.latest)
              && InRow(row, row.latest)
  {
    hide FoldEvents, InRow, Stands;
    forall e | e in events && Stands(e) ensures exists row :: row in FoldEvents(events) && InRow(row, e) {
      var row := RowOf(events, e);
    }
    forall row | row in FoldEvents(events)
      ensures && row.first in events && Stands(row.first) && row.latest in events && Stands(row.latest)
              && InRow(row, row.latest)
      ensures forall e :: e in events && Stands(e) && InRow(row, e) ==> row.first.number <= e.number <= row.latest.number
    {
      RowBounds(events, row);
    }
  }

  lemma LatestStands(events: seq<Event>, row: Row)
    requires row in FoldEvents(events)
    ensures row.latest in events && Stands(row.latest)
  {
    RowBounds(events, row);
  }

  // ---- order of delivery ----

  /** With distinct numbers the rows do not depend on the order in which the events came. */
  lemma DeliveryOrderIsForgotten(a: seq<Event>, b: seq<Event>)
    requires multiset(a) == multiset(b) && DistinctKeys(Standing(a), SeqOf)
    ensures FoldEvents(a) == FoldEvents(b)
  {
    hide Fold, StableSort, Standing, Stands;
    StandingCounts(a);
    StandingCounts(b);
    assert multiset(Standing(a)) == multiset(Standing(b));
    StableSortSpec(Standing(a), SeqOf);
    StableSortSpec(Standing(b), SeqOf);
    SortKeepsDistinctKeys(Standing(a));
    SortedPermutationsAgree(InOrder(a), InOrder(b), SeqOf);
  }

  lemma {:induction false} StandingCounts(es: seq<Event>)
    ensures forall e :: multiset(Standing(es))[e] == if Stands(e) then multiset(es)[e] else 0
  {
    if es != [] {
      StandingCounts(es[1..]);
      assert es == [es[0]] + es[1..];
      assert multiset(es) == multiset{es[0]} + multiset(es[1..]);
    }
  }

  lemma {:induction false} NobodyNoBucket(es: seq<Event>, k: int)
    requires forall e :: e in es ==> SeqOf(e) != k
    ensures Bucket(es, SeqOf, k) == []
  {
    if es != [] {
      assert es[0] in es;
      NobodyNoBucket(es[1..], k);
    }
  }

  lemma NoTwin(es: seq<Event>)
    requires es != [] && DistinctKeys(es, SeqOf)
    ensures Bucket(es[1..], SeqOf, SeqOf(es[0])) == []
  {
    forall e | e in es[1..] ensures SeqOf(e) != SeqOf(es[0]) {
      var j :| 0 <= j < |es[1..]| && es[1..][j] == e;
      assert SeqOf(es[0]) != SeqOf(es[j + 1]);
    }
    NobodyNoBucket(es[1..], SeqOf(es[0]));
  }

  lemma {:induction false} BucketsOfDistinct(es: seq<Event>, k: int)
    requires DistinctKeys(es, SeqOf)
    ensures |Bucket(es, SeqOf, k)| <= 1
  {
    if es != [] {
      BucketsOfDistinct(es[1..], k);
      NoTwin(es);
    }
  }

  lemma {:induction false} SmallBucketsAreDistinct(es: seq<Event>)
    requires forall k :: |Bucket(es, SeqOf, k)| <= 1
    ensures DistinctKeys(es, SeqOf)
  {
    if es != [] {
      forall k ensures |Bucket(es[1..], SeqOf, k)| <= 1 {
        assert |Bucket(es, SeqOf, k)| <= 1;
      }
      SmallBucketsAreDistinct(es[1..]);
      BucketKeeps(es[1..], SeqOf, SeqOf(es[0]));
      forall j | 0 < j < |es| ensures SeqOf(es[0]) != SeqOf(es[j]) {
        assert es[j] == es[1..][j - 1];
        assert |Bucket(es, SeqOf, SeqOf(es[0]))| <= 1;
      }
      forall i, j | 0 <= i < j < |es| ensures SeqOf(es[i]) != SeqOf(es[j]) {
        if i > 0 { assert es[i] == es[1..][i - 1] && es[j] == es[1..][j - 1]; }
      }
    }
  }

  lemma SortKeepsDistinctKeys(es: seq<Event>)
    requires DistinctKeys(es, SeqOf)
    ensures DistinctKeys(StableSort(es, SeqOf), SeqOf)
  {
    StableSortSpec(es, SeqOf);
    forall k ensures |Bucket(StableSort(es, SeqOf), SeqOf, k)| <= 1 { BucketsOfDistinct(es, k); }
    SmallBucketsAreDistinct(StableSort(es, SeqOf));
  }

  // ---- new events ----

  lemma FoldOneKeepsFirsts(rows: seq<Row>, e: Event)
    ensures Firsts(rows) <= Firsts(FoldOne(rows, e))
  {
    hide RowAt;
  }

  lemma {:induction false} FoldKeepsFirsts(es: seq<Event>, n: nat)
    requires n <= |es|
    ensures Firsts(Fold(es[..n])) <= Firsts(Fold(es))
    decreases |es|
  {
    hide FoldOne, RowAt, Firsts;
    if n == |es| {
      assert es[..n] == es;
    } else {
      var m := |es| - 1;
      FoldKeepsFirsts(es[..m], n);
      assert es[..m][..n] == es[..n];
      FoldOneKeepsFirsts(Fold(es[..m]), es[m]);
    }
  }

  /** Events that come later only add rows below: the rows that were there stay where they are. */
  lemma LaterEventsKeepPlaces(events: seq<Event>, more: seq<Event>)
    requires forall d, e :: d in events && e in more && Stands(d) && Stands(e) ==> d.number <= e.number
    ensures Firsts(FoldEvents(events)) <= Firsts(FoldEvents(events + more))
  {
    var a, b := InOrder(events), InOrder(more);
    InOrderHolds(events);
    InOrderHolds(more);
    InOrderHolds(events + more);
    SortsApart(events, more);
    FoldKeepsFirsts(a + b, |a|);
    assert (a + b)[..|a|] == a;
  }

  lemma SortsApart(events: seq<Event>, more: seq<Event>)
    requires forall d, e :: d in events && e in more && Stands(d) && Stands(e) ==> d.number <= e.number
    ensures InOrder(events + more) == InOrder(events) + InOrder(more)
  {
    var a, b := InOrder(events), InOrder(more);
    StackedIsSorted(events, more);
    InOrderHolds(events + more);
    hide InOrder, Bucket;
    forall k ensures Bucket(a + b, SeqOf, k) == Bucket(InOrder(events + more), SeqOf, k) { SameBuckets(events, more, k); }
    SortedByBuckets(a + b, InOrder(events + more), SeqOf);
  }

  lemma StackedIsSorted(events: seq<Event>, more: seq<Event>)
    requires forall d, e :: d in events && e in more && Stands(d) && Stands(e) ==> d.number <= e.number
    ensures Sorted(InOrder(events) + InOrder(more), SeqOf)
  {
    var a, b := InOrder(events), InOrder(more);
    InOrderHolds(events);
    InOrderHolds(more);
    hide InOrder;
    forall i, j | 0 <= i < j < |a + b| ensures SeqOf((a + b)[i]) <= SeqOf((a + b)[j]) {
      if i < |a| <= j { assert a[i] in a && b[j - |a|] in b; }
    }
  }

  lemma SameBuckets(events: seq<Event>, more: seq<Event>, k: int)
    ensures Bucket(InOrder(events) + InOrder(more), SeqOf, k) == Bucket(InOrder(events + more), SeqOf, k)
  {
    hide Bucket, Standing;
    StandingOfConcat(events, more);
    StableSortSpec(Standing(events), SeqOf);
    StableSortSpec(Standing(more), SeqOf);
    StableSortSpec(Standing(events + more), SeqOf);
    BucketOfConcat(InOrder(events), InOrder(more), SeqOf, k);
    BucketOfConcat(Standing(events), Standing(more), SeqOf, k);
  }

  // ---- the list of latest events ----

  /** One call runs entirely inside another one's time. */
  ghost predicate Encloses(p: Row, q: Row) {
    p.first.number < q.first.number && q.latest.number < p.latest.number
  }

  lemma RowsInOrderIff(events: seq<Event>)
    requires DistinctKeys(Standing(events), SeqOf)
    ensures Sorted(Latests(FoldEvents(events)), SeqOf) <==>
            forall p, q :: p in FoldEvents(events) && q in FoldEvents(events) ==> !Encloses(p, q)
  {
    var rows := FoldEvents(events);
    FirstsAscend(events);
    if Sorted(Latests(rows), SeqOf) {
      forall p, q | p in rows && q in rows ensures !Encloses(p, q) {
        var i :| 0 <= i < |rows| && rows[i] == p;
        var j :| 0 <= j < |rows| && rows[j] == q;
        if i < j { assert SeqOf(Latests(rows)[i]) <= SeqOf(Latests(rows)[j]); }
      }
    }
    if forall p, q :: p in rows && q in rows ==> !Encloses(p, q) {
      forall i, j | 0 <= i < j < |rows| ensures SeqOf(Latests(rows)[i]) <= SeqOf(Latests(rows)[j]) {
        assert rows[i] in rows && rows[j] in rows && !Encloses(rows[i], rows[j]);
      }
    }
  }

  /** Two events of one call: the same event, or two with the same key. */
  predicate SameCall(d: Event, e: Event) {
    d == e || (ToolCallKey(d).Some? && ToolCallKey(d) == ToolCallKey(e))
  }

  /** Every event of the call of `y` lies between the events `x` and `z` of one other call. */
  ghost predicate CallInside(events: seq<Event>, x: Event, y: Event, z: Event) {
    && x in events && Stands(x) && y in events && Stands(y) && z in events && Stands(z)
    && SameCall(x, z)
    && forall d :: d in events && Stands(d) && SameCall(d, y) ==> x.number < d.number < z.number
  }

  lemma EnclosedRowIsInside(events: seq<Event>, p: Row, q: Row)
    requires p in FoldEvents(events) && q in FoldEvents(events) && Encloses(p, q)
    ensures CallInside(events, p.first, q.first, p.latest)
  {
    hide FoldEvents, Stands, ToolCallKey;
    RowBounds(events, p);
    RowBounds(events, q);
  }

  lemma InsideIsEnclosedRow(events: seq<Event>, x: Event, y: Event, z: Event) returns (p: Row, q: Row)
    requires CallInside(events, x, y, z)
    ensures p in FoldEvents(events) && q in FoldEvents(events) && Encloses(p, q)
  {
    hide FoldEvents, Stands, ToolCallKey;
    p := RowOf(events, x);
    q := RowOf(events, y);
    RowBounds(events, p);
    RowBounds(events, q);
    assert SameCall(y, y) && SameCall(q.first, y) && SameCall(q.latest, y);
  }

  /**
   * The latest events come out in order exactly when no call runs entirely inside the time of another: a matter of the
   * events alone.
   */
  lemma LatestInOrderIff(events: seq<Event>)
    requires DistinctKeys(Standing(events), SeqOf)
    ensures Sorted(Latests(FoldEvents(events)), SeqOf) <==> !exists x, y, z :: CallInside(events, x, y, z)
  {
    hide FoldEvents, Sorted, CallInside, Encloses;
    RowsInOrderIff(events);
    if x, y, z :| CallInside(events, x, y, z) {
      var p, q := InsideIsEnclosedRow(events, x, y, z);
    }
    if p, q :| p in FoldEvents(events) && q in FoldEvents(events) && Encloses(p, q) {
      EnclosedRowIsInside(events, p, q);
    }
  }

  /** Rows are in the order of their first events. */
  lemma FirstsAscend(events: seq<Event>)
    requires DistinctKeys(Standing(events), SeqOf)
    ensures forall i, j :: 0 <= i < j < |FoldEvents(events)| ==>
              FoldEvents(events)[i].first.number < FoldEvents(events)[j].first.number
  {
    var es := InOrder(events);
    InOrderHolds(events);
    FoldIsGroupBy(es);
    SortKeepsDistinctKeys(Standing(events));
    var rows := Fold(es);
    forall i, j | 0 <= i < j < |rows| ensures rows[i].first.number < rows[j].first.number {
      assert IsGroup(es, rows[i], Heads(es)[i]) && IsGroup(es, rows[j], Heads(es)[j]);
      assert Heads(es)[i] < Heads(es)[j];
      assert SeqOf(es[Heads(es)[i]]) <= SeqOf(es[Heads(es)[j]]);
      assert SeqOf(es[Heads(es)[i]]) != SeqOf(es[Heads(es)[j]]);
    }
  }

  /** A call that ends after one it started before: its row comes first and its latest event has the larger number. */
  lemma EnclosedCallIsOutOfOrder(a: Event, b: Event, c: Event)
    requires Stands(a) && Stands(b) && Stands(c) && a.number < b.number < c.number
    requires ToolCallKey(a).Some? && ToolCallKey(a) == ToolCallKey(c) && ToolCallKey(b) != ToolCallKey(a)
    ensures Latests(FoldEvents([a, b, c])) == [c, b]
    ensures !Sorted(Latests(FoldEvents([a, b, c])), SeqOf)
  {
    var es := [a, b, c];
    StandingOfThree(a, b, c);
    SortOfSorted(es, SeqOf);
    FoldOfThree(a, b, c);
    var ls := Latests(Fold(es));
    assert SeqOf(ls[0]) > SeqOf(ls[1]);
  }

  lemma StandingOfThree(a: Event, b: Event, c: Event)
    requires Stands(a) && Stands(b) && Stands(c)
    ensures Standing([a, b, c]) == [a, b, c]
  {
    assert [a, b, c][1..] == [b, c] && [b, c][1..] == [c];
    assert Standing([c]) == [c] && Standing([b, c]) == [b, c];
  }

  lemma FoldOfThree(a: Event, b: Event, c: Event)
    requires a.number < b.number < c.number
    requires ToolCallKey(a).Some? && ToolCallKey(a) == ToolCallKey(c) && ToolCallKey(b) != ToolCallKey(a)
    ensures Fold([a, b, c]) == [Row(a, c), Row(b, b)]
  {
    hide ToolCallKey, RowAt, FoldOne, Fold;
    StepsOfThree(a, b, c);
    FoldOfSnoc([], a);
    FoldOfSnoc([a], b);
    FoldOfSnoc([a, b], c);
    assert Fold([]) == [] by { PlacesOfThree(a, b, c); }
    assert [] + [a] == [a] && [a] + [b] == [a, b] && [a, b] + [c] == [a, b, c];
  }

  lemma StepsOfThree(a: Event, b: Event, c: Event)
    requires a.number < b.number < c.number
    requires ToolCallKey(a).Some? && ToolCallKey(a) == ToolCallKey(c) && ToolCallKey(b) != ToolCallKey(a)
    ensures FoldOne([], a) == [Row(a, a)] && FoldOne([Row(a, a)], b) == [Row(a, a), Row(b, b)]
    ensures FoldOne([Row(a, a), Row(b, b)], c) == [Row(a, c), Row(b, b)]
  {
    PlacesOfThree(a, b, c);
    hide ToolCallKey, RowAt;
  }

  lemma FoldOfSnoc(es: seq<Event>, e: Event)
    ensures Fold(es + [e]) == FoldOne(Fold(es), e)
  {
    assert (es + [e])[..|es|] == es;
  }

  lemma PlacesOfThree(a: Event, b: Event, c: Event)
    requires ToolCallKey(a).Some? && ToolCallKey(a) == ToolCallKey(c) && ToolCallKey(b) != ToolCallKey(a)
    ensures Fold([]) == [] && RowAt([], ToolCallKey(a)) == 0
    ensures RowAt([Row(a, a)], ToolCallKey(b)) == 1 && RowAt([Row(a, a), Row(b, b)], ToolCallKey(c)) == 0
  {
    AppendKeepsPlaces([], a);
    AppendKeepsPlaces([Row(a, a)], b);
    assert [] + [Row(a, a)] == [Row(a, a)] && [Row(a, a)] + [Row(b, b)] == [Row(a, a), Row(b, b)];
  }

  // ---- which events share a row ----

  lemma ColonSplits(a: string, b: string, x: string, y: string)
    requires a + ":" + x == b + ":" + y && ':' !in a && ':' !in b
    ensures a == b && x == y
  {
    var s, t := a + ":" + x, b + ":" + y;
    assert s[|a|] == ':' && t[|b|] == ':';
    assert s[..|a|] == a && t[..|b|] == b && s[|a| + 1..] == x && t[|b| + 1..] == y;
  }

  /** Two events belong to one row if and only if they are one, or are of one class and carry one call id, not an empty one. */
  lemma SameRowIff(es: seq<Event>, i: nat, j: nat)
    requires i < |es| && j < |es| && ':' !in es[i].kind && ':' !in es[j].kind
    ensures Same(es, i, j) <==>
            i == j || (es[i].kind == es[j].kind && es[i].call == es[j].call && es[i].call.Some? && es[i].call.value != "")
  {
    var d, e := es[i], es[j];
    if ToolCallKey(d).Some? && ToolCallKey(d) == ToolCallKey(e) { ColonSplits(d.kind, e.kind, d.call.value, e.call.value); }
  }

  /** The rail is about exactly the events that no newer version replaces. */
  lemma ReplacedAreHidden(events: seq<Event>, e: Event)
    ensures e in InOrder(events) <==> e in events && (e.supersededBy == None || e.supersededBy == Some(""))
  {
    var cur := Standing(events);
    StableSortSpec(cur, SeqOf);
    assert e in cur <==> e in multiset(cur);
    assert e in InOrder(events) <==> e in multiset(InOrder(events));
  }
}
