/** What the indented board shows, for whatever parents the cards name. */
module BoardTreeProps {
  import opened Options
  import opened Sorting
  import opened CardBoards
  import opened BoardTree

  // ---- no card twice, on any input ----

  ghost predicate NoRepeats(rows: seq<Row>) {
    forall i, j :: 0 <= i < j < |rows| ==> rows[i].item.id != rows[j].item.id
  }

  lemma ShownConcat(a: seq<Row>, b: seq<Row>)
    ensures Shown(a + b) == Shown(a) + Shown(b)
  {
  }

  lemma NoRepeatsConcat(a: seq<Row>, b: seq<Row>)
    requires NoRepeats(a) && NoRepeats(b) && Shown(a) !! Shown(b)
    ensures NoRepeats(a + b)
  {
    forall i, j | 0 <= i < j < |a + b| ensures (a + b)[i].item.id != (a + b)[j].item.id {
      if i < |a| <= j {
        assert a[i] in a && b[j - |a|] in b;
        assert a[i].item.id in Shown(a) && b[j - |a|].item.id in Shown(b);
      }
    }
  }

  /** The walk adds each card once and remembers exactly the cards it added. */
  lemma {:induction false} VisitRemembers(items: seq<Item>, xs: seq<Item>, depth: nat, seen: set<string>)
    requires forall x :: x in xs ==> x in items
    ensures var (rows, after) := Visit(items, xs, depth, seen);
            && NoRepeats(rows)
            && after == seen + Shown(rows) && seen !! Shown(rows)
            && (forall r :: r in rows ==> r.item in items && r.depth >= depth)
            && (forall x :: x in xs ==> x.id in after)
    decreases |Ids(items) - seen|, |xs|
  {
    hide Children, Shown, NoRepeats;
    if xs == [] {
      assert Shown([]) == {} && NoRepeats([]) by { NothingShown(); }
    } else if xs[0].id in seen {
      VisitRemembers(items, xs[1..], depth, seen);
    } else {
      var x := xs[0];
      assert x.id in Ids(items) - seen;
      SmallerSet(Ids(items) - (seen + {x.id}), Ids(items) - seen);
      var kids := Children(items, Ids(items), x.id);
      VisitRemembers(items, kids, depth + 1, seen + {x.id});
      var (below, s1) := Visit(items, kids, depth + 1, seen + {x.id});
      SmallerOrEqualSet(Ids(items) - s1, Ids(items) - seen);
      VisitRemembers(items, xs[1..], depth, s1);
      var (rest, s2) := Visit(items, xs[1..], depth, s1);
      OneRow(Row(x, depth));
      ShownConcat([Row(x, depth)], below);
      ShownConcat([Row(x, depth)] + below, rest);
      NoRepeatsConcat([Row(x, depth)], below);
      NoRepeatsConcat([Row(x, depth)] + below, rest);
    }
  }

  lemma NothingShown()
    ensures Shown([]) == {} && NoRepeats([])
  {
  }

  lemma OneRow(r: Row)
    ensures Shown([r]) == {r.item.id} && NoRepeats([r])
  {
  }

  lemma TopOf(items: seq<Item>)
    ensures var sorted := StableSort(items, Number);
            && (forall x :: x in sorted <==> x in items)
            && Ids(sorted) == Ids(items)
            && Tree(items) == Visit(sorted, Under(sorted, Ids(items), None), 0, {}).0
  {
    SortKeepsMembers(items);
    SortKeepsIds(items);
  }

  /** Whatever the cards say about their parents, the board shows only cards it was given and none of them twice. */
  lemma TreeShowsNothingTwice(items: seq<Item>)
    ensures NoRepeats(Tree(items))
    ensures forall r :: r in Tree(items) ==> r.item in items
  {
    TopOf(items);
    var sorted := StableSort(items, Number);
    VisitRemembers(sorted, Under(sorted, Ids(items), None), 0, {});
  }

  // ---- which cards are shown ----

  /** A card is shown under the one it names, if that is on the board and is another one. */
  lemma ParentIs(items: seq<Item>, x: Item, p: string)
    ensures ParentOf(x, Ids(items)) == Some(p) <==>
            x.parent == Some(p) && p != "" && p != x.id && exists y :: y in items && y.id == p
  {
  }

  /** The chain of parents of `x` ends on top after at most `n` steps. */
  ghost predicate EndsOnTop(items: seq<Item>, x: Item, n: nat)
    decreases n
  {
    match ParentOf(x, Ids(items))
    case None => true
    case Some(p) => n > 0 && exists y :: y in items && y.id == p && EndsOnTop(items, y, n - 1)
  }

  ghost predicate Rooted(items: seq<Item>, x: Item) {
    exists n: nat :: EndsOnTop(items, x, n)
  }

  /** What is under a card that was added is added too. */
  lemma {:induction false} VisitIsClosed(items: seq<Item>, xs: seq<Item>, depth: nat, seen: set<string>)
    requires forall x :: x in xs ==> x in items
    ensures var (rows, after) := Visit(items, xs, depth, seen);
            forall p, k :: p in Shown(rows) && k in items && ParentOf(k, Ids(items)) == Some(p) ==> k.id in after
    decreases |Ids(items) - seen|, |xs|
  {
    hide Shown, NoRepeats;
    if xs == [] {
      NothingShown();
    } else if xs[0].id in seen {
      VisitIsClosed(items, xs[1..], depth, seen);
    } else {
      var x := xs[0];
      assert x.id in Ids(items) - seen;
      SmallerSet(Ids(items) - (seen + {x.id}), Ids(items) - seen);
      var kids := Children(items, Ids(items), x.id);
      VisitIsClosed(items, kids, depth + 1, seen + {x.id});
      VisitRemembers(items, kids, depth + 1, seen + {x.id});
      var (below, s1) := Visit(items, kids, depth + 1, seen + {x.id});
      SmallerOrEqualSet(Ids(items) - s1, Ids(items) - seen);
      VisitIsClosed(items, xs[1..], depth, s1);
      var (rest, s2) := Visit(items, xs[1..], depth, s1);
      OneRow(Row(x, depth));
      ShownConcat([Row(x, depth)], below);
      ShownConcat([Row(x, depth)] + below, rest);
    }
  }

  /** Everything added hangs on one of the cards the walk was given. */
  lemma {:induction false} VisitIsRooted(items: seq<Item>, xs: seq<Item>, depth: nat, seen: set<string>)
    requires forall x :: x in xs ==> x in items && Rooted(items, x)
    ensures forall r :: r in Visit(items, xs, depth, seen).0 ==> Rooted(items, r.item)
    decreases |Ids(items) - seen|, |xs|
  {
    hide EndsOnTop;
    if xs == [] {
    } else if xs[0].id in seen {
      VisitIsRooted(items, xs[1..], depth, seen);
    } else {
      var x := xs[0];
      assert x.id in Ids(items) - seen;
      SmallerSet(Ids(items) - (seen + {x.id}), Ids(items) - seen);
      var kids := Children(items, Ids(items), x.id);
      forall k | k in kids ensures Rooted(items, k) { ChildIsRooted(items, x, k); }
      VisitIsRooted(items, kids, depth + 1, seen + {x.id});
      var s1 := Visit(items, kids, depth + 1, seen + {x.id}).1;
      SmallerOrEqualSet(Ids(items) - s1, Ids(items) - seen);
      VisitIsRooted(items, xs[1..], depth, s1);
    }
  }

  lemma ChildIsRooted(items: seq<Item>, x: Item, k: Item)
    requires x in items && Rooted(items, x) && ParentOf(k, Ids(items)) == Some(x.id)
    ensures Rooted(items, k)
  {
    var n: nat :| EndsOnTop(items, x, n);
    assert EndsOnTop(items, k, n + 1);
  }

  lemma {:induction false} RootedIsShown(items: seq<Item>, x: Item, n: nat)
    requires DistinctIds(items) && x in items && EndsOnTop(items, x, n)
    ensures x.id in Visit(items, Under(items, Ids(items), None), 0, {}).1
    decreases n
  {
    var top := Under(items, Ids(items), None);
    VisitRemembers(items, top, 0, {});
    VisitIsClosed(items, top, 0, {});
    hide Visit, Shown, NoRepeats;
    match ParentOf(x, Ids(items)) {
      case None =>
        assert x in top;
      case Some(p) =>
        var y :| y in items && y.id == p && EndsOnTop(items, y, n - 1);
        RootedIsShown(items, y, n - 1);
        var (rows, after) := Visit(items, top, 0, {});
        assert p in Shown(rows);
    }
  }

  ghost predicate InTree(items: seq<Item>, x: Item) {
    exists r :: r in Tree(items) && r.item == x
  }

  lemma {:induction false} SameChains(a: seq<Item>, b: seq<Item>, x: Item, n: nat)
    requires Ids(a) == Ids(b) && forall y :: y in a <==> y in b
    ensures EndsOnTop(a, x, n) <==> EndsOnTop(b, x, n)
    decreases n
  {
    if ParentOf(x, Ids(a)).Some? && n > 0 {
      forall y | y in a ensures EndsOnTop(a, y, n - 1) <==> EndsOnTop(b, y, n - 1) { SameChains(a, b, y, n - 1); }
    }
  }

  /**
   * With distinct ids the board shows exactly the cards whose chain of parents ends: a card is missing if and only if
   * its parents run in a circle.
   */
  lemma TreeShowsTheRooted(items: seq<Item>, x: Item)
    requires DistinctIds(items) && x in items
    ensures InTree(items, x) <==> Rooted(items, x)
  {
    hide Visit, Tree, EndsOnTop, Shown, NoRepeats;
    TopOf(items);
    var sorted := StableSort(items, Number);
    var top := Under(sorted, Ids(items), None);
    SortKeepsDistinct(items);
    forall n: nat { SameChains(items, sorted, x, n); }
    forall y | y in top ensures Rooted(sorted, y) { TopIsRooted(sorted, y); }
    VisitIsRooted(sorted, top, 0, {});
    if InTree(items, x) {
      assert Rooted(sorted, x);
      var n: nat :| EndsOnTop(sorted, x, n);
      assert EndsOnTop(items, x, n);
    }
    if Rooted(items, x) {
      var n: nat :| EndsOnTop(items, x, n);
      assert EndsOnTop(sorted, x, n);
      RootedIsShown(sorted, x, n);
      VisitRemembers(sorted, top, 0, {});
      var rows := Visit(sorted, top, 0, {}).0;
      var r := RowWith(rows, x.id);
    }
  }

  lemma RowWith(rows: seq<Row>, id: string) returns (r: Row)
    requires id in Shown(rows)
    ensures r in rows && r.item.id == id
  {
    r :| r in rows && r.item.id == id;
  }

  lemma TopIsRooted(items: seq<Item>, x: Item)
    requires ParentOf(x, Ids(items)) == None
    ensures Rooted(items, x)
  {
    assert EndsOnTop(items, x, 0);
  }

  // ---- where the rows stand ----

  /** Row `i` is the parent of row `j`, one step further out, and all rows between the two are inside it. */
  ghost predicate IsParentRow(rows: seq<Row>, ids: set<string>, i: nat, j: nat) {
    && i < j < |rows|
    && ParentOf(rows[j].item, ids) == Some(rows[i].item.id)
    && rows[j].depth == rows[i].depth + 1
    && forall m :: i < m < j ==> rows[m].depth > rows[i].depth
  }

  ghost predicate HasParentRow(rows: seq<Row>, ids: set<string>, j: nat) {
    exists i: nat :: IsParentRow(rows, ids, i, j)
  }

  /** Each row is one of `xs` at the given depth, or stands inside its parent. */
  ghost predicate Nested(rows: seq<Row>, ids: set<string>, xs: seq<Item>, depth: nat) {
    forall j :: 0 <= j < |rows| ==> (rows[j].item in xs && rows[j].depth == depth) || HasParentRow(rows, ids, j)
  }

  lemma ParentRowInside(before: seq<Row>, rows: seq<Row>, after: seq<Row>, ids: set<string>, j: nat)
    requires j < |rows| && HasParentRow(rows, ids, j)
    ensures HasParentRow(before + rows + after, ids, |before| + j)
  {
    var i: nat :| IsParentRow(rows, ids, i, j);
    var all := before + rows + after;
    assert forall m :: 0 <= m < |rows| ==> all[|before| + m] == rows[m];
    forall m | |before| + i < m < |before| + j ensures all[m].depth > all[|before| + i].depth {
      assert all[m] == rows[m - |before|];
    }
    assert IsParentRow(all, ids, |before| + i, |before| + j);
  }

  lemma ChildOfFirst(x: Item, depth: nat, below: seq<Row>, rest: seq<Row>, ids: set<string>, j: nat)
    requires j < |below| && ParentOf(below[j].item, ids) == Some(x.id) && below[j].depth == depth + 1
    requires forall r :: r in below ==> r.depth >= depth + 1
    ensures HasParentRow([Row(x, depth)] + below + rest, ids, 1 + j)
  {
    var all := [Row(x, depth)] + below + rest;
    assert all[1 + j] == below[j];
    forall m | 0 < m < 1 + j ensures all[m].depth > depth {
      assert all[m] == below[m - 1] && below[m - 1] in below;
    }
    assert IsParentRow(all, ids, 0, 1 + j);
  }

  lemma {:induction false} VisitIsNested(items: seq<Item>, xs: seq<Item>, depth: nat, seen: set<string>)
    requires forall x :: x in xs ==> x in items
    ensures Nested(Visit(items, xs, depth, seen).0, Ids(items), xs, depth)
    decreases |Ids(items) - seen|, |xs|
  {
    hide HasParentRow, NoRepeats, Shown;
    if xs == [] {
    } else if xs[0].id in seen {
      VisitIsNested(items, xs[1..], depth, seen);
    } else {
      var x, ids := xs[0], Ids(items);
      assert x.id in ids - seen;
      SmallerSet(ids - (seen + {x.id}), ids - seen);
      var kids := Children(items, ids, x.id);
      VisitIsNested(items, kids, depth + 1, seen + {x.id});
      VisitRemembers(items, kids, depth + 1, seen + {x.id});
      var (below, s1) := Visit(items, kids, depth + 1, seen + {x.id});
      SmallerOrEqualSet(ids - s1, ids - seen);
      VisitIsNested(items, xs[1..], depth, s1);
      var rest := Visit(items, xs[1..], depth, s1).0;
      NestedConcat(items, xs, x, depth, below, rest);
    }
  }

  lemma NestedConcat(items: seq<Item>, xs: seq<Item>, x: Item, depth: nat, below: seq<Row>, rest: seq<Row>)
    requires xs != [] && x == xs[0]
    requires Nested(below, Ids(items), Children(items, Ids(items), x.id), depth + 1)
    requires Nested(rest, Ids(items), xs[1..], depth)
    requires forall r :: r in below ==> r.depth >= depth + 1
    ensures Nested([Row(x, depth)] + below + rest, Ids(items), xs, depth)
  {
    hide HasParentRow;
    var ids := Ids(items);
    var all := [Row(x, depth)] + below + rest;
    forall j | 0 <= j < |all| ensures (all[j].item in xs && all[j].depth == depth) || HasParentRow(all, ids, j) {
      if j == 0 {
      } else if j <= |below| {
        assert all[j] == below[j - 1];
        if HasParentRow(below, ids, j - 1) {
          ParentRowInside([Row(x, depth)], below, rest, ids, j - 1);
        } else {
          ChildOfFirst(x, depth, below, rest, ids, j - 1);
        }
      } else {
        var k := j - 1 - |below|;
        assert all[j] == rest[k];
        if HasParentRow(rest, ids, k) {
          ParentRowInside([Row(x, depth)] + below, rest, [], ids, k);
          assert [Row(x, depth)] + below + rest + [] == all;
        }
      }
    }
  }

  /**
   * Cards on top stand at depth zero. Every other card stands behind its parent, one step further in, with nothing
   * between the two that is not inside the parent: subtrees are contiguous.
   */
  lemma TreeIsNested(items: seq<Item>, j: nat)
    requires j < |Tree(items)|
    ensures var r := Tree(items)[j];
            if ParentOf(r.item, Ids(items)) == None then r.depth == 0
            else r.depth > 0 && HasParentRow(Tree(items), Ids(items), j)
  {
    hide Visit, Tree, NoRepeats, Shown;
    TopOf(items);
    var sorted := StableSort(items, Number);
    VisitIsNested(sorted, Under(sorted, Ids(items), None), 0, {});
    if HasParentRow(Tree(items), Ids(items), j) {
      var i: nat :| IsParentRow(Tree(items), Ids(items), i, j);
    }
  }

  // ---- siblings ----

  /** Rows with the same parent, or on top together, stand by number. */
  ghost predicate SiblingsByNumber(rows: seq<Row>, ids: set<string>) {
    forall i, j :: 0 <= i < j < |rows| && ParentOf(rows[i].item, ids) == ParentOf(rows[j].item, ids)
      ==> rows[i].item.number <= rows[j].item.number
  }

  /** The parent of a row that the walk added was added too, or is the one whose children the walk was given. */
  lemma ParentIsShown(rows: seq<Row>, ids: set<string>, xs: seq<Item>, depth: nat, j: nat)
    requires Nested(rows, ids, xs, depth) && j < |rows| && rows[j].item !in xs
    ensures ParentOf(rows[j].item, ids).Some? && ParentOf(rows[j].item, ids).value in Shown(rows)
  {
    var i: nat :| IsParentRow(rows, ids, i, j);
    assert rows[i] in rows;
  }

  lemma SiblingsConcat(a: seq<Row>, b: seq<Row>, ids: set<string>)
    requires SiblingsByNumber(a, ids) && SiblingsByNumber(b, ids)
    requires forall i, j :: 0 <= i < |a| && 0 <= j < |b| && ParentOf(a[i].item, ids) == ParentOf(b[j].item, ids)
               ==> a[i].item.number <= b[j].item.number
    ensures SiblingsByNumber(a + b, ids)
  {
    forall i, j | 0 <= i < j < |a + b| && ParentOf((a + b)[i].item, ids) == ParentOf((a + b)[j].item, ids)
      ensures (a + b)[i].item.number <= (a + b)[j].item.number
    {
      if j >= |a| { assert (a + b)[j] == b[j - |a|]; }
    }
  }

  lemma {:induction false} UnderIsSorted(items: seq<Item>, ids: set<string>, p: Option<string>)
    requires Sorted(items, Number)
    ensures Sorted(Under(items, ids, p), Number)
  {
    if items != [] {
      UnderIsSorted(items[1..], ids, p);
      var r := Under(items[1..], ids, p);
      forall k | 0 <= k < |r| ensures Number(items[0]) <= Number(r[k]) {
        assert r[k] in items[1..];
      }
    }
  }

  lemma {:induction false} VisitKeepsSiblings(items: seq<Item>, xs: seq<Item>, depth: nat, seen: set<string>, p: Option<string>)
    requires forall x :: x in xs ==> x in items && ParentOf(x, Ids(items)) == p
    requires Sorted(items, Number) && Sorted(xs, Number) && (p.Some? ==> p.value in seen)
    ensures SiblingsByNumber(Visit(items, xs, depth, seen).0, Ids(items))
    decreases |Ids(items) - seen|, |xs|
  {
    hide NoRepeats, Nested, SiblingsByNumber, Shown;
    var ids := Ids(items);
    if xs == [] {
      NoSiblings(ids);
    } else if xs[0].id in seen {
      VisitKeepsSiblings(items, xs[1..], depth, seen, p);
    } else {
      var x := xs[0];
      assert x.id in ids - seen;
      SmallerSet(ids - (seen + {x.id}), ids - seen);
      var kids := Children(items, ids, x.id);
      UnderIsSorted(items, ids, Some(x.id));
      VisitKeepsSiblings(items, kids, depth + 1, seen + {x.id}, Some(x.id));
      VisitRemembers(items, kids, depth + 1, seen + {x.id});
      VisitIsNested(items, kids, depth + 1, seen + {x.id});
      var (below, s1) := Visit(items, kids, depth + 1, seen + {x.id});
      SmallerOrEqualSet(ids - s1, ids - seen);
      VisitKeepsSiblings(items, xs[1..], depth, s1, p);
      VisitRemembers(items, xs[1..], depth, s1);
      VisitIsNested(items, xs[1..], depth, s1);
      var rest := Visit(items, xs[1..], depth, s1).0;
      hide Visit, Children;
      JoinSiblings(xs, x, kids, depth, below, rest, ids, seen, s1, p);
    }
  }

  lemma NoSiblings(ids: set<string>)
    ensures SiblingsByNumber([], ids)
  {
  }

  lemma JoinSiblings(xs: seq<Item>, x: Item, kids: seq<Item>, depth: nat, below: seq<Row>, rest: seq<Row>,
                     ids: set<string>, seen: set<string>, s1: set<string>, p: Option<string>)
    requires xs != [] && x == xs[0] && x.id !in seen && Sorted(xs, Number)
    requires forall y :: y in xs ==> ParentOf(y, ids) == p
    requires forall y :: y in kids ==> ParentOf(y, ids) == Some(x.id)
    requires p.Some? ==> p.value in seen
    requires SiblingsByNumber(below, ids) && SiblingsByNumber(rest, ids)
    requires Nested(below, ids, kids, depth + 1) && Nested(rest, ids, xs[1..], depth)
    requires s1 == seen + {x.id} + Shown(below) && (seen + {x.id}) !! Shown(below) && s1 !! Shown(rest)
    ensures SiblingsByNumber([Row(x, depth)] + below + rest, ids)
  {
    hide Nested, Shown, SiblingsByNumber;
    assert SiblingsByNumber([Row(x, depth)], ids) by { OneSibling(Row(x, depth), ids); }
    forall j | 0 <= j < |below| ensures ParentOf(below[j].item, ids) != p {
      if below[j].item !in kids { ParentIsShown(below, ids, kids, depth + 1, j); }
    }
    SiblingsConcat([Row(x, depth)], below, ids);
    forall j | 0 <= j < |rest|
      ensures ParentOf(rest[j].item, ids) == p ==> x.number <= rest[j].item.number
      ensures ParentOf(rest[j].item, ids) == p || (ParentOf(rest[j].item, ids).Some? && ParentOf(rest[j].item, ids).value in Shown(rest))
    {
      if rest[j].item in xs[1..] {
        var k :| 0 <= k < |xs[1..]| && xs[1..][k] == rest[j].item;
        assert Number(xs[0]) <= Number(xs[k + 1]);
      } else {
        ParentIsShown(rest, ids, xs[1..], depth, j);
      }
    }
    var a := [Row(x, depth)] + below;
    forall i, j | 0 <= i < |a| && 0 <= j < |rest| && ParentOf(a[i].item, ids) == ParentOf(rest[j].item, ids)
      ensures a[i].item.number <= rest[j].item.number
    {
      if i > 0 {
        assert a[i] == below[i - 1];
        if below[i - 1].item !in kids { ParentIsShown(below, ids, kids, depth + 1, i - 1); }
      }
    }
    SiblingsConcat(a, rest, ids);
  }

  lemma OneSibling(r: Row, ids: set<string>)
    ensures SiblingsByNumber([r], ids)
  {
  }

  /** Siblings stand by number, and so do the cards on top. */
  lemma TreeKeepsSiblings(items: seq<Item>)
    ensures SiblingsByNumber(Tree(items), Ids(items))
  {
    TopOf(items);
    StableSortSpec(items, Number);
    var sorted := StableSort(items, Number);
    UnderIsSorted(sorted, Ids(items), None);
    hide Visit, Tree, SiblingsByNumber;
    VisitKeepsSiblings(sorted, Under(sorted, Ids(items), None), 0, {}, None);
  }
}
