/** The board as an indented list: `boardTree` of web/lib/cards.ts, a walk over parents that may be missing or cyclic. */
module BoardTree {
  import opened Options
  import opened Seqs
  import opened Sorting
  import opened CardBoards

  datatype Row = Row(item: Item, depth: nat)

  function Ids(items: seq<Item>): set<string> {
    set x | x in items :: x.id
  }

  /** The parent under which the card is shown, if it is on the board and is another card. */
  function ParentOf(x: Item, ids: set<string>): Option<string> {
    if x.parent.Some? && x.parent.value != "" && x.parent.value in ids && x.parent.value != x.id then x.parent else None
  }

  /** The cards under `p`, or the ones on top when `p` is None, in the order of `items`. */
  function Under(items: seq<Item>, ids: set<string>, p: Option<string>): (r: seq<Item>)
    ensures forall x :: x in r <==> x in items && ParentOf(x, ids) == p
  {
    if items == [] then []
    else (if ParentOf(items[0], ids) == p then [items[0]] else []) + Under(items[1..], ids, p)
  }

  function Children(items: seq<Item>, ids: set<string>, id: string): (r: seq<Item>)
    ensures forall x :: x in r <==> x in items && ParentOf(x, ids) == Some(id)
  {
    Under(items, ids, Some(id))
  }

  function Shown(rows: seq<Row>): set<string> {
    set r | r in rows :: r.item.id
  }

  /** What walking through `xs` adds to the rows and to the cards seen. */
  function Visit(items: seq<Item>, xs: seq<Item>, depth: nat, seen: set<string>): (r: (seq<Row>, set<string>))
    requires forall x :: x in xs ==> x in items
    ensures seen <= r.1
    decreases |Ids(items) - seen|, |xs|
  {
    if xs == [] then ([], seen)
    else if xs[0].id in seen then Visit(items, xs[1..], depth, seen)
    else
      var x := xs[0];
      assert x.id in Ids(items) - seen;
      assert Ids(items) - (seen + {x.id}) < Ids(items) - seen;
      SmallerSet(Ids(items) - (seen + {x.id}), Ids(items) - seen);
      var (below, s1) := Visit(items, Children(items, Ids(items), x.id), depth + 1, seen + {x.id});
      assert Ids(items) - s1 <= Ids(items) - seen;
      SmallerOrEqualSet(Ids(items) - s1, Ids(items) - seen);
      var (rest, s2) := Visit(items, xs[1..], depth, s1);
      ([Row(x, depth)] + below + rest, s2)
  }

  lemma SmallerSet(a: set<string>, b: set<string>)
    requires a < b
    ensures |a| < |b|
  {
    assert b == a + (b - a);
    assert |b| == |a| + |b - a|;
  }

  lemma SmallerOrEqualSet(a: set<string>, b: set<string>)
    requires a <= b
    ensures |a| <= |b|
  {
    if a != b { SmallerSet(a, b); }
  }

  function Tree(items: seq<Item>): seq<Row> {
    var sorted := StableSort(items, Number);
    assert forall x :: x in Under(sorted, Ids(sorted), None) ==> x in sorted;
    Visit(sorted, Under(sorted, Ids(sorted), None), 0, {}).0
  }

  // ---- the walk ----

  /** `kids` maps an id to the cards under it. */
  ghost predicate KidsAre(kids: map<string, seq<Item>>, items: seq<Item>, ids: set<string>) {
    forall id :: (if id in kids then kids[id] else []) == Children(items, ids, id)
  }

  method Walk(kids: map<string, seq<Item>>, ghost items: seq<Item>, x: Item, depth: nat, out: seq<Row>, seen: set<string>)
    returns (out': seq<Row>, seen': set<string>)
    requires KidsAre(kids, items, Ids(items)) && x in items
    ensures out' == out + Visit(items, [x], depth, seen).0 && seen' == Visit(items, [x], depth, seen).1
    decreases |Ids(items) - seen|, 0
  {
    hide Visit, Children, KidsAre;
    if x.id in seen {
      VisitSeen(items, x, depth, seen);
      return out, seen;
    }
    var below := if x.id in kids then kids[x.id] else [];
    assert below == Children(items, Ids(items), x.id) by { KidsOf(kids, items, x.id); }
    assert Ids(items) - (seen + {x.id}) < Ids(items) - seen by { assert x.id in Ids(items); }
    SmallerSet(Ids(items) - (seen + {x.id}), Ids(items) - seen);
    VisitAlone(items, x, depth, seen);
    ConcatAssoc(out, [Row(x, depth)], Visit(items, below, depth + 1, seen + {x.id}).0);
    out', seen' := WalkAll(kids, items, below, depth + 1, out + [Row(x, depth)], seen + {x.id});
  }

  /** The loops at lines 183 and 185. */
  method WalkAll(kids: map<string, seq<Item>>, ghost items: seq<Item>, xs: seq<Item>, depth: nat, out: seq<Row>, seen: set<string>)
    returns (out': seq<Row>, seen': set<string>)
    requires KidsAre(kids, items, Ids(items)) && forall x :: x in xs ==> x in items
    ensures out' == out + Visit(items, xs, depth, seen).0 && seen' == Visit(items, xs, depth, seen).1
    decreases |Ids(items) - seen|, 1
  {
    hide Visit, KidsAre, Ids;
    out', seen' := out, seen;
    assert xs[0..] == xs;
    for k := 0 to |xs|
      invariant seen <= seen'
      invariant out' + Visit(items, xs[k..], depth, seen').0 == out + Visit(items, xs, depth, seen).0
      invariant Visit(items, xs[k..], depth, seen').1 == Visit(items, xs, depth, seen).1
    {
      SmallerOrEqualSet(Ids(items) - seen', Ids(items) - seen);
      VisitFirst(items, xs[k..], depth, seen');
      assert xs[k..][1..] == xs[k + 1..];
      ghost var one := Visit(items, [xs[k]], depth, seen');
      ConcatAssoc(out', one.0, Visit(items, xs[k + 1..], depth, one.1).0);
      out', seen' := Walk(kids, items, xs[k], depth, out', seen');
    }
    VisitNothing(items, depth, seen');
    assert xs[|xs|..] == [];
    assert out' + [] == out';
  }

  lemma KidsOf(kids: map<string, seq<Item>>, items: seq<Item>, id: string)
    requires KidsAre(kids, items, Ids(items))
    ensures (if id in kids then kids[id] else []) == Children(items, Ids(items), id)
  {
  }

  lemma VisitNothing(items: seq<Item>, depth: nat, seen: set<string>)
    ensures Visit(items, [], depth, seen) == ([], seen)
  {
  }

  lemma VisitSeen(items: seq<Item>, x: Item, depth: nat, seen: set<string>)
    requires x in items && x.id in seen
    ensures Visit(items, [x], depth, seen) == ([], seen)
  {
    assert [x][1..] == [];
  }

  /** Walking through a list is walking through its first card and then through the others. */
  lemma VisitFirst(items: seq<Item>, xs: seq<Item>, depth: nat, seen: set<string>)
    requires xs != [] && forall x :: x in xs ==> x in items
    ensures var one := Visit(items, [xs[0]], depth, seen);
            var rest := Visit(items, xs[1..], depth, one.1);
            var all := Visit(items, xs, depth, seen);
            all.0 == one.0 + rest.0 && all.1 == rest.1
  {
    if xs[0].id !in seen {
      VisitAlone(items, xs[0], depth, seen);
      assert [xs[0]][1..] == [];
    } else {
      assert [xs[0]][1..] == [];
      assert Visit(items, [xs[0]], depth, seen) == ([], seen);
    }
  }

  lemma VisitAlone(items: seq<Item>, x: Item, depth: nat, seen: set<string>)
    requires x in items && x.id !in seen
    ensures var below := Visit(items, Children(items, Ids(items), x.id), depth + 1, seen + {x.id});
            Visit(items, [x], depth, seen) == ([Row(x, depth)] + below.0, below.1)
  {
    assert [x][1..] == [];
    var below := Visit(items, Children(items, Ids(items), x.id), depth + 1, seen + {x.id});
    assert [Row(x, depth)] + below.0 + [] == [Row(x, depth)] + below.0;
  }

  lemma {:induction false} UnderConcat(a: seq<Item>, b: seq<Item>, ids: set<string>, p: Option<string>)
    ensures Under(a + b, ids, p) == Under(a, ids, p) + Under(b, ids, p)
  {
    if a == [] {
      assert a + b == b;
    } else {
      assert (a + b)[1..] == a[1..] + b;
      UnderConcat(a[1..], b, ids, p);
    }
  }

  lemma UnderOne(x: Item, ids: set<string>, p: Option<string>)
    ensures Under([x], ids, p) == if ParentOf(x, ids) == p then [x] else []
  {
    assert [x][1..] == [];
  }

  /** Lines 173-176: the cards on top, and the cards under each parent. */
  method Group(sorted: seq<Item>, ids: set<string>) returns (roots: seq<Item>, kids: map<string, seq<Item>>)
    ensures roots == Under(sorted, ids, None) && KidsAre(kids, sorted, ids)
  {
    hide Under;
    kids := map[];
    roots := [];
    assert forall p :: Under([], ids, p) == [] by { forall p { NothingUnder(ids, p); } }
    assert sorted[..0] == [];
    for k := 0 to |sorted|
      invariant roots == Under(sorted[..k], ids, None)
      invariant KidsAre(kids, sorted[..k], ids)
    {
      var x := sorted[k];
      assert sorted[..k + 1] == sorted[..k] + [x];
      forall p ensures Under(sorted[..k + 1], ids, p) == if ParentOf(x, ids) == p then Under(sorted[..k], ids, p) + [x] else Under(sorted[..k], ids, p) {
        UnderConcat(sorted[..k], [x], ids, p);
        UnderOne(x, ids, p);
      }
      if x.parent.Some? && x.parent.value != "" && x.parent.value in ids && x.parent.value != x.id {
        var p := x.parent.value;
        kids := kids[p := (if p in kids then kids[p] else []) + [x]];
      } else {
        roots := roots + [x];
      }
    }
    assert sorted[..|sorted|] == sorted;
  }

  lemma NothingUnder(ids: set<string>, p: Option<string>)
    ensures Under([], ids, p) == []
  {
  }

  lemma SortKeepsIds(items: seq<Item>)
    ensures Ids(StableSort(items, Number)) == Ids(items)
  {
    SortKeepsMembers(items);
  }

  method BuildTree(items: seq<Item>) returns (out: seq<Row>)
    ensures out == Tree(items)
  {
    var sorted := StableSort(items, Number);
    var ids := set x | x in items :: x.id;
    SortKeepsIds(items);
    var roots, kids := Group(sorted, ids);
    var seen;
    out, seen := WalkAll(kids, sorted, roots, 0, [], {});
    assert [] + out == out;
  }
}
