/** The board of a mission's task cards, kept in place as cards arrive (`boardItemOf`, `boardOnCard` of web/lib/cards.ts). */
module CardBoards {
  import opened Options
  import opened Sorting
  import opened Cards

  datatype Item = Item(id: string, title: string, number: int, version: int, parent: Option<string>, assignee: string,
                       goal: string, status: Status, autoResult: bool, met: Option<nat>, totalCriteria: nat,
                       costUsd: Option<real>, laneId: string, latestMessageId: Option<string>)

  datatype Board = Board(workId: Option<string>, items: seq<Item>, total: nat, pending: nat)

  function CountMet(verdicts: seq<Verdict>): nat {
    if verdicts == [] then 0 else (if verdicts[0] == Met then 1 else 0) + CountMet(verdicts[1..])
  }

  function MetCount(r: CardResult): nat {
    match r.metCount
    case Some(n) => n
    case None => CountMet(r.verdicts)
  }

  /** The cost and the message that the card itself names. */
  function CostOf(c: Card): Option<real> {
    match c.body.result
    case Some(r) => r.costUsd
    case None => None
  }

  function MessageOf(c: Card): Option<string> {
    match c.body.result
    case Some(r) => if r.messageId.Some? then r.messageId else c.body.delegateMessageId
    case None => c.body.delegateMessageId
  }

  function BoardItemOf(c: Card, prev: Option<Item>): Item {
    Item(c.id, c.title, c.number, c.version, c.parent, c.assignee, c.body.goal, c.status,
         match c.body.result case Some(r) => r.auto case None => false,
         match c.body.result case Some(r) => Some(MetCount(r)) case None => None,
         |c.body.criteria|,
         if CostOf(c).Some? then CostOf(c) else if prev.Some? then prev.value.costUsd else None,
         c.laneId,
         if MessageOf(c).Some? then MessageOf(c) else if prev.Some? then prev.value.latestMessageId else None)
  }

  function Number(x: Item): int {
    x.number
  }

  function FindItem(items: seq<Item>, id: string): (r: Option<Item>)
    ensures r.Some? ==> r.value in items && r.value.id == id
    ensures r.None? ==> forall x :: x in items ==> x.id != id
  {
    if items == [] then None
    else if items[0].id == id then Some(items[0])
    else FindItem(items[1..], id)
  }

  function Replace(items: seq<Item>, y: Item): seq<Item> {
    if items == [] then []
    else [if items[0].id == y.id then y else items[0]] + Replace(items[1..], y)
  }

  /** The row takes the place of the old one, or stands at the end when it is new. */
  function Place(items: seq<Item>, y: Item): seq<Item> {
    if FindItem(items, y.id).Some? then Replace(items, y) else items + [y]
  }

  function Pending(items: seq<Item>): nat {
    if items == [] then 0 else (if items[0].status == ResultSubmitted then 1 else 0) + Pending(items[1..])
  }

  function BoardOnCard(board: Option<Board>, c: Card): Option<Board> {
    if board.None? || board.value.workId != c.workId then board
    else
      var b := board.value;
      var item := BoardItemOf(c, FindItem(b.items, c.id));
      var items := StableSort(Place(b.items, item), Number);
      Some(Board(b.workId, items, |items|, Pending(items)))
  }

  // ---- rows ----

  ghost predicate DistinctIds(items: seq<Item>) {
    forall i, j :: 0 <= i < j < |items| ==> items[i].id != items[j].id
  }

  /** A board as it should be: one row for each id, by number, with the right counts. */
  ghost predicate Tidy(b: Board) {
    DistinctIds(b.items) && Sorted(b.items, Number) && b.total == |b.items| && b.pending == Pending(b.items)
  }

  lemma {:induction false} InsertKeepsDistinct(x: Item, s: seq<Item>)
    requires DistinctIds(s) && forall y :: y in s ==> y.id != x.id
    ensures DistinctIds(Insert(x, s, Number))
  {
    if s != [] && Number(x) > Number(s[0]) {
      InsertKeepsDistinct(x, s[1..]);
      InsertIsPermutation(x, s[1..], Number);
      var r := Insert(x, s[1..], Number);
      forall j | 0 <= j < |r| ensures s[0].id != r[j].id {
        assert r[j] in multiset(r);
        if r[j] != x { assert r[j] in s[1..]; }
      }
    }
  }

  lemma SortKeepsMembers(s: seq<Item>)
    ensures forall x :: x in StableSort(s, Number) <==> x in s
  {
    StableSortSpec(s, Number);
    assert forall x :: x in s <==> x in multiset(s);
    assert forall x :: x in StableSort(s, Number) <==> x in multiset(StableSort(s, Number));
  }

  lemma {:induction false} SortKeepsDistinct(s: seq<Item>)
    requires DistinctIds(s)
    ensures DistinctIds(StableSort(s, Number))
  {
    if s != [] {
      SortKeepsDistinct(s[1..]);
      SortKeepsMembers(s[1..]);
      InsertKeepsDistinct(s[0], StableSort(s[1..], Number));
    }
  }

  lemma {:induction false} ReplaceSpec(items: seq<Item>, y: Item)
    ensures |Replace(items, y)| == |items|
    ensures forall k :: 0 <= k < |items| ==> Replace(items, y)[k] == if items[k].id == y.id then y else items[k]
  {
    if items != [] { ReplaceSpec(items[1..], y); }
  }

  /** The rows afterwards: `y`, and the rows of all other ids. */
  lemma PlaceSpec(items: seq<Item>, y: Item)
    requires DistinctIds(items)
    ensures DistinctIds(Place(items, y))
    ensures forall x :: x in Place(items, y) <==> x == y || (x in items && x.id != y.id)
  {
    ReplaceSpec(items, y);
    var r := Place(items, y);
    if FindItem(items, y.id).Some? {
      forall x | x == y || (x in items && x.id != y.id) ensures x in r {
        if x == y {
          var k :| 0 <= k < |items| && items[k] == FindItem(items, y.id).value;
          assert r[k] == y;
        } else {
          var k :| 0 <= k < |items| && items[k] == x;
          assert r[k] == x;
        }
      }
    }
  }

  // ---- the counts are counts ----

  lemma {:induction false} PendingIsCount(items: seq<Item>)
    ensures Pending(items) == |set k: nat | k < |items| && items[k].status == ResultSubmitted|
    decreases |items|
  {
    var all := set k: nat | k < |items| && items[k].status == ResultSubmitted;
    if items != [] {
      PendingIsCount(items[1..]);
      var rest := set k: nat | k < |items[1..]| && items[1..][k].status == ResultSubmitted;
      Shifted(rest, all, items[0].status == ResultSubmitted);
    }
  }

  lemma {:induction false} CountMetIsCount(verdicts: seq<Verdict>)
    ensures CountMet(verdicts) == |set k: nat | k < |verdicts| && verdicts[k] == Met|
    decreases |verdicts|
  {
    var all := set k: nat | k < |verdicts| && verdicts[k] == Met;
    if verdicts != [] {
      CountMetIsCount(verdicts[1..]);
      var rest := set k: nat | k < |verdicts[1..]| && verdicts[1..][k] == Met;
      Shifted(rest, all, verdicts[0] == Met);
    }
  }

  /** Positions one further on, and perhaps the first one. */
  lemma Shifted(rest: set<nat>, all: set<nat>, first: bool)
    requires forall k: nat :: k in all <==> (k == 0 && first) || (k > 0 && k - 1 in rest)
    ensures |all| == |rest| + if first then 1 else 0
  {
    var moved: set<nat> := set k | k in rest :: k + 1;
    MovedHasSameSize(rest, moved);
    assert all == if first then moved + {0} else moved;
  }

  lemma {:induction false} MovedHasSameSize(rest: set<nat>, moved: set<nat>)
    requires forall k: nat :: k in moved <==> k > 0 && k - 1 in rest
    ensures |moved| == |rest|
    decreases |rest|
  {
    if k :| k in rest {
      assert (k + 1) - 1 in rest;
      MovedHasSameSize(rest - {k}, moved - {k + 1});
    } else {
      assert rest == {};
      assert moved == {};
    }
  }

  // ---- the board agrees with recounting ----

  function LastCard(cs: seq<Card>, w: Option<string>, id: string): Option<Card> {
    if cs == [] then None
    else
      var c := cs[|cs| - 1];
      if c.workId == w && c.id == id then Some(c) else LastCard(cs[..|cs| - 1], w, id)
  }

  function LastCost(cs: seq<Card>, w: Option<string>, id: string): Option<real> {
    if cs == [] then None
    else
      var c := cs[|cs| - 1];
      if c.workId == w && c.id == id && c.body.result.Some? && c.body.result.value.costUsd.Some?
      then c.body.result.value.costUsd else LastCost(cs[..|cs| - 1], w, id)
  }

  function LastMessage(cs: seq<Card>, w: Option<string>, id: string): Option<string> {
    if cs == [] then None
    else
      var c := cs[|cs| - 1];
      if c.workId != w || c.id != id then LastMessage(cs[..|cs| - 1], w, id)
      else if c.body.result.Some? && c.body.result.value.messageId.Some? then c.body.result.value.messageId
      else if c.body.delegateMessageId.Some? then c.body.delegateMessageId
      else LastMessage(cs[..|cs| - 1], w, id)
  }

  /** The row `x` says of the card what its state `c` says. */
  ghost predicate CarriesFields(x: Item, c: Card) {
    && x.id == c.id && x.title == c.title && x.number == c.number && x.version == c.version && x.parent == c.parent
    && x.assignee == c.assignee && x.goal == c.body.goal && x.status == c.status && x.laneId == c.laneId
    && x.totalCriteria == |c.body.criteria|
    && (x.autoResult <==> c.body.result.Some? && c.body.result.value.auto)
    && (x.met.Some? <==> c.body.result.Some?)
    && (x.met.Some? ==> var r := c.body.result.value;
          x.met.value == if r.metCount.Some? then r.metCount.value else |set k: nat | k < |r.verdicts| && r.verdicts[k] == Met|)
  }

  /** The row of a card counted afresh: the fields of its last state, and the last cost and message that were known. */
  ghost predicate IsRowOf(row: Option<Item>, cs: seq<Card>, w: Option<string>, id: string) {
    match LastCard(cs, w, id)
    case None => row.None?
    case Some(c) =>
      && row.Some? && CarriesFields(row.value, c)
      && row.value.costUsd == LastCost(cs, w, id)
      && row.value.latestMessageId == LastMessage(cs, w, id)
  }

  function Fold(b: Option<Board>, cs: seq<Card>): Option<Board>
    decreases |cs|
  {
    if cs == [] then b else BoardOnCard(Fold(b, cs[..|cs| - 1]), cs[|cs| - 1])
  }

  function EmptyBoard(w: Option<string>): Board {
    Board(w, [], 0, 0)
  }

  ghost predicate Recounted(b: Board, cs: seq<Card>) {
    forall id :: IsRowOf(FindItem(b.items, id), cs, b.workId, id)
  }

  lemma OnCardKeepsTidy(b: Board, c: Card)
    requires Tidy(b)
    ensures var r := BoardOnCard(Some(b), c); r.Some? && r.value.workId == b.workId && Tidy(r.value)
  {
    if b.workId == c.workId {
      var item := BoardItemOf(c, FindItem(b.items, c.id));
      hide BoardItemOf;
      PlaceSpec(b.items, item);
      SortKeepsDistinct(Place(b.items, item));
      StableSortSpec(Place(b.items, item), Number);
    }
  }

  /** Which rows stand on the board after a card arrived. */
  lemma RowsOnCard(b: Board, c: Card, id: string)
    requires Tidy(b) && b.workId == c.workId
    ensures FindItem(BoardOnCard(Some(b), c).value.items, id) ==
            if id == c.id then Some(BoardItemOf(c, FindItem(b.items, c.id))) else FindItem(b.items, id)
  {
    OnCardKeepsTidy(b, c);
    var item := BoardItemOf(c, FindItem(b.items, c.id));
    assert item.id == c.id;
    hide BoardItemOf;
    var items := BoardOnCard(Some(b), c).value.items;
    PlaceSpec(b.items, item);
    SortKeepsMembers(Place(b.items, item));
    var want := if id == c.id then Some(item) else FindItem(b.items, id);
    if want.None? {
      assert forall x :: x in b.items ==> x.id != id;
    }
  }

  lemma RowStep(cs: seq<Card>, c: Card, w: Option<string>, id: string, row: Option<Item>)
    requires IsRowOf(row, cs, w, id)
    ensures IsRowOf(if c.workId == w && c.id == id then Some(BoardItemOf(c, row)) else row, cs + [c], w, id)
  {
    var all := cs + [c];
    assert all[..|all| - 1] == cs && all[|all| - 1] == c;
    if c.workId == w && c.id == id {
      UnknownHasNothing(cs, w, id);
      if c.body.result.Some? { CountMetIsCount(c.body.result.value.verdicts); }
    }
  }

  lemma {:induction false} UnknownHasNothing(cs: seq<Card>, w: Option<string>, id: string)
    ensures LastCard(cs, w, id).None? ==> LastCost(cs, w, id).None? && LastMessage(cs, w, id).None?
    ensures LastCard(cs, w, id).Some? ==> LastCard(cs, w, id).value.id == id
    decreases |cs|
  {
    if cs != [] { UnknownHasNothing(cs[..|cs| - 1], w, id); }
  }

  /**
   * Folding any cards into the board of a mission gives exactly what recounting gives: one row for each card of the
   * mission, by number, with the fields of the last state, the last known cost and message, and the right counts.
   */
  lemma {:induction false} BoardAgreesWithRecount(w: Option<string>, cs: seq<Card>)
    ensures var r := Fold(Some(EmptyBoard(w)), cs);
            && r.Some? && r.value.workId == w && Tidy(r.value) && Recounted(r.value, cs)
            && (forall i, j :: 0 <= i < j < |r.value.items| ==> r.value.items[i].number <= r.value.items[j].number)
            && r.value.pending == |set k: nat | k < |r.value.items| && r.value.items[k].status == ResultSubmitted|
    decreases |cs|
  {
    PendingIsCount(Fold(Some(EmptyBoard(w)), cs).GetOr(EmptyBoard(w)).items);
    if cs != [] {
      var n := |cs| - 1;
      var before := cs[..n];
      BoardAgreesWithRecount(w, before);
      var b := Fold(Some(EmptyBoard(w)), before).value;
      assert cs == before + [cs[n]];
      OnCardKeepsTidy(b, cs[n]);
      var after := BoardOnCard(Some(b), cs[n]).value;
      forall id ensures IsRowOf(FindItem(after.items, id), cs, w, id) {
        RowStep(before, cs[n], w, id, FindItem(b.items, id));
        if b.workId == cs[n].workId { RowsOnCard(b, cs[n], id); }
      }
    }
  }

  // ---- doing it twice, and in another order ----

  lemma {:induction false} ReplaceSame(items: seq<Item>, y: Item)
    requires DistinctIds(items) && y in items
    ensures Replace(items, y) == items
  {
    ReplaceSpec(items, y);
    var k :| 0 <= k < |items| && items[k] == y;
    assert forall j :: 0 <= j < |items| && j != k ==> items[j].id != y.id;
  }

  /** The same card again changes nothing. */
  lemma OnCardTwice(b: Board, c: Card)
    requires Tidy(b)
    ensures BoardOnCard(BoardOnCard(Some(b), c), c) == BoardOnCard(Some(b), c)
  {
    OnCardKeepsTidy(b, c);
    if b.workId == c.workId {
      var b1 := BoardOnCard(Some(b), c).value;
      RowsOnCard(b, c, c.id);
      var row := BoardItemOf(c, FindItem(b.items, c.id));
      assert FindItem(b1.items, c.id) == Some(row);
      assert BoardItemOf(c, Some(row)) == row;
      ReplaceSame(b1.items, row);
      SortOfSorted(b1.items, Number);
    }
  }

  function Without(s: seq<Item>, id: string): seq<Item> {
    if s == [] then []
    else if s[0].id == id then Without(s[1..], id)
    else [s[0]] + Without(s[1..], id)
  }

  /** A row put among the rows of its number: in place, or at the end it comes from. */
  function PutIn(s: seq<Item>, y: Item, was: Option<int>): seq<Item> {
    if was.None? || was.value > y.number then s + [y]
    else if was.value < y.number then [y] + s
    else Replace(s, y)
  }

  function OldNumber(items: seq<Item>, id: string): Option<int> {
    match FindItem(items, id)
    case Some(x) => Some(x.number)
    case None => None
  }

  lemma {:induction false} WithoutAbsent(s: seq<Item>, id: string)
    requires forall x :: x in s ==> x.id != id
    ensures Without(s, id) == s
  {
    if s != [] { WithoutAbsent(s[1..], id); }
  }

  lemma {:induction false} ReplaceAbsent(s: seq<Item>, y: Item)
    requires forall x :: x in s ==> x.id != y.id
    ensures Replace(s, y) == s
  {
    if s != [] { ReplaceAbsent(s[1..], y); }
  }

  lemma {:induction false} BucketAbove(s: seq<Item>, k: int)
    requires forall x :: x in s ==> x.number > k
    ensures Bucket(s, Number, k) == []
  {
    if s != [] { BucketAbove(s[1..], k); }
  }

  /** The case in which the row is the first one. */
  lemma ReplaceFirst(e: Item, rest: seq<Item>, y: Item, k: int)
    requires e.id == y.id && (forall x :: x in rest ==> x.id != y.id && x.number >= e.number)
    ensures var bk := Bucket([e] + rest, Number, k);
            Bucket(Replace([e] + rest, y), Number, k) ==
            if k == y.number then PutIn(bk, y, Some(e.number)) else Without(bk, y.id)
  {
    hide Replace, Bucket, Without;
    var bk := Bucket(rest, Number, k);
    assert forall x :: x in bk ==> x.id != y.id by { BucketKeeps(rest, Number, k); }
    ReplaceAbsent(rest, y);
    WithoutAbsent(bk, y.id);
    ReplaceAbsent(bk, y);
    if e.number > k { BucketAbove(rest, k); }
    ReplaceCons(e, rest, y);
    assert Replace([e] + rest, y) == [y] + rest;
    BucketCons(y, rest, k);
    BucketCons(e, rest, k);
    if k != y.number {
      WithoutCons(e, bk, y.id);
    } else if e.number == k {
      ReplaceCons(e, bk, y);
    } else if e.number > k {
      assert [] + [y] == [y] + [];
    }
  }

  lemma {:induction false} ReplaceInBucket(items: seq<Item>, y: Item, k: int)
    requires DistinctIds(items) && Sorted(items, Number) && FindItem(items, y.id).Some?
    ensures Bucket(Replace(items, y), Number, k) ==
            if k == y.number then PutIn(Bucket(items, Number, k), y, OldNumber(items, y.id))
            else Without(Bucket(items, Number, k), y.id)
  {
    var e, rest := items[0], items[1..];
    assert items == [e] + rest;
    assert forall x :: x in rest ==> x.id != e.id && x.number >= e.number;
    if e.id == y.id {
      ReplaceFirst(e, rest, y, k);
    } else {
      assert FindItem(items, y.id) == FindItem(rest, y.id);
      ReplaceInBucket(rest, y, k);
      var was := OldNumber(rest, y.id);
      assert e.number <= was.value;
      hide Replace, Bucket, FindItem, Without, PutIn;
      ReplaceCons(e, rest, y);
      BucketCons(e, Replace(rest, y), k);
      BucketCons(e, rest, k);
      PutInCons(e, Bucket(rest, Number, k), y, was);
    }
  }

  lemma BucketCons(e: Item, rest: seq<Item>, k: int)
    ensures Bucket([e] + rest, Number, k) == if e.number == k then [e] + Bucket(rest, Number, k) else Bucket(rest, Number, k)
  {
    assert ([e] + rest)[1..] == rest;
  }

  lemma PutInCons(e: Item, s: seq<Item>, y: Item, was: Option<int>)
    requires e.id != y.id
    ensures !(was.Some? && was.value < y.number) ==> PutIn([e] + s, y, was) == [e] + PutIn(s, y, was)
    ensures Without([e] + s, y.id) == [e] + Without(s, y.id)
  {
    assert ([e] + s)[1..] == s;
  }

  lemma PlaceInBucket(items: seq<Item>, y: Item, k: int)
    requires DistinctIds(items) && Sorted(items, Number)
    ensures Bucket(Place(items, y), Number, k) ==
            if k == y.number then PutIn(Bucket(items, Number, k), y, OldNumber(items, y.id))
            else Without(Bucket(items, Number, k), y.id)
  {
    if FindItem(items, y.id).Some? {
      ReplaceInBucket(items, y, k);
    } else {
      BucketOfConcat(items, [y], Number, k);
      BucketCons(y, [], k);
      BucketKeeps(items, Number, k);
      WithoutAbsent(Bucket(items, Number, k), y.id);
    }
  }

  lemma WithoutCons(e: Item, s: seq<Item>, id: string)
    ensures Without([e] + s, id) == if e.id == id then Without(s, id) else [e] + Without(s, id)
  {
    assert ([e] + s)[1..] == s;
  }

  lemma ReplaceCons(e: Item, s: seq<Item>, y: Item)
    ensures Replace([e] + s, y) == [if e.id == y.id then y else e] + Replace(s, y)
  {
    assert ([e] + s)[1..] == s;
  }

  lemma {:induction false} WithoutTwice(s: seq<Item>, a: string, b: string)
    ensures Without(Without(s, a), b) == Without(Without(s, b), a)
  {
    if s != [] {
      WithoutTwice(s[1..], a, b);
      WithoutCons(s[0], Without(s[1..], a), b);
      WithoutCons(s[0], Without(s[1..], b), a);
    }
  }

  lemma {:induction false} WithoutConcat(s: seq<Item>, t: seq<Item>, id: string)
    ensures Without(s + t, id) == Without(s, id) + Without(t, id)
  {
    if s == [] {
      assert s + t == t;
    } else {
      assert (s + t)[1..] == s[1..] + t;
      WithoutConcat(s[1..], t, id);
    }
  }

  lemma {:induction false} WithoutReplace(s: seq<Item>, y: Item, id: string)
    requires y.id != id
    ensures Without(Replace(s, y), id) == Replace(Without(s, id), y)
  {
    if s != [] {
      WithoutReplace(s[1..], y, id);
      var e := if s[0].id == y.id then y else s[0];
      WithoutCons(e, Replace(s[1..], y), id);
      ReplaceCons(s[0], Without(s[1..], id), y);
    }
  }

  lemma WithoutPutIn(s: seq<Item>, y: Item, was: Option<int>, id: string)
    requires y.id != id
    ensures Without(PutIn(s, y, was), id) == PutIn(Without(s, id), y, was)
  {
    assert Without([y], id) == [y] by { assert [y][1..] == []; }
    WithoutConcat(s, [y], id);
    WithoutConcat([y], s, id);
    WithoutReplace(s, y, id);
  }

  function Settle(items: seq<Item>, y: Item): seq<Item> {
    StableSort(Place(items, y), Number)
  }

  lemma SettleBucket(items: seq<Item>, x: Item, y: Item, k: int)
    requires DistinctIds(items) && Sorted(items, Number) && x.id != y.id && x.number != y.number
    ensures Bucket(Settle(Settle(items, x), y), Number, k) ==
            var bk := Bucket(items, Number, k);
            if k == x.number then Without(PutIn(bk, x, OldNumber(items, x.id)), y.id)
            else if k == y.number then PutIn(Without(bk, x.id), y, OldNumber(items, y.id))
            else Without(Without(bk, x.id), y.id)
  {
    hide PutIn, Without, Place;
    SettleIsTidy(items, x);
    StableSortSpec(Place(items, x), Number);
    StableSortSpec(Place(Settle(items, x), y), Number);
    PlaceInBucket(items, x, k);
    PlaceInBucket(Settle(items, x), y, k);
    SettleKeepsOthers(items, x, y.id);
  }

  lemma SettleIsTidy(items: seq<Item>, y: Item)
    requires DistinctIds(items)
    ensures DistinctIds(Settle(items, y)) && Sorted(Settle(items, y), Number)
  {
    PlaceSpec(items, y);
    SortKeepsDistinct(Place(items, y));
    StableSortSpec(Place(items, y), Number);
  }

  lemma SettleKeepsOthers(items: seq<Item>, x: Item, id: string)
    requires DistinctIds(items) && id != x.id
    ensures FindItem(Settle(items, x), id) == FindItem(items, id)
  {
    SettleIsTidy(items, x);
    PlaceSpec(items, x);
    SortKeepsMembers(Place(items, x));
    var want := FindItem(items, id);
    if want.None? {
      assert forall z :: z in items ==> z.id != id;
    }
  }

  lemma SettlesCommute(items: seq<Item>, x: Item, y: Item)
    requires DistinctIds(items) && Sorted(items, Number) && x.id != y.id && x.number != y.number
    ensures Settle(Settle(items, x), y) == Settle(Settle(items, y), x)
  {
    SettleIsTidy(items, x);
    SettleIsTidy(items, y);
    SettleIsTidy(Settle(items, x), y);
    SettleIsTidy(Settle(items, y), x);
    hide Settle, DistinctIds;
    var a, b := Settle(Settle(items, x), y), Settle(Settle(items, y), x);
    forall k ensures Bucket(a, Number, k) == Bucket(b, Number, k) {
      var bk := Bucket(items, Number, k);
      SettleBucket(items, x, y, k);
      SettleBucket(items, y, x, k);
      WithoutPutIn(bk, x, OldNumber(items, x.id), y.id);
      WithoutPutIn(bk, y, OldNumber(items, y.id), x.id);
      WithoutTwice(bk, x.id, y.id);
    }
    SortedByBuckets(a, b, Number);
  }

  /** Two cards with different numbers may arrive in either order. */
  lemma OnCardsCommute(b: Board, c: Card, d: Card)
    requires Tidy(b) && c.id != d.id && c.number != d.number
    ensures BoardOnCard(BoardOnCard(Some(b), c), d) == BoardOnCard(BoardOnCard(Some(b), d), c)
  {
    if b.workId == c.workId && b.workId == d.workId {
      var x := BoardItemOf(c, FindItem(b.items, c.id));
      var y := BoardItemOf(d, FindItem(b.items, d.id));
      assert x.id == c.id && x.number == c.number && y.id == d.id && y.number == d.number;
      hide BoardItemOf, Place;
      SettleKeepsOthers(b.items, x, d.id);
      SettleKeepsOthers(b.items, y, c.id);
      SettlesCommute(b.items, x, y);
    }
  }
}
