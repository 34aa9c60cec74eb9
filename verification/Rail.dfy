/** The folding of events into rows in web/components/ActivityRail.tsx: lines 31 to 70. */
module Rail {
  import opened Options
  import opened Events
  import opened Sorting

  // ---- the fold ----

  /** What links the events of one tool call. */
  function ToolCallKey(e: Event): Option<string> {
    if e.call.None? || e.call.value == "" then None else Some(e.kind + ":" + e.call.value)
  }

  datatype Row = Row(first: Event, latest: Event)

  /** The row that holds a key, or the number of rows. */
  function RowAt(rows: seq<Row>, key: Option<string>): (r: nat)
    ensures r <= |rows|
    ensures r < |rows| ==> key.Some? && ToolCallKey(rows[r].first) == key
    ensures forall k :: 0 <= k < r && key.Some? ==> ToolCallKey(rows[k].first) != key
    decreases |rows|
  {
    if rows == [] then 0
    else
      var n := |rows| - 1;
      var r := RowAt(rows[..n], key);
      if r < n || (key.Some? && ToolCallKey(rows[n].first) == key) then r else n + 1
  }

  function Touched(rows: seq<Row>, r: nat, e: Event): seq<Row>
    requires r < |rows|
  {
    if e.number >= rows[r].latest.number then rows[r := Row(rows[r].first, e)] else rows
  }

  function FoldOne(rows: seq<Row>, e: Event): seq<Row> {
    var r := RowAt(rows, ToolCallKey(e));
    if r < |rows| then Touched(rows, r, e) else rows + [Row(e, e)]
  }

  function Fold(es: seq<Event>): seq<Row>
    decreases |es|
  {
    if es == [] then [] else FoldOne(Fold(es[..|es| - 1]), es[|es| - 1])
  }

  function InOrder(events: seq<Event>): seq<Event> {
    StableSort(Standing(events), SeqOf)
  }

  function FoldEvents(events: seq<Event>): seq<Row> {
    Fold(InOrder(events))
  }

  function Latests(rows: seq<Row>): (r: seq<Event>)
    ensures |r| == |rows| && forall k :: 0 <= k < |rows| ==> r[k] == rows[k].latest
  {
    seq(|rows|, k requires 0 <= k < |rows| => rows[k].latest)
  }

  function Firsts(rows: seq<Row>): (r: seq<Event>)
    ensures |r| == |rows| && forall k :: 0 <= k < |rows| ==> r[k] == rows[k].first
  {
    seq(|rows|, k requires 0 <= k < |rows| => rows[k].first)
  }

  // ---- the loop, with rows that are changed in place ----

  class RailRow {
    const first: Event
    var latest: Event

    constructor (e: Event)
      ensures first == e && latest == e
    {
      first, latest := e, e;
    }

    function Value(): Row
      reads this
    {
      Row(first, latest)
    }
  }

  ghost predicate Shows(objects: seq<RailRow>, rows: seq<Row>)
    reads objects
  {
    && |objects| == |rows|
    && (forall r :: 0 <= r < |rows| ==> objects[r].Value() == rows[r])
    && (forall q, r :: 0 <= q < r < |objects| ==> objects[q] != objects[r])
  }

  /** The map finds the row that the rows hold a key at. */
  ghost predicate Indexes(byKey: map<string, RailRow>, objects: seq<RailRow>, rows: seq<Row>)
    requires |objects| == |rows|
  {
    && (forall k :: k in byKey ==> RowAt(rows, Some(k)) < |rows| && byKey[k] == objects[RowAt(rows, Some(k))])
    && (forall k :: RowAt(rows, Some(k)) < |rows| ==> k in byKey)
  }

  method Touch(row: RailRow, e: Event, ghost objects: seq<RailRow>, ghost rows: seq<Row>, ghost r: nat)
    requires Shows(objects, rows) && r < |rows| && row == objects[r]
    modifies row
    ensures Shows(objects, Touched(rows, r, e))
  {
    if e.number >= row.latest.number { row.latest := e; }
  }

  method RunFold(events: seq<Event>) returns (objects: seq<RailRow>)
    ensures forall o :: o in objects ==> fresh(o)
    ensures Shows(objects, FoldEvents(events))
  {
    hide FoldOne, Fold, RowAt, Touched, ToolCallKey, Indexes;
    var sorted := StableSort(Standing(events), SeqOf);
    objects := [];
    var byKey: map<string, RailRow> := map[];
    FoldOfNone(byKey, objects);
    assert sorted[..0] == [];
    for i := 0 to |sorted|
      invariant forall o :: o in objects ==> fresh(o)
      invariant Shows(objects, Fold(sorted[..i]))
      invariant Indexes(byKey, objects, Fold(sorted[..i]))
    {
      ghost var rows := Fold(sorted[..i]);
      var e := sorted[i];
      FoldOfMore(sorted, i);
      var key := ToolCallKey(e);
      if key.Some? && key.value in byKey {
        var row := byKey[key.value];
        IndexFinds(byKey, objects, rows, key.value);
        TouchKeepsIndex(byKey, objects, rows, RowAt(rows, key), e);
        assert row in objects;
        Touch(row, e, objects, rows, RowAt(rows, key));
      } else {
        var r := new RailRow(e);
        AppendKeepsIndex(byKey, objects, rows, e, r);
        objects := objects + [r];
        if key.Some? { byKey := byKey[key.value := r]; }
      }
    }
    assert sorted[..|sorted|] == sorted;
  }

  lemma FoldOfNone(byKey: map<string, RailRow>, objects: seq<RailRow>)
    requires byKey == map[] && objects == []
    ensures Fold([]) == [] && Indexes(byKey, objects, [])
  {
  }

  /** Where the next event goes. */
  lemma FoldOfMore(es: seq<Event>, i: nat)
    requires i < |es|
    ensures var rows, key := Fold(es[..i]), ToolCallKey(es[i]);
            && Fold(es[..i + 1]) == FoldOne(rows, es[i])
            && Fold(es[..i + 1]) == (if RowAt(rows, key) < |rows| then Touched(rows, RowAt(rows, key), es[i])
                                     else rows + [Row(es[i], es[i])])
            && (key.None? ==> RowAt(rows, key) == |rows|)
  {
    assert es[..i + 1][..i] == es[..i];
  }

  lemma SameFirstsSamePlaces(a: seq<Row>, b: seq<Row>, key: Option<string>)
    requires |a| == |b| && forall r :: 0 <= r < |a| ==> a[r].first == b[r].first
    ensures RowAt(a, key) == RowAt(b, key)
  {
  }

  lemma TouchKeepsPlaces(rows: seq<Row>, r: nat, e: Event)
    requires r < |rows|
    ensures |Touched(rows, r, e)| == |rows| && forall key :: RowAt(Touched(rows, r, e), key) == RowAt(rows, key)
  {
    forall key ensures RowAt(Touched(rows, r, e), key) == RowAt(rows, key) {
      SameFirstsSamePlaces(Touched(rows, r, e), rows, key);
    }
  }

  lemma AppendKeepsPlaces(rows: seq<Row>, e: Event)
    ensures forall key :: RowAt(rows + [Row(e, e)], key) ==
              if RowAt(rows, key) < |rows| then RowAt(rows, key)
              else if key.Some? && ToolCallKey(e) == key then |rows| else |rows| + 1
  {
    assert (rows + [Row(e, e)])[..|rows|] == rows;
  }

  lemma IndexFinds(byKey: map<string, RailRow>, objects: seq<RailRow>, rows: seq<Row>, k: string)
    requires |objects| == |rows| && Indexes(byKey, objects, rows) && k in byKey
    ensures RowAt(rows, Some(k)) < |rows| && byKey[k] == objects[RowAt(rows, Some(k))]
  {
  }

  lemma TouchKeepsIndex(byKey: map<string, RailRow>, objects: seq<RailRow>, rows: seq<Row>, r: nat, e: Event)
    requires |objects| == |rows| && Indexes(byKey, objects, rows) && r < |rows|
    ensures |Touched(rows, r, e)| == |rows| && Indexes(byKey, objects, Touched(rows, r, e))
  {
    TouchKeepsPlaces(rows, r, e);
    hide RowAt, Touched;
  }

  lemma AppendKeepsIndex(byKey: map<string, RailRow>, objects: seq<RailRow>, rows: seq<Row>, e: Event, o: RailRow)
    requires |objects| == |rows| && Indexes(byKey, objects, rows)
    requires ToolCallKey(e).Some? ==> ToolCallKey(e).value !in byKey
    ensures var key := ToolCallKey(e);
            && Indexes(if key.Some? then byKey[key.value := o] else byKey, objects + [o], rows + [Row(e, e)])
            && RowAt(rows, key) == |rows|
  {
    AppendKeepsPlaces(rows, e);
    AbsentPlace(rows, ToolCallKey(e));
    hide RowAt, ToolCallKey;
  }

  lemma AbsentPlace(rows: seq<Row>, key: Option<string>)
    requires key.None? || RowAt(rows, key) >= |rows|
    ensures RowAt(rows, key) == |rows|
  {
  }
}
