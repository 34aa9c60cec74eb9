/** When the blocks show the text in its own order, and why they sometimes do not. */
module BlocksOrder {
  import opened Options
  import opened Seqs
  import opened Text
  import opened Subsequence
  import opened Blocks
  import opened BlocksShape

  // ---- the ink that blocks show, in the order in which they show it ----

  function ItemInk(it: ListItem): string
    decreases it, 1
  {
    Ink(it.text) + KidsInk(it)
  }

  function KidsInk(it: ListItem): string
    decreases it, 0
  {
    match it.children
    case None => ""
    case Some(c) => ItemsInk(c.items)
  }

  function ItemsInk(items: seq<ListItem>): string {
    if items == [] then "" else ItemInk(items[0]) + ItemsInk(items[1..])
  }

  function RowsInk(rows: seq<seq<string>>): string {
    if rows == [] then "" else InkOfLines(rows[0]) + RowsInk(rows[1..])
  }

  function BlockInk(b: Block): string {
    match b
    case P(text) => Ink(text)
    case H(_, text) => Ink(text)
    case Code(text, _) => Ink(text)
    case List(_, items) => ItemsInk(items)
    case Quote(blocks) => ShownInk(blocks)
    case Table(head, rows) => InkOfLines(head) + RowsInk(rows)
    case Hr => ""
  }

  function ShownInk(bs: seq<Block>): string {
    if bs == [] then "" else BlockInk(bs[0]) + ShownInk(bs[1..])
  }

  // ---- the one line that changes the order ----

  /** Line 207: a plain unindented line that continues the text of the last item. */
  predicate IsLazy(g: Grammar, lines: seq<string>, i: nat, items: seq<ListItem>)
    requires i < |lines|
  {
    var l := lines[i];
    && !IsBlank(l) && g.item(l).None? && items != [] && !IsSpace(l[0])
    && g.fence(l).None? && g.heading(l).None? && !g.rule(l) && g.quote(l).None? && !IsTableStart(g, lines, i)
  }

  /** It does so behind child items that show text. */
  predicate JumpsAhead(g: Grammar, lines: seq<string>, i: nat, items: seq<ListItem>)
    requires i < |lines|
  {
    IsLazy(g, lines, i, items) && KidsInk(items[|items| - 1]) != ""
  }

  /** Some line of the list, from line `i` on, jumps ahead. */
  predicate ListJumps(g: Grammar, lines: seq<string>, i: nat, base: nat, ordered: bool, items: seq<ListItem>)
    requires i <= |lines|
    decreases |lines| - i
  {
    i < |lines| &&
    var step := ListStep(g, lines, i, base, ordered, items);
    step.Some? && (JumpsAhead(g, lines, i, items) || ListJumps(g, lines, i + 1, base, ordered, step.value))
  }

  predicate StartsList(g: Grammar, l: string) {
    g.fence(l).None? && g.heading(l).None? && !g.rule(l) && g.quote(l).None? && g.item(l).Some?
  }

  /** A lazy line jumps ahead of child items somewhere in the text, at any depth of quotes. */
  predicate TextJumps(g: Grammar, lines: seq<string>)
    requires Lawful(g)
    decreases TotalChars(lines), |lines|
  {
    if lines == [] then false
    else if IsBlank(lines[0]) then
      TotalCharsTail(lines);
      TextJumps(g, lines[1..])
    else
      FirstShrinks(g, lines);
      var (shape, n) := First(g, lines);
      || (StartsList(g, lines[0]) &&
          var m := g.item(lines[0]).value;
          ListJumps(g, lines, 0, m.indent, m.ordered, []))
      || (shape.Nested? && TextJumps(g, shape.inner))
      || TextJumps(g, lines[n..])
  }

  // ---- subsequences of ink ----

  lemma SuffixSub(t: string, l: string)
    requires IsSuffix(t, l)
    ensures Sub(Ink(t), Ink(l))
  {
    var p := l[..|l| - |t|];
    SubRefl(t);
    SubAfter(t, p, t);
    assert p + t == l;
    SubInk(t, l);
  }

  lemma FactorSub(t: string, l: string)
    requires IsFactor(t, l)
    ensures Sub(Ink(t), Ink(l))
  {
    var before, after :| l == before + t + after;
    SubPart(before, t, after);
    SubInk(t, l);
  }

  lemma SubAppend(a: string, b: string, x: string)
    requires Sub(a, b)
    ensures Sub(a, b + x)
  {
    SubConcat(a, b, "", x);
    assert a + "" == a;
  }

  // ---- rows ----

  lemma {:induction false} CellsSub(s: string, i: nat, cur: string)
    requires i <= |s|
    ensures Sub(InkOfLines(Cells(s, i, cur)), Ink(cur) + Ink(s[i..]))
    decreases |s| - i
  {
    hide Trim, Ink, Sub;
    if i == |s| {
      InkOfTrim(cur);
      OneLineInk(Trim(cur));
      SubRefl(Ink(cur));
      SubAppend(Ink(cur), Ink(cur), Ink(s[i..]));
    } else if s[i] == '\\' && i + 1 < |s| && s[i + 1] == '|' {
      CellsSub(s, i + 2, cur + "|");
      InkConcat(cur, "|");
      assert s[i..] == [s[i]] + ("|" + s[i + 2..]);
      InkConcat([s[i]], "|" + s[i + 2..]);
      InkConcat("|", s[i + 2..]);
      SubRefl(Ink(cur));
      SubRefl(Ink("|" + s[i + 2..]));
      SubAfter(Ink("|" + s[i + 2..]), Ink([s[i]]), Ink("|" + s[i + 2..]));
      SubConcat(Ink(cur), Ink(cur), Ink("|" + s[i + 2..]), Ink(s[i..]));
      assert (Ink(cur) + Ink("|")) + Ink(s[i + 2..]) == Ink(cur) + Ink("|" + s[i + 2..]);
      SubTrans(InkOfLines(Cells(s, i, cur)), Ink(cur) + Ink("|" + s[i + 2..]), Ink(cur) + Ink(s[i..]));
    } else {
      assert s[i..] == [s[i]] + s[i + 1..];
      InkConcat([s[i]], s[i + 1..]);
      if s[i] == '|' {
        var rest := Cells(s, i + 1, "");
        CellsSub(s, i + 1, "");
        InkOfTrim(cur);
        ConsInk(Trim(cur), rest);
        NoInk();
        assert "" + Ink(s[i + 1..]) == Ink(s[i + 1..]);
        SubAfter(InkOfLines(rest), Ink([s[i]]), Ink(s[i + 1..]));
        SubRefl(Ink(cur));
        SubConcat(Ink(cur), Ink(cur), InkOfLines(rest), Ink(s[i..]));
      } else {
        CellsSub(s, i + 1, cur + [s[i]]);
        InkConcat(cur, [s[i]]);
        assert (Ink(cur) + Ink([s[i]])) + Ink(s[i + 1..]) == Ink(cur) + Ink(s[i..]);
      }
    }
  }

  lemma NoInk()
    ensures Ink("") == "" && InkOfLines([]) == ""
  {
  }

  lemma OneLineInk(l: string)
    ensures InkOfLines([l]) == Ink(l)
  {
    assert InkOfLines([l]) == Ink(l) + "" == Ink(l);
  }

  lemma ConsInk(l: string, ls: seq<string>)
    ensures InkOfLines([l] + ls) == Ink(l) + InkOfLines(ls)
  {
    assert ([l] + ls)[1..] == ls;
  }

  lemma RowSub(line: string)
    ensures Sub(InkOfLines(RowCells(line)), Ink(line))
  {
    hide Ink, Cells, Sub, InkOfLines;
    var s, b := Trim(line), RowBody(line);
    InkOfTrim(line);
    CellsSub(b, 0, "");
    NoInk();
    assert b[0..] == b && "" + Ink(b) == Ink(b);
    if s != "" && s[0] == '|' {
      assert s == s[..1] + b + s[1 + |b|..];
    } else {
      assert s == s[..0] + b + s[|b|..];
    }
    FactorSub(b, s);
    SubTrans(InkOfLines(RowCells(line)), Ink(b), Ink(s));
  }

  lemma {:induction false} EmptyCellsInk(n: nat)
    ensures InkOfLines(seq(n, _ => "")) == ""
  {
    if n > 0 {
      EmptyCellsInk(n - 1);
      assert seq(n, _ => "")[1..] == seq(n - 1, _ => "");
    }
  }

  lemma FitSub(cells: seq<string>, width: nat)
    ensures Sub(InkOfLines(FitRow(cells, width)), InkOfLines(cells))
  {
    hide Ink, InkOfLines, Sub;
    SubRefl(InkOfLines(FitRow(cells, width)));
    if |cells| >= width {
      assert cells == cells[..width] + cells[width..];
      InkOfLinesConcat(cells[..width], cells[width..]);
      SubAppend(InkOfLines(cells[..width]), InkOfLines(cells[..width]), InkOfLines(cells[width..]));
    } else {
      InkOfLinesConcat(cells, seq(width - |cells|, _ => ""));
      EmptyCellsInk(width - |cells|);
      assert InkOfLines(cells) + "" == InkOfLines(cells);
    }
  }

  lemma {:induction false} TableSub(width: nat, lines: seq<string>)
    ensures Sub(RowsInk(TableRows(width, lines)), InkOfLines(lines))
  {
    hide RowCells, FitRow, Ink, Sub;
    if lines == [] {
      SubRefl("");
    } else {
      RowSub(lines[0]);
      FitSub(RowCells(lines[0]), width);
      TableSub(width, lines[1..]);
      assert TableRows(width, lines)[1..] == TableRows(width, lines[1..]);
      SubTrans(InkOfLines(FitRow(RowCells(lines[0]), width)), InkOfLines(RowCells(lines[0])), Ink(lines[0]));
      SubConcat(InkOfLines(FitRow(RowCells(lines[0]), width)), Ink(lines[0]),
                RowsInk(TableRows(width, lines[1..])), InkOfLines(lines[1..]));
    }
  }

  // ---- lists ----

  lemma {:induction false} ItemsInkConcat(a: seq<ListItem>, b: seq<ListItem>)
    ensures ItemsInk(a + b) == ItemsInk(a) + ItemsInk(b)
  {
    hide ItemInk;
    if a == [] {
      assert a + b == b;
    } else {
      assert (a + b)[1..] == a[1..] + b;
      ItemsInkConcat(a[1..], b);
    }
  }

  lemma OneItemInk(it: ListItem)
    ensures ItemsInk([it]) == ItemInk(it)
  {
    hide ItemInk;
    assert [it][1..] == [];
    assert ItemInk(it) + "" == ItemInk(it);
  }

  /** The items with the last one replaced: what it shows stands at the end. */
  lemma LastItemInk(items: seq<ListItem>, it: ListItem)
    requires items != []
    ensures var n := |items| - 1;
            && ItemsInk(items) == ItemsInk(items[..n]) + ItemInk(items[n])
            && ItemsInk(items[n := it]) == ItemsInk(items[..n]) + ItemInk(it)
  {
    hide ItemInk, ItemsInk;
    var n := |items| - 1;
    OneItemInk(items[n]);
    OneItemInk(it);
    ReplaceLast(items, it);
    ItemsInkConcat(items[..n], [items[n]]);
    ItemsInkConcat(items[..n], [it]);
  }

  lemma AppendedText(text: string, l: string)
    ensures Ink(text + "\n" + Trim(l)) == Ink(text) + Ink(l)
  {
    hide Trim;
    InkConcat(text + "\n", Trim(l));
    InkConcat(text, "\n");
    assert Ink("\n") == "";
    InkOfTrim(l);
  }

  /** A lazy line goes behind the text of the item, in front of its children. */
  lemma AppendTextInk(it: ListItem, l: string)
    ensures ItemInk(AppendText(it, l)) == Ink(it.text) + Ink(l) + KidsInk(it)
    ensures KidsInk(AppendText(it, l)) == KidsInk(it)
  {
    hide Ink, Trim;
    AppendedText(it.text, l);
  }

  lemma AddChildInk(it: ListItem, m: ItemLine)
    ensures ItemInk(AddChild(it, m)) == ItemInk(it) + Ink(m.text)
  {
    hide Ink;
    var c := it.children.GetOr(Children(m.ordered, []));
    var kid := ListItem(m.text, None);
    ItemsInkConcat(c.items, [kid]);
    OneItemInk(kid);
    assert Ink(m.text) + "" == Ink(m.text);
    assert KidsInk(it) == ItemsInk(c.items);
  }

  lemma AppendToLastInk(it: ListItem, l: string)
    requires ItemShaped(it)
    ensures ItemInk(AppendToLast(it, l)) == ItemInk(it) + Ink(l)
  {
    hide Ink, AppendText;
    if it.children.Some? && it.children.value.items != [] {
      var c := it.children.value;
      var n := |c.items| - 1;
      var kid := c.items[n];
      AppendTextInk(kid, l);
      assert Ink(kid.text) + Ink(l) + "" == Ink(kid.text) + "" + Ink(l);
      LastItemInk(c.items, AppendText(kid, l));
      hide ItemsInk;
      assert Ink(it.text) + (ItemsInk(c.items[..n]) + (ItemInk(kid) + Ink(l)))
          == (Ink(it.text) + (ItemsInk(c.items[..n]) + ItemInk(kid))) + Ink(l);
    } else {
      AppendTextInk(it, l);
    }
  }

  // ---- one step of a list ----

  /** What a step shows anew stands at the end, unless the line jumps ahead. */
  lemma StepAppends(g: Grammar, lines: seq<string>, i: nat, base: nat, ordered: bool, items: seq<ListItem>) returns (x: string)
    requires Lawful(g) && i < |lines| && ItemsShaped(items) && !JumpsAhead(g, lines, i, items)
    requires ListStep(g, lines, i, base, ordered, items).Some?
    ensures ItemsInk(ListStep(g, lines, i, base, ordered, items).value) == ItemsInk(items) + x && Sub(x, Ink(lines[i]))
  {
    hide ItemsInk, ItemInk, KidsInk, Ink, AddChild, AppendText, AppendToLast, IsTableStart, ContinuesAfterBlank, IsBlank, IsSuffix, Sub;
    var l := lines[i];
    var m := g.item(l);
    var n := |items| - 1;
    if m.Some? { SuffixSub(m.value.text, l); }
    if !IsBlank(l) { TextIsNotEmpty(l); }
    if IsBlank(l) {
      x := "";
      NothingSub(Ink(l));
    } else if m.Some? && m.value.indent <= base {
      x := Ink(m.value.text);
      NewItemInk(items, m.value.text);
    } else if m.Some? {
      x := Ink(m.value.text);
      AddChildInk(items[n], m.value);
      LastItemGrows(items, AddChild(items[n], m.value), x);
    } else if IsSpace(l[0]) {
      x := Ink(l);
      SubRefl(x);
      AppendToLastInk(items[n], l);
      LastItemGrows(items, AppendToLast(items[n], l), x);
    } else {
      x := Ink(l);
      SubRefl(x);
      LazyWithoutKids(items[n], l);
      LastItemGrows(items, AppendText(items[n], l), x);
    }
  }

  lemma TextIsNotEmpty(l: string)
    requires !IsBlank(l)
    ensures l != ""
  {
  }

  lemma NothingSub(b: string)
    ensures Sub("", b)
  {
  }

  lemma NewItemInk(items: seq<ListItem>, text: string)
    ensures ItemsInk(items + [ListItem(text, None)]) == ItemsInk(items) + Ink(text)
  {
    hide Ink;
    ItemsInkConcat(items, [ListItem(text, None)]);
    OneItemInk(ListItem(text, None));
    assert Ink(text) + "" == Ink(text);
  }

  lemma LastItemGrows(items: seq<ListItem>, it: ListItem, x: string)
    requires items != [] && ItemInk(it) == ItemInk(items[|items| - 1]) + x
    ensures ItemsInk(items[|items| - 1 := it]) == ItemsInk(items) + x
  {
    hide ItemInk, ItemsInk;
    LastItemInk(items, it);
    var n := |items| - 1;
    assert ItemsInk(items[..n]) + (ItemInk(items[n]) + x) == (ItemsInk(items[..n]) + ItemInk(items[n])) + x;
  }

  lemma LazyWithoutKids(it: ListItem, l: string)
    requires KidsInk(it) == ""
    ensures ItemInk(AppendText(it, l)) == ItemInk(it) + Ink(l)
  {
    hide Ink, KidsInk;
    AppendTextInk(it, l);
    assert Ink(it.text) + Ink(l) + "" == (Ink(it.text) + "") + Ink(l);
  }

  /** A line that jumps ahead: its ink comes in front of the ink of the children. */
  lemma JumpShows(g: Grammar, lines: seq<string>, i: nat, base: nat, ordered: bool, items: seq<ListItem>) returns (before: string, kids: string)
    requires i < |lines| && JumpsAhead(g, lines, i, items)
    requires ListStep(g, lines, i, base, ordered, items).Some?
    ensures kids != "" && ItemsInk(items) == before + kids
    ensures ItemsInk(ListStep(g, lines, i, base, ordered, items).value) == before + Ink(lines[i]) + kids
  {
    hide ItemsInk, ItemInk, KidsInk, Ink, AppendText, IsTableStart, IsBlank;
    var n, l := |items| - 1, lines[i];
    var it := items[n];
    AppendTextInk(it, l);
    ItemInkIs(it);
    LastItemInk(items, AppendText(it, l));
    before, kids := ItemsInk(items[..n]) + Ink(it.text), KidsInk(it);
    assert ItemsInk(items[..n]) + (Ink(it.text) + kids) == before + kids;
    assert ItemsInk(items[..n]) + (Ink(it.text) + Ink(l) + kids) == before + Ink(l) + kids;
  }

  lemma ItemInkIs(it: ListItem)
    ensures ItemInk(it) == Ink(it.text) + KidsInk(it)
  {
  }

  /** Whatever the line does, nothing that was shown is lost or changes its order. */
  lemma StepKeepsShown(g: Grammar, lines: seq<string>, i: nat, base: nat, ordered: bool, items: seq<ListItem>)
    requires Lawful(g) && i < |lines| && ItemsShaped(items)
    requires ListStep(g, lines, i, base, ordered, items).Some?
    ensures Sub(ItemsInk(items), ItemsInk(ListStep(g, lines, i, base, ordered, items).value))
  {
    hide ItemsInk, Ink, ListStep, Lawful, ItemsShaped, Sub;
    SubRefl(ItemsInk(items));
    if JumpsAhead(g, lines, i, items) {
      var before, kids := JumpShows(g, lines, i, base, ordered, items);
      SubRefl(before);
      SubRefl(kids);
      SubAppend(before, before, Ink(lines[i]));
      SubConcat(before, before + Ink(lines[i]), kids, kids);
    } else {
      var x := StepAppends(g, lines, i, base, ordered, items);
      SubAppend(ItemsInk(items), ItemsInk(items), x);
    }
  }

  // ---- a whole list ----

  lemma {:induction false} ListKeepsShown(g: Grammar, lines: seq<string>, i: nat, base: nat, ordered: bool, items: seq<ListItem>)
    requires Lawful(g) && i <= |lines| && ItemsShaped(items)
    ensures Sub(ItemsInk(items), ItemsInk(ListFrom(g, lines, i, base, ordered, items).0))
    decreases |lines| - i
  {
    hide ItemsInk, ListStep, Lawful, ItemsShaped, Sub;
    SubRefl(ItemsInk(items));
    if i < |lines| {
      var step := ListStep(g, lines, i, base, ordered, items);
      if step.Some? {
        ListStepShape(g, lines, i, base, ordered, items);
        StepKeepsShown(g, lines, i, base, ordered, items);
        ListKeepsShown(g, lines, i + 1, base, ordered, step.value);
        SubTrans(ItemsInk(items), ItemsInk(step.value), ItemsInk(ListFrom(g, lines, i, base, ordered, items).0));
      }
    }
  }

  lemma InkOfSlice(lines: seq<string>, i: nat, n: nat)
    requires i < n <= |lines|
    ensures InkOfLines(lines[i..n]) == Ink(lines[i]) + InkOfLines(lines[i + 1..n])
  {
    assert lines[i..n][1..] == lines[i + 1..n];
  }

  /** A list in which no line jumps ahead shows its lines in order. */
  lemma {:induction false} ListInOrder(g: Grammar, lines: seq<string>, i: nat, base: nat, ordered: bool, items: seq<ListItem>)
    requires Lawful(g) && i <= |lines| && ItemsShaped(items) && !ListJumps(g, lines, i, base, ordered, items)
    ensures var (r, n) := ListFrom(g, lines, i, base, ordered, items);
            Sub(ItemsInk(r), ItemsInk(items) + InkOfLines(lines[i..n]))
    decreases |lines| - i
  {
    hide ItemsInk, ListStep, Lawful, ItemsShaped, Sub, Ink, JumpsAhead, InkOfLines;
    var (r, n) := ListFrom(g, lines, i, base, ordered, items);
    var step := if i < |lines| then ListStep(g, lines, i, base, ordered, items) else None;
    if step.Some? {
      ListStepShape(g, lines, i, base, ordered, items);
      var x := StepAppends(g, lines, i, base, ordered, items);
      ListInOrder(g, lines, i + 1, base, ordered, step.value);
      var rest := InkOfLines(lines[i + 1..n]);
      InkOfSlice(lines, i, n);
      SubRefl(ItemsInk(items));
      SubRefl(rest);
      SubConcat(x, Ink(lines[i]), rest, rest);
      SubConcat(ItemsInk(items), ItemsInk(items), x + rest, Ink(lines[i]) + rest);
      assert (ItemsInk(items) + x) + rest == ItemsInk(items) + (x + rest);
      SubTrans(ItemsInk(r), ItemsInk(items) + (x + rest), ItemsInk(items) + InkOfLines(lines[i..n]));
    } else {
      SubRefl(ItemsInk(items));
      SubAppend(ItemsInk(items), ItemsInk(items), InkOfLines(lines[i..n]));
    }
  }

  /** Two characters that stand in one order in the text and are shown in the other. */
  ghost predicate Swapped(b: char, c: char, text: string, shown: string) {
    Sub([b, c], text) && Sub([c, b], shown)
  }

  lemma {:induction false} SubOne(c: char, s: string, k: nat)
    requires k < |s| && s[k] == c
    ensures Sub([c], s)
  {
    assert s == s[..k] + [c] + s[k + 1..];
    SubPart(s[..k], [c], s[k + 1..]);
  }

  lemma TextHasInkInIt(l: string)
    requires !IsBlank(l)
    ensures Ink(l) != ""
  {
    BlankIffNoInk(l);
  }

  /** The swap that a line makes when it jumps ahead. */
  lemma JumpSwaps(g: Grammar, lines: seq<string>, i: nat, base: nat, ordered: bool, items: seq<ListItem>, text: string)
      returns (b: char, c: char)
    requires Lawful(g) && i < |lines| && JumpsAhead(g, lines, i, items) && Sub(ItemsInk(items), text)
    requires ListStep(g, lines, i, base, ordered, items).Some?
    ensures Sub([b, c], text + Ink(lines[i]))
    ensures Sub([c, b], ItemsInk(ListStep(g, lines, i, base, ordered, items).value))
  {
    hide ItemsInk, Ink, ListStep, Lawful, Sub, IsBlank, KidsInk;
    var l := Ink(lines[i]);
    TextHasInkInIt(lines[i]);
    var before, kids := JumpShows(g, lines, i, base, ordered, items);
    b, c := kids[0], l[0];
    SubOne(b, before + kids, |before|);
    SubTrans([b], ItemsInk(items), text);
    SubOne(c, l, 0);
    SubConcat([b], text, [c], l);
    assert [b] + [c] == [b, c] && [c] + [b] == [c, b];
    SubOne(c, before + l, |before|);
    SubOne(b, kids, 0);
    SubConcat([c], before + l, [b], kids);
  }

  lemma {:induction false} ListOutOfOrder(g: Grammar, lines: seq<string>, i: nat, base: nat, ordered: bool, items: seq<ListItem>, text: string)
      returns (b: char, c: char)
    requires Lawful(g) && i <= |lines| && ItemsShaped(items) && ListJumps(g, lines, i, base, ordered, items)
    requires Sub(ItemsInk(items), text)
    ensures var (r, n) := ListFrom(g, lines, i, base, ordered, items);
            Swapped(b, c, text + InkOfLines(lines[i..n]), ItemsInk(r))
    decreases |lines| - i
  {
    hide ItemsInk, ListStep, Lawful, ItemsShaped, Sub, Ink, JumpsAhead, InkOfLines;
    var (r, n) := ListFrom(g, lines, i, base, ordered, items);
    var step := ListStep(g, lines, i, base, ordered, items);
    var l, rest := Ink(lines[i]), InkOfLines(lines[i + 1..n]);
    ListStepShape(g, lines, i, base, ordered, items);
    InkOfSlice(lines, i, n);
    assert (text + l) + rest == text + (l + rest);
    if JumpsAhead(g, lines, i, items) {
      b, c := JumpSwaps(g, lines, i, base, ordered, items, text);
      SubAppend([b, c], text + l, rest);
      ListKeepsShown(g, lines, i + 1, base, ordered, step.value);
      SubTrans([c, b], ItemsInk(step.value), ItemsInk(r));
    } else {
      var x := StepAppends(g, lines, i, base, ordered, items);
      SubConcat(ItemsInk(items), text, x, l);
      b, c := ListOutOfOrder(g, lines, i + 1, base, ordered, step.value, text + l);
    }
  }

  lemma ListAtInOrder(g: Grammar, lines: seq<string>)
    requires Lawful(g) && lines != [] && !IsBlank(lines[0]) && g.item(lines[0]).Some?
    requires var m := g.item(lines[0]).value; !ListJumps(g, lines, 0, m.indent, m.ordered, [])
    ensures var (b, n) := ListAt(g, lines); Sub(BlockInk(b), InkOfLines(lines[..n]))
  {
    hide ListFrom, ListJumps, ListStep, Sub, InkOfLines;
    var m := g.item(lines[0]).value;
    ListInOrder(g, lines, 0, m.indent, m.ordered, []);
    var n := ListAt(g, lines).1;
    assert lines[0..n] == lines[..n] && "" + InkOfLines(lines[..n]) == InkOfLines(lines[..n]);
  }

  lemma ListAtOutOfOrder(g: Grammar, lines: seq<string>) returns (b: char, c: char)
    requires Lawful(g) && lines != [] && !IsBlank(lines[0]) && g.item(lines[0]).Some?
    requires var m := g.item(lines[0]).value; ListJumps(g, lines, 0, m.indent, m.ordered, [])
    ensures var (list, n) := ListAt(g, lines); Swapped(b, c, InkOfLines(lines[..n]), BlockInk(list))
  {
    hide ListFrom, ListJumps, ListStep, Sub, InkOfLines;
    var m := g.item(lines[0]).value;
    SubRefl("");
    b, c := ListOutOfOrder(g, lines, 0, m.indent, m.ordered, [], "");
    var n := ListAt(g, lines).1;
    assert lines[0..n] == lines[..n] && "" + InkOfLines(lines[..n]) == InkOfLines(lines[..n]);
  }

  // ---- blocks ----

  lemma {:induction false} UnquoteSub(g: Grammar, lines: seq<string>)
    requires Lawful(g)
    ensures Sub(InkOfLines(UnquoteAll(g, lines)), InkOfLines(lines))
  {
    hide Ink, Sub;
    if lines == [] {
      SubRefl("");
    } else {
      var inner := UnquoteAll(g, lines);
      UnquoteSub(g, lines[1..]);
      assert inner[1..] == UnquoteAll(g, lines[1..]);
      SubRefl(Ink(lines[0]));
      if g.quote(lines[0]).Some? { SuffixSub(g.quote(lines[0]).value, lines[0]); }
      SubConcat(Ink(inner[0]), Ink(lines[0]), InkOfLines(inner[1..]), InkOfLines(lines[1..]));
    }
  }

  lemma SliceSub(lines: seq<string>, i: nat, j: nat)
    requires i <= j <= |lines|
    ensures Sub(InkOfLines(lines[i..j]), InkOfLines(lines))
  {
    hide Ink, InkOfLines, Sub;
    assert lines == lines[..i] + lines[i..j] + lines[j..];
    InkOfLinesConcat(lines[..i] + lines[i..j], lines[j..]);
    InkOfLinesConcat(lines[..i], lines[i..j]);
    SubPart(InkOfLines(lines[..i]), InkOfLines(lines[i..j]), InkOfLines(lines[j..]));
  }

  lemma JoinSub(lines: seq<string>, i: nat, j: nat)
    requires i <= j <= |lines|
    ensures Sub(Ink(Join(lines[i..j])), InkOfLines(lines))
  {
    InkOfJoin(lines[i..j]);
    SliceSub(lines, i, j);
  }

  lemma TableInOrder(g: Grammar, lines: seq<string>, e: nat)
    requires 2 <= e <= |lines|
    ensures var head := RowCells(lines[0]);
            Sub(BlockInk(Table(head, TableRows(|head|, lines[2..e]))), InkOfLines(lines[..e]))
  {
    hide Ink, InkOfLines, Sub, RowCells, RowsInk, TableRows;
    var head := RowCells(lines[0]);
    RowSub(lines[0]);
    TableSub(|head|, lines[2..e]);
    InkOfSlice(lines, 0, e);
    InkOfSlice(lines, 1, e);
    assert lines[0..e] == lines[..e];
    SubAfter(RowsInk(TableRows(|head|, lines[2..e])), Ink(lines[1]), InkOfLines(lines[2..e]));
    SubConcat(InkOfLines(head), Ink(lines[0]), RowsInk(TableRows(|head|, lines[2..e])), InkOfLines(lines[1..e]));
  }

  /** A first block that is no quote shows its lines in order, unless it is a list with a line that jumps ahead. */
  lemma FirstInOrder(g: Grammar, lines: seq<string>)
    requires Lawful(g) && lines != [] && !IsBlank(lines[0])
    requires StartsList(g, lines[0]) ==> var m := g.item(lines[0]).value; !ListJumps(g, lines, 0, m.indent, m.ordered, [])
    ensures var (shape, n) := First(g, lines); shape.Ready? ==> Sub(BlockInk(shape.block), InkOfLines(lines[..n]))
  {
    hide IsBlank, Ink, InkOfLines, RunEnd, ListAt, RowsInk, ItemsInk, ShownInk, RowCells, Join, UnquoteAll, TableRows,
         IsTableStart, IsFactor, IsSuffix, Sub, ListJumps, Lawful;
    var l := lines[0];
    var (shape, n) := First(g, lines);
    if g.fence(l).Some? {
      var e := RunEnd(g, FenceRun(g.fence(l).value), lines, 1);
      JoinSub(lines[..n], 1, e);
      assert lines[..n][1..e] == lines[1..e];
    } else if g.heading(l).Some? {
      assert lines[..1] == [l];
      OneLineInk(l);
      HeadingSub(g, l);
    } else if g.rule(l) {
      NothingSub(InkOfLines(lines[..n]));
    } else if g.quote(l).Some? {
    } else if g.item(l).Some? {
      ListAtInOrder(g, lines);
    } else if IsTableStart(g, lines, 0) {
      TableInOrder(g, lines, n);
    } else {
      JoinSub(lines[..n], 0, n);
      assert lines[..n][0..n] == lines[..n];
    }
  }

  lemma HeadingSub(g: Grammar, l: string)
    requires Lawful(g) && g.heading(l).Some?
    ensures Sub(Ink(g.heading(l).value.text), Ink(l))
  {
    FactorSub(g.heading(l).value.text, l);
  }

  // ---- the whole text ----

  lemma BlankLineInk(lines: seq<string>)
    requires lines != [] && IsBlank(lines[0])
    ensures InkOfLines(lines) == InkOfLines(lines[1..])
  {
    hide IsBlank, Ink;
    BlankIffNoInk(lines[0]);
    assert "" + InkOfLines(lines[1..]) == InkOfLines(lines[1..]);
  }

  lemma SplitInk(lines: seq<string>, n: nat)
    requires n <= |lines|
    ensures InkOfLines(lines) == InkOfLines(lines[..n]) + InkOfLines(lines[n..])
  {
    assert lines == lines[..n] + lines[n..];
    InkOfLinesConcat(lines[..n], lines[n..]);
  }

  lemma ShownIs(g: Grammar, lines: seq<string>)
    requires Lawful(g) && lines != [] && !IsBlank(lines[0])
    ensures var (b, n) := Head(g, lines); ShownInk(BlocksOf(g, lines)) == BlockInk(b) + ShownInk(BlocksOf(g, lines[n..]))
  {
    hide IsBlank, First, BlockInk;
    var (b, n) := Head(g, lines);
    assert ([b] + BlocksOf(g, lines[n..]))[1..] == BlocksOf(g, lines[n..]);
  }

  /** A text without a line that jumps ahead is shown in its own order: the ink of the blocks is a subsequence of its ink. */
  lemma {:induction false} OrderIsKept(g: Grammar, lines: seq<string>)
    requires Lawful(g) && !TextJumps(g, lines)
    ensures Sub(ShownInk(BlocksOf(g, lines)), InkOfLines(lines))
    decreases TotalChars(lines), |lines|
  {
    hide IsBlank, First, TotalChars, InkOfLines, Sub, BlockInk, ListJumps, StartsList, ShownInk, Lawful;
    if lines == [] {
      NothingShown(g);
    } else if IsBlank(lines[0]) {
      TotalCharsTail(lines);
      OrderIsKept(g, lines[1..]);
      BlankLineInk(lines);
    } else {
      FirstShrinks(g, lines);
      var (shape, n) := First(g, lines);
      var b := Head(g, lines).0;
      FirstInOrder(g, lines);
      if shape.Nested? {
        OrderIsKept(g, shape.inner);
        QuoteInk(BlocksOf(g, shape.inner));
        UnquoteSub(g, lines[..n]);
        SubTrans(ShownInk(BlocksOf(g, shape.inner)), InkOfLines(shape.inner), InkOfLines(lines[..n]));
      }
      OrderIsKept(g, lines[n..]);
      ShownIs(g, lines);
      SplitInk(lines, n);
      SubConcat(BlockInk(b), InkOfLines(lines[..n]), ShownInk(BlocksOf(g, lines[n..])), InkOfLines(lines[n..]));
    }
  }

  lemma NothingShown(g: Grammar)
    requires Lawful(g)
    ensures ShownInk(BlocksOf(g, [])) == "" && Sub("", InkOfLines([]))
  {
  }

  lemma QuoteInk(bs: seq<Block>)
    ensures BlockInk(Quote(bs)) == ShownInk(bs)
  {
  }

  lemma SwappedInside(b: char, c: char, text: string, shown: string, t0: string, t1: string, s0: string, s1: string)
    requires Swapped(b, c, text, shown)
    ensures Swapped(b, c, t0 + text + t1, s0 + shown + s1)
  {
    hide Sub;
    SubAfter([b, c], t0, text);
    SubAppend([b, c], t0 + text, t1);
    SubAfter([c, b], s0, shown);
    SubAppend([c, b], s0 + shown, s1);
  }

  /** Where a line jumps ahead, two characters of the text are shown in the other order. */
  lemma {:induction false} OrderIsLost(g: Grammar, lines: seq<string>) returns (b: char, c: char)
    requires Lawful(g) && TextJumps(g, lines)
    ensures Swapped(b, c, InkOfLines(lines), ShownInk(BlocksOf(g, lines)))
    decreases TotalChars(lines), |lines|
  {
    hide IsBlank, First, TotalChars, InkOfLines, Sub, BlockInk, ListJumps, ShownInk, Lawful, Swapped, StartsList;
    if IsBlank(lines[0]) {
      TotalCharsTail(lines);
      b, c := OrderIsLost(g, lines[1..]);
      BlankLineInk(lines);
    } else {
      FirstShrinks(g, lines);
      var (shape, n) := First(g, lines);
      var head := Head(g, lines).0;
      var first, rest := InkOfLines(lines[..n]), InkOfLines(lines[n..]);
      var shown, later := BlockInk(head), ShownInk(BlocksOf(g, lines[n..]));
      ShownIs(g, lines);
      SplitInk(lines, n);
      assert "" + first + rest == first + rest && "" + shown + later == shown + later;
      assert first + rest + "" == first + rest && shown + later + "" == shown + later;
      if ListJumpsFirst(g, lines) {
        b, c := FirstOutOfOrder(g, lines);
        SwappedInside(b, c, first, shown, "", rest, "", later);
      } else if shape.Nested? && TextJumps(g, shape.inner) {
        b, c := OrderIsLost(g, shape.inner);
        QuoteInk(BlocksOf(g, shape.inner));
        UnquoteSub(g, lines[..n]);
        SwappedInMore(b, c, InkOfLines(shape.inner), first, shown);
        SwappedInside(b, c, first, shown, "", rest, "", later);
      } else {
        b, c := OrderIsLost(g, lines[n..]);
        SwappedInside(b, c, rest, later, first, "", shown, "");
      }
    }
  }

  predicate ListJumpsFirst(g: Grammar, lines: seq<string>)
    requires lines != []
  {
    StartsList(g, lines[0]) &&
    var m := g.item(lines[0]).value;
    ListJumps(g, lines, 0, m.indent, m.ordered, [])
  }

  lemma FirstOutOfOrder(g: Grammar, lines: seq<string>) returns (b: char, c: char)
    requires Lawful(g) && lines != [] && !IsBlank(lines[0]) && ListJumpsFirst(g, lines)
    ensures var (head, n) := Head(g, lines); Swapped(b, c, InkOfLines(lines[..n]), BlockInk(head))
  {
    hide ListJumps, IsBlank, InkOfLines, BlockInk, ListAt, Swapped, Lawful;
    b, c := ListAtOutOfOrder(g, lines);
  }

  lemma SwappedInMore(b: char, c: char, text: string, more: string, shown: string)
    requires Swapped(b, c, text, shown) && Sub(text, more)
    ensures Swapped(b, c, more, shown)
  {
    hide Sub;
    SubTrans([b, c], text, more);
  }

  ghost predicate AllDistinct(s: string) {
    forall i, j :: 0 <= i < j < |s| ==> s[i] != s[j]
  }

  lemma {:induction false} PairStands(x: char, y: char, s: string) returns (i: nat, j: nat)
    requires Sub([x, y], s)
    ensures i < j < |s| && s[i] == x && s[j] == y
    decreases |s|
  {
    if s[0] == x && Sub([x, y][1..], s[1..]) {
      assert [x, y][1..] == [y];
      j := OneStands(y, s[1..]);
      i, j := 0, j + 1;
    } else {
      i, j := PairStands(x, y, s[1..]);
      i, j := i + 1, j + 1;
    }
  }

  lemma {:induction false} OneStands(y: char, s: string) returns (j: nat)
    requires Sub([y], s)
    ensures j < |s| && s[j] == y
    decreases |s|
  {
    if s[0] == y {
      j := 0;
    } else {
      j := OneStands(y, s[1..]);
      j := j + 1;
    }
  }

  lemma NoSwapInOrder(b: char, c: char, text: string, shown: string)
    requires AllDistinct(text) && Swapped(b, c, text, shown)
    ensures !Sub(shown, text)
  {
    if Sub(shown, text) {
      SubTrans([c, b], shown, text);
      var i, j := PairStands(b, c, text);
      var k, l := PairStands(c, b, text);
      SamePlace(text, i, l);
      SamePlace(text, j, k);
    }
  }

  lemma SamePlace(s: string, i: nat, j: nat)
    requires AllDistinct(s) && i < |s| && j < |s| && s[i] == s[j]
    ensures i == j
  {
  }

  /**
   * Exactly the lines that jump ahead of child items change the order: in a text whose visible characters can be told
   * apart, the blocks show it in order if and only if it has no such line.
   */
  lemma OrderIsKeptIff(g: Grammar, lines: seq<string>)
    requires Lawful(g) && AllDistinct(InkOfLines(lines))
    ensures Sub(ShownInk(BlocksOf(g, lines)), InkOfLines(lines)) <==> !TextJumps(g, lines)
  {
    hide TextJumps, Sub, Swapped, AllDistinct;
    if TextJumps(g, lines) {
      var b, c := OrderIsLost(g, lines);
      NoSwapInOrder(b, c, InkOfLines(lines), ShownInk(BlocksOf(g, lines)));
    } else {
      OrderIsKept(g, lines);
    }
  }
}
