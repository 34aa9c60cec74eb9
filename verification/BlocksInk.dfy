/** `parseBlocks` invents nothing: every non-blank character of the blocks comes from the text, at most as often. */
module BlocksInk {
  import opened Options
  import opened Seqs
  import opened Text
  import opened Blocks

  function Mass(s: string): multiset<char> {
    multiset(Ink(s))
  }

  function LinesMass(lines: seq<string>): multiset<char> {
    multiset(InkOfLines(lines))
  }

  function ItemMass(it: ListItem): multiset<char> {
    Mass(it.text) + if it.children.Some? then ItemsMass(it.children.value.items) else multiset{}
  }

  function ItemsMass(items: seq<ListItem>): multiset<char> {
    if items == [] then multiset{} else ItemMass(items[0]) + ItemsMass(items[1..])
  }

  function RowsMass(rows: seq<seq<string>>): multiset<char> {
    if rows == [] then multiset{} else LinesMass(rows[0]) + RowsMass(rows[1..])
  }

  function BlockMass(b: Block): multiset<char> {
    match b
    case P(text) => Mass(text)
    case H(_, text) => Mass(text)
    case Code(text, _) => Mass(text)
    case List(_, items) => ItemsMass(items)
    case Quote(blocks) => BlocksMass(blocks)
    case Table(head, rows) => LinesMass(head) + RowsMass(rows)
    case Hr => multiset{}
  }

  function BlocksMass(bs: seq<Block>): multiset<char> {
    if bs == [] then multiset{} else BlockMass(bs[0]) + BlocksMass(bs[1..])
  }

  // ---- lines ----

  lemma LinesMassConcat(a: seq<string>, b: seq<string>)
    ensures LinesMass(a + b) == LinesMass(a) + LinesMass(b)
  {
    InkOfLinesConcat(a, b);
  }

  lemma LinesMassSlices(lines: seq<string>, i: nat, j: nat)
    requires i <= j <= |lines|
    ensures LinesMass(lines) == LinesMass(lines[..i]) + LinesMass(lines[i..j]) + LinesMass(lines[j..])
  {
    assert lines == lines[..i] + lines[i..j] + lines[j..];
    LinesMassConcat(lines[..i] + lines[i..j], lines[j..]);
    LinesMassConcat(lines[..i], lines[i..j]);
  }

  lemma LinesMassCons(lines: seq<string>)
    requires lines != []
    ensures LinesMass(lines) == Mass(lines[0]) + LinesMass(lines[1..])
  {
  }

  lemma SuffixMass(t: string, l: string)
    requires IsSuffix(t, l)
    ensures Mass(t) <= Mass(l)
  {
    assert l == l[..|l| - |t|] + t;
    InkConcat(l[..|l| - |t|], t);
  }

  lemma FactorMass(t: string, l: string)
    requires IsFactor(t, l)
    ensures Mass(t) <= Mass(l)
  {
    var before, after :| l == before + t + after;
    InkConcat(before + t, after);
    InkConcat(before, t);
  }

  lemma JoinMass(lines: seq<string>)
    ensures Mass(Join(lines)) == LinesMass(lines)
  {
    InkOfJoin(lines);
  }

  lemma MassConcat(a: string, b: string)
    ensures Mass(a + b) == Mass(a) + Mass(b)
  {
    InkConcat(a, b);
  }

  lemma TrimMass(s: string)
    ensures Mass(Trim(s)) == Mass(s)
  {
    InkOfTrim(s);
  }

  lemma OneLineMass(l: string)
    ensures LinesMass([l]) == Mass(l)
  {
    assert InkOfLines([l]) == Ink(l) + "" == Ink(l);
  }

  // ---- rows ----

  lemma {:induction false} CellsMass(s: string, i: nat, cur: string)
    requires i <= |s|
    ensures LinesMass(Cells(s, i, cur)) <= Mass(cur) + Mass(s[i..])
    decreases |s| - i
  {
    hide Trim, Mass, LinesMass;
    if i == |s| {
      TrimMass(cur);
      OneLineMass(Trim(cur));
    } else if s[i] == '\\' && i + 1 < |s| && s[i + 1] == '|' {
      CellsMass(s, i + 2, cur + "|");
      MassConcat(cur, "|");
      assert s[i..] == [s[i]] + "|" + s[i + 2..];
      MassConcat([s[i]] + "|", s[i + 2..]);
      MassConcat([s[i]], "|");
    } else {
      assert s[i..] == [s[i]] + s[i + 1..];
      MassConcat([s[i]], s[i + 1..]);
      if s[i] == '|' {
        CellsMass(s, i + 1, "");
        TrimMass(cur);
        NoMass();
        LinesMassCons([Trim(cur)] + Cells(s, i + 1, ""));
      } else {
        CellsMass(s, i + 1, cur + [s[i]]);
        MassConcat(cur, [s[i]]);
      }
    }
  }

  lemma NoMass()
    ensures Mass("") == multiset{}
  {
  }

  lemma RowBodyIsPart(line: string)
    ensures IsFactor(RowBody(line), Trim(line))
  {
    hide Trim;
    var s, b := Trim(line), RowBody(line);
    if s != "" && s[0] == '|' {
      assert s == s[..1] + b + s[1 + |b|..];
    } else {
      assert s == s[..0] + b + s[|b|..];
    }
  }

  lemma RowMass(line: string)
    ensures LinesMass(RowCells(line)) <= Mass(line)
  {
    hide Trim, Mass, Cells, LinesMass, IsFactor, RowBody;
    TrimMass(line);
    RowBodyIsPart(line);
    var b := RowBody(line);
    FactorMass(b, Trim(line));
    CellsMass(b, 0, "");
    assert b[0..] == b;
    NoMass();
  }

  lemma {:induction false} EmptyCellsMass(n: nat)
    ensures LinesMass(seq(n, _ => "")) == multiset{}
  {
    if n > 0 {
      EmptyCellsMass(n - 1);
      assert seq(n, _ => "")[1..] == seq(n - 1, _ => "");
    }
  }

  lemma FitMass(cells: seq<string>, width: nat)
    ensures LinesMass(FitRow(cells, width)) <= LinesMass(cells)
  {
    hide Ink, InkOfLines;
    if |cells| >= width {
      assert cells == cells[..width] + cells[width..];
      LinesMassConcat(cells[..width], cells[width..]);
    } else {
      LinesMassConcat(cells, seq(width - |cells|, _ => ""));
      EmptyCellsMass(width - |cells|);
    }
  }

  lemma {:induction false} TableMass(width: nat, lines: seq<string>)
    ensures RowsMass(TableRows(width, lines)) <= LinesMass(lines)
  {
    hide RowCells, FitRow, Ink, InkOfLines;
    if lines != [] {
      RowMass(lines[0]);
      FitMass(RowCells(lines[0]), width);
      TableMass(width, lines[1..]);
      assert TableRows(width, lines)[1..] == TableRows(width, lines[1..]);
      LinesMassCons(lines);
    }
  }

  // ---- lists ----

  lemma {:induction false} ItemsMassConcat(a: seq<ListItem>, b: seq<ListItem>)
    ensures ItemsMass(a + b) == ItemsMass(a) + ItemsMass(b)
  {
    if a == [] {
      assert a + b == b;
    } else {
      assert (a + b)[1..] == a[1..] + b;
      ItemsMassConcat(a[1..], b);
    }
  }

  lemma LastItemMass(items: seq<ListItem>, it: ListItem)
    requires items != []
    ensures var n := |items| - 1;
            && ItemsMass(items) == ItemsMass(items[..n]) + ItemMass(items[n])
            && ItemsMass(items[n := it]) == ItemsMass(items[..n]) + ItemMass(it)
  {
    var n := |items| - 1;
    OneItemMass(items[n]);
    OneItemMass(it);
    hide ItemMass, ItemsMass;
    ReplaceLast(items, it);
    ItemsMassConcat(items[..n], [items[n]]);
    ItemsMassConcat(items[..n], [it]);
  }

  lemma OneItemMass(it: ListItem)
    ensures ItemsMass([it]) == ItemMass(it)
  {
  }

  lemma AppendTextMass(it: ListItem, l: string)
    ensures ItemMass(AppendText(it, l)) == ItemMass(it) + Mass(l)
  {
    hide Trim;
    InkConcat(it.text + "\n", Trim(l));
    InkConcat(it.text, "\n");
    assert Ink("\n") == "";
    InkOfTrim(l);
  }

  lemma AddChildMass(it: ListItem, m: ItemLine)
    ensures ItemMass(AddChild(it, m)) == ItemMass(it) + Mass(m.text)
  {
    var c := it.children.GetOr(Children(m.ordered, []));
    ItemsMassConcat(c.items, [ListItem(m.text, None)]);
    OneItemMass(ListItem(m.text, None));
  }

  lemma AppendToLastMass(it: ListItem, l: string)
    ensures ItemMass(AppendToLast(it, l)) == ItemMass(it) + Mass(l)
  {
    if it.children.Some? && it.children.value.items != [] {
      var c := it.children.value;
      var n := |c.items| - 1;
      AppendTextMass(c.items[n], l);
      LastItemMass(c.items, AppendText(c.items[n], l));
    } else {
      AppendTextMass(it, l);
    }
  }

  lemma ListStepMass(g: Grammar, lines: seq<string>, i: nat, base: nat, ordered: bool, items: seq<ListItem>)
    requires Lawful(g) && i < |lines|
    requires ListStep(g, lines, i, base, ordered, items).Some?
    ensures ItemsMass(ListStep(g, lines, i, base, ordered, items).value) <= ItemsMass(items) + Mass(lines[i])
  {
    hide ItemsMass, Mass, AddChild, AppendText, AppendToLast, IsTableStart, ContinuesAfterBlank, IsBlank;
    var l := lines[i];
    var m := g.item(l);
    if m.Some? { SuffixMass(m.value.text, l); }
    if m.Some? && m.value.indent <= base {
      var it := ListItem(m.value.text, None);
      ItemsMassConcat(items, [it]);
      OneItemMass(it);
      assert ItemMass(it) == Mass(m.value.text);
    }
    if items != [] {
      var last := items[|items| - 1];
      if m.Some? {
        AddChildMass(last, m.value);
        LastItemMass(items, AddChild(last, m.value));
      }
      AppendToLastMass(last, l);
      LastItemMass(items, AppendToLast(last, l));
      AppendTextMass(last, l);
      LastItemMass(items, AppendText(last, l));
    }
  }

  lemma {:induction false} ListFromMass(g: Grammar, lines: seq<string>, i: nat, base: nat, ordered: bool, items: seq<ListItem>)
    requires Lawful(g) && i <= |lines|
    ensures var (r, n) := ListFrom(g, lines, i, base, ordered, items);
            ItemsMass(r) <= ItemsMass(items) + LinesMass(lines[i..n])
    decreases |lines| - i
  {
    hide ItemsMass, Mass, ListStep, LinesMass, Lawful;
    if i < |lines| {
      var step := ListStep(g, lines, i, base, ordered, items);
      if step.Some? {
        ListStepMass(g, lines, i, base, ordered, items);
        ListFromMass(g, lines, i + 1, base, ordered, step.value);
        var n := ListFrom(g, lines, i, base, ordered, items).1;
        LinesMassCons(lines[i..n]);
        assert lines[i..n][1..] == lines[i + 1..n];
      }
    }
  }

  lemma ListAtMass(g: Grammar, lines: seq<string>)
    requires Lawful(g) && lines != [] && !IsBlank(lines[0]) && g.item(lines[0]).Some?
    ensures var (b, n) := ListAt(g, lines); BlockMass(b) <= LinesMass(lines[..n])
  {
    hide LinesMass, IsBlank, ListStep;
    var m := g.item(lines[0]).value;
    ListFromMass(g, lines, 0, m.indent, m.ordered, []);
    assert lines[0..ListAt(g, lines).1] == lines[..ListAt(g, lines).1];
  }

  // ---- blocks ----

  lemma {:induction false} UnquoteMass(g: Grammar, lines: seq<string>)
    requires Lawful(g)
    ensures LinesMass(UnquoteAll(g, lines)) <= LinesMass(lines)
  {
    hide Mass, LinesMass;
    if lines != [] {
      var inner := UnquoteAll(g, lines);
      UnquoteMass(g, lines[1..]);
      assert inner[1..] == UnquoteAll(g, lines[1..]);
      LinesMassCons(lines);
      LinesMassCons(inner);
      if g.quote(lines[0]).Some? { SuffixMass(g.quote(lines[0]).value, lines[0]); }
    }
  }

  ghost function ShapeMass(s: Shape): multiset<char> {
    match s
    case Ready(b) => BlockMass(b)
    case Nested(inner) => LinesMass(inner)
  }

  /** The first block carries no more ink than the lines it takes. */
  lemma FirstMass(g: Grammar, lines: seq<string>)
    requires Lawful(g) && lines != [] && !IsBlank(lines[0])
    ensures var (shape, n) := First(g, lines); ShapeMass(shape) <= LinesMass(lines[..n])
  {
    hide IsBlank, Mass, LinesMass, RunEnd, ListAt, RowsMass, ItemsMass, BlocksMass, RowCells, Join, UnquoteAll, TableRows,
         IsTableStart, IsFactor, IsSuffix;
    var l := lines[0];
    var (shape, n) := First(g, lines);
    if g.fence(l).Some? {
      var e := RunEnd(g, FenceRun(g.fence(l).value), lines, 1);
      LinesMassSlices(lines[..n], 1, e);
      assert lines[..n][1..e] == lines[1..e];
      JoinMass(lines[1..e]);
    } else if g.heading(l).Some? {
      OneLineMass(l);
      assert lines[..1] == [l];
      FactorMass(g.heading(l).value.text, l);
    } else if g.rule(l) {
    } else if g.quote(l).Some? {
      UnquoteMass(g, lines[..n]);
    } else if g.item(l).Some? {
      ListAtMass(g, lines);
    } else if IsTableStart(g, lines, 0) {
      assert 1 < |lines| by { TableStartHasTwoLines(g, lines); }
      var e := RunEnd(g, TableRun, lines, 2);
      LinesMassSlices(lines[..n], 1, 2);
      assert lines[..n][2..] == lines[2..e];
      assert lines[..n][..1] == [l];
      OneLineMass(l);
      RowMass(l);
      TableMass(|RowCells(l)|, lines[2..e]);
    } else {
      JoinMass(lines[..n]);
    }
  }

  lemma TableStartHasTwoLines(g: Grammar, lines: seq<string>)
    requires lines != [] && IsTableStart(g, lines, 0)
    ensures |lines| > 1
  {
  }

  /** Nothing is invented and nothing is shown twice, however quotes and lists are nested. */
  lemma {:induction false} BlocksInventNothing(g: Grammar, lines: seq<string>)
    requires Lawful(g)
    ensures BlocksMass(BlocksOf(g, lines)) <= LinesMass(lines)
    decreases TotalChars(lines), |lines|
  {
    hide IsBlank, Mass, LinesMass, First, TotalChars;
    if lines == [] {
    } else if IsBlank(lines[0]) {
      TotalCharsTail(lines);
      BlocksInventNothing(g, lines[1..]);
      LinesMassCons(lines);
    } else {
      FirstShrinks(g, lines);
      FirstMass(g, lines);
      var (shape, n) := First(g, lines);
      if shape.Nested? { BlocksInventNothing(g, shape.inner); }
      BlocksInventNothing(g, lines[n..]);
      LinesMassConcat(lines[..n], lines[n..]);
      assert lines == lines[..n] + lines[n..];
    }
  }
}
