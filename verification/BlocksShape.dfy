/** What the renderer of blocks may take for granted, and what a row of a table gives back. */
module BlocksShape {
  import opened Options
  import opened Seqs
  import opened Text
  import opened Blocks

  /** Only the last block can be a code block that is still being written. */
  ghost predicate OnlyLastOpen(bs: seq<Block>) {
    forall k :: 0 <= k < |bs| - 1 ==> !(bs[k].Code? && bs[k].open)
  }

  /** Lists nest one level deep: a child has no children. */
  ghost predicate ItemShaped(it: ListItem) {
    it.children.Some? ==>
      && it.children.value.items != []
      && forall k :: 0 <= k < |it.children.value.items| ==> it.children.value.items[k].children.None?
  }

  ghost predicate ItemsShaped(items: seq<ListItem>) {
    forall k :: 0 <= k < |items| ==> ItemShaped(items[k])
  }

  ghost predicate Shaped(b: Block) {
    match b
    case H(level, _) => 1 <= level <= 3
    case List(_, items) => items != [] && ItemsShaped(items)
    case Quote(blocks) => OnlyLastOpen(blocks) && AllShaped(blocks)
    case Table(head, rows) => head != [] && forall k :: 0 <= k < |rows| ==> |rows[k]| == |head|
    case _ => true
  }

  ghost predicate AllShaped(bs: seq<Block>) {
    forall k :: 0 <= k < |bs| ==> Shaped(bs[k])
  }

  lemma ListStepShape(g: Grammar, lines: seq<string>, i: nat, base: nat, ordered: bool, items: seq<ListItem>)
    requires i < |lines| && ItemsShaped(items)
    requires ListStep(g, lines, i, base, ordered, items).Some?
    ensures var r := ListStep(g, lines, i, base, ordered, items).value; ItemsShaped(r) && |r| >= |items|
  {
    hide Trim, IsBlank;
    if items != [] {
      var last := items[|items| - 1];
      assert ItemShaped(last);
      assert ItemShaped(AppendText(last, lines[i]));
      assert ItemShaped(AppendToLast(last, lines[i]));
      forall m: ItemLine ensures ItemShaped(AddChild(last, m)) {}
    }
  }

  lemma {:induction false} ListFromShape(g: Grammar, lines: seq<string>, i: nat, base: nat, ordered: bool, items: seq<ListItem>)
    requires i <= |lines| && ItemsShaped(items)
    ensures var r := ListFrom(g, lines, i, base, ordered, items).0; ItemsShaped(r) && |r| >= |items|
    decreases |lines| - i
  {
    hide ListStep, ItemsShaped;
    if i < |lines| {
      var step := ListStep(g, lines, i, base, ordered, items);
      if step.Some? {
        ListStepShape(g, lines, i, base, ordered, items);
        ListFromShape(g, lines, i + 1, base, ordered, step.value);
      }
    }
  }

  lemma ListAtShape(g: Grammar, lines: seq<string>)
    requires lines != [] && !IsBlank(lines[0]) && g.item(lines[0]).Some?
    ensures Shaped(ListAt(g, lines).0)
  {
    var m := g.item(lines[0]).value;
    var items := [ListItem(m.text, None)];
    assert ListStep(g, lines, 0, m.indent, m.ordered, []) == Some([] + items);
    assert [] + items == items;
    hide ListStep, IsBlank;
    ListFromShape(g, lines, 1, m.indent, m.ordered, items);
  }

  lemma FirstShape(g: Grammar, lines: seq<string>)
    requires Lawful(g) && lines != [] && !IsBlank(lines[0])
    ensures var (shape, n) := First(g, lines);
            shape.Ready? ==> Shaped(shape.block)
  {
    hide IsBlank, RunEnd, ListAt, RowCells, Join, IsTableStart, IsFactor, IsSuffix;
    if g.item(lines[0]).Some? { ListAtShape(g, lines); }
    assert forall w: nat, t: seq<string> :: forall k :: 0 <= k < |TableRows(w, t)| ==> |TableRows(w, t)[k]| == w;
  }

  /** A fence that is never closed takes everything that is left. */
  lemma OpenCodeTakesAll(g: Grammar, lines: seq<string>)
    requires lines != [] && !IsBlank(lines[0])
    ensures var (shape, n) := First(g, lines);
            shape.Ready? && shape.block.Code? && shape.block.open ==> n == |lines|
  {
    hide IsBlank, RunEnd, ListFrom, Cells, Join, IsTableStart, ListStep;
  }

  /** Headings are of level one to three, rows are as wide as their head, lists are not empty and nest once. */
  lemma {:induction false} BlocksAreShaped(g: Grammar, lines: seq<string>)
    requires Lawful(g)
    ensures AllShaped(BlocksOf(g, lines)) && OnlyLastOpen(BlocksOf(g, lines))
    decreases TotalChars(lines), |lines|
  {
    hide IsBlank, First, TotalChars;
    if lines == [] {
    } else if IsBlank(lines[0]) {
      TotalCharsTail(lines);
      BlocksAreShaped(g, lines[1..]);
    } else {
      FirstShrinks(g, lines);
      FirstShape(g, lines);
      OpenCodeTakesAll(g, lines);
      var (shape, n) := First(g, lines);
      if shape.Nested? { BlocksAreShaped(g, shape.inner); }
      BlocksAreShaped(g, lines[n..]);
    }
  }

  // ---- a row that was written from cells is read back as those cells ----

  function Escape(cell: string): string {
    if cell == "" then ""
    else (if cell[0] == '|' then "\\|" else [cell[0]]) + Escape(cell[1..])
  }

  function WriteCells(cells: seq<string>): string {
    if cells == [] then "" else Escape(cells[0]) + "|" + WriteCells(cells[1..])
  }

  function WriteRow(cells: seq<string>): string {
    "|" + WriteCells(cells)
  }

  /** A cell that a row can carry: no backslash, and no white space at its ends. */
  ghost predicate Plain(cell: string) {
    '\\' !in cell && Trim(cell) == cell
  }

  lemma {:induction false} CellsReadOne(cell: string, before: string, cur: string, after: string)
    requires '\\' !in cell
    ensures Cells(before + Escape(cell) + after, |before|, cur)
         == Cells(before + Escape(cell) + after, |before + Escape(cell)|, cur + cell)
    decreases |cell|
  {
    hide Trim;
    var s := before + Escape(cell) + after;
    if cell == "" {
      assert cur + cell == cur;
    } else {
      var e := if cell[0] == '|' then "\\|" else [cell[0]];
      assert s == (before + e) + Escape(cell[1..]) + after;
      CellsReadOne(cell[1..], before + e, cur + [cell[0]], after);
      assert (cur + [cell[0]]) + cell[1..] == cur + cell;
      assert s[|before|] == e[0];
      if cell[0] == '|' { assert s[|before| + 1] == e[1] == '|'; }
      assert before + Escape(cell) == (before + e) + Escape(cell[1..]);
      assert Cells(s, |before|, cur) == Cells(s, |before + e|, cur + [cell[0]]);
    }
  }

  lemma CellsAtPipe(s: string, i: nat, cur: string)
    requires i < |s| && s[i] == '|'
    ensures Cells(s, i, cur) == [Trim(cur)] + Cells(s, i + 1, "")
  {
  }

  lemma CellsAtEnd(s: string, cur: string)
    ensures Cells(s, |s|, cur) == [Trim(cur)]
  {
  }

  lemma {:induction false} CellsReadAll(cells: seq<string>, before: string)
    requires cells != [] && forall c :: c in cells ==> Plain(c)
    ensures var w := WriteCells(cells); w != "" && Cells(before + w[..|w| - 1], |before|, "") == cells
    decreases |cells|
  {
    hide Trim, Cells;
    var c, rest := cells[0], WriteCells(cells[1..]);
    var w := WriteCells(cells);
    assert Plain(c);
    if |cells| == 1 {
      assert w == Escape(c) + "|" + "";
      assert before + w[..|w| - 1] == before + Escape(c) + "";
      CellsReadOne(c, before, "", "");
      assert "" + c == c;
      CellsAtEnd(before + Escape(c) + "", c);
      assert cells == [c];
    } else {
      CellsReadAll(cells[1..], before + Escape(c) + "|");
      var after := "|" + rest[..|rest| - 1];
      var body := before + Escape(c) + after;
      assert before + w[..|w| - 1] == body == (before + Escape(c) + "|") + rest[..|rest| - 1];
      CellsReadOne(c, before, "", after);
      assert "" + c == c;
      CellsAtPipe(body, |before + Escape(c)|, c);
      assert cells == [c] + cells[1..];
    }
  }

  lemma WriteCellsIsNotEmpty(cells: seq<string>)
    requires cells != []
    ensures WriteCells(cells) != "" && WriteCells(cells)[|WriteCells(cells)| - 1] == '|'
  {
    if |cells| > 1 { WriteCellsIsNotEmpty(cells[1..]); }
  }

  lemma {:induction false} EscapeHasNoTrailingBackslash(cell: string)
    requires '\\' !in cell && cell != ""
    ensures Escape(cell) != "" && Escape(cell)[|Escape(cell)| - 1] != '\\'
  {
    if |cell| > 1 { EscapeHasNoTrailingBackslash(cell[1..]); }
  }

  lemma {:induction false} LastPipeIsNotEscaped(cells: seq<string>)
    requires cells != [] && forall c :: c in cells ==> Plain(c)
    ensures var w := WriteCells(cells); |w| > 1 ==> w[|w| - 2] != '\\'
    ensures WriteCells(cells) != ""
    decreases |cells|
  {
    var w := WriteCells(cells);
    if |cells| == 1 {
      assert w == Escape(cells[0]) + "|" + "";
      assert cells[0] in cells;
      if cells[0] != "" { EscapeHasNoTrailingBackslash(cells[0]); }
    } else {
      LastPipeIsNotEscaped(cells[1..]);
      WriteCellsIsNotEmpty(cells[1..]);
      var rest := WriteCells(cells[1..]);
      assert w == (Escape(cells[0]) + "|") + rest;
      if |rest| == 1 { assert w[|w| - 2] == '|'; } else { assert w[|w| - 2] == rest[|rest| - 2]; }
    }
  }

  lemma NotSpaceAtTheEnds(s: string)
    requires s != "" && !IsSpace(s[0]) && !IsSpace(s[|s| - 1])
    ensures Trim(s) == s
  {
  }

  /** Pipes inside cells are written `\|` and survive; empty cells are kept. */
  lemma RowRoundTrip(cells: seq<string>)
    requires cells != [] && forall c :: c in cells ==> Plain(c)
    ensures RowCells(WriteRow(cells)) == cells
  {
    hide Trim, Cells, IsSpace;
    var w := WriteCells(cells);
    var s := WriteRow(cells);
    WriteCellsIsNotEmpty(cells);
    LastPipeIsNotEscaped(cells);
    assert Trim(s) == s by { assert !IsSpace('|') by { PipeIsNotSpace(); } NotSpaceAtTheEnds(s); }
    assert s[1..] == w;
    assert RowBody(s) == w[..|w| - 1];
    CellsReadAll(cells, "");
    assert "" + w[..|w| - 1] == w[..|w| - 1];
  }

  lemma PipeIsNotSpace()
    ensures !IsSpace('|')
  {
  }

  // ---- the order of the text is not kept ----

  /**
   * An unindented line after a child item continues the parent, so "c" moves in front of "b": the blocks keep the
   * characters of the text but not their order.
   */
  lemma LazyLineMovesAhead(g: Grammar)
    requires Lawful(g)
    requires g.item("- a") == Some(ItemLine(0, false, "a")) && g.item("  - b") == Some(ItemLine(2, false, "b"))
    requires forall l :: l == "- a" || l == "c" ==>
               g.fence(l).None? && g.heading(l).None? && !g.rule(l) && g.quote(l).None?
    requires g.item("c").None?
    ensures BlocksOf(g, ["- a", "  - b", "c"])
         == [List(false, [ListItem("a\nc", Some(Children(false, [ListItem("b", None)])))])]
  {
    var lines := ["- a", "  - b", "c"];
    var a, b := ListItem("a", None), ListItem("b", None);
    var ab := ListItem("a", Some(Children(false, [b])));
    assert !IsBlank("- a") && !IsBlank("  - b") && !IsBlank("c");
    assert Trim("c") == "c";
    var abc := ListItem("a\nc", Some(Children(false, [b])));
    assert [] + [a] == [a] && [] + [b] == [b] && [a][0 := ab] == [ab] && [ab][0 := abc] == [abc];
    assert AddChild(a, ItemLine(2, false, "b")) == ab && AppendText(ab, "c") == abc by { assert "a" + "\n" + "c" == "a\nc"; }
    assert !IsSpace("c"[0]) && !('|' in "c");
    hide IsBlank, Trim, AddChild, AppendText;
    assert ListStep(g, lines, 0, 0, false, []) == Some([a]);
    assert ListStep(g, lines, 1, 0, false, [a]) == Some([ab]);
    assert ListStep(g, lines, 2, 0, false, [ab]) == Some([abc]);
    hide ListStep;
    assert lines[3..] == [];
    assert ListFrom(g, lines, 1, 0, false, [a]) == ([abc], 3);
    assert BlocksOf(g, []) == [];
  }
}
