/**
 * The block half of the message renderer: `parseBlocks` and `parseList` of web/lib/markdown.tsx.
 *
 * A line regex is a field of `Grammar`: the parser asks it whether one line matches and what it captured.
 * `Lawful` states the few facts about the regexes that the results need, so they hold for every grammar with them.
 */
module Blocks {
  import opened Options
  import opened Text

  // ---- data model ----

  datatype ListItem = ListItem(text: string, children: Option<Children>)
  datatype Children = Children(ordered: bool, items: seq<ListItem>)

  datatype Block =
    | P(text: string)
    | H(level: nat, text: string)
    | Code(text: string, open: bool)
    | List(ordered: bool, items: seq<ListItem>)
    | Quote(blocks: seq<Block>)
    | Table(head: seq<string>, rows: seq<seq<string>>)
    | Hr

  datatype Fence = Fence(tick: char, len: nat)
  datatype HeadingLine = HeadingLine(level: nat, text: string)
  datatype ItemLine = ItemLine(indent: nat, ordered: bool, text: string)

  /** FENCE_RE, the closing fence, HEADING_RE, HR_RE, QUOTE_RE, ITEM_RE and TABLE_SEP_RE, each on one line. */
  datatype Grammar = Grammar(
    fence: string -> Option<Fence>,
    closing: string -> Option<Fence>,
    heading: string -> Option<HeadingLine>,
    rule: string -> bool,
    quote: string -> Option<string>,
    item: string -> Option<ItemLine>,
    separator: string -> bool)

  ghost predicate IsSuffix(t: string, l: string) {
    |t| <= |l| && t == l[|l| - |t|..]
  }

  ghost predicate IsFactor(t: string, l: string) {
    exists before, after :: l == before + t + after
  }

  /** The `>` of a quote is dropped, `(.*)$` captures the end of the line, and a heading has one to six `#`. */
  ghost predicate Lawful(g: Grammar) {
    && (forall l :: g.quote(l).Some? ==> |g.quote(l).value| < |l| && IsSuffix(g.quote(l).value, l))
    && (forall l :: g.item(l).Some? ==> IsSuffix(g.item(l).value.text, l))
    && (forall l :: g.heading(l).Some? ==> 1 <= g.heading(l).value.level <= 6 && IsFactor(g.heading(l).value.text, l))
  }

  // ---- table rows ----

  /** The cells of `s` from `i` on, where `cur` is what the running cell holds so far. */
  function Cells(s: string, i: nat, cur: string): (cells: seq<string>)
    requires i <= |s|
    ensures cells != []
    decreases |s| - i
  {
    if i == |s| then [Trim(cur)]
    else if s[i] == '\\' && i + 1 < |s| && s[i + 1] == '|' then Cells(s, i + 2, cur + "|")
    else if s[i] == '|' then [Trim(cur)] + Cells(s, i + 1, "")
    else Cells(s, i + 1, cur + [s[i]])
  }

  /** A row without its outer pipes. An escaped last pipe belongs to the last cell. */
  function RowBody(line: string): string {
    var s := Trim(line);
    var s1 := if s != "" && s[0] == '|' then s[1..] else s;
    if s1 != "" && s1[|s1| - 1] == '|' && !(|s1| > 1 && s1[|s1| - 2] == '\\') then s1[..|s1| - 1] else s1
  }

  function RowCells(line: string): (cells: seq<string>)
    ensures cells != []
  {
    Cells(RowBody(line), 0, "")
  }

  method SplitRow(line: string) returns (cells: seq<string>)
    ensures cells == RowCells(line)
  {
    hide Trim;
    var s := Trim(line);
    if s != "" && s[0] == '|' { s := s[1..]; }
    if s != "" && s[|s| - 1] == '|' && !(|s| > 1 && s[|s| - 2] == '\\') { s := s[..|s| - 1]; }
    cells := [];
    var cur := "";
    var i := 0;
    assert s == RowBody(line);
    hide RowBody;
    while i < |s|
      invariant 0 <= i <= |s|
      invariant cells + Cells(s, i, cur) == Cells(s, 0, "")
    {
      var c := s[i];
      if c == '\\' && i + 1 < |s| && s[i + 1] == '|' {
        cur := cur + "|";
        i := i + 2;
      } else if c == '|' {
        assert cells + ([Trim(cur)] + Cells(s, i + 1, "")) == (cells + [Trim(cur)]) + Cells(s, i + 1, "");
        cells := cells + [Trim(cur)];
        cur := "";
        i := i + 1;
      } else {
        cur := cur + [c];
        i := i + 1;
      }
    }
    cells := cells + [Trim(cur)];
  }

  /** A data row gets exactly as many cells as the head: missing ones are empty, extra ones are dropped. */
  function FitRow(cells: seq<string>, width: nat): (row: seq<string>)
    ensures |row| == width
  {
    if |cells| >= width then cells[..width] else cells + seq(width - |cells|, _ => "")
  }

  // ---- where a block ends ----

  predicate IsTableStart(g: Grammar, lines: seq<string>, i: nat)
    requires i < |lines|
  {
    '|' in lines[i] && i + 1 < |lines| && g.separator(lines[i + 1]) && '-' in lines[i + 1]
  }

  datatype Run = FenceRun(f: Fence) | QuoteRun | TableRun | ParaRun

  /** Does line `j` end a block that runs on line by line? */
  predicate Stops(g: Grammar, run: Run, lines: seq<string>, j: nat)
    requires j < |lines|
  {
    var l := lines[j];
    match run
    case FenceRun(f) =>
      g.closing(l).Some? && g.closing(l).value.tick == f.tick && g.closing(l).value.len >= f.len
    case QuoteRun =>
      && g.quote(l).None?
      && (IsBlank(l) || g.item(l).Some? || g.fence(l).Some? || g.heading(l).Some?)
    case TableRun =>
      IsBlank(l) || '|' !in l
    case ParaRun =>
      IsBlank(l) || g.fence(l).Some? || g.heading(l).Some? || g.rule(l) || g.quote(l).Some? || g.item(l).Some?
      || IsTableStart(g, lines, j)
  }

  /** The first line from `j` on at which the run stops, or the end. */
  function RunEnd(g: Grammar, run: Run, lines: seq<string>, j: nat): (e: nat)
    requires j <= |lines|
    ensures j <= e <= |lines|
    decreases |lines| - j
  {
    if j == |lines| || Stops(g, run, lines, j) then j else RunEnd(g, run, lines, j + 1)
  }

  function Unquote(g: Grammar, l: string): string {
    g.quote(l).GetOr(l)
  }

  function UnquoteAll(g: Grammar, lines: seq<string>): (inner: seq<string>)
    ensures |inner| == |lines| && forall k :: 0 <= k < |lines| ==> inner[k] == Unquote(g, lines[k])
  {
    seq(|lines|, k requires 0 <= k < |lines| => Unquote(g, lines[k]))
  }

  function TableRows(width: nat, lines: seq<string>): (rows: seq<seq<string>>)
    ensures |rows| == |lines| && forall k :: 0 <= k < |lines| ==> rows[k] == FitRow(RowCells(lines[k]), width)
  {
    seq(|lines|, k requires 0 <= k < |lines| => FitRow(RowCells(lines[k]), width))
  }

  // ---- lists ----

  function AppendText(it: ListItem, l: string): ListItem {
    it.(text := it.text + "\n" + Trim(l))
  }

  function AddChild(it: ListItem, m: ItemLine): ListItem {
    var c := it.children.GetOr(Children(m.ordered, []));
    it.(children := Some(c.(items := c.items + [ListItem(m.text, None)])))
  }

  /** An indented plain line continues the last child, or the item itself when it has none. */
  function AppendToLast(it: ListItem, l: string): ListItem {
    if it.children.Some? && it.children.value.items != [] then
      var c := it.children.value;
      var n := |c.items| - 1;
      it.(children := Some(c.(items := c.items[n := AppendText(c.items[n], l)])))
    else AppendText(it, l)
  }

  predicate ContinuesAfterBlank(g: Grammar, lines: seq<string>, i: nat, base: nat, ordered: bool) {
    && i + 1 < |lines|
    && g.item(lines[i + 1]).Some?
    && var nx := g.item(lines[i + 1]).value;
       nx.indent >= base && (nx.indent > base || nx.ordered == ordered)
  }

  /** One line of a list: the items after it, or None when the list ends in front of it. */
  function ListStep(g: Grammar, lines: seq<string>, i: nat, base: nat, ordered: bool, items: seq<ListItem>)
    : Option<seq<ListItem>>
    requires i < |lines|
  {
    var l := lines[i];
    var m := g.item(l);
    var n := |items| - 1;
    if IsBlank(l) then
      if ContinuesAfterBlank(g, lines, i, base, ordered) then Some(items) else None
    else if m.Some? && m.value.indent <= base then
      if m.value.indent < base || m.value.ordered != ordered then None
      else Some(items + [ListItem(m.value.text, None)])
    else if items == [] then None
    else if m.Some? then Some(items[n := AddChild(items[n], m.value)])
    else if IsSpace(l[0]) then Some(items[n := AppendToLast(items[n], l)])
    else if g.fence(l).Some? || g.heading(l).Some? || g.rule(l) || g.quote(l).Some? || IsTableStart(g, lines, i) then None
    else Some(items[n := AppendText(items[n], l)])
  }

  function ListFrom(g: Grammar, lines: seq<string>, i: nat, base: nat, ordered: bool, items: seq<ListItem>)
    : (r: (seq<ListItem>, nat))
    requires i <= |lines|
    ensures i <= r.1 <= |lines|
    decreases |lines| - i
  {
    if i == |lines| then (items, i)
    else match ListStep(g, lines, i, base, ordered, items)
      case None => (items, i)
      case Some(items') => ListFrom(g, lines, i + 1, base, ordered, items')
  }

  function ListAt(g: Grammar, lines: seq<string>): (r: (Block, nat))
    requires lines != [] && !IsBlank(lines[0]) && g.item(lines[0]).Some?
    ensures 1 <= r.1 <= |lines|
  {
    var first := g.item(lines[0]).value;
    var (items, n) := ListFrom(g, lines, 0, first.indent, first.ordered, []);
    assert ListStep(g, lines, 0, first.indent, first.ordered, []).Some?;
    (List(first.ordered, items), n)
  }

  /** The body of the loop in `parseList`: `go` is false where the source breaks out of it. */
  method TakeListLine(g: Grammar, lines: seq<string>, i: nat, base: nat, ordered: bool, items: seq<ListItem>)
    returns (go: bool, items': seq<ListItem>)
    requires i < |lines|
    ensures ListStep(g, lines, i, base, ordered, items) == if go then Some(items') else None
  {
    var line := lines[i];
    items' := items;
    if IsBlank(line) {
      go := false;
      if i + 1 < |lines| {
        var nx := g.item(lines[i + 1]);
        go := nx.Some? && nx.value.indent >= base && (nx.value.indent > base || nx.value.ordered == ordered);
      }
      return;
    }
    var m := g.item(line);
    if m.Some? && m.value.indent <= base {
      if m.value.indent < base || m.value.ordered != ordered { return false, items; }
      return true, items + [ListItem(m.value.text, None)];
    }
    if |items| == 0 { return false, items; }
    var cur := items[|items| - 1];
    if m.Some? {
      if cur.children.None? { cur := cur.(children := Some(Children(m.value.ordered, []))); }
      var c := cur.children.value;
      cur := cur.(children := Some(c.(items := c.items + [ListItem(m.value.text, None)])));
    } else if IsSpace(line[0]) {
      if cur.children.Some? && |cur.children.value.items| > 0 {
        var c := cur.children.value;
        var target := c.items[|c.items| - 1];
        target := target.(text := target.text + "\n" + Trim(line));
        cur := cur.(children := Some(c.(items := c.items[|c.items| - 1 := target])));
      } else {
        cur := cur.(text := cur.text + "\n" + Trim(line));
      }
    } else if g.fence(line).Some? || g.heading(line).Some? || g.rule(line) || g.quote(line).Some? || IsTableStart(g, lines, i) {
      return false, items;
    } else {
      cur := cur.(text := cur.text + "\n" + Trim(line));
    }
    return true, items[|items| - 1 := cur];
  }

  /** The list that starts at line `start`, read off the whole text, is the one read off its suffix. */
  lemma {:induction false} ListFromInSuffix(g: Grammar, lines: seq<string>, start: nat, k: nat, base: nat, ordered: bool, items: seq<ListItem>)
    requires start + k <= |lines|
    ensures var here := ListFrom(g, lines, start + k, base, ordered, items);
            var there := ListFrom(g, lines[start..], k, base, ordered, items);
            here.0 == there.0 && here.1 == start + there.1
    decreases |lines| - k
  {
    var suf := lines[start..];
    if start + k < |lines| {
      assert suf[k] == lines[start + k];
      assert k + 1 < |suf| ==> suf[k + 1] == lines[start + k + 1];
      var step := ListStep(g, lines, start + k, base, ordered, items);
      assert step == ListStep(g, suf, k, base, ordered, items);
      hide ListStep;
      if step.Some? { ListFromInSuffix(g, lines, start, k + 1, base, ordered, step.value); }
    }
  }

  method ParseList(g: Grammar, lines: seq<string>, start: nat) returns (block: Block, next: nat)
    requires start < |lines| && !IsBlank(lines[start]) && g.item(lines[start]).Some?
    ensures next >= start && (block, next - start) == ListAt(g, lines[start..])
  {
    var first := g.item(lines[start]).value;
    var base, ordered := first.indent, first.ordered;
    var items: seq<ListItem> := [];
    var i := start;
    hide ListStep;
    ghost var whole := ListFrom(g, lines, start, base, ordered, []);
    while i < |lines|
      invariant start <= i <= |lines|
      invariant whole == ListFrom(g, lines, i, base, ordered, items)
      decreases |lines| - i
    {
      var go, items' := TakeListLine(g, lines, i, base, ordered, items);
      if !go { break; }
      items, i := items', i + 1;
    }
    ListFromInSuffix(g, lines, start, 0, base, ordered, []);
    block, next := List(ordered, items), i;
  }

  // ---- blocks ----

  /** The first block of non-blank text: ready, or the lines of a quote that are parsed again. */
  datatype Shape = Ready(block: Block) | Nested(inner: seq<string>)

  function First(g: Grammar, lines: seq<string>): (r: (Shape, nat))
    requires lines != [] && !IsBlank(lines[0])
    ensures 1 <= r.1 <= |lines|
    ensures r.0.Nested? ==> r.0.inner == UnquoteAll(g, lines[..r.1]) && g.quote(lines[0]).Some?
  {
    var l := lines[0];
    if g.fence(l).Some? then
      var e := RunEnd(g, FenceRun(g.fence(l).value), lines, 1);
      (Ready(Code(Join(lines[1..e]), e == |lines|)), if e == |lines| then e else e + 1)
    else if g.heading(l).Some? then
      var h := g.heading(l).value;
      (Ready(H(if h.level < 3 then h.level else 3, h.text)), 1)
    else if g.rule(l) then (Ready(Hr), 1)
    else if g.quote(l).Some? then
      var e := RunEnd(g, QuoteRun, lines, 1);
      (Nested(UnquoteAll(g, lines[..e])), e)
    else if g.item(l).Some? then
      var (list, n) := ListAt(g, lines);
      (Ready(list), n)
    else if IsTableStart(g, lines, 0) then
      var head := RowCells(l);
      var e := RunEnd(g, TableRun, lines, 2);
      (Ready(Table(head, TableRows(|head|, lines[2..e]))), e)
    else
      var e := RunEnd(g, ParaRun, lines, 1);
      (Ready(P(Join(lines[..e]))), e)
  }

  lemma {:induction false} UnquoteShrinks(g: Grammar, lines: seq<string>)
    requires Lawful(g)
    ensures TotalChars(UnquoteAll(g, lines)) <= TotalChars(lines)
    ensures lines != [] && g.quote(lines[0]).Some? ==> TotalChars(UnquoteAll(g, lines)) < TotalChars(lines)
  {
    if lines != [] {
      UnquoteShrinks(g, lines[1..]);
      assert UnquoteAll(g, lines)[1..] == UnquoteAll(g, lines[1..]);
    }
  }

  /** Why the parser ends: a quote drops a character from its first line, every other step drops lines. */
  lemma FirstShrinks(g: Grammar, lines: seq<string>)
    requires Lawful(g) && lines != [] && !IsBlank(lines[0])
    ensures var (shape, n) := First(g, lines);
            && TotalChars(lines[n..]) <= TotalChars(lines)
            && (shape.Nested? ==> TotalChars(shape.inner) < TotalChars(lines))
  {
    var (shape, n) := First(g, lines);
    assert lines == lines[..n] + lines[n..];
    TotalCharsConcat(lines[..n], lines[n..]);
    UnquoteShrinks(g, lines[..n]);
  }

  /** The first block of non-blank text and the number of lines it takes. */
  function Head(g: Grammar, lines: seq<string>): (r: (Block, nat))
    requires Lawful(g) && lines != [] && !IsBlank(lines[0])
    ensures 1 <= r.1 <= |lines|
    decreases TotalChars(lines), |lines|, 0
  {
    FirstShrinks(g, lines);
    var (shape, n) := First(g, lines);
    match shape
    case Ready(block) => (block, n)
    case Nested(inner) => (Quote(BlocksOf(g, inner)), n)
  }

  /** The blocks of a list of lines. Nothing in front of a block influences how it is read. */
  function BlocksOf(g: Grammar, lines: seq<string>): seq<Block>
    requires Lawful(g)
    decreases TotalChars(lines), |lines|, 1
  {
    if lines == [] then []
    else if IsBlank(lines[0]) then BlocksOf(g, lines[1..])
    else
      FirstShrinks(g, lines);
      var (b, n) := Head(g, lines);
      [b] + BlocksOf(g, lines[n..])
  }
  // ---- the loops of parseBlocks, one method for each ----

  lemma {:induction false} RunEndInSuffix(g: Grammar, run: Run, lines: seq<string>, start: nat, j: nat)
    requires start + j <= |lines|
    ensures start + RunEnd(g, run, lines[start..], j) == RunEnd(g, run, lines, start + j)
    decreases |lines| - j
  {
    var suf := lines[start..];
    if start + j < |lines| {
      assert suf[j] == lines[start + j];
      assert j + 1 < |suf| ==> suf[j + 1] == lines[start + j + 1];
      assert Stops(g, run, suf, j) == Stops(g, run, lines, start + j);
      if !Stops(g, run, suf, j) { RunEndInSuffix(g, run, lines, start, j + 1); }
    }
  }

  /** Lines 90-100: the body of a code block up to its closing fence, and where to go on. */
  method ReadFence(g: Grammar, f: Fence, lines: seq<string>, i: nat) returns (text: string, closed: bool, next: nat)
    requires i < |lines|
    ensures var e := RunEnd(g, FenceRun(f), lines, i + 1);
            closed == (e < |lines|) && text == Join(lines[i + 1..e]) && next == if closed then e + 1 else e
  {
    var body: seq<string> := [];
    var j := i + 1;
    closed := false;
    while j < |lines|
      invariant i + 1 <= j <= |lines|
      invariant !closed
      invariant RunEnd(g, FenceRun(f), lines, i + 1) == RunEnd(g, FenceRun(f), lines, j)
      invariant body == lines[i + 1..j]
    {
      var m := g.closing(lines[j]);
      if m.Some? && m.value.tick == f.tick && m.value.len >= f.len {
        closed := true;
        break;
      }
      body := body + [lines[j]];
      j := j + 1;
    }
    text := Join(body);
    next := if closed then j + 1 else j;
  }

  /** Lines 114-121: the lines of a quote, its marks removed. Plain lines continue it. */
  method ReadQuote(g: Grammar, lines: seq<string>, start: nat) returns (inner: seq<string>, next: nat)
    requires start < |lines| && g.quote(lines[start]).Some?
    ensures next == RunEnd(g, QuoteRun, lines, start + 1)
    ensures inner == UnquoteAll(g, lines[start..next])
  {
    inner := [];
    var i := start;
    while i < |lines|
      invariant start <= i <= |lines|
      invariant i == start ==> inner == []
      invariant i > start ==> RunEnd(g, QuoteRun, lines, i) == RunEnd(g, QuoteRun, lines, start + 1)
      invariant |inner| == i - start && forall k :: 0 <= k < |inner| ==> inner[k] == Unquote(g, lines[start + k])
    {
      var l := lines[i];
      var q := g.quote(l);
      if q.Some? {
        inner := inner + [q.value];
      } else if !IsBlank(l) && |inner| > 0 && g.item(l).None? && g.fence(l).None? && g.heading(l).None? {
        inner := inner + [l];
      } else {
        break;
      }
      i := i + 1;
    }
    next := i;
  }

  /** Lines 140-141: missing cells are added one by one, extra ones are cut off. */
  method PadRow(cells: seq<string>, width: nat) returns (row: seq<string>)
    ensures row == FitRow(cells, width)
  {
    var padded := cells;
    while |padded| < width
      invariant |cells| >= width ==> padded == cells
      invariant |cells| < width ==> |cells| <= |padded| <= width
      invariant |cells| < width ==> padded == cells + seq(|padded| - |cells|, _ => "")
    {
      padded := padded + [""];
    }
    row := padded[..width];
  }

  /** Lines 136-142: the data rows of a table. */
  method ReadRows(g: Grammar, width: nat, lines: seq<string>, start: nat) returns (rows: seq<seq<string>>, next: nat)
    requires start <= |lines|
    ensures next == RunEnd(g, TableRun, lines, start)
    ensures rows == TableRows(width, lines[start..next])
  {
    hide RowCells, FitRow, IsBlank;
    rows := [];
    var j := start;
    while j < |lines| && !IsBlank(lines[j]) && '|' in lines[j]
      invariant start <= j <= |lines|
      invariant RunEnd(g, TableRun, lines, j) == RunEnd(g, TableRun, lines, start)
      invariant |rows| == j - start
      invariant forall k :: 0 <= k < |rows| ==> rows[k] == FitRow(RowCells(lines[start + k]), width)
    {
      var cells := SplitRow(lines[j]);
      var row := PadRow(cells, width);
      rows := rows + [row];
      j := j + 1;
    }
    next := j;
  }

  /** Lines 149-157: a paragraph goes on until a blank line or the start of another block. */
  method ReadPara(g: Grammar, lines: seq<string>, i: nat) returns (text: string, next: nat)
    requires i < |lines|
    ensures next == RunEnd(g, ParaRun, lines, i + 1)
    ensures text == Join(lines[i..next])
  {
    var para := [lines[i]];
    var j := i + 1;
    while j < |lines|
      invariant i + 1 <= j <= |lines|
      invariant RunEnd(g, ParaRun, lines, j) == RunEnd(g, ParaRun, lines, i + 1)
      invariant para == lines[i..j]
    {
      var l := lines[j];
      if IsBlank(l) || g.fence(l).Some? || g.heading(l).Some? || g.rule(l) || g.quote(l).Some? || g.item(l).Some?
         || IsTableStart(g, lines, j)
      {
        break;
      }
      para := para + [l];
      j := j + 1;
    }
    text, next := Join(para), j;
  }

  lemma UnquoteKeepsNoBreaks(g: Grammar, lines: seq<string>)
    requires Lawful(g) && AllNoBreaks(lines)
    ensures AllNoBreaks(UnquoteAll(g, lines))
  {
    forall l | l in UnquoteAll(g, lines) ensures NoBreaks(l) {
      var k :| 0 <= k < |lines| && l == Unquote(g, lines[k]);
      assert NoBreaks(lines[k]);
    }
  }

  /** Lines 113-124: a quote is read and its inside is parsed again. */
  method TakeQuote(g: Grammar, lines: seq<string>, i: nat) returns (b: Block, next: nat)
    requires Lawful(g) && AllNoBreaks(lines)
    requires i < |lines| && !IsBlank(lines[i]) && g.quote(lines[i]).Some?
    ensures i < next <= |lines|
    ensures next - i == RunEnd(g, QuoteRun, lines[i..], 1)
    ensures b == Quote(BlocksOf(g, UnquoteAll(g, lines[i..next])))
    decreases TotalChars(lines), 0
  {
    hide RunEnd, TotalChars, IsBlank, Join;
    ghost var suf := lines[i..];
    assert suf[0] == lines[i];
    RunEndInSuffix(g, QuoteRun, lines, i, 1);
    var inner, e := ReadQuote(g, lines, i);
    assert lines[i..e] == suf[..e - i];
    UnquoteShrinks(g, lines[i..e]);
    assert lines == lines[..i] + lines[i..e] + lines[e..];
    TotalCharsConcat(lines[..i] + lines[i..e], lines[e..]);
    TotalCharsConcat(lines[..i], lines[i..e]);
    UnquoteKeepsNoBreaks(g, lines[i..e]);
    LinesOfJoin(inner);
    var blocks := ParseBlocks(g, Join(inner));
    b, next := Quote(blocks), e;
  }

  /** One round of the loop in `parseBlocks` on a line that is not blank. */
  method TakeBlock(g: Grammar, lines: seq<string>, i: nat) returns (b: Block, next: nat)
    requires Lawful(g) && AllNoBreaks(lines)
    requires i < |lines| && !IsBlank(lines[i])
    ensures i < next <= |lines|
    ensures (b, next - i) == Head(g, lines[i..])
    decreases TotalChars(lines), 1
  {
    hide RunEnd, ListAt, RowCells, TotalChars, IsBlank, Join, UnquoteAll, TableRows, BlocksOf;
    var line := lines[i];
    ghost var suf := lines[i..];
    assert suf[0] == line;
    assert 1 < |suf| ==> suf[1] == lines[i + 1];
    if g.fence(line).Some? {
      var f := g.fence(line).value;
      RunEndInSuffix(g, FenceRun(f), lines, i, 1);
      var text, closed, e := ReadFence(g, f, lines, i);
      ghost var end := RunEnd(g, FenceRun(f), suf, 1);
      assert suf[1..end] == lines[i + 1..i + end];
      return Code(text, !closed), e;
    }
    var h := g.heading(line);
    if h.Some? {
      return H(if h.value.level < 3 then h.value.level else 3, h.value.text), i + 1;
    }
    if g.rule(line) {
      return Hr, i + 1;
    }
    if g.quote(line).Some? {
      b, next := TakeQuote(g, lines, i);
      assert lines[i..next] == suf[..next - i];
      return;
    }
    var item := g.item(line);
    if item.Some? {
      b, next := ParseList(g, lines, i);
      return;
    }
    if IsTableStart(g, lines, i) {
      var head := SplitRow(line);
      RunEndInSuffix(g, TableRun, lines, i, 2);
      var rows, e := ReadRows(g, |head|, lines, i + 2);
      assert lines[i + 2..e] == suf[2..e - i];
      return Table(head, rows), e;
    }
    RunEndInSuffix(g, ParaRun, lines, i, 1);
    var text, e := ReadPara(g, lines, i);
    assert lines[i..e] == suf[..e - i];
    return P(text), e;
  }

  /** `parseBlocks`, from the text of a message to its blocks. */
  method ParseBlocks(g: Grammar, src: string) returns (out: seq<Block>)
    requires Lawful(g)
    ensures out == BlocksOf(g, Lines(src))
    decreases TotalChars(Lines(src)), 2
  {
    var lines := Lines(src);
    LinesHaveNoBreaks(src);
    out := [];
    var i := 0;
    while i < |lines|
      invariant 0 <= i <= |lines|
      invariant out + BlocksOf(g, lines[i..]) == BlocksOf(g, lines)
      decreases |lines| - i
    {
      assert lines[i..][1..] == lines[i + 1..];
      if IsBlank(lines[i]) {
        i := i + 1;
        continue;
      }
      var b, next := TakeBlock(g, lines, i);
      assert lines[i..][next - i..] == lines[next..];
      out := out + [b];
      i := next;
    }
  }
}
