/**
 * Reading back: a document that is written block by block is read as exactly those blocks (web/lib/markdown.tsx, lines
 * 79 to 211). What the lines mean and what may stand behind them is said here without the parser.
 */
module BlocksDocument {
  import opened Options
  import opened Text
  import opened Blocks
  import opened BlocksShape

  // ---- what can be written ----

  /** A child item and the indented lines that continue it; `loose` items stand behind an empty line. */
  datatype Kid = Kid(loose: bool, line: string, more: seq<string>)

  /** An item, the lines that continue it, its children, and lines behind them that lazily continue the item again. */
  datatype Entry = Entry(loose: bool, line: string, more: seq<string>, kids: seq<Kid>, lazy: seq<string>)

  /** A block as it is written, or a blank line. */
  datatype Piece =
    | BlankPiece(line: string)
    | ParaPiece(lines: seq<string>)
    | HeadingPiece(line: string)
    | RulePiece(line: string)
    | CodePiece(fence: string, body: seq<string>, close: Option<string>)
    | ListPiece(entries: seq<Entry>)
    | QuotePiece(lines: seq<string>, inner: seq<Piece>)
    | TablePiece(head: seq<string>, separator: string, rows: seq<seq<string>>)

  function Gap(loose: bool): seq<string> {
    if loose then [""] else []
  }

  function KidLines(k: Kid): seq<string> {
    Gap(k.loose) + [k.line] + k.more
  }

  function KidsLines(kids: seq<Kid>): seq<string> {
    if kids == [] then [] else KidLines(kids[0]) + KidsLines(kids[1..])
  }

  function EntryLines(e: Entry): seq<string> {
    Gap(e.loose) + [e.line] + e.more + KidsLines(e.kids) + e.lazy
  }

  function EntriesLines(es: seq<Entry>): seq<string> {
    if es == [] then [] else EntryLines(es[0]) + EntriesLines(es[1..])
  }

  function RowLines(rows: seq<seq<string>>): (r: seq<string>)
    ensures |r| == |rows| && forall k :: 0 <= k < |rows| ==> r[k] == WriteRow(rows[k])
  {
    seq(|rows|, k requires 0 <= k < |rows| => WriteRow(rows[k]))
  }

  function LinesOf(p: Piece): seq<string> {
    match p
    case BlankPiece(line) => [line]
    case ParaPiece(lines) => lines
    case HeadingPiece(line) => [line]
    case RulePiece(line) => [line]
    case CodePiece(fence, body, close) => [fence] + body + if close.Some? then [close.value] else []
    case ListPiece(entries) => EntriesLines(entries)
    case QuotePiece(lines, _) => lines
    case TablePiece(head, separator, rows) => [WriteRow(head), separator] + RowLines(rows)
  }

  /** The whole document. */
  function Written(ps: seq<Piece>): seq<string> {
    if ps == [] then [] else LinesOf(ps[0]) + Written(ps[1..])
  }

  // ---- what it means ----

  /** The text of an item and the lines that continue it, each trimmed. */
  function Continued(text: string, more: seq<string>): string
    decreases |more|
  {
    if more == [] then text else Continued(text + "\n" + Trim(more[0]), more[1..])
  }

  function ItemText(g: Grammar, line: string): string {
    if g.item(line).Some? then g.item(line).value.text else ""
  }

  function KidItem(g: Grammar, k: Kid): ListItem {
    ListItem(Continued(ItemText(g, k.line), k.more), None)
  }

  function KidItems(g: Grammar, kids: seq<Kid>): seq<ListItem> {
    if kids == [] then [] else [KidItem(g, kids[0])] + KidItems(g, kids[1..])
  }

  predicate IsOrdered(g: Grammar, line: string) {
    g.item(line).Some? && g.item(line).value.ordered
  }

  function EntryItem(g: Grammar, e: Entry): ListItem {
    ListItem(Continued(Continued(ItemText(g, e.line), e.more), e.lazy),
             if e.kids == [] then None else Some(Children(IsOrdered(g, e.kids[0].line), KidItems(g, e.kids))))
  }

  function EntryItems(g: Grammar, es: seq<Entry>): seq<ListItem> {
    if es == [] then [] else [EntryItem(g, es[0])] + EntryItems(g, es[1..])
  }

  /** A row at the width of the head: missing cells are empty, extra ones are dropped. */
  function AtWidth(row: seq<string>, width: nat): seq<string> {
    seq(width, k requires 0 <= k => if k < |row| then row[k] else "")
  }

  function RowsAtWidth(rows: seq<seq<string>>, width: nat): (r: seq<seq<string>>)
    ensures |r| == |rows| && forall k :: 0 <= k < |rows| ==> r[k] == AtWidth(rows[k], width)
  {
    seq(|rows|, k requires 0 <= k < |rows| => AtWidth(rows[k], width))
  }

  function Meaning(g: Grammar, p: Piece): Block
    requires !p.BlankPiece?
    decreases p
  {
    match p
    case ParaPiece(lines) => P(Join(lines))
    case HeadingPiece(line) =>
      var h := g.heading(line).GetOr(HeadingLine(1, ""));
      if h.level == 1 then H(1, h.text) else if h.level == 2 then H(2, h.text) else H(3, h.text)
    case RulePiece(_) => Hr
    case CodePiece(_, body, close) => Code(Join(body), close.None?)
    case ListPiece(entries) => List(entries != [] && IsOrdered(g, entries[0].line), EntryItems(g, entries))
    case QuotePiece(_, inner) => Quote(Meanings(g, inner))
    case TablePiece(head, _, rows) => Table(head, RowsAtWidth(rows, |head|))
  }

  function Meanings(g: Grammar, ps: seq<Piece>): seq<Block>
    decreases ps
  {
    if ps == [] then []
    else (if ps[0].BlankPiece? then [] else [Meaning(g, ps[0])]) + Meanings(g, ps[1..])
  }

  // ---- which lines may stand where ----

  predicate OpensNothing(g: Grammar, l: string) {
    g.fence(l).None? && g.heading(l).None? && !g.rule(l) && g.quote(l).None?
  }

  predicate Closes(g: Grammar, f: Fence, l: string) {
    g.closing(l).Some? && g.closing(l).value.tick == f.tick && g.closing(l).value.len >= f.len
  }

  /** A line that continues an item: indented, or opening nothing of its own. */
  predicate Continues(g: Grammar, l: string) {
    !IsBlank(l) && l != "" && g.item(l).None? && (IsSpace(l[0]) || (OpensNothing(g, l) && '|' !in l))
  }

  predicate ContinuesKid(g: Grammar, l: string) {
    !IsBlank(l) && l != "" && g.item(l).None? && IsSpace(l[0])
  }

  /** A line that is not indented and opens nothing: behind children it goes to the item, not to the last child. */
  predicate ContinuesLazily(g: Grammar, l: string) {
    Continues(g, l) && !IsSpace(l[0])
  }

  predicate KidFits(g: Grammar, base: nat, k: Kid) {
    && !IsBlank(k.line) && g.item(k.line).Some? && g.item(k.line).value.indent > base
    && forall l :: l in k.more ==> ContinuesKid(g, l)
  }

  predicate EntryFits(g: Grammar, base: nat, ordered: bool, e: Entry) {
    && !IsBlank(e.line) && g.item(e.line).Some?
    && g.item(e.line).value.indent == base && g.item(e.line).value.ordered == ordered
    && (forall l :: l in e.more ==> Continues(g, l))
    && (forall k :: k in e.kids ==> KidFits(g, base, k))
    && forall l :: l in e.lazy ==> ContinuesLazily(g, l)
  }

  /** A line of a quote that is marked, or lazily continues it. */
  predicate QuoteLine(g: Grammar, l: string) {
    g.quote(l).Some? || (!IsBlank(l) && g.item(l).None? && g.fence(l).None? && g.heading(l).None?)
  }

  function Unmarked(g: Grammar, l: string): string {
    if g.quote(l).Some? then g.quote(l).value else l
  }

  ghost predicate RowFits(row: seq<string>) {
    row != [] && forall c :: c in row ==> Plain(c)
  }

  ghost predicate Fits(g: Grammar, p: Piece)
    decreases p
  {
    match p
    case BlankPiece(line) => IsBlank(line)
    case ParaPiece(lines) =>
      && lines != []
      && forall k :: 0 <= k < |lines| ==>
           !IsBlank(lines[k]) && OpensNothing(g, lines[k]) && g.item(lines[k]).None? && !IsTableStart(g, lines, k)
    case HeadingPiece(line) => !IsBlank(line) && g.fence(line).None? && g.heading(line).Some?
    case RulePiece(line) => !IsBlank(line) && g.fence(line).None? && g.heading(line).None? && g.rule(line)
    case CodePiece(fence, body, close) =>
      && !IsBlank(fence) && g.fence(fence).Some?
      && (forall l :: l in body ==> !Closes(g, g.fence(fence).value, l))
      && (close.Some? ==> Closes(g, g.fence(fence).value, close.value))
    case ListPiece(es) =>
      && es != [] && !es[0].loose && OpensNothing(g, es[0].line) && g.item(es[0].line).Some?
      && var m := g.item(es[0].line).value;
         forall e :: e in es ==> EntryFits(g, m.indent, m.ordered, e)
    case QuotePiece(lines, inner) =>
      && lines != [] && !IsBlank(lines[0]) && g.fence(lines[0]).None? && g.heading(lines[0]).None? && !g.rule(lines[0])
      && g.quote(lines[0]).Some? && (forall l :: l in lines ==> QuoteLine(g, l))
      && |lines| == |Written(inner)| && (forall k :: 0 <= k < |lines| ==> Unmarked(g, lines[k]) == Written(inner)[k])
      && AllFit(g, inner)
    case TablePiece(head, separator, rows) =>
      && OpensNothing(g, WriteRow(head)) && g.item(WriteRow(head)).None? && g.separator(separator) && '-' in separator
      && RowFits(head) && forall r :: r in rows ==> RowFits(r)
  }

  /** Does a list with this first item go on, behind one blank line, with the line `l`? */
  predicate GoesOnWith(g: Grammar, item: ItemLine, l: string) {
    && g.item(l).Some?
    && (g.item(l).value.indent > item.indent || (g.item(l).value.indent == item.indent && g.item(l).value.ordered == item.ordered))
  }

  predicate OpensTable(g: Grammar, ls: seq<string>) {
    |ls| > 1 && '|' in ls[0] && g.separator(ls[1]) && '-' in ls[1]
  }

  /** Does this text end the block in front of it although no blank line stands between them? */
  ghost predicate Breaks(g: Grammar, p: Piece, behind: seq<string>)
    requires behind != []
  {
    var l := behind[0];
    match p
    case ParaPiece(lines) =>
      && (!OpensNothing(g, l) || g.item(l).Some? || OpensTable(g, behind))
      && (lines != [] ==> !OpensTable(g, [lines[|lines| - 1], l]))
    case CodePiece(_, _, close) => close.Some?
    case ListPiece(es) =>
      if g.item(l).Some? then
        es != [] && g.item(es[0].line).Some? &&
        var m, n := g.item(es[0].line).value, g.item(l).value;
        n.indent < m.indent || (n.indent == m.indent && n.ordered != m.ordered)
      else l != "" && !IsSpace(l[0]) && (!OpensNothing(g, l) || OpensTable(g, behind))
    case QuotePiece(_, _) => g.quote(l).None? && (g.item(l).Some? || g.fence(l).Some? || g.heading(l).Some?)
    case TablePiece(_, _, _) => '|' !in l
    case _ => true
  }

  /** What may stand behind the block, blank lines included. */
  ghost predicate EndedBy(g: Grammar, p: Piece, behind: seq<string>) {
    && (p.CodePiece? && p.close.None? ==> behind == [])
    && (behind != [] && !IsBlank(behind[0]) ==> Breaks(g, p, behind))
    && (p.QuotePiece? && behind != [] && IsBlank(behind[0]) ==> g.quote(behind[0]).None?)
    && (p.ListPiece? && p.entries != [] && g.item(p.entries[0].line).Some? && |behind| > 1 && IsBlank(behind[0]) ==>
          !GoesOnWith(g, g.item(p.entries[0].line).value, behind[1]))
  }

  ghost predicate AllFit(g: Grammar, ps: seq<Piece>)
    decreases ps
  {
    ps != [] ==> Fits(g, ps[0]) && EndedBy(g, ps[0], Written(ps[1..])) && AllFit(g, ps[1..])
  }

  // ---- runs of lines ----

  lemma {:induction false} RunEndIs(g: Grammar, run: Run, lines: seq<string>, j: nat, e: nat)
    requires j <= e <= |lines| && (forall k :: j <= k < e ==> !Stops(g, run, lines, k))
    requires e < |lines| ==> Stops(g, run, lines, e)
    ensures RunEnd(g, run, lines, j) == e
    decreases e - j
  {
    hide Stops;
    if j < e { RunEndIs(g, run, lines, j + 1, e); }
  }

  lemma EmptyLineIsBlank()
    ensures IsBlank("")
  {
  }

  lemma BlankHasNoDash(l: string)
    requires IsBlank(l)
    ensures '|' !in l && '-' !in l
  {
    BlankIffNoInk(l);
    forall c | c in l ensures c != '|' && c != '-' { InkOfSpaces(l, c); }
  }

  lemma {:induction false} InkOfSpaces(l: string, c: char)
    requires Ink(l) == "" && c in l
    ensures IsSpace(c)
  {
    if l[0] != c { InkOfSpaces(l[1..], c); }
  }

  /** Where the block ends its run stops. */
  lemma StopsBehind(g: Grammar, p: Piece, run: Run, lines: seq<string>, behind: seq<string>)
    requires Lawful(g) && EndedBy(g, p, behind) && behind != []
    requires run == (match p case ParaPiece(_) => ParaRun case QuotePiece(_, _) => QuoteRun case _ => TableRun)
    requires p.ParaPiece? || p.QuotePiece? || p.TablePiece?
    ensures Stops(g, run, lines + behind, |lines|)
  {
    hide IsBlank;
    var all := lines + behind;
    assert all[|lines|] == behind[0];
    if |behind| > 1 { assert all[|lines| + 1] == behind[1]; }
  }

  lemma ParaIsRead(g: Grammar, lines: seq<string>, behind: seq<string>)
    requires Lawful(g) && Fits(g, ParaPiece(lines)) && EndedBy(g, ParaPiece(lines), behind)
    ensures First(g, lines + behind) == (Ready(P(Join(lines))), |lines|)
  {
    hide IsBlank, Join, EndedBy, Stops;
    var all := lines + behind;
    forall k | 0 <= k < |lines| ensures all[k] == lines[k] && !Stops(g, ParaRun, all, k) { ParaGoesOn(g, lines, behind, k); }
    ParaGoesOn(g, lines, behind, 0);
    if behind != [] { StopsBehind(g, ParaPiece(lines), ParaRun, lines, behind); }
    RunEndIs(g, ParaRun, all, 1, |lines|);
    assert all[..|lines|] == lines;
  }

  lemma ParaGoesOn(g: Grammar, lines: seq<string>, behind: seq<string>, k: nat)
    requires Fits(g, ParaPiece(lines)) && EndedBy(g, ParaPiece(lines), behind) && k < |lines|
    ensures var l, all := lines[k], lines + behind;
            && !IsBlank(l) && OpensNothing(g, l) && g.item(l).None?
            && !IsTableStart(g, all, k) && !Stops(g, ParaRun, all, k)
  {
    hide IsBlank;
    var all := lines + behind;
    assert !IsTableStart(g, lines, k) && all[k] == lines[k];
    if k + 1 < |all| { assert all[k + 1] == if k + 1 < |lines| then lines[k + 1] else behind[0]; }
    if behind != [] && IsBlank(behind[0]) { BlankHasNoDash(behind[0]); }
  }

  lemma CodeIsRead(g: Grammar, p: Piece, behind: seq<string>)
    requires p.CodePiece? && Fits(g, p) && (p.close.None? ==> behind == [])
    ensures First(g, LinesOf(p) + behind) == (Ready(Code(Join(p.body), p.close.None?)), |LinesOf(p)|)
  {
    hide IsBlank, Join;
    var all, e := LinesOf(p) + behind, 1 + |p.body|;
    var run := FenceRun(g.fence(p.fence).value);
    CodeLines(p, behind);
    hide LinesOf;
    forall k | 1 <= k < e ensures !Stops(g, run, all, k) {
      assert all[k] == all[1..e][k - 1] == p.body[k - 1] && p.body[k - 1] in p.body;
    }
    RunEndIs(g, run, all, 1, e);
  }

  lemma CodeLines(p: Piece, behind: seq<string>)
    requires p.CodePiece? && (p.close.None? ==> behind == [])
    ensures var all, e := LinesOf(p) + behind, 1 + |p.body|;
            && |all| >= |LinesOf(p)| == (if p.close.None? then e else e + 1) && (p.close.None? ==> |all| == e)
            && all[0] == p.fence && all[1..e] == p.body && (p.close.Some? ==> all[e] == p.close.value)
  {
    var rest := (if p.close.Some? then [p.close.value] else []) + behind;
    assert LinesOf(p) + behind == [p.fence] + p.body + rest;
  }

  lemma QuoteIsRead(g: Grammar, p: Piece, behind: seq<string>)
    requires Lawful(g) && p.QuotePiece? && Fits(g, p) && EndedBy(g, p, behind)
    ensures First(g, p.lines + behind) == (Nested(Written(p.inner)), |p.lines|)
  {
    hide IsBlank, Written;
    var all := p.lines + behind;
    forall k | 0 <= k < |p.lines| ensures all[k] == p.lines[k] && !Stops(g, QuoteRun, all, k) {
      assert QuoteLine(g, p.lines[k]);
    }
    if behind != [] { StopsBehind(g, p, QuoteRun, p.lines, behind); }
    RunEndIs(g, QuoteRun, all, 1, |p.lines|);
    assert all[..|p.lines|] == p.lines;
    assert UnquoteAll(g, p.lines) == Written(p.inner);
  }

  lemma WrittenRowIsText(row: seq<string>)
    ensures WriteRow(row) != "" && '|' in WriteRow(row) && !IsBlank(WriteRow(row))
  {
    var w := WriteRow(row);
    assert w[0] == '|';
    PipeIsNotSpace();
    BlankIffNoInk(w);
  }

  lemma FitRowIs(row: seq<string>, width: nat)
    ensures FitRow(row, width) == AtWidth(row, width)
  {
  }

  lemma {:induction false} TableIsRead(g: Grammar, p: Piece, behind: seq<string>)
    requires Lawful(g) && p.TablePiece? && Fits(g, p) && EndedBy(g, p, behind)
    ensures !IsBlank(LinesOf(p)[0])
    ensures First(g, LinesOf(p) + behind) == (Ready(Table(p.head, RowsAtWidth(p.rows, |p.head|))), |LinesOf(p)|)
  {
    hide IsBlank, Cells, RowBody, WriteRow, RowCells, FitRow, AtWidth;
    WrittenRowIsText(p.head);
    var all, e := LinesOf(p) + behind, 2 + |p.rows|;
    var width := |p.head|;
    assert all[0] == WriteRow(p.head) && all[1] == p.separator && all[2..e] == RowLines(p.rows);
    forall k | 2 <= k < e ensures !Stops(g, TableRun, all, k) {
      assert all[k] == RowLines(p.rows)[k - 2];
      WrittenRowIsText(p.rows[k - 2]);
    }
    if behind != [] { StopsBehind(g, p, TableRun, LinesOf(p), behind); }
    RunEndIs(g, TableRun, all, 2, e);
    RowRoundTrip(p.head);
    forall k | 0 <= k < |p.rows| ensures FitRow(RowCells(RowLines(p.rows)[k]), width) == AtWidth(p.rows[k], width) {
      assert RowFits(p.rows[k]);
      RowRoundTrip(p.rows[k]);
      FitRowIs(p.rows[k], width);
    }
    assert TableRows(width, RowLines(p.rows)) == RowsAtWidth(p.rows, width);
  }

  // ---- lists ----

  /** The lines `x` stand at `i`. */
  predicate At(lines: seq<string>, i: nat, x: seq<string>) {
    i + |x| <= |lines| && lines[i..i + |x|] == x
  }

  lemma {:induction false} AtParts(lines: seq<string>, i: nat, x: seq<string>, y: seq<string>)
    requires At(lines, i, x + y)
    ensures At(lines, i, x) && At(lines, i + |x|, y)
  {
    var z := lines[i..i + |x| + |y|];
    assert lines[i..i + |x|] == z[..|x|] && lines[i + |x|..i + |x| + |y|] == z[|x|..];
  }

  lemma {:induction false} AtHead(lines: seq<string>, i: nat, x: seq<string>)
    requires At(lines, i, x) && x != []
    ensures i < |lines| && lines[i] == x[0] && At(lines, i + 1, x[1..])
  {
    assert lines[i] == lines[i..i + |x|][0];
    assert lines[i + 1..i + |x|] == lines[i..i + |x|][1..];
  }

  lemma {:induction false} StepTaken(g: Grammar, lines: seq<string>, i: nat, base: nat, ordered: bool, items: seq<ListItem>, next: seq<ListItem>)
    requires i < |lines| && ListStep(g, lines, i, base, ordered, items) == Some(next)
    ensures ListFrom(g, lines, i, base, ordered, items) == ListFrom(g, lines, i + 1, base, ordered, next)
  {
    hide ListStep;
  }

  /** Lines that continue an item without children. */
  lemma {:induction false} MoreIsRead(g: Grammar, lines: seq<string>, i: nat, base: nat, ordered: bool,
                                      items: seq<ListItem>, text: string, more: seq<string>)
    requires At(lines, i, more) && forall l :: l in more ==> Continues(g, l)
    ensures ListFrom(g, lines, i, base, ordered, items + [ListItem(text, None)])
         == ListFrom(g, lines, i + |more|, base, ordered, items + [ListItem(Continued(text, more), None)])
    decreases |more|
  {
    hide IsBlank, Trim, ListFrom, IsSpace, ContinuesAfterBlank;
    if more != [] {
      AtHead(lines, i, more);
      assert Continues(g, more[0]);
      var was, now := items + [ListItem(text, None)], items + [ListItem(text + "\n" + Trim(more[0]), None)];
      assert was[|items| := now[|items|]] == now;
      assert ListStep(g, lines, i, base, ordered, was) == Some(now);
      StepTaken(g, lines, i, base, ordered, was, now);
      MoreIsRead(g, lines, i + 1, base, ordered, items, text + "\n" + Trim(more[0]), more[1..]);
    }
  }

  /** Lines that continue the last child. */
  lemma {:induction false} KidMoreIsRead(g: Grammar, lines: seq<string>, i: nat, base: nat, ordered: bool,
                                         items: seq<ListItem>, text: string, o: bool, kids: seq<ListItem>, kid: string, more: seq<string>)
    requires At(lines, i, more) && forall l :: l in more ==> ContinuesKid(g, l)
    ensures ListFrom(g, lines, i, base, ordered, items + [WithKids(text, o, kids + [ListItem(kid, None)])])
         == ListFrom(g, lines, i + |more|, base, ordered, items + [WithKids(text, o, kids + [ListItem(Continued(kid, more), None)])])
    decreases |more|
  {
    hide IsBlank, Trim, ListFrom, IsSpace, ContinuesAfterBlank;
    if more != [] {
      AtHead(lines, i, more);
      assert ContinuesKid(g, more[0]);
      var longer := kid + "\n" + Trim(more[0]);
      var was, now := items + [WithKids(text, o, kids + [ListItem(kid, None)])], items + [WithKids(text, o, kids + [ListItem(longer, None)])];
      assert (kids + [ListItem(kid, None)])[|kids| := ListItem(longer, None)] == kids + [ListItem(longer, None)];
      assert was[|items| := now[|items|]] == now;
      assert ListStep(g, lines, i, base, ordered, was) == Some(now);
      StepTaken(g, lines, i, base, ordered, was, now);
      KidMoreIsRead(g, lines, i + 1, base, ordered, items, text, o, kids, longer, more[1..]);
    }
  }

  /** Lines that lazily continue an item, whatever children it has. */
  lemma {:induction false} LazyIsRead(g: Grammar, lines: seq<string>, i: nat, base: nat, ordered: bool,
                                      items: seq<ListItem>, text: string, kids: Option<Children>, lazy: seq<string>)
    requires At(lines, i, lazy) && forall l :: l in lazy ==> ContinuesLazily(g, l)
    ensures ListFrom(g, lines, i, base, ordered, items + [ListItem(text, kids)])
         == ListFrom(g, lines, i + |lazy|, base, ordered, items + [ListItem(Continued(text, lazy), kids)])
    decreases |lazy|
  {
    hide IsBlank, Trim, ListFrom, IsSpace, ContinuesAfterBlank;
    if lazy != [] {
      AtHead(lines, i, lazy);
      assert ContinuesLazily(g, lazy[0]);
      var was, now := items + [ListItem(text, kids)], items + [ListItem(text + "\n" + Trim(lazy[0]), kids)];
      assert was[|items| := now[|items|]] == now;
      assert ListStep(g, lines, i, base, ordered, was) == Some(now);
      StepTaken(g, lines, i, base, ordered, was, now);
      LazyIsRead(g, lines, i + 1, base, ordered, items, text + "\n" + Trim(lazy[0]), kids, lazy[1..]);
    }
  }

  /** An empty line in front of an item of the list, or of a child, changes nothing. */
  lemma GapIsRead(g: Grammar, lines: seq<string>, i: nat, base: nat, ordered: bool, items: seq<ListItem>, loose: bool, line: string)
    requires At(lines, i, Gap(loose) + [line]) && g.item(line).Some?
    requires var m := g.item(line).value; m.indent > base || (m.indent == base && m.ordered == ordered)
    ensures i + |Gap(loose)| < |lines| && lines[i + |Gap(loose)|] == line
    ensures ListFrom(g, lines, i, base, ordered, items) == ListFrom(g, lines, i + |Gap(loose)|, base, ordered, items)
  {
    hide IsBlank, ListFrom;
    AtParts(lines, i, Gap(loose), [line]);
    AtHead(lines, i + |Gap(loose)|, [line]);
    if loose {
      AtHead(lines, i, [""]);
      EmptyLineIsBlank();
      assert ListStep(g, lines, i, base, ordered, items) == Some(items);
      StepTaken(g, lines, i, base, ordered, items, items);
    }
  }

  function WithKids(text: string, o: bool, kids: seq<ListItem>): ListItem {
    ListItem(text, Some(Children(o, kids)))
  }

  /** One child more: the first one opens the list of children, and says whether it is numbered. */
  lemma KidIsRead(g: Grammar, lines: seq<string>, i: nat, base: nat, ordered: bool,
                  items: seq<ListItem>, it: ListItem, o: bool, before: seq<ListItem>, k: Kid)
    requires At(lines, i, KidLines(k)) && KidFits(g, base, k)
    requires if before == [] then it.children == None && o == IsOrdered(g, k.line) else it.children == Some(Children(o, before))
    ensures ListFrom(g, lines, i, base, ordered, items + [it])
         == ListFrom(g, lines, i + |KidLines(k)|, base, ordered, items + [WithKids(it.text, o, before + [KidItem(g, k)])])
  {
    hide IsBlank, Trim, ListFrom, IsSpace, ContinuesAfterBlank, Continued;
    AtParts(lines, i, Gap(k.loose) + [k.line], k.more);
    var j := i + |Gap(k.loose)|;
    var kid := ListItem(ItemText(g, k.line), None);
    var was, now := items + [it], items + [WithKids(it.text, o, before + [kid])];
    GapIsRead(g, lines, i, base, ordered, was, k.loose, k.line);
    hide Gap;
    assert was[|items| := now[|items|]] == now;
    assert ListStep(g, lines, j, base, ordered, was) == Some(now) by { if before == [] { assert [] + [kid] == [kid]; } }
    StepTaken(g, lines, j, base, ordered, was, now);
    KidMoreIsRead(g, lines, j + 1, base, ordered, items, it.text, o, before, kid.text, k.more);
  }

  lemma {:induction false} KidsAreRead(g: Grammar, lines: seq<string>, i: nat, base: nat, ordered: bool,
                                       items: seq<ListItem>, it: ListItem, o: bool, before: seq<ListItem>, kids: seq<Kid>)
    requires At(lines, i, KidsLines(kids)) && forall k :: k in kids ==> KidFits(g, base, k)
    requires if before == [] then it.children == None && kids != [] && o == IsOrdered(g, kids[0].line)
             else it.children == Some(Children(o, before))
    ensures ListFrom(g, lines, i, base, ordered, items + [it])
         == ListFrom(g, lines, i + |KidsLines(kids)|, base, ordered, items + [WithKids(it.text, o, before + KidItems(g, kids))])
    decreases |kids|
  {
    hide ListFrom, KidLines, KidItem, KidFits, IsOrdered;
    if kids == [] {
      assert before + KidItems(g, kids) == before;
      assert it == WithKids(it.text, o, before);
    } else {
      var k := kids[0];
      AtParts(lines, i, KidLines(k), KidsLines(kids[1..]));
      KidIsRead(g, lines, i, base, ordered, items, it, o, before, k);
      var more := before + [KidItem(g, k)];
      KidsAreRead(g, lines, i + |KidLines(k)|, base, ordered, items, WithKids(it.text, o, more), o, more, kids[1..]);
      assert more + KidItems(g, kids[1..]) == before + KidItems(g, kids);
    }
  }

  lemma {:induction false} EntryIsRead(g: Grammar, lines: seq<string>, i: nat, base: nat, ordered: bool, items: seq<ListItem>, e: Entry)
    requires At(lines, i, EntryLines(e)) && EntryFits(g, base, ordered, e)
    ensures ListFrom(g, lines, i, base, ordered, items)
         == ListFrom(g, lines, i + |EntryLines(e)|, base, ordered, items + [EntryItem(g, e)])
  {
    hide IsBlank, Trim, ListFrom, IsSpace, Continued, KidsLines, KidItems, ContinuesAfterBlank;
    var gap, own := Gap(e.loose), Gap(e.loose) + [e.line] + e.more;
    AtParts(lines, i, own + KidsLines(e.kids), e.lazy);
    AtParts(lines, i, own, KidsLines(e.kids));
    AtParts(lines, i, gap + [e.line], e.more);
    var j := i + |gap|;
    GapIsRead(g, lines, i, base, ordered, items, e.loose, e.line);
    var text := ItemText(g, e.line);
    var now := items + [ListItem(text, None)];
    assert ListStep(g, lines, j, base, ordered, items) == Some(now);
    StepTaken(g, lines, j, base, ordered, items, now);
    MoreIsRead(g, lines, j + 1, base, ordered, items, text, e.more);
    var full, k := Continued(text, e.more), j + 1 + |e.more|;
    if e.kids == [] {
      NoKids();
      LazyIsRead(g, lines, k, base, ordered, items, full, None, e.lazy);
    } else {
      KidsAreRead(g, lines, k, base, ordered, items, ListItem(full, None), IsOrdered(g, e.kids[0].line), [], e.kids);
      assert [] + KidItems(g, e.kids) == KidItems(g, e.kids);
      LazyIsRead(g, lines, k + |KidsLines(e.kids)|, base, ordered, items, full, EntryItem(g, e).children, e.lazy);
    }
  }

  lemma NoKids()
    ensures KidsLines([]) == []
  {
  }

  lemma {:induction false} EntriesAreRead(g: Grammar, lines: seq<string>, i: nat, base: nat, ordered: bool,
                                          items: seq<ListItem>, es: seq<Entry>)
    requires At(lines, i, EntriesLines(es)) && forall e :: e in es ==> EntryFits(g, base, ordered, e)
    ensures ListFrom(g, lines, i, base, ordered, items)
         == ListFrom(g, lines, i + |EntriesLines(es)|, base, ordered, items + EntryItems(g, es))
    decreases |es|
  {
    hide EntryFits, EntryLines, EntryItem, ListFrom;
    if es == [] {
      assert items + EntryItems(g, es) == items;
    } else {
      AtParts(lines, i, EntryLines(es[0]), EntriesLines(es[1..]));
      EntryIsRead(g, lines, i, base, ordered, items, es[0]);
      EntriesAreRead(g, lines, i + |EntryLines(es[0])|, base, ordered, items + [EntryItem(g, es[0])], es[1..]);
      assert (items + [EntryItem(g, es[0])]) + EntryItems(g, es[1..]) == items + EntryItems(g, es);
    }
  }

  lemma EntriesStart(es: seq<Entry>)
    requires es != [] && !es[0].loose
    ensures EntriesLines(es) != [] && EntriesLines(es)[0] == es[0].line
  {
  }

  lemma {:induction false} ListIsRead(g: Grammar, p: Piece, behind: seq<string>)
    requires p.ListPiece? && Fits(g, p) && EndedBy(g, p, behind)
    ensures LinesOf(p) != [] && !IsBlank(LinesOf(p)[0])
    ensures First(g, LinesOf(p) + behind) == (Ready(Meaning(g, p)), |LinesOf(p)|)
  {
    hide IsBlank, EntriesLines, EntryItems, ListFrom;
    var es := p.entries;
    var m := g.item(es[0].line).value;
    var all, n := LinesOf(p) + behind, |LinesOf(p)|;
    EntriesStart(es);
    assert EntryFits(g, m.indent, m.ordered, es[0]);
    assert all[0] == es[0].line && all[0..n] == EntriesLines(es);
    EntriesAreRead(g, all, 0, m.indent, m.ordered, [], es);
    assert [] + EntryItems(g, es) == EntryItems(g, es);
    assert all[n..] == behind;
    ListStopsAt(g, p, all, n, EntryItems(g, es));
  }

  lemma {:induction false} ListStopsAt(g: Grammar, p: Piece, lines: seq<string>, n: nat, items: seq<ListItem>)
    requires p.ListPiece? && p.entries != [] && g.item(p.entries[0].line).Some?
    requires n <= |lines| && EndedBy(g, p, lines[n..])
    ensures var m := g.item(p.entries[0].line).value; ListFrom(g, lines, n, m.indent, m.ordered, items) == (items, n)
  {
    hide IsBlank, IsSpace, Trim;
    var behind := lines[n..];
    if n < |lines| { assert behind[0] == lines[n]; }
    if n + 1 < |lines| { assert behind[1] == lines[n + 1]; }
  }

  lemma HeadingIsRead(g: Grammar, p: Piece, behind: seq<string>)
    requires Lawful(g) && p.HeadingPiece? && Fits(g, p)
    ensures First(g, [p.line] + behind) == (Ready(Meaning(g, p)), 1)
  {
    hide IsBlank;
    assert 1 <= g.heading(p.line).value.level;
  }

  // ---- documents ----

  lemma PieceIsRead(g: Grammar, p: Piece, behind: seq<string>)
    requires Lawful(g) && !p.BlankPiece? && Fits(g, p) && EndedBy(g, p, behind)
    ensures var lines := LinesOf(p);
            && lines != [] && !IsBlank(lines[0])
            && First(g, lines + behind) == (if p.QuotePiece? then Nested(Written(p.inner)) else Ready(Meaning(g, p)), |lines|)
  {
    hide IsBlank, Written, EntriesLines, EntryItems, RowLines, WriteRow, ListAt, RowsAtWidth, Lawful;
    match p
    case ParaPiece(_) => ParaIsRead(g, p.lines, behind);
    case HeadingPiece(_) => HeadingIsRead(g, p, behind);
    case RulePiece(_) =>
    case CodePiece(_, _, _) => CodeIsRead(g, p, behind);
    case ListPiece(es) =>
      EntriesStart(es);
      var m := g.item(es[0].line).value;
      assert EntryFits(g, m.indent, m.ordered, es[0]);
      ListIsRead(g, p, behind);
    case QuotePiece(_, _) => QuoteIsRead(g, p, behind);
    case TablePiece(_, _, _) =>
      WrittenRowIsText(p.head);
      TableIsRead(g, p, behind);
  }

  lemma BlocksAtPiece(g: Grammar, p: Piece, behind: seq<string>)
    requires Lawful(g) && !p.BlankPiece? && Fits(g, p) && EndedBy(g, p, behind)
    ensures BlocksOf(g, LinesOf(p) + behind)
         == [if p.QuotePiece? then Quote(BlocksOf(g, Written(p.inner))) else Meaning(g, p)] + BlocksOf(g, behind)
  {
    hide IsBlank, Fits, LinesOf, Meaning, First, Lawful, Written, TotalChars;
    PieceIsRead(g, p, behind);
    var n := |LinesOf(p)|;
    assert (LinesOf(p) + behind)[n..] == behind;
  }

  lemma BlocksAtBlankLine(g: Grammar, line: string, lines: seq<string>)
    requires Lawful(g) && IsBlank(line)
    ensures BlocksOf(g, [line] + lines) == BlocksOf(g, lines) && BlocksOf(g, []) == []
  {
    hide Lawful;
    assert ([line] + lines)[1..] == lines;
  }

  /** Every document is read as what it was written from, quotes inside quotes included. */
  lemma {:induction false} DocumentIsRead(g: Grammar, ps: seq<Piece>)
    requires Lawful(g) && AllFit(g, ps)
    ensures BlocksOf(g, Written(ps)) == Meanings(g, ps)
    decreases ps
  {
    hide BlocksOf, LinesOf, IsBlank, Lawful, EndedBy;
    EmptyLineIsBlank();
    if ps == [] {
      BlocksAtBlankLine(g, "", []);
    } else {
      var p, behind := ps[0], Written(ps[1..]);
      DocumentIsRead(g, ps[1..]);
      if p.BlankPiece? {
        BlankPieceLine(p);
        BlocksAtBlankLine(g, p.line, behind);
      } else {
        BlocksAtPiece(g, p, behind);
        if p.QuotePiece? { DocumentIsRead(g, p.inner); }
      }
    }
  }

  lemma BlankPieceLine(p: Piece)
    requires p.BlankPiece?
    ensures LinesOf(p) == [p.line]
  {
  }

  /** And so is its text. */
  lemma DocumentTextIsRead(g: Grammar, ps: seq<Piece>)
    requires Lawful(g) && AllFit(g, ps) && AllNoBreaks(Written(ps))
    ensures BlocksOf(g, Lines(Join(Written(ps)))) == Meanings(g, ps)
  {
    hide BlocksOf, Written, AllFit, Lawful, Lines;
    DocumentIsRead(g, ps);
    if Written(ps) == [] {
      EmptyLineIsBlank();
      BlocksAtBlankLine(g, "", []);
      assert [""] + [] == [""];
      NothingIsOneLine();
    } else {
      LinesOfJoin(Written(ps));
    }
  }

  lemma NothingIsOneLine()
    ensures Lines(Join([])) == [""]
  {
  }
}
