/** What a reader of a growing message can rely on: blocks that are finished stay as they are. */
module BlocksStreaming {
  import opened Options
  import opened Seqs
  import opened Text
  import opened Blocks

  ghost predicate AllBlank(lines: seq<string>) {
    forall l :: l in lines ==> IsBlank(l)
  }

  lemma {:induction false} BlankLinesGiveNothing(g: Grammar, lines: seq<string>)
    requires Lawful(g)
    ensures BlocksOf(g, lines) == [] <==> AllBlank(lines)
  {
    if lines != [] {
      if IsBlank(lines[0]) {
        BlankLinesGiveNothing(g, lines[1..]);
        assert lines == [lines[0]] + lines[1..];
      } else {
        assert lines[0] in lines;
      }
    }
  }

  /** A run that stopped inside `lines` stops there whatever follows. */
  lemma {:induction false} RunEndIsStable(g: Grammar, run: Run, lines: seq<string>, more: seq<string>, j: nat)
    requires j <= |lines| && RunEnd(g, run, lines, j) < |lines|
    ensures RunEnd(g, run, lines + more, j) == RunEnd(g, run, lines, j)
    decreases |lines| - j
  {
    var all := lines + more;
    assert all[j] == lines[j];
    assert j + 1 < |lines| ==> all[j + 1] == lines[j + 1];
    if !Stops(g, run, lines, j) {
      RunEndIsStable(g, run, lines, more, j + 1);
      assert RunEnd(g, run, lines, j) == RunEnd(g, run, lines, j + 1) < |lines|;
    }
  }

  /** A list that ended in front of a line with text after it ends there whatever follows. */
  lemma {:induction false} ListFromIsStable(g: Grammar, lines: seq<string>, more: seq<string>, i: nat, base: nat,
                                            ordered: bool, items: seq<ListItem>)
    requires i <= |lines|
    requires var n := ListFrom(g, lines, i, base, ordered, items).1; !AllBlank(lines[n..])
    ensures ListFrom(g, lines + more, i, base, ordered, items) == ListFrom(g, lines, i, base, ordered, items)
    decreases |lines| - i
  {
    var all := lines + more;
    var n := ListFrom(g, lines, i, base, ordered, items).1;
    assert n < |lines|;
    assert all[i] == lines[i];
    assert i + 1 < |lines| ==> all[i + 1] == lines[i + 1];
    var step := ListStep(g, lines, i, base, ordered, items);
    if i + 1 == |lines| {
      assert lines[i..] == [lines[i]];
      assert step.None?;
      assert !IsBlank(lines[i]);
    }
    assert ListStep(g, all, i, base, ordered, items) == step;
    hide ListStep;
    if step.Some? { ListFromIsStable(g, lines, more, i + 1, base, ordered, step.value); }
  }

  /** The first block is settled as soon as some text stands after it. */
  lemma FirstIsStable(g: Grammar, lines: seq<string>, more: seq<string>)
    requires lines != [] && !IsBlank(lines[0])
    requires !AllBlank(lines[First(g, lines).1..])
    ensures First(g, lines + more) == First(g, lines)
  {
    hide IsBlank, Join, TableRows, UnquoteAll, RowCells, ListFrom, Stops;
    var all := lines + more;
    var l := lines[0];
    var n := First(g, lines).1;
    assert all[0] == l;
    assert 1 < |lines| && all[1] == lines[1];
    if g.fence(l).Some? {
      var run := FenceRun(g.fence(l).value);
      RunEndIsStable(g, run, lines, more, 1);
      var e := RunEnd(g, run, lines, 1);
      assert all[1..e] == lines[1..e];
    } else if g.heading(l).Some? || g.rule(l) {
    } else if g.quote(l).Some? {
      RunEndIsStable(g, QuoteRun, lines, more, 1);
      var e := RunEnd(g, QuoteRun, lines, 1);
      assert all[..e] == lines[..e];
    } else if g.item(l).Some? {
      var m := g.item(l).value;
      ListFromIsStable(g, lines, more, 0, m.indent, m.ordered, []);
    } else if IsTableStart(g, lines, 0) {
      RunEndIsStable(g, TableRun, lines, more, 2);
      var e := RunEnd(g, TableRun, lines, 2);
      assert all[2..e] == lines[2..e];
    } else {
      RunEndIsStable(g, ParaRun, lines, more, 1);
      var e := RunEnd(g, ParaRun, lines, 1);
      assert all[..e] == lines[..e];
    }
  }

  lemma HeadIsStable(g: Grammar, lines: seq<string>, more: seq<string>)
    requires Lawful(g) && lines != [] && !IsBlank(lines[0])
    requires !AllBlank(lines[Head(g, lines).1..])
    ensures Head(g, lines + more) == Head(g, lines)
  {
    hide First, IsBlank, TotalChars;
    FirstIsStable(g, lines, more);
  }

  /** The lines from which the last block is read. */
  function Tail(g: Grammar, lines: seq<string>): (tail: seq<string>)
    requires Lawful(g)
    ensures |tail| <= |lines| && tail == lines[|lines| - |tail|..]
    decreases |lines|
  {
    if lines == [] then []
    else if IsBlank(lines[0]) then Tail(g, lines[1..])
    else
      var n := Head(g, lines).1;
      if BlocksOf(g, lines[n..]) == [] then lines else Tail(g, lines[n..])
  }

  /** All blocks but the last. */
  function Settled(g: Grammar, lines: seq<string>): seq<Block>
    requires Lawful(g)
  {
    Front(BlocksOf(g, lines))
  }

  /** How the settled blocks and the tail of non-blank text follow from what stands after its first block. */
  lemma SettledRound(g: Grammar, lines: seq<string>)
    requires Lawful(g) && lines != [] && !IsBlank(lines[0])
    ensures var (b, n) := Head(g, lines);
            var rest := lines[n..];
            && (BlocksOf(g, rest) == [] ==> Settled(g, lines) == [] && Tail(g, lines) == lines && BlocksOf(g, lines) == [b])
            && (BlocksOf(g, rest) != [] ==> Settled(g, lines) == [b] + Settled(g, rest) && Tail(g, lines) == Tail(g, rest)
                                            && BlocksOf(g, lines) == [b] + BlocksOf(g, rest))
  {
    hide Head, IsBlank, TotalChars, Front;
    var (b, n) := Head(g, lines);
    FrontOfCons(b, BlocksOf(g, lines[n..]));
    assert [b] + [] == [b];
  }

  /**
   * Parsing more text keeps every block but the last, and the rest of the answer is what parsing gives from the
   * start of that last block on: a client may keep the finished blocks and parse the tail alone.
   */
  lemma {:induction false} ParsingResumesAtTheTail(g: Grammar, lines: seq<string>, more: seq<string>)
    requires Lawful(g)
    ensures BlocksOf(g, lines + more) == Settled(g, lines) + BlocksOf(g, Tail(g, lines) + more)
    decreases |lines|
  {
    hide Head, IsBlank, TotalChars;
    if lines == [] {
    } else if IsBlank(lines[0]) {
      assert (lines + more)[1..] == lines[1..] + more;
      ParsingResumesAtTheTail(g, lines[1..], more);
    } else {
      SettledRound(g, lines);
      var (b, n) := Head(g, lines);
      var rest := lines[n..];
      if BlocksOf(g, rest) != [] {
        BlankLinesGiveNothing(g, rest);
        HeadIsStable(g, lines, more);
        assert (lines + more)[n..] == rest + more;
        assert BlocksOf(g, lines + more) == [b] + BlocksOf(g, rest + more);
        hide Settled, Tail, BlocksOf;
        ParsingResumesAtTheTail(g, rest, more);
        ConsConcat(b, Settled(g, rest), BlocksOf(g, Tail(g, rest) + more));
      }
    }
  }

  /** For all lines and all lines that follow, every block but the last is settled. */
  lemma StreamingIsStable(g: Grammar, lines: seq<string>, more: seq<string>)
    requires Lawful(g)
    ensures Settled(g, lines) <= BlocksOf(g, lines + more)
  {
    ParsingResumesAtTheTail(g, lines, more);
  }

  /** The same for text that arrives in any pieces, cut inside a line or inside a `\r\n`. */
  lemma DeltaKeepsSettledBlocks(g: Grammar, src: string, delta: string)
    requires Lawful(g)
    ensures var ended := Lines(src)[..|Lines(src)| - 1];
            && Settled(g, ended) <= BlocksOf(g, Lines(src))
            && Settled(g, ended) <= BlocksOf(g, Lines(src + delta))
  {
    var ended := Lines(src)[..|Lines(src)| - 1];
    DeltaKeepsEndedLines(src, delta);
    StreamingIsStable(g, ended, Lines(src)[|ended|..]);
    assert ended + Lines(src)[|ended|..] == Lines(src);
    StreamingIsStable(g, ended, Lines(src + delta)[|ended|..]);
    assert ended + Lines(src + delta)[|ended|..] == Lines(src + delta);
  }
}
