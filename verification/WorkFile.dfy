/**
 * The file that the writers of daemon/worktreesim/worktreesim.go edit. A writer greps the file for its marker and
 * appends the marker only if the grep finds nothing; the grep and the append are two steps, so writers can race.
 */
module WorkFile {
  import opened Options
  import opened Worktree

  // ---- the file ----

  predicate At(m: string, c: string, i: int) {
    0 <= i && i + |m| <= |c| && c[i..i + |m|] == m
  }

  predicate Contains(m: string, c: string) {
    exists i :: 0 <= i <= |c| && At(m, c, i)
  }

  function Content(file: Option<string>): string {
    if file.Some? then file.value else ""
  }

  /** `[ -f "$TARGET" ] && grep -qF -- "$m" "$TARGET"` for a marker of one line: an empty file has no line to match. */
  predicate Grep(m: string, file: Option<string>) {
    file.Some? && file.value != "" && Contains(m, file.value)
  }

  function Line(m: string): string {
    m + "\n"
  }

  function Append(file: Option<string>, m: string): Option<string> {
    Some(Content(file) + Line(m))
  }

  function LinesOf(ms: seq<string>): string
    decreases |ms|
  {
    if ms == [] then "" else LinesOf(ms[..|ms| - 1]) + Line(ms[|ms| - 1])
  }

  // ---- writers at work, step by step ----

  /** `looked` holds the writers between their grep and what follows from it: true when the marker was found. */
  datatype Shop = Shop(
    file: Option<string>,
    inbox: map<nat, seq<string>>,
    looked: map<nat, bool>,
    wrote: seq<string>,
    handled: seq<string>,
    reported: nat)

  datatype Move = Put(w: nat, m: string) | Look(w: nat) | Act(w: nat) | Kill(w: nat)

  function Opened(file: Option<string>): Shop {
    Shop(file, map[], map[], [], [], 0)
  }

  function Waiting(s: Shop, w: nat): seq<string> {
    if w in s.inbox then s.inbox[w] else []
  }

  predicate CanMove(s: Shop, a: Move) {
    match a
    case Put(_, m) => '\n' !in m
    case Look(w) => w !in s.looked && Waiting(s, w) != []
    case Act(w) => w in s.looked && Waiting(s, w) != []
    case Kill(_) => true
  }

  function Moved(s: Shop, a: Move): Shop
    requires CanMove(s, a)
  {
    match a
    case Put(w, m) => s.(inbox := s.inbox[w := Waiting(s, w) + [m]])
    case Look(w) => s.(looked := s.looked[w := Grep(s.inbox[w][0], s.file)])
    case Act(w) =>
      var m := s.inbox[w][0];
      var t := s.(inbox := s.inbox[w := s.inbox[w][1..]], looked := s.looked - {w}, handled := s.handled + [m]);
      if s.looked[w] then t
      else t.(file := Append(s.file, m), wrote := s.wrote + [m], reported := s.reported + |m| + 1)
    case Kill(w) => s.(inbox := s.inbox - {w}, looked := s.looked - {w})
  }

  function ShopAfter(file: Option<string>, acts: seq<Move>): Option<Shop>
    decreases |acts|
  {
    if acts == [] then Some(Opened(file))
    else
      var before := ShopAfter(file, acts[..|acts| - 1]);
      var a := acts[|acts| - 1];
      if before.Some? && CanMove(before.value, a) then Some(Moved(before.value, a)) else None
  }

  ghost predicate Leads(file: Option<string>, acts: seq<Move>, s: Shop) {
    ShopAfter(file, acts) == Some(s)
  }

  // ---- what every interleaving keeps ----

  lemma AppendKeepsGrep(m: string, file: Option<string>, n: string)
    requires Grep(m, file)
    ensures Grep(m, Append(file, n))
  {
    var c := file.value;
    var i :| 0 <= i <= |c| && At(m, c, i);
    assert (c + Line(n))[i..i + |m|] == c[i..i + |m|];
    assert At(m, c + Line(n), i);
  }

  lemma AppendIsFound(m: string, file: Option<string>)
    ensures Grep(m, Append(file, m))
  {
    var c := Content(file);
    assert At(m, c + Line(m), |c|);
  }

  ghost predicate ShopInv(file0: Option<string>, s: Shop) {
    && Content(s.file) == Content(file0) + LinesOf(s.wrote)
    && (s.wrote == [] ==> s.file == file0)
    && s.reported == |LinesOf(s.wrote)|
    && (forall m :: m in s.handled ==> Grep(m, s.file))
    && (forall m :: m in s.wrote ==> m in s.handled)
    && (forall w :: w in s.inbox ==> forall m :: m in s.inbox[w] ==> '\n' !in m)
    && (forall m :: m in s.handled ==> '\n' !in m)
    && BusyOnACommand(s)
    && (forall w :: w in s.looked && s.looked[w] && Waiting(s, w) != [] ==> Grep(Waiting(s, w)[0], s.file))
  }

  ghost predicate BusyOnACommand(s: Shop) {
    forall w :: w in s.looked ==> Waiting(s, w) != []
  }

  lemma LinesOfMore(ms: seq<string>, m: string)
    ensures LinesOf(ms + [m]) == LinesOf(ms) + Line(m)
  {
    assert (ms + [m])[..|ms|] == ms;
  }

  lemma MoveKeepsInv(file0: Option<string>, s: Shop, a: Move)
    requires ShopInv(file0, s) && CanMove(s, a)
    ensures ShopInv(file0, Moved(s, a))
  {
    hide Contains, LinesOf;
    var t := Moved(s, a);
    if a.Act? {
      var m := s.inbox[a.w][0];
      assert m in s.inbox[a.w];
      if !s.looked[a.w] {
        LinesOfMore(s.wrote, m);
        hide Grep;
        forall k | k in t.handled ensures Grep(k, t.file) {
          if k in s.handled { AppendKeepsGrep(k, s.file, m); } else { AppendIsFound(m, s.file); }
        }
        forall w | w in t.looked && t.looked[w] && Waiting(t, w) != [] ensures Grep(Waiting(t, w)[0], t.file) {
          AppendKeepsGrep(Waiting(s, w)[0], s.file, m);
        }
      }
    }
  }

  lemma {:induction false} EveryShopKeepsInv(file0: Option<string>, acts: seq<Move>, s: Shop)
    requires Leads(file0, acts, s)
    ensures ShopInv(file0, s)
    decreases |acts|
  {
    hide Moved, CanMove, ShopInv;
    if acts == [] {
      OpenedIsInv(file0);
    } else {
      var before := ShopAfter(file0, acts[..|acts| - 1]).value;
      EveryShopKeepsInv(file0, acts[..|acts| - 1], before);
      MoveKeepsInv(file0, before, acts[|acts| - 1]);
    }
  }

  lemma OpenedIsInv(file0: Option<string>)
    ensures ShopInv(file0, Opened(file0))
  {
    assert LinesOf([]) == "";
  }

  /**
   * Whatever the writers do, whoever is killed: the file is the old one with whole lines appended, and the reports
   * add up to its growth.
   */
  lemma FileOnlyGrows(file0: Option<string>, acts: seq<Move>, s: Shop)
    requires Leads(file0, acts, s)
    ensures Content(s.file) == Content(file0) + LinesOf(s.wrote)
    ensures s.reported == |Content(s.file)| - |Content(file0)|
  {
    EveryShopKeepsInv(file0, acts, s);
  }

  /** The same between any two moments of a run. */
  lemma {:induction false} FileNeverShrinks(file0: Option<string>, acts: seq<Move>, n: nat)
    requires n <= |acts| && ShopAfter(file0, acts).Some?
    ensures ShopAfter(file0, acts[..n]).Some?
    ensures Content(ShopAfter(file0, acts[..n]).value.file) <= Content(ShopAfter(file0, acts).value.file)
    decreases |acts|
  {
    if n == |acts| {
      assert acts[..n] == acts;
    } else {
      assert acts[..|acts| - 1][..n] == acts[..n];
      FileNeverShrinks(file0, acts[..|acts| - 1], n);
    }
  }

  /** Every marker that was answered for is in the file, and asking for it again is answered without a change. */
  lemma HandledStays(file0: Option<string>, acts: seq<Move>, s: Shop, w: nat)
    requires Leads(file0, acts, s) && CanMove(s, Look(w)) && s.inbox[w][0] in s.handled
    ensures var t := Moved(s, Look(w));
            && CanMove(t, Act(w)) && Moved(t, Act(w)).file == s.file && Moved(t, Act(w)).reported == s.reported
    ensures Contains(s.inbox[w][0], Content(s.file))
  {
    EveryShopKeepsInv(file0, acts, s);
  }

  // ---- exactly once ----

  /** At no moment are two writers between their grep and its consequence. */
  ghost predicate OneAtATime(file0: Option<string>, acts: seq<Move>) {
    forall n :: 0 <= n <= |acts| ==> ShopAfter(file0, acts[..n]).Some? && NotTwoBusy(ShopAfter(file0, acts[..n]).value)
  }

  ghost predicate NotTwoBusy(s: Shop) {
    forall v, w :: v in s.looked && w in s.looked ==> v == w
  }

  ghost predicate NoRepeats(ms: seq<string>) {
    forall i, j :: 0 <= i < j < |ms| ==> ms[i] != ms[j]
  }

  ghost predicate FreshLooks(s: Shop) {
    forall w :: w in s.looked && !s.looked[w] && Waiting(s, w) != [] ==> !Grep(Waiting(s, w)[0], s.file)
  }

  lemma OneStepStaysFresh(s: Shop, a: Move)
    requires CanMove(s, a) && NotTwoBusy(s) && FreshLooks(s) && BusyOnACommand(s)
    ensures FreshLooks(Moved(s, a))
  {
    hide Grep, Append;
  }

  /**
   * While nobody races, no marker is appended twice, nor one that was in the file from the start, however the
   * checkout is handed from writer to writer.
   */
  lemma {:induction false} EditsAreExactlyOnce(file0: Option<string>, acts: seq<Move>, s: Shop)
    requires Leads(file0, acts, s) && OneAtATime(file0, acts)
    ensures NoRepeats(s.wrote)
    ensures forall m :: m in s.wrote ==> !Grep(m, file0)
    ensures FreshLooks(s)
    decreases |acts|
  {
    hide Grep, Append, FreshLooks;
    if acts == [] {
      OpenedIsFresh(file0);
    } else {
      var n := |acts| - 1;
      var before, a := ShopAfter(file0, acts[..n]).value, acts[n];
      assert forall k :: 0 <= k <= n ==> acts[..n][..k] == acts[..k];
      EditsAreExactlyOnce(file0, acts[..n], before);
      EveryShopKeepsInv(file0, acts[..n], before);
      OneStepStaysFresh(before, a);
      if a.Act? && !before.looked[a.w] {
        LookedWasMissing(file0, before, a.w);
      }
    }
  }

  lemma OpenedIsFresh(file0: Option<string>)
    ensures FreshLooks(Opened(file0))
  {
  }

  lemma LookedWasMissing(file0: Option<string>, s: Shop, w: nat)
    requires ShopInv(file0, s) && FreshLooks(s) && CanMove(s, Act(w)) && !s.looked[w]
    ensures s.inbox[w][0] !in s.wrote && !Grep(s.inbox[w][0], file0)
  {
    var m, c, c0 := s.inbox[w][0], Content(s.file), Content(file0);
    if Grep(m, file0) {
      var i :| 0 <= i <= |c0| && At(m, c0, i);
      assert c[i..i + |m|] == c0[i..i + |m|];
      assert At(m, c, i);
    }
  }

  lemma RacersLook(file0: Option<string>, m: string, v: nat, w: nat) returns (acts: seq<Move>, s: Shop)
    requires '\n' !in m && !Grep(m, file0) && v != w
    ensures Leads(file0, acts, s) && s.wrote == [] && v in s.looked && w in s.looked && !s.looked[v] && !s.looked[w]
    ensures Waiting(s, v) == [m] && Waiting(s, w) == [m]
  {
    hide Grep, Append;
    s := Opened(file0);
    acts := [];
    acts, s := ShopOn(file0, acts, s, Put(v, m));
    acts, s := ShopOn(file0, acts, s, Put(w, m));
    acts, s := ShopOn(file0, acts, s, Look(v));
    acts, s := ShopOn(file0, acts, s, Look(w));
  }

  lemma BlindAct(file0: Option<string>, acts: seq<Move>, s: Shop, v: nat, w: nat, m: string) returns (more: seq<Move>, t: Shop)
    requires Leads(file0, acts, s) && v in s.looked && !s.looked[v] && Waiting(s, v) == [m]
    ensures Leads(file0, more, t) && t.wrote == s.wrote + [m]
    ensures v != w ==> (w in s.looked ==> w in t.looked && t.looked[w] == s.looked[w]) && Waiting(t, w) == Waiting(s, w)
  {
    hide Grep, Append;
    more, t := ShopOn(file0, acts, s, Act(v));
  }

  lemma TwoLines(c: string, m: string)
    ensures c + LinesOf([m, m]) == c + Line(m) + Line(m)
  {
    LinesOfMore([m], m);
    LinesOfMore([], m);
    assert [m] + [m] == [m, m];
    assert c + (Line(m) + Line(m)) == c + Line(m) + Line(m);
  }

  /** Two writers that grep before either appends both append: the marker is in the file twice. */
  lemma RacersWriteTwice(file0: Option<string>, m: string, v: nat, w: nat) returns (acts: seq<Move>, s: Shop)
    requires '\n' !in m && !Grep(m, file0) && v != w
    ensures Leads(file0, acts, s) && s.wrote == [m, m]
    ensures Content(s.file) == Content(file0) + Line(m) + Line(m)
  {
    hide Grep, Leads, LinesOf, Waiting;
    acts, s := RacersLook(file0, m, v, w);
    acts, s := BlindAct(file0, acts, s, v, w, m);
    acts, s := BlindAct(file0, acts, s, w, w, m);
    FileOnlyGrows(file0, acts, s);
    TwoLines(Content(file0), m);
  }

  lemma ShopOn(file0: Option<string>, acts: seq<Move>, s: Shop, a: Move) returns (more: seq<Move>, t: Shop)
    requires Leads(file0, acts, s) && CanMove(s, a)
    ensures more == acts + [a] && t == Moved(s, a) && Leads(file0, more, t)
  {
    more, t := acts + [a], Moved(s, a);
    assert more[..|acts|] == acts;
  }

  // ---- the harness writes ----

  /** One dispatched command, from grep to answer, with nobody in between. */
  function Served(file: Option<string>, m: string): (Option<string>, nat) {
    if Grep(m, file) then (file, 0) else (Append(file, m), |m| + 1)
  }

  lemma ServedFacts(s: Shop, w: nat, m: string)
    requires '\n' !in m && w !in s.looked && Waiting(s, w) == []
    ensures CanMove(s, Put(w, m)) && CanMove(Moved(s, Put(w, m)), Look(w))
    ensures CanMove(Moved(Moved(s, Put(w, m)), Look(w)), Act(w))
    ensures var t := Moved(Moved(Moved(s, Put(w, m)), Look(w)), Act(w));
            (t.file, t.reported - s.reported) == Served(s.file, m) && t.handled == s.handled + [m]
  {
    hide Grep, Append;
  }

  /** It is the machine's `Put`, `Look` and `Act` by one writer that is not busy. */
  lemma ServedIsARun(file0: Option<string>, acts: seq<Move>, s: Shop, w: nat, m: string)
    requires Leads(file0, acts, s) && '\n' !in m && w !in s.looked && Waiting(s, w) == []
    ensures var more := acts + [Put(w, m)] + [Look(w)] + [Act(w)];
            && ShopAfter(file0, more).Some?
            && var t := ShopAfter(file0, more).value;
            && (t.file, t.reported - s.reported) == Served(s.file, m)
            && t.handled == s.handled + [m]
  {
    ServedFacts(s, w, m);
    hide Moved, CanMove, Served;
    var a1, s1 := ShopOn(file0, acts, s, Put(w, m));
    var a2, s2 := ShopOn(file0, a1, s1, Look(w));
    var a3, s3 := ShopOn(file0, a2, s2, Act(w));
  }

  function ServedAll(file: Option<string>, ms: seq<string>): (Option<string>, nat)
    decreases |ms|
  {
    if ms == [] then (file, 0)
    else
      var before := ServedAll(file, ms[..|ms| - 1]);
      var last := Served(before.0, ms[|ms| - 1]);
      (last.0, before.1 + last.1)
  }

  class Checkout {
    var file: Option<string>

    constructor (f: Option<string>)
      ensures file == f
    {
      file := f;
    }

    method Serve(m: string) returns (n: nat)
      modifies this
      ensures (file, n) == Served(old(file), m)
    {
      if file.Some? && file.value != "" && Contains(m, file.value) {
        n := 0;
      } else {
        file := Some((if file.Some? then file.value else "") + m + "\n");
        assert Content(old(file)) + m + "\n" == Content(old(file)) + Line(m);
        n := |m| + 1;
      }
    }

    /** One pass over the inbox. */
    method ServeInbox(cmds: seq<string>) returns (bytes: nat)
      modifies this
      ensures (file, bytes) == ServedAll(old(file), cmds)
    {
      bytes := 0;
      for i := 0 to |cmds|
        invariant (file, bytes) == ServedAll(old(file), cmds[..i])
      {
        assert cmds[..i + 1][..i] == cmds[..i];
        var n := Serve(cmds[i]);
        bytes := bytes + n;
      }
      assert cmds[..|cmds|] == cmds;
    }

    /** `Harness.Write`: the newest live writer that has passed its gate makes the edit and posts with its token. */
    method Write(h: Harness, path: string, m: string) returns (n: nat, status: nat)
      modifies this
      ensures var x := LiveWriter(h.View(), path);
              if x.Some? && x.value.key in h.gates then
                (file, n) == Served(old(file), m) && status == PostStatus(h.View(), x.value.token)
              else
                file == old(file) && n == 0 && status == 0
    {
      var x := h.FindLive(path);
      if x.None? || x.value.key !in h.gates { return 0, 0; }
      n := Serve(m);
      status := h.Post(x.value.token);
    }
  }
}
