/**
 * The machine that daemon/worktreesim/worktreesim.go runs crash recovery on: writers in checkouts, process groups,
 * records on disk, task tokens and lanes. Every action of the harness is taken apart into the steps between which
 * the daemon can be killed.
 */
module Worktree {
  import opened Options

  // ---- data model ----

  /** One attempt at a task. Records, gates and tokens are kept for each attempt. */
  datatype Key = Key(task: string, attempt: nat)

  datatype Writer = Writer(pgid: nat, key: Key, token: string)
  datatype Lane = Lane(path: string, attempt: nat)

  /** What lives on the machine and on its disk, whether a daemon runs or not. */
  datatype World = World(
    writers: map<string, seq<Writer>>,
    alive: set<nat>,
    gates: set<Key>,
    records: map<Key, nat>,
    tokens: map<Key, string>,
    revoked: set<string>,
    lanes: map<string, Lane>,
    next: nat)

  const EMPTY_WORLD := World(map[], {}, {}, map[], map[], {}, map[], 1)

  function Digit(d: nat): char
    requires d < 10
  {
    ('0' as int + d) as char
  }

  function Dec(n: nat): string {
    if n < 10 then [Digit(n)] else Dec(n / 10) + [Digit(n % 10)]
  }

  /** The token of an attempt, `ctk_<task>_<attempt>`. */
  function Ctk(k: Key): string {
    "ctk_" + k.task + "_" + Dec(k.attempt)
  }

  /** Every writer ever started in a checkout, oldest first. */
  function On(w: World, path: string): seq<Writer> {
    if path in w.writers then w.writers[path] else []
  }

  predicate IsAlive(w: World, x: Writer) {
    x.pgid in w.alive
  }

  /** The newest live writer among the first `n` of `ws`. */
  function LastLive(w: World, ws: seq<Writer>, n: nat): (r: Option<Writer>)
    requires n <= |ws|
    ensures r.Some? ==> r.value in ws[..n] && IsAlive(w, r.value)
    ensures r.None? ==> forall x :: x in ws[..n] ==> !IsAlive(w, x)
  {
    if n == 0 then None
    else if IsAlive(w, ws[n - 1]) then Some(ws[n - 1])
    else LastLive(w, ws, n - 1)
  }

  function LiveWriter(w: World, path: string): (r: Option<Writer>)
    ensures r.Some? ==> r.value in On(w, path) && IsAlive(w, r.value)
    ensures r.None? ==> forall x :: x in On(w, path) ==> !IsAlive(w, x)
  {
    var ws := On(w, path);
    assert ws[..|ws|] == ws;
    LastLive(w, ws, |ws|)
  }

  // ---- steps ----

  /** A new process group, parked at the gate of its attempt. */
  function Spawn(w: World, k: Key, path: string): World {
    w.(writers := w.writers[path := On(w, path) + [Writer(w.next, k, Ctk(k))]],
       alive := w.alive + {w.next},
       tokens := w.tokens[k := Ctk(k)],
       next := w.next + 1)
  }

  function RecordGroup(w: World, k: Key, pgid: nat): World {
    w.(records := w.records[k := pgid])
  }

  function OpenGate(w: World, k: Key): World {
    w.(gates := w.gates + {k})
  }

  function SetLane(w: World, task: string, lane: Lane): World {
    w.(lanes := w.lanes[task := lane])
  }

  function RecordedGroups(w: World): set<nat> {
    set k | k in w.records :: w.records[k]
  }

  /** `orphan.Store.Sweep`: every recorded group is dead afterwards, and all records are gone. */
  function Sweep(w: World): World {
    w.(alive := w.alive - RecordedGroups(w), records := map[])
  }

  /** How many of the recorded groups were alive. */
  function SweptAlive(w: World): nat {
    |set k | k in w.records && w.records[k] in w.alive|
  }

  function Requeued(w: World, task: string): World
    requires task in w.lanes
  {
    var lane := w.lanes[task];
    var k := Key(task, lane.attempt);
    w.(revoked := if k in w.tokens && w.tokens[k] != "" then w.revoked + {w.tokens[k]} else w.revoked,
       lanes := w.lanes[task := lane.(attempt := lane.attempt + 1)])
  }

  /** A lane is claimed when it was requeued and nobody lives in its checkout. */
  predicate Claimable(w: World, task: string)
    requires task in w.lanes
  {
    w.lanes[task].attempt >= 2 && LiveWriter(w, w.lanes[task].path).None?
  }

  function KeyOf(w: World, task: string): Key
    requires task in w.lanes
  {
    Key(task, w.lanes[task].attempt)
  }

  /** `Restart` for one lane: spawn, open the gate, and only then record. */
  function ClaimLane(w: World, task: string): World
    requires task in w.lanes
  {
    if !Claimable(w, task) then w
    else
      var k := KeyOf(w, task);
      RecordGroup(OpenGate(Spawn(w, k, w.lanes[task].path), k), k, w.next)
  }

  function ClaimAll(w: World, order: seq<string>): (r: World)
    requires forall t :: t in order ==> t in w.lanes
    ensures r.lanes == w.lanes
    decreases |order|
  {
    if order == [] then w
    else ClaimLane(ClaimAll(w, order[..|order| - 1]), order[|order| - 1])
  }

  /** `RestartClaimFirst` for one lane: no look at who lives there, and no record. */
  function ClaimFirstLane(w: World, task: string): World
    requires task in w.lanes
  {
    if w.lanes[task].attempt < 2 then w
    else OpenGate(Spawn(w, KeyOf(w, task), w.lanes[task].path), KeyOf(w, task))
  }

  function ClaimFirstAll(w: World, order: seq<string>): (r: World)
    requires forall t :: t in order ==> t in w.lanes
    ensures r.lanes == w.lanes
    decreases |order|
  {
    if order == [] then w
    else ClaimFirstLane(ClaimFirstAll(w, order[..|order| - 1]), order[|order| - 1])
  }

  /** The token check of the server: 401 for a revoked or empty token. */
  function PostStatus(w: World, token: string): nat {
    if token == "" || token in w.revoked then 401 else 200
  }

  // ---- the daemon on this machine ----

  datatype StartPc = Spawned | Recorded | Gated
  datatype Claim = Claim(task: string, pgid: nat, gated: bool)

  /** What the harness is in the middle of. */
  datatype Op =
    | Idle
    | Starting(key: Key, path: string, pgid: nat, pc: StartPc)
    | Claiming(todo: seq<string>, cur: Option<Claim>, survivors: set<nat>)

  /**
   * `parked` and `loose` are the writers whose start was cut off before they had a record: in a first attempt they
   * are parked at their gate, in a claim they may be at work.
   */
  datatype Machine = Machine(w: World, op: Op, parked: set<nat>, loose: set<nat>)

  const START := Machine(EMPTY_WORLD, Idle, {}, {})

  datatype Action =
    | BeginStart(task: string, path: string)
    | StartRecord
    | StartGate
    | StartDone
    | Requeue(task: string)
    | BeginRestart(order: seq<string>)
    | ClaimSkip
    | ClaimSpawn
    | ClaimGate
    | ClaimRecord
    | EndRestart
    | Dies(pgid: nat)
    | Crash

  predicate NoDuplicates(order: seq<string>) {
    forall i, j :: 0 <= i < j < |order| ==> order[i] != order[j]
  }

  /** Any order of the lanes may come out of the map. */
  predicate IsOrderOf(order: seq<string>, lanes: map<string, Lane>) {
    NoDuplicates(order) && (forall t :: t in order ==> t in lanes) && (forall t :: t in lanes ==> t in order)
  }

  predicate Enabled(m: Machine, a: Action) {
    match a
    case BeginStart(task, _) => m.op.Idle? && Key(task, 1) !in m.w.tokens
    case StartRecord => m.op.Starting? && m.op.pc == Spawned
    case StartGate => m.op.Starting? && m.op.pc == Recorded
    case StartDone => m.op.Starting? && m.op.pc == Gated
    case Requeue(task) => m.op.Idle? && task in m.w.lanes
    case BeginRestart(order) => m.op.Idle? && IsOrderOf(order, m.w.lanes)
    case ClaimSkip => m.op.Claiming? && m.op.cur.None? && m.op.todo != [] && m.op.todo[0] in m.w.lanes
                      && !Claimable(m.w, m.op.todo[0])
    case ClaimSpawn => m.op.Claiming? && m.op.cur.None? && m.op.todo != [] && m.op.todo[0] in m.w.lanes
                       && Claimable(m.w, m.op.todo[0])
    case ClaimGate => m.op.Claiming? && m.op.cur.Some? && !m.op.cur.value.gated && m.op.cur.value.task in m.w.lanes
    case ClaimRecord => m.op.Claiming? && m.op.cur.Some? && m.op.cur.value.gated && m.op.cur.value.task in m.w.lanes
    case EndRestart => m.op.Claiming? && m.op.cur.None? && m.op.todo == []
    case Dies(_) => true
    case Crash => true
  }

  function Do(m: Machine, a: Action): Machine
    requires Enabled(m, a)
  {
    match a
    case BeginStart(task, path) =>
      m.(w := Spawn(m.w, Key(task, 1), path), op := Starting(Key(task, 1), path, m.w.next, Spawned))
    case StartRecord => m.(w := RecordGroup(m.w, m.op.key, m.op.pgid), op := m.op.(pc := Recorded))
    case StartGate => m.(w := OpenGate(m.w, m.op.key), op := m.op.(pc := Gated))
    case StartDone => m.(w := SetLane(m.w, m.op.key.task, Lane(m.op.path, m.op.key.attempt)), op := Idle)
    case Requeue(task) => m.(w := Requeued(m.w, task))
    case BeginRestart(order) => m.(w := Sweep(m.w), op := Claiming(order, None, Sweep(m.w).alive))
    case ClaimSkip => m.(op := m.op.(todo := m.op.todo[1..]))
    case ClaimSpawn =>
      var t := m.op.todo[0];
      m.(w := Spawn(m.w, KeyOf(m.w, t), m.w.lanes[t].path),
         op := m.op.(todo := m.op.todo[1..], cur := Some(Claim(t, m.w.next, false))))
    case ClaimGate =>
      m.(w := OpenGate(m.w, KeyOf(m.w, m.op.cur.value.task)), op := m.op.(cur := Some(m.op.cur.value.(gated := true))))
    case ClaimRecord =>
      m.(w := RecordGroup(m.w, KeyOf(m.w, m.op.cur.value.task), m.op.cur.value.pgid), op := m.op.(cur := None))
    case EndRestart => m.(op := Idle)
    case Dies(pgid) => m.(w := m.w.(alive := m.w.alive - {pgid}))
    case Crash =>
      Machine(m.w, Idle,
              if m.op.Starting? && m.op.pc == Spawned then m.parked + {m.op.pgid} else m.parked,
              if m.op.Claiming? && m.op.cur.Some? then m.loose + {m.op.cur.value.pgid} else m.loose)
  }

  /** The machine after a run, if each action was possible when it was taken. */
  function After(acts: seq<Action>): Option<Machine>
    decreases |acts|
  {
    if acts == [] then Some(START)
    else
      var before := After(acts[..|acts| - 1]);
      var a := acts[|acts| - 1];
      if before.Some? && Enabled(before.value, a) then Some(Do(before.value, a)) else None
  }

  ghost predicate Reaches(acts: seq<Action>, m: Machine) {
    After(acts) == Some(m)
  }

  lemma RunOn(acts: seq<Action>, m: Machine, a: Action)
    requires Reaches(acts, m) && Enabled(m, a)
    ensures Reaches(acts + [a], Do(m, a))
  {
    assert (acts + [a])[..|acts|] == acts;
  }

  /** Somebody was started and has no record yet. */
  predicate Unfinished(op: Op) {
    (op.Starting? && op.pc == Spawned) || (op.Claiming? && op.cur.Some?)
  }

  /** The daemon is never killed between a spawn and its record; anywhere else it may be. */
  ghost predicate CleanKills(acts: seq<Action>) {
    forall n :: 0 <= n < |acts| && acts[n].Crash? && After(acts[..n]).Some? ==> !Unfinished(After(acts[..n]).value.op)
  }

  ghost predicate CleanlyReaches(acts: seq<Action>, m: Machine) {
    Reaches(acts, m) && CleanKills(acts)
  }

  lemma CleanlyOn(acts: seq<Action>, m: Machine, a: Action)
    requires CleanlyReaches(acts, m) && Enabled(m, a) && (a.Crash? ==> !Unfinished(m.op))
    ensures CleanlyReaches(acts + [a], Do(m, a))
  {
    RunOn(acts, m, a);
    var all := acts + [a];
    forall n | 0 <= n < |all| && all[n].Crash? && After(all[..n]).Some? ensures !Unfinished(After(all[..n]).value.op) {
      assert n < |acts| ==> all[..n] == acts[..n];
      assert n == |acts| ==> all[..n] == acts;
    }
  }

  // ---- the harness ----

  class Harness {
    var writers: map<string, seq<Writer>>
    var alive: set<nat>
    var gates: set<Key>
    var records: map<Key, nat>
    var tokens: map<Key, string>
    var revoked: set<string>
    var lanes: map<string, Lane>
    var next: nat
    /** The steps that the methods took, and what was left behind by crashes. */
    ghost var acts: seq<Action>
    ghost var parked: set<nat>
    ghost var loose: set<nat>

    ghost function View(): World
      reads this
    {
      World(writers, alive, gates, records, tokens, revoked, lanes, next)
    }

    /** Between calls the harness is in a state that a run of the machine reaches, without a kill between a spawn and its record. */
    ghost predicate Valid()
      reads this
    {
      CleanlyReaches(acts, Machine(View(), Idle, parked, loose))
    }

    constructor ()
      ensures Valid() && View() == EMPTY_WORLD && acts == []
    {
      writers, alive, gates, records := map[], {}, {}, map[];
      tokens, revoked, lanes, next := map[], {}, map[], 1;
      acts, parked, loose := [], {}, {};
    }

    method SpawnWriter(k: Key, path: string) returns (pgid: nat)
      modifies this`writers, this`alive, this`tokens, this`next
      ensures View() == Spawn(old(View()), k, path) && pgid == old(next)
    {
      pgid := next;
      var ws := if path in writers then writers[path] else [];
      writers := writers[path := ws + [Writer(pgid, k, Ctk(k))]];
      alive := alive + {pgid};
      tokens := tokens[k := Ctk(k)];
      next := next + 1;
    }

    method FindLive(path: string) returns (r: Option<Writer>)
      ensures r == LiveWriter(View(), path)
    {
      var ws := if path in writers then writers[path] else [];
      assert ws == On(View(), path);
      assert ws[..|ws|] == ws;
      var i := |ws|;
      while i > 0
        invariant 0 <= i <= |ws|
        invariant LastLive(View(), ws, i) == LastLive(View(), ws, |ws|)
      {
        if ws[i - 1].pgid in alive { return Some(ws[i - 1]); }
        i := i - 1;
      }
      return None;
    }

    /**
     * Any attempt: the record is on disk before the gate opens. The runs of the machine begin with first attempts, so
     * the harness stays `Valid` when this is one.
     */
    method StartAttempt(task: string, attempt: nat, path: string) returns (pgid: nat)
      modifies this
      ensures var k := Key(task, attempt);
              View() == SetLane(OpenGate(RecordGroup(Spawn(old(View()), k, path), k, pgid), k), task, Lane(path, attempt))
      ensures pgid == old(next) && parked == old(parked) && loose == old(loose)
      ensures old(Valid()) && attempt == 1 && Key(task, 1) !in old(tokens) ==>
                Valid() && acts == old(acts) + [BeginStart(task, path), StartRecord, StartGate, StartDone]
    {
      hide CleanlyReaches, Ctk, Do, Enabled;
      ghost var m0 := Machine(View(), Idle, parked, loose);
      if Valid() && attempt == 1 && Key(task, 1) !in tokens {
        RunStart(acts, m0, task, path);
        acts := acts + [BeginStart(task, path), StartRecord, StartGate, StartDone];
      }
      var k := Key(task, attempt);
      pgid := SpawnWriter(k, path);
      records := records[k := pgid];
      gates := gates + {k};
      lanes := lanes[task := Lane(path, attempt)];
    }

    /** The daemon dies. Disk and processes stay as they are; the answer is a group that still runs, if any does. */
    method KillDaemon() returns (survivor: Option<nat>)
      requires Valid()
      modifies this`acts
      ensures Valid() && View() == old(View()) && acts == old(acts) + [Crash]
      ensures survivor.Some? ==> exists p, x :: p in writers && x in writers[p] && x.pgid == survivor.value && x.pgid in alive
      ensures survivor.None? ==> forall p, x :: p in writers && x in writers[p] ==> x.pgid !in alive
    {
      survivor := None;
      var paths := writers.Keys;
      while paths != {} && survivor.None?
        invariant paths <= writers.Keys
        invariant acts == old(acts)
        invariant survivor.None? ==> forall p, x :: p in writers && p !in paths && x in writers[p] ==> x.pgid !in alive
        invariant survivor.Some? ==> exists p, x :: p in writers && x in writers[p] && x.pgid == survivor.value && x.pgid in alive
        decreases |paths|
      {
        var p :| p in paths;
        var r := FindLive(p);
        assert forall x :: x in writers[p] && r.None? ==> !IsAlive(View(), x);
        if r.Some? { survivor := Some(r.value.pgid); }
        paths := paths - {p};
      }
      CleanlyOn(acts, Machine(View(), Idle, parked, loose), Crash);
      acts := acts + [Crash];
    }

    method RequeueTask(task: string) returns (ok: bool, hadToken: bool)
      requires Valid()
      modifies this
      ensures Valid() && ok == (task in old(lanes))
      ensures View() == if ok then Requeued(old(View()), task) else old(View())
      ensures acts == if ok then old(acts) + [Requeue(task)] else old(acts)
      ensures ok ==> hadToken == (KeyOf(old(View()), task) in old(tokens) && old(tokens)[KeyOf(old(View()), task)] != "")
    {
      if task !in lanes { return false, false; }
      CleanlyOn(acts, Machine(View(), Idle, parked, loose), Requeue(task));
      acts := acts + [Requeue(task)];
      var lane := lanes[task];
      var k := Key(task, lane.attempt);
      var tok := if k in tokens then tokens[k] else "";
      if tok != "" { revoked := revoked + {tok}; }
      lanes := lanes[task := lane.(attempt := lane.attempt + 1)];
      return true, tok != "";
    }

    /** `store.Sweep()`: the number of recorded groups that were still alive. */
    method SweepStore() returns (killed: nat)
      modifies this`alive, this`records
      ensures View() == Sweep(old(View())) && killed == SweptAlive(old(View()))
    {
      killed := |set k | k in records && records[k] in alive|;
      alive := alive - set k | k in records :: records[k];
      records := map[];
    }

    /** Lines 515-535: one lane of the claim. */
    method ClaimOne(task: string, ghost rest: seq<string>, ghost survivors: set<nat>)
      requires task in lanes
      requires CleanlyReaches(acts, Machine(View(), Claiming([task] + rest, None, survivors), parked, loose))
      modifies this
      ensures View() == ClaimLane(old(View()), task) && parked == old(parked) && loose == old(loose)
      ensures CleanlyReaches(acts, Machine(View(), Claiming(rest, None, survivors), parked, loose))
    {
      hide CleanlyReaches, Do, Enabled;
      ghost var m := Machine(View(), Claiming([task] + rest, None, survivors), parked, loose);
      assert ([task] + rest)[0] == task && ([task] + rest)[1..] == rest;
      var l := lanes[task];
      var live := FindLive(l.path);
      if l.attempt < 2 || live.Some? {
        RunSkip(acts, m);
        acts := acts + [ClaimSkip];
        return;
      }
      RunClaim(acts, m);
      acts := acts + [ClaimSpawn, ClaimGate, ClaimRecord];
      var k := Key(task, l.attempt);
      var pgid := SpawnWriter(k, l.path);
      gates := gates + {k};
      records := records[k := pgid];
    }

    /** Kill orphans, then claim. `order` is the order in which the lanes come out of the map. */
    method Restart(order: seq<string>) returns (killed: nat)
      requires Valid() && IsOrderOf(order, lanes)
      modifies this
      ensures Valid()
      ensures killed == SweptAlive(old(View()))
      ensures View() == ClaimAll(Sweep(old(View())), order)
    {
      hide ClaimLane, Do, CleanlyReaches;
      ghost var swept := Sweep(View());
      BeginRestartRun(acts, Machine(View(), Idle, parked, loose), order);
      acts := acts + [BeginRestart(order)];
      killed := SweepStore();
      assert order[0..] == order && order[..0] == [];
      for i := 0 to |order|
        invariant View() == ClaimAll(swept, order[..i])
        invariant CleanlyReaches(acts, Machine(View(), Claiming(order[i..], None, swept.alive), parked, loose))
      {
        assert order[..i + 1][..i] == order[..i] && order[..i + 1][i] == order[i];
        assert order[i..] == [order[i]] + order[i + 1..];
        ClaimOne(order[i], order[i + 1..], swept.alive);
      }
      assert order[..|order|] == order && order[|order|..] == [];
      EndRestartRun(acts, Machine(View(), Claiming([], None, swept.alive), parked, loose));
      acts := acts + [EndRestart];
    }

    /** The injected regression: claim first, kill afterwards. `window` is the world between the two. */
    method RestartClaimFirst(order: seq<string>) returns (killed: nat, ghost window: World)
      requires IsOrderOf(order, lanes)
      modifies this
      ensures window == ClaimFirstAll(old(View()), order)
      ensures View() == Sweep(window) && killed == SweptAlive(window)
    {
      for i := 0 to |order|
        invariant lanes == old(lanes)
        invariant View() == ClaimFirstAll(old(View()), order[..i])
      {
        assert order[..i + 1][..i] == order[..i] && order[..i + 1][i] == order[i];
        var l := lanes[order[i]];
        if l.attempt >= 2 {
          var k := Key(order[i], l.attempt);
          var _ := SpawnWriter(k, l.path);
          gates := gates + {k};
        }
      }
      assert order[..|order|] == order;
      window := View();
      killed := SweepStore();
    }

    method Post(token: string) returns (status: nat)
      ensures status == PostStatus(View(), token)
    {
      status := if token == "" || token in revoked then 401 else 200;
    }
  }

  lemma BeginRestartRun(acts: seq<Action>, m: Machine, order: seq<string>)
    requires CleanlyReaches(acts, m) && m.op == Idle && IsOrderOf(order, m.w.lanes)
    ensures CleanlyReaches(acts + [BeginRestart(order)], m.(w := Sweep(m.w), op := Claiming(order, None, Sweep(m.w).alive)))
  {
    CleanlyOn(acts, m, BeginRestart(order));
  }

  lemma EndRestartRun(acts: seq<Action>, m: Machine)
    requires CleanlyReaches(acts, m) && Enabled(m, EndRestart)
    ensures CleanlyReaches(acts + [EndRestart], m.(op := Idle))
  {
    CleanlyOn(acts, m, EndRestart);
  }

  lemma RunStart(acts: seq<Action>, m: Machine, task: string, path: string)
    requires CleanlyReaches(acts, m) && m.op == Idle && Key(task, 1) !in m.w.tokens
    ensures var k := Key(task, 1);
            var w := SetLane(OpenGate(RecordGroup(Spawn(m.w, k, path), k, m.w.next), k), task, Lane(path, 1));
            CleanlyReaches(acts + [BeginStart(task, path), StartRecord, StartGate, StartDone], m.(w := w))
  {
    var m1 := Do(m, BeginStart(task, path));
    CleanlyOn(acts, m, BeginStart(task, path));
    CleanlyOn(acts + [BeginStart(task, path)], m1, StartRecord);
    var m2 := Do(m1, StartRecord);
    CleanlyOn(acts + [BeginStart(task, path)] + [StartRecord], m2, StartGate);
    var m3 := Do(m2, StartGate);
    CleanlyOn(acts + [BeginStart(task, path)] + [StartRecord] + [StartGate], m3, StartDone);
    assert acts + [BeginStart(task, path)] + [StartRecord] + [StartGate] + [StartDone]
        == acts + [BeginStart(task, path), StartRecord, StartGate, StartDone];
  }

  lemma RunSkip(acts: seq<Action>, m: Machine)
    requires CleanlyReaches(acts, m) && m.op.Claiming? && m.op.cur.None? && m.op.todo != []
    requires m.op.todo[0] in m.w.lanes && !Claimable(m.w, m.op.todo[0])
    ensures CleanlyReaches(acts + [ClaimSkip], m.(op := m.op.(todo := m.op.todo[1..])))
  {
    CleanlyOn(acts, m, ClaimSkip);
  }

  lemma RunClaim(acts: seq<Action>, m: Machine)
    requires CleanlyReaches(acts, m) && m.op.Claiming? && m.op.cur.None? && m.op.todo != []
    requires m.op.todo[0] in m.w.lanes && Claimable(m.w, m.op.todo[0])
    ensures CleanlyReaches(acts + [ClaimSpawn, ClaimGate, ClaimRecord],
                    m.(w := ClaimLane(m.w, m.op.todo[0]), op := m.op.(todo := m.op.todo[1..])))
  {
    var m1 := Do(m, ClaimSpawn);
    CleanlyOn(acts, m, ClaimSpawn);
    CleanlyOn(acts + [ClaimSpawn], m1, ClaimGate);
    var m2 := Do(m1, ClaimGate);
    CleanlyOn(acts + [ClaimSpawn] + [ClaimGate], m2, ClaimRecord);
    assert acts + [ClaimSpawn] + [ClaimGate] + [ClaimRecord] == acts + [ClaimSpawn, ClaimGate, ClaimRecord];
  }
}
