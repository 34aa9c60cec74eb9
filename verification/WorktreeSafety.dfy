/** What every run of the machine keeps, for all interleavings of attempts, requeues, restarts, deaths and crashes. */
module WorktreeSafety {
  import opened Options
  import opened Worktree

  // ---- the text of a token names one attempt ----

  lemma {:induction false} DecHasNoUnderscore(n: nat)
    ensures forall c :: c in Dec(n) ==> c != '_'
    ensures Dec(n) != ""
  {
    if n >= 10 { DecHasNoUnderscore(n / 10); }
  }

  lemma {:induction false} DecIsInjective(m: nat, n: nat)
    requires Dec(m) == Dec(n)
    ensures m == n
  {
    assert Dec(m)[|Dec(m)| - 1] == Digit(m % 10) && Dec(n)[|Dec(n)| - 1] == Digit(n % 10);
    if m >= 10 {
      assert Dec(m)[..|Dec(m)| - 1] == Dec(m / 10) && Dec(n)[..|Dec(n)| - 1] == Dec(n / 10);
      DecIsInjective(m / 10, n / 10);
    }
  }

  lemma LongerTaskHoldsUnderscore(a: string, b: string, x: string, y: string)
    requires a + "_" + x == b + "_" + y && |a| < |b|
    ensures '_' in x
  {
    var s, t := a + "_" + x, b + "_" + y;
    assert t[|b|] == '_' && s[|b|] == x[|b| - |a| - 1];
  }

  lemma UnderscoreEndsTheTask(a: string, b: string, x: string, y: string)
    requires a + "_" + x == b + "_" + y
    requires (forall c :: c in x ==> c != '_') && (forall c :: c in y ==> c != '_')
    ensures a == b && x == y
  {
    if |a| < |b| { LongerTaskHoldsUnderscore(a, b, x, y); }
    if |b| < |a| { LongerTaskHoldsUnderscore(b, a, y, x); }
    var s, t := a + "_" + x, b + "_" + y;
    assert s[..|a|] == a && t[..|b|] == b;
    assert s[|a| + 1..] == x && t[|b| + 1..] == y;
  }

  /** Even with underscores in task names no two attempts share a token. */
  lemma CtkIsInjective(k: Key, l: Key)
    requires Ctk(k) == Ctk(l)
    ensures k == l
  {
    DecHasNoUnderscore(k.attempt);
    DecHasNoUnderscore(l.attempt);
    UnderscoreEndsTheTask("ctk_" + k.task, "ctk_" + l.task, Dec(k.attempt), Dec(l.attempt));
    assert ("ctk_" + k.task)[4..] == k.task && ("ctk_" + l.task)[4..] == l.task;
    DecIsInjective(k.attempt, l.attempt);
  }

  lemma CtkIsNotEmpty(k: Key)
    ensures Ctk(k) != ""
  {
  }

  // ---- the invariant ----

  ghost predicate Runs(w: World, p: string, x: Writer) {
    x in On(w, p) && x.pgid in w.alive
  }

  /** Two live writers share the checkout. */
  ghost predicate TwoLive(w: World, p: string) {
    exists x, y :: Runs(w, p, x) && Runs(w, p, y) && x.pgid != y.pgid
  }

  /** Writers, groups, tokens and lanes fit together. */
  ghost predicate Consistent(w: World) {
    && w.next >= 1
    && (forall p, x :: x in On(w, p) ==>
          1 <= x.pgid < w.next && x.token == Ctk(x.key) && x.key in w.tokens && x.key.attempt >= 1)
    && (forall p, q, x, y :: x in On(w, p) && y in On(w, q) && x.pgid == y.pgid ==> p == q && x == y)
    && (forall k :: k in w.tokens ==> w.tokens[k] == Ctk(k) && k.attempt >= 1)
    && (forall k :: k in w.tokens && k.task !in w.lanes ==> k.attempt == 1)
    && (forall k :: k in w.tokens && k.task in w.lanes ==> k.attempt <= w.lanes[k.task].attempt)
    && (forall t :: t in w.lanes ==> w.lanes[t].attempt >= 1 && Key(t, 1) in w.tokens)
    && (forall p, x :: x in On(w, p) && x.key.task in w.lanes ==> w.lanes[x.key.task].path == p)
  }

  /** A token is revoked exactly when its attempt was started and is not the lane's current one. */
  ghost predicate TokensRevoked(w: World) {
    forall k: Key :: Ctk(k) in w.revoked <==> k in w.tokens && k.task in w.lanes && k.attempt < w.lanes[k.task].attempt
  }

  /** The group whose start or claim is under way and not yet recorded. */
  function InFlight(op: Op): Option<nat> {
    match op
    case Starting(_, _, pgid, Spawned) => Some(pgid)
    case Claiming(_, Some(c), _) => Some(c.pgid)
    case _ => None
  }

  ghost predicate RecordedWriter(w: World, x: Writer) {
    x.key in w.records && w.records[x.key] == x.pgid
  }

  /** A live writer without a record is in flight or was left behind by a crash. */
  ghost predicate RecordsKept(m: Machine) {
    forall p, x :: Runs(m.w, p, x) ==>
      RecordedWriter(m.w, x) || InFlight(m.op) == Some(x.pgid) || x.pgid in m.parked || x.pgid in m.loose
  }

  ghost predicate OneLivePerAttempt(w: World) {
    forall p, q, x, y :: Runs(w, p, x) && Runs(w, q, y) && x.key == y.key ==> x.pgid == y.pgid
  }

  /** Who was parked stays parked: its gate never opens. */
  ghost predicate ParkedWaits(m: Machine) {
    && (forall p, x :: x in On(m.w, p) && x.pgid in m.parked ==>
          x.key.attempt == 1 && x.key !in m.w.gates && x.key.task !in m.w.lanes)
    && (forall k :: k in m.w.gates ==> k in m.w.tokens)
  }

  /** What is under way fits the world. */
  ghost predicate OpFits(m: Machine) {
    match m.op
    case Idle => true
    case Starting(k, p, pgid, pc) =>
      && k.attempt == 1 && k.task !in m.w.lanes && k in m.w.tokens
      && (exists x :: x in On(m.w, p) && x.pgid == pgid && x.key == k)
      && (forall q, x :: x in On(m.w, q) && x.key == k ==> x.pgid == pgid && q == p)
      && (pc == Spawned ==> k !in m.w.gates && pgid !in m.parked)
      && (pc == Recorded ==> k !in m.w.gates)
      && (pc != Spawned ==> k in m.w.records && m.w.records[k] == pgid)
      && pgid !in m.parked
    case Claiming(todo, cur, survivors) =>
      && (forall t :: t in todo ==> t in m.w.lanes)
      && (cur.Some? ==>
            && cur.value.task in m.w.lanes && m.w.lanes[cur.value.task].attempt >= 2
            && (exists x :: x in On(m.w, m.w.lanes[cur.value.task].path) && x.pgid == cur.value.pgid
                            && x.key == KeyOf(m.w, cur.value.task))
            && (forall p, x :: Runs(m.w, p, x) && x.key == KeyOf(m.w, cur.value.task) ==> x.pgid == cur.value.pgid))
  }

  /** All groups that are remembered were started. */
  ghost predicate PastGroups(m: Machine) {
    && (forall g :: g in m.parked || g in m.loose ==> g < m.w.next)
    && (m.op.Claiming? ==> forall g :: g in m.op.survivors ==> g < m.w.next)
    && (forall g :: g in m.w.alive ==> g < m.w.next)
    && (forall p, x :: x in On(m.w, p) ==> x.pgid < m.w.next)
  }

  /** In the claim phase two writers can only live together if both survived the sweep. */
  ghost predicate ClaimIsExclusive(m: Machine) {
    m.op.Claiming? ==>
      && (forall p, x, y :: Runs(m.w, p, x) && Runs(m.w, p, y) && x.pgid != y.pgid ==>
            x.pgid in m.op.survivors && y.pgid in m.op.survivors)
      && (forall p, x :: x in On(m.w, p) && x.pgid in m.op.survivors ==> x.pgid in m.parked || x.pgid in m.loose)
  }

  ghost predicate Inv(m: Machine) {
    && Consistent(m.w) && TokensRevoked(m.w) && RecordsKept(m) && OneLivePerAttempt(m.w)
    && ParkedWaits(m) && OpFits(m) && ClaimIsExclusive(m) && PastGroups(m)
  }

  // ---- each step keeps it ----

  predicate Spawns(a: Action) {
    a.BeginStart? || a.ClaimSpawn?
  }

  function SpawnKey(m: Machine, a: Action): Key
    requires Enabled(m, a) && Spawns(a)
  {
    if a.BeginStart? then Key(a.task, 1) else KeyOf(m.w, m.op.todo[0])
  }

  function SpawnPath(m: Machine, a: Action): string
    requires Enabled(m, a) && Spawns(a)
  {
    if a.BeginStart? then a.path else m.w.lanes[m.op.todo[0]].path
  }

  /** What a step that spawns does to the writers. */
  lemma SpawnAdds(m: Machine, a: Action)
    requires Enabled(m, a) && Spawns(a)
    ensures var w, k, path := Do(m, a).w, SpawnKey(m, a), SpawnPath(m, a);
            var x0 := Writer(m.w.next, k, Ctk(k));
            && w == Spawn(m.w, k, path)
            && (forall p, x :: x in On(w, p) <==> x in On(m.w, p) || (p == path && x == x0))
            && (forall p, x :: Runs(w, p, x) ==> Runs(m.w, p, x) || (p == path && x == x0) || x.pgid == m.w.next)
            && x0 in On(w, path)
  {
  }

  lemma OtherStepsKeepWriters(m: Machine, a: Action)
    requires Enabled(m, a) && !Spawns(a)
    ensures var w := Do(m, a).w;
            && (forall p :: On(w, p) == On(m.w, p))
            && (forall p, x :: Runs(w, p, x) ==> Runs(m.w, p, x))
            && w.next == m.w.next && w.tokens == m.w.tokens && w.alive <= m.w.alive
  {
  }

  lemma SpawnFits(m: Machine, a: Action)
    requires Inv(m) && Enabled(m, a) && Spawns(a)
    ensures var k, path := SpawnKey(m, a), SpawnPath(m, a);
            && k.attempt >= 1
            && (k.task in m.w.lanes ==> m.w.lanes[k.task].path == path && k.attempt == m.w.lanes[k.task].attempt)
            && (k.task !in m.w.lanes ==> k.attempt == 1)
            && (a.BeginStart? ==> k !in m.w.tokens && k.task !in m.w.lanes)
            && (a.ClaimSpawn? ==> k.attempt >= 2 && forall x :: !Runs(m.w, path, x))
  {
    hide On, Ctk, TokensRevoked, RecordsKept, OneLivePerAttempt, ParkedWaits, ClaimIsExclusive;
  }

  lemma SpawnKeepsConsistent(w: World, v: World, k: Key, path: string)
    requires Consistent(w) && v == Spawn(w, k, path)
    requires k.attempt >= 1
    requires k.task in w.lanes ==> w.lanes[k.task].path == path && k.attempt == w.lanes[k.task].attempt
    requires k.task !in w.lanes ==> k.attempt == 1
    requires forall p, x :: x in On(v, p) <==> x in On(w, p) || (p == path && x == Writer(w.next, k, Ctk(k)))
    ensures Consistent(v)
  {
    hide On, Ctk;
  }

  lemma DoneKeepsConsistent(m: Machine)
    requires Inv(m) && Enabled(m, StartDone)
    ensures Consistent(Do(m, StartDone).w)
  {
    hide On, Ctk, TokensRevoked, RecordsKept, OneLivePerAttempt, ParkedWaits, ClaimIsExclusive, Claimable, PastGroups;
    OtherStepsKeepWriters(m, StartDone);
  }

  lemma QuietKeepsConsistent(m: Machine, a: Action)
    requires Inv(m) && Enabled(m, a) && !Spawns(a) && !a.StartDone?
    ensures Consistent(Do(m, a).w)
  {
    hide On, Ctk, TokensRevoked, RecordsKept, OneLivePerAttempt, ParkedWaits, ClaimIsExclusive, Claimable, PastGroups, OpFits;
    OtherStepsKeepWriters(m, a);
  }

  lemma KeepsConsistent(m: Machine, a: Action)
    requires Inv(m) && Enabled(m, a)
    ensures Consistent(Do(m, a).w)
  {
    if Spawns(a) {
      SpawnFits(m, a);
      SpawnAdds(m, a);
      SpawnKeepsConsistent(m.w, Do(m, a).w, SpawnKey(m, a), SpawnPath(m, a));
    } else if a.StartDone? {
      DoneKeepsConsistent(m);
    } else {
      QuietKeepsConsistent(m, a);
    }
    hide *;
  }

  lemma KeepsTokensRevoked(m: Machine, a: Action)
    requires Inv(m) && Enabled(m, a)
    ensures TokensRevoked(Do(m, a).w)
  {
    hide On, Ctk, RecordsKept, OneLivePerAttempt, ParkedWaits, ClaimIsExclusive, Claimable, PastGroups;
    forall k: Key, l: Key ensures Ctk(k) == Ctk(l) ==> k == l { if Ctk(k) == Ctk(l) { CtkIsInjective(k, l); } }
    forall k ensures Ctk(k) != "" { CtkIsNotEmpty(k); }
  }

  lemma KeepsOneLive(m: Machine, a: Action)
    requires Inv(m) && Enabled(m, a)
    ensures OneLivePerAttempt(Do(m, a).w)
  {
    hide On, Ctk, TokensRevoked, RecordsKept, ParkedWaits, ClaimIsExclusive, Claimable;
    if Spawns(a) {
      SpawnFits(m, a);
      SpawnAdds(m, a);
      hide Do, Enabled, OpFits;
    } else {
      OtherStepsKeepWriters(m, a);
      hide Do;
    }
  }

  lemma KeepsRecords(m: Machine, a: Action)
    requires Inv(m) && Enabled(m, a)
    ensures RecordsKept(Do(m, a))
  {
    hide On, Ctk, TokensRevoked, ParkedWaits, ClaimIsExclusive, Claimable, OneLivePerAttempt;
    if Spawns(a) {
      SpawnFits(m, a);
      SpawnAdds(m, a);
    } else {
      OtherStepsKeepWriters(m, a);
    }
  }

  lemma KeepsParked(m: Machine, a: Action)
    requires Inv(m) && Enabled(m, a)
    ensures ParkedWaits(Do(m, a))
  {
    hide On, Ctk, TokensRevoked, RecordsKept, OneLivePerAttempt, ClaimIsExclusive, Claimable;
    if Spawns(a) {
      SpawnFits(m, a);
      SpawnAdds(m, a);
    } else {
      OtherStepsKeepWriters(m, a);
    }
  }

  lemma KeepsOp(m: Machine, a: Action)
    requires Inv(m) && Enabled(m, a)
    ensures OpFits(Do(m, a))
  {
    hide On, Ctk, TokensRevoked, RecordsKept, OneLivePerAttempt, ClaimIsExclusive, Claimable;
    if Spawns(a) {
      SpawnFits(m, a);
      SpawnAdds(m, a);
    } else {
      OtherStepsKeepWriters(m, a);
    }
  }

  lemma SpawnKeepsClaim(m: Machine)
    requires Inv(m) && Enabled(m, ClaimSpawn)
    ensures ClaimIsExclusive(Do(m, ClaimSpawn))
  {
    hide On, Ctk, Consistent, TokensRevoked, RecordsKept, OneLivePerAttempt, ParkedWaits, OpFits, Claimable;
    SpawnFits(m, ClaimSpawn);
    SpawnAdds(m, ClaimSpawn);
  }

  lemma RestartKeepsClaim(m: Machine, order: seq<string>)
    requires Inv(m) && Enabled(m, BeginRestart(order))
    ensures ClaimIsExclusive(Do(m, BeginRestart(order)))
  {
    hide On, Ctk, Consistent, TokensRevoked, RecordsKept, OneLivePerAttempt, ParkedWaits, OpFits, Claimable, PastGroups;
    OtherStepsKeepWriters(m, BeginRestart(order));
    SurvivorsWereCutOff(m, order);
  }

  lemma KeepsClaim(m: Machine, a: Action)
    requires Inv(m) && Enabled(m, a)
    ensures ClaimIsExclusive(Do(m, a))
  {
    hide On, Ctk, Consistent, TokensRevoked, RecordsKept, OneLivePerAttempt, ParkedWaits, OpFits, Claimable, PastGroups;
    if a.ClaimSpawn? {
      SpawnKeepsClaim(m);
    } else if a.BeginRestart? {
      RestartKeepsClaim(m, a.order);
    } else if !a.BeginStart? {
      OtherStepsKeepWriters(m, a);
    }
  }

  lemma SurvivorsWereCutOff(m: Machine, order: seq<string>)
    requires Inv(m) && Enabled(m, BeginRestart(order))
    ensures forall p, x :: x in On(m.w, p) && x.pgid in Sweep(m.w).alive ==> x.pgid in m.parked || x.pgid in m.loose
  {
    hide On, Ctk, Consistent, TokensRevoked, OneLivePerAttempt, ParkedWaits, OpFits, ClaimIsExclusive, PastGroups;
    forall p, x | x in On(m.w, p) && x.pgid in Sweep(m.w).alive ensures x.pgid in m.parked || x.pgid in m.loose {
      assert Runs(m.w, p, x);
      assert x.key in m.w.records ==> m.w.records[x.key] in RecordedGroups(m.w);
    }
  }

  lemma KeepsPast(m: Machine, a: Action)
    requires Inv(m) && Enabled(m, a)
    ensures PastGroups(Do(m, a))
  {
    hide On, Ctk, TokensRevoked, OneLivePerAttempt, ParkedWaits, RecordsKept, Claimable;
    if Spawns(a) {
      SpawnAdds(m, a);
    } else {
      OtherStepsKeepWriters(m, a);
    }
  }

  lemma {:induction false} EveryRunKeepsInv(acts: seq<Action>, m: Machine)
    requires Reaches(acts, m)
    ensures Inv(m)
    decreases |acts|
  {
    hide Inv, Do, Enabled;
    if acts == [] {
      StartIsInv();
    } else {
      var before := After(acts[..|acts| - 1]).value;
      EveryRunKeepsInv(acts[..|acts| - 1], before);
      StepKeepsInv(before, acts[|acts| - 1]);
    }
  }

  lemma StartIsInv()
    ensures Inv(START)
  {
    assert forall p :: On(EMPTY_WORLD, p) == [];
  }

  lemma StepKeepsInv(m: Machine, a: Action)
    requires Inv(m) && Enabled(m, a)
    ensures Inv(Do(m, a))
  {
    KeepsConsistent(m, a);
    KeepsTokensRevoked(m, a);
    KeepsOneLive(m, a);
    KeepsRecords(m, a);
    KeepsParked(m, a);
    KeepsOp(m, a);
    KeepsClaim(m, a);
    KeepsPast(m, a);
    hide Do, Enabled, Consistent, TokensRevoked, RecordsKept, OneLivePerAttempt, ParkedWaits, OpFits, ClaimIsExclusive, PastGroups;
  }

  // ---- kill, then claim ----

  /**
   * Whatever order the lanes come in and however many share a checkout, two writers live in one checkout during the
   * claim phase only if both were cut off from their records by crashes and survived the sweep.
   */
  lemma ClaimPhaseIsExclusive(acts: seq<Action>, m: Machine, p: string, x: Writer, y: Writer)
    requires Reaches(acts, m) && m.op.Claiming?
    requires Runs(m.w, p, x) && Runs(m.w, p, y) && x.pgid != y.pgid
    ensures x.pgid in m.op.survivors && y.pgid in m.op.survivors
    ensures (x.pgid in m.parked || x.pgid in m.loose) && (y.pgid in m.parked || y.pgid in m.loose)
  {
    EveryRunKeepsInv(acts, m);
  }

  /** Whoever is killed cleanly leaves nobody behind. */
  lemma {:induction false} NobodyLeftBehind(acts: seq<Action>, m: Machine)
    requires CleanlyReaches(acts, m)
    ensures m.parked == {} && m.loose == {}
    decreases |acts|
  {
    if acts != [] {
      var n := |acts| - 1;
      var before := After(acts[..n]).value;
      assert forall k :: 0 <= k <= n ==> acts[..n][..k] == acts[..k];
      NobodyLeftBehind(acts[..n], before);
    }
  }

  /** With clean kills every live writer has its record, but for the one being started or claimed. */
  lemma EveryWriterIsRecorded(acts: seq<Action>, m: Machine, p: string, x: Writer)
    requires CleanlyReaches(acts, m) && Runs(m.w, p, x)
    ensures RecordedWriter(m.w, x) || InFlight(m.op) == Some(x.pgid)
  {
    NobodyLeftBehind(acts, m);
    EveryRunKeepsInv(acts, m);
  }

  /**
   * Kill, then claim: however often the daemon is killed outside the moment between a spawn and its record, no claim
   * phase ever has two live writers in a checkout. The methods of the harness make such runs only.
   */
  lemma KillThenClaimIsSafe(acts: seq<Action>, m: Machine, p: string)
    requires CleanlyReaches(acts, m) && m.op.Claiming?
    ensures !TwoLive(m.w, p)
  {
    NobodyLeftBehind(acts, m);
    if TwoLive(m.w, p) {
      var x, y :| Runs(m.w, p, x) && Runs(m.w, p, y) && x.pgid != y.pgid;
      ClaimPhaseIsExclusive(acts, m, p, x, y);
    }
  }

  /** The run from a first attempt through a kill and a requeue to the claim of the second attempt is such a run. */
  lemma KilledAndRequeuedIsClean(task: string, path: string) returns (acts: seq<Action>, m: Machine)
    ensures acts == [BeginStart(task, path), StartRecord, StartGate, StartDone, Crash, Requeue(task), BeginRestart([task])]
    ensures CleanlyReaches(acts, m) && m.op == Claiming([task], None, {}) && m.w.lanes[task].attempt == 2
    ensures Enabled(m, ClaimSpawn)
  {
    hide CleanlyReaches, Ctk;
    StartIsClean();
    RunStart([], START, task, path);
    acts := [BeginStart(task, path), StartRecord, StartGate, StartDone];
    assert [] + acts == acts;
    var k := Key(task, 1);
    var w := SetLane(OpenGate(RecordGroup(Spawn(START.w, k, path), k, START.w.next), k), task, Lane(path, 1));
    m := START.(w := w);
    CleanlyOn(acts, m, Crash);
    CleanlyOn(acts + [Crash], m, Requeue(task));
    var m2 := Do(m, Requeue(task));
    assert NoDuplicates([task]) && [task][0] == task;
    assert IsOrderOf([task], m2.w.lanes);
    CleanlyOn(acts + [Crash] + [Requeue(task)], m2, BeginRestart([task]));
    m := Do(m2, BeginRestart([task]));
    assert acts + [Crash] + [Requeue(task)] + [BeginRestart([task])]
        == [BeginStart(task, path), StartRecord, StartGate, StartDone, Crash, Requeue(task), BeginRestart([task])];
    acts := acts + [Crash] + [Requeue(task)] + [BeginRestart([task])];
    assert m2.w.records[k] == 1 && RecordedGroups(m2.w) == {1} && m2.w.alive == {1};
    NobodyLives(m.w, path);
  }

  lemma StartIsClean()
    ensures CleanlyReaches([], START)
  {
  }

  lemma NobodyLives(w: World, path: string)
    requires w.alive == {}
    ensures LiveWriter(w, path).None?
  {
  }

  ghost predicate Unrecorded(w: World, p: string, x: Writer) {
    Runs(w, p, x) && !RecordedWriter(w, x)
  }

  lemma SurvivesSweep(acts: seq<Action>, m: Machine, p: string, x: Writer)
    requires Reaches(acts, m)
    ensures Runs(Sweep(m.w), p, x) <==> Unrecorded(m.w, p, x)
  {
    EveryRunKeepsInv(acts, m);
    EveryRunNamesRecords(acts, m);
    if Runs(m.w, p, x) && x.pgid in RecordedGroups(m.w) {
      var k :| k in m.w.records && m.w.records[k] == x.pgid;
      assert x.key == k;
    }
  }

  /** The condition is exact: the claim phase starts with two live writers just when the sweep misses two. */
  lemma SurvivorsShowAtOnce(acts: seq<Action>, m: Machine, order: seq<string>, p: string)
    requires Reaches(acts, m) && Enabled(m, BeginRestart(order))
    ensures TwoLive(Do(m, BeginRestart(order)).w, p) <==>
            (exists x, y :: Unrecorded(m.w, p, x) && Unrecorded(m.w, p, y) && x.pgid != y.pgid)
  {
    forall x ensures Runs(Sweep(m.w), p, x) <==> Unrecorded(m.w, p, x) { SurvivesSweep(acts, m, p, x); }
  }

  // ---- the whole claim phase ----

  lemma OnSame(w: World, v: World)
    requires w.writers == v.writers
    ensures forall p :: On(w, p) == On(v, p)
  {
  }

  /** What happens between the sweep and the end of the claims, while the daemon lives. */
  predicate InPhase(more: seq<Action>) {
    forall a :: a in more ==> a.ClaimSkip? || a.ClaimSpawn? || a.ClaimGate? || a.ClaimRecord? || a.Dies?
  }

  lemma {:induction false} PhaseKeepsSurvivors(acts: seq<Action>, m: Machine, order: seq<string>, more: seq<Action>, v: Machine)
    requires Reaches(acts, m) && Enabled(m, BeginRestart(order))
    requires InPhase(more) && Reaches(acts + [BeginRestart(order)] + more, v)
    ensures v.op.Claiming? && v.op.survivors == Sweep(m.w).alive
    ensures v.w.next >= m.w.next && forall p, x :: x in On(v.w, p) && x.pgid < m.w.next ==> x in On(m.w, p)
    decreases |more|
  {
    hide On;
    var all := acts + [BeginRestart(order)] + more;
    if more == [] {
      assert all == acts + [BeginRestart(order)];
      RunOn(acts, m, BeginRestart(order));
      OnSame(m.w, v.w);
    } else {
      var n := |more| - 1;
      assert all[..|all| - 1] == acts + [BeginRestart(order)] + more[..n] && all[|all| - 1] == more[n];
      var before := After(all[..|all| - 1]).value;
      PhaseKeepsSurvivors(acts, m, order, more[..n], before);
      PhaseStep(before, more[n]);
    }
  }

  lemma PhaseStep(m: Machine, a: Action)
    requires Enabled(m, a) && m.op.Claiming? && InPhase([a])
    ensures var v := Do(m, a);
            && v.op.Claiming? && v.op.survivors == m.op.survivors && v.w.next >= m.w.next
            && forall p, x :: x in On(v.w, p) && x.pgid < m.w.next ==> x in On(m.w, p)
  {
    hide On, Claimable, Ctk;
    assert a in [a];
    if Spawns(a) { SpawnAdds(m, a); } else { OtherStepsKeepWriters(m, a); }
  }

  /**
   * For every run, crashes of any kind included: some moment of a claim phase has two live writers in a checkout if
   * and only if two writers without a record live there when the phase begins.
   */
  lemma ClaimPhaseDoublesIff(acts: seq<Action>, m: Machine, order: seq<string>, p: string)
    requires Reaches(acts, m) && Enabled(m, BeginRestart(order))
    ensures (exists more, v :: InPhase(more) && Reaches(acts + [BeginRestart(order)] + more, v) && TwoLive(v.w, p)) <==>
            (exists x, y :: Unrecorded(m.w, p, x) && Unrecorded(m.w, p, y) && x.pgid != y.pgid)
  {
    hide TwoLive, Unrecorded, Reaches, Enabled, Do;
    if more, v :| InPhase(more) && Reaches(acts + [BeginRestart(order)] + more, v) && TwoLive(v.w, p) {
      var x, y := DoubledWereUnrecorded(acts, m, order, p, more, v);
    }
    SurvivorsShowAtOnce(acts, m, order, p);
    BeginRestartReaches(acts, m, order);
    assert InPhase([]) && acts + [BeginRestart(order)] + [] == acts + [BeginRestart(order)];
  }

  lemma BeginRestartReaches(acts: seq<Action>, m: Machine, order: seq<string>)
    requires Reaches(acts, m) && Enabled(m, BeginRestart(order))
    ensures Reaches(acts + [BeginRestart(order)], Do(m, BeginRestart(order)))
  {
    RunOn(acts, m, BeginRestart(order));
  }

  lemma DoubledWereUnrecorded(acts: seq<Action>, m: Machine, order: seq<string>, p: string, more: seq<Action>, v: Machine)
      returns (x: Writer, y: Writer)
    requires Reaches(acts, m) && Enabled(m, BeginRestart(order))
    requires InPhase(more) && Reaches(acts + [BeginRestart(order)] + more, v) && TwoLive(v.w, p)
    ensures Unrecorded(m.w, p, x) && Unrecorded(m.w, p, y) && x.pgid != y.pgid
  {
    hide On, Reaches, Enabled, Unrecorded;
    x, y :| Runs(v.w, p, x) && Runs(v.w, p, y) && x.pgid != y.pgid;
    PhaseKeepsSurvivors(acts, m, order, more, v);
    ClaimPhaseIsExclusive(acts + [BeginRestart(order)] + more, v, p, x, y);
    AliveIsPast(acts, m);
    OnSame(m.w, Sweep(m.w));
    SurvivesSweep(acts, m, p, x);
    SurvivesSweep(acts, m, p, y);
  }

  lemma AliveIsPast(acts: seq<Action>, m: Machine)
    requires Reaches(acts, m)
    ensures forall g :: g in m.w.alive ==> g < m.w.next
  {
    EveryRunKeepsInv(acts, m);
  }

  /** A record names the writer of its own attempt. */
  ghost predicate RecordsName(w: World) {
    forall k, p, x :: k in w.records && x in On(w, p) && x.pgid == w.records[k] ==> x.key == k
  }

  lemma {:induction false} EveryRunNamesRecords(acts: seq<Action>, m: Machine)
    requires Reaches(acts, m)
    ensures RecordsName(m.w) && forall k :: k in m.w.records ==> m.w.records[k] < m.w.next
    decreases |acts|
  {
    if acts == [] {
    } else {
      var before, a := After(acts[..|acts| - 1]).value, acts[|acts| - 1];
      EveryRunNamesRecords(acts[..|acts| - 1], before);
      EveryRunKeepsInv(acts[..|acts| - 1], before);
      NamesStep(before, a);
    }
  }

  lemma NamesStep(m: Machine, a: Action)
    requires Inv(m) && Enabled(m, a)
    requires RecordsName(m.w) && forall k :: k in m.w.records ==> m.w.records[k] < m.w.next
    ensures RecordsName(Do(m, a).w) && forall k :: k in Do(m, a).w.records ==> Do(m, a).w.records[k] < Do(m, a).w.next
  {
    hide On, Ctk, TokensRevoked, OneLivePerAttempt, ParkedWaits, RecordsKept, Claimable, ClaimIsExclusive;
    if Spawns(a) {
      SpawnAdds(m, a);
    } else {
      OtherStepsKeepWriters(m, a);
    }
  }

  // ---- records and work ----

  /** The writer lives and has passed its gate. */
  ghost predicate Works(w: World, p: string, x: Writer) {
    Runs(w, p, x) && x.key in w.gates
  }

  /**
   * A writer at work has a record, unless it was started by a claim that is not finished or was cut off: a first
   * attempt never works without one, because it records before it opens the gate.
   */
  lemma WorkIsRecorded(acts: seq<Action>, m: Machine, p: string, x: Writer)
    requires Reaches(acts, m) && Works(m.w, p, x)
    ensures RecordedWriter(m.w, x) || x.pgid in m.loose
         || (m.op.Claiming? && m.op.cur.Some? && m.op.cur.value.pgid == x.pgid)
  {
    EveryRunKeepsInv(acts, m);
  }

  /** A claim that is cut off before it records leaves a writer at work that the next sweep does not find. */
  lemma CutClaimIsMissed(acts: seq<Action>, m: Machine)
    requires Reaches(acts, m) && Enabled(m, ClaimSpawn)
    ensures var cut := Do(Do(Do(m, ClaimSpawn), ClaimGate), Crash);
            var p := m.w.lanes[m.op.todo[0]].path;
            var x := Writer(m.w.next, KeyOf(m.w, m.op.todo[0]), Ctk(KeyOf(m.w, m.op.todo[0])));
            && Reaches(acts + [ClaimSpawn, ClaimGate, Crash], cut)
            && Works(cut.w, p, x) && Unrecorded(cut.w, p, x) && x.pgid in cut.loose
            && Runs(Sweep(cut.w), p, x)
  {
    var m1 := Do(m, ClaimSpawn);
    var m2 := Do(m1, ClaimGate);
    RunOn(acts, m, ClaimSpawn);
    RunOn(acts + [ClaimSpawn], m1, ClaimGate);
    RunOn(acts + [ClaimSpawn] + [ClaimGate], m2, Crash);
    var all := acts + [ClaimSpawn, ClaimGate, Crash];
    assert acts + [ClaimSpawn] + [ClaimGate] + [Crash] == all;
    EveryRunNamesRecords(acts, m);
    SpawnAdds(m, ClaimSpawn);
    var k := KeyOf(m.w, m.op.todo[0]);
    SurvivesSweep(all, Do(m2, Crash), m.w.lanes[m.op.todo[0]].path, Writer(m.w.next, k, Ctk(k)));
  }

  // ---- tokens ----

  /** The server refuses a writer's token exactly when its lane has moved on to a later attempt. */
  lemma StaleWritersAreRefused(acts: seq<Action>, m: Machine, p: string, x: Writer)
    requires Reaches(acts, m) && x in On(m.w, p) && x.key.task in m.w.lanes
    ensures PostStatus(m.w, x.token) == 401 <==> x.key.attempt < m.w.lanes[x.key.task].attempt
    ensures x.key.attempt <= m.w.lanes[x.key.task].attempt
  {
    EveryRunKeepsInv(acts, m);
    CtkIsNotEmpty(x.key);
  }

  /** The token that the lane's current attempt gets is never a revoked one, even before that attempt is started. */
  lemma CurrentTokenIsGood(acts: seq<Action>, m: Machine, task: string)
    requires Reaches(acts, m) && task in m.w.lanes
    ensures PostStatus(m.w, Ctk(KeyOf(m.w, task))) == 200
  {
    EveryRunKeepsInv(acts, m);
    CtkIsNotEmpty(KeyOf(m.w, task));
  }

  // ---- one writer for each checkout ----

  /** First attempts are only started in checkouts nobody lives in. */
  ghost predicate ExclusiveStarts(acts: seq<Action>) {
    forall n :: 0 <= n < |acts| && acts[n].BeginStart? && After(acts[..n]).Some? ==>
      forall x :: !Runs(After(acts[..n]).value.w, acts[n].path, x)
  }

  /** Then no checkout has two live writers at any time, crashes included. */
  lemma {:induction false} ExclusiveStartsStaySafe(acts: seq<Action>, m: Machine, p: string)
    requires Reaches(acts, m) && ExclusiveStarts(acts)
    ensures !TwoLive(m.w, p)
    decreases |acts|
  {
    if acts == [] {
      assert On(EMPTY_WORLD, p) == [];
    } else {
      var n := |acts| - 1;
      var before, a := After(acts[..n]).value, acts[n];
      assert forall k :: 0 <= k < n ==> acts[..n][..k] == acts[..k];
      assert ExclusiveStarts(acts[..n]);
      ExclusiveStartsStaySafe(acts[..n], before, p);
      EveryRunKeepsInv(acts[..n], before);
      ExclusiveStep(before, a, p);
    }
  }

  lemma ExclusiveStep(m: Machine, a: Action, p: string)
    requires Inv(m) && Enabled(m, a) && !TwoLive(m.w, p)
    requires a.BeginStart? ==> forall x :: !Runs(m.w, a.path, x)
    ensures !TwoLive(Do(m, a).w, p)
  {
    hide On, Ctk, TokensRevoked, OneLivePerAttempt, ParkedWaits, RecordsKept, ClaimIsExclusive, OpFits;
    if TwoLive(Do(m, a).w, p) {
      var x, y :| Runs(Do(m, a).w, p, x) && Runs(Do(m, a).w, p, y) && x.pgid != y.pgid;
      if Spawns(a) {
        SpawnFits(m, a);
        SpawnAdds(m, a);
      } else {
        OtherStepsKeepWriters(m, a);
      }
    }
  }

  // ---- the regression ----

  /** The step for one lane: a second live writer next to `x`. */
  lemma ClaimFirstLaneDoubles(w: World, task: string, x: Writer) returns (y: Writer)
    requires task in w.lanes && w.lanes[task].attempt >= 2
    requires Runs(w, w.lanes[task].path, x) && x.pgid < w.next
    ensures y.pgid == w.next && Runs(ClaimFirstLane(w, task), w.lanes[task].path, y)
  {
    var k, path := KeyOf(w, task), w.lanes[task].path;
    y := Writer(w.next, k, Ctk(k));
  }

  /** Claiming first puts a second writer into every requeued checkout that somebody still lives in. */
  lemma {:induction false} ClaimFirstIsCaught(acts: seq<Action>, m: Machine, order: seq<string>, task: string, x: Writer)
    requires Reaches(acts, m) && IsOrderOf(order, m.w.lanes)
    requires task in m.w.lanes && m.w.lanes[task].attempt >= 2 && Runs(m.w, m.w.lanes[task].path, x)
    ensures TwoLive(ClaimFirstAll(m.w, order), m.w.lanes[task].path)
  {
    hide Runs, ClaimFirstLane, On, Reaches, Inv, Consistent;
    StartedBefore(acts, m, m.w.lanes[task].path, x);
    var n :| 0 <= n < |order| && order[n] == task;
    ClaimFirstKeeps(m.w, order[..n], m.w.lanes[task].path, x);
    var w, path := ClaimFirstAll(m.w, order[..n]), m.w.lanes[task].path;
    ClaimFirstLaneKeeps(w, task, path, x);
    var y := ClaimFirstLaneDoubles(w, task, x);
    assert order[..n + 1][..n] == order[..n];
    ClaimFirstGoesOn(m.w, order, n + 1, path, x);
    ClaimFirstGoesOn(m.w, order, n + 1, path, y);
    assert order[..|order|] == order;
  }

  lemma StartedBefore(acts: seq<Action>, m: Machine, p: string, x: Writer)
    requires Reaches(acts, m) && Runs(m.w, p, x)
    ensures x.pgid < m.w.next
  {
    EveryRunKeepsInv(acts, m);
  }

  lemma ClaimFirstLaneKeeps(w: World, task: string, p: string, x: Writer)
    requires task in w.lanes && Runs(w, p, x)
    ensures Runs(ClaimFirstLane(w, task), p, x) && ClaimFirstLane(w, task).next >= w.next
  {
    if w.lanes[task].attempt >= 2 {
      var k, path := KeyOf(w, task), w.lanes[task].path;
    }
  }

  lemma {:induction false} ClaimFirstKeeps(w: World, order: seq<string>, p: string, x: Writer)
    requires (forall t :: t in order ==> t in w.lanes) && Runs(w, p, x)
    ensures Runs(ClaimFirstAll(w, order), p, x) && ClaimFirstAll(w, order).next >= w.next
    decreases |order|
  {
    if order != [] {
      var n := |order| - 1;
      ClaimFirstKeeps(w, order[..n], p, x);
      ClaimFirstLaneKeeps(ClaimFirstAll(w, order[..n]), order[n], p, x);
    }
  }

  lemma {:induction false} ClaimFirstGoesOn(w: World, order: seq<string>, n: nat, p: string, x: Writer)
    requires (forall t :: t in order ==> t in w.lanes) && n <= |order|
    requires Runs(ClaimFirstAll(w, order[..n]), p, x)
    ensures Runs(ClaimFirstAll(w, order[..|order|]), p, x)
    decreases |order| - n
  {
    if n < |order| {
      assert order[..n + 1][..n] == order[..n];
      ClaimFirstLaneKeeps(ClaimFirstAll(w, order[..n]), order[n], p, x);
      ClaimFirstGoesOn(w, order, n + 1, p, x);
    }
  }
}
