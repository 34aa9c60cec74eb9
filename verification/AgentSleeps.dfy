/** Which hanging steps may sleep through a cancel of their turn, and which never do. */
module AgentSleeps {
  import opened Options
  import opened Agent
  import opened AgentTurns
  import opened AgentEnds

  /** The loop is inside the hanging step `k`. */
  predicate HangsAt(m: Main, k: nat) {
    m.Doing? && m.k == k && k < |m.t.steps| && WorkOf(m.t.steps[k]) == Hang
  }

  /** The turn was cancelled, and yet no token is in the channel or about to be offered. */
  predicate Sleeps(acts: seq<Action>, s: State, k: nat) {
    HangsAt(s.main, k) && FlaggedSince(acts) && !Enabled(s, DoWork) && !s.reader.Offering?
  }

  /** The step that hangs and all in front of it have a permission request, and none of those in front hangs. */
  predicate MaySleep(steps: seq<Step>, k: nat) {
    && k < |steps| && WorkOf(steps[k]) == Hang
    && (forall j :: 0 <= j <= k ==> steps[j].permission)
    && forall j :: 0 <= j < k ==> !Stops(WorkOf(steps[j]))
  }

  // ---- only those ----

  lemma SleeperMaySleep(sc: Script, acts: seq<Action>, s: State, k: nat)
    requires Reaches(sc, acts, s) && Sleeps(acts, s, k)
    ensures MaySleep(s.main.t.steps, k)
  {
    hide WorkOf;
    EveryRunKeepsTurn(sc, acts, s);
  }

  /**
   * A hanging step never sleeps through a cancel of its turn when it or any step of the turn in front of it has no
   * permission request: the token is in the channel or the reader is about to offer it.
   */
  lemma HangWakes(sc: Script, acts: seq<Action>, s: State, k: nat, j: nat)
    requires Reaches(sc, acts, s) && HangsAt(s.main, k) && FlaggedSince(acts)
    requires j <= k && !s.main.t.steps[j].permission
    ensures Enabled(s, DoWork) || (Enabled(s, OfferToken) && Enabled(Do(sc, s, OfferToken), DoWork))
  {
    if Sleeps(acts, s, k) { SleeperMaySleep(sc, acts, s, k); }
  }

  // ---- a turn that a stuck reader comes to never sleeps ----

  /** What holds until the end of a turn that found the reader stuck: a flag comes too late for the drain. */
  predicate FlagIsLate(s: State, n: nat, p: Request, t: Turn) {
    || |s.out| > n
    || (|s.out| == n && !s.main.Waiting? && !s.main.Entered? && s.main.p == p && s.main.t == t &&
        match s.main
        case Resetting(_, _) => Stuck(s)
        case Draining(_, _) => Stuck(s) && !s.cancelled
        case _ => s.cancelled ==> s.slot || s.reader.Offering? || s.main.Replying?)
  }

  lemma StepKeepsLate(sc: Script, s: State, a: Action, n: nat, p: Request, t: Turn)
    requires Complete(sc) && Enabled(s, a) && FlagIsLate(s, n, p, t)
    ensures FlagIsLate(Do(sc, s, a), n, p, t)
  {
    hide TurnAt, StopOf, ReplyTo, AnswerAtOnce, StartsTurn, WorkOf;
  }

  lemma {:induction false} StuckStaysLate(sc: Script, acts: seq<Action>, s: State, all: seq<Action>, v: State)
    requires Reaches(sc, acts, s) && s.main.Resetting? && Stuck(s) && acts <= all && Reaches(sc, all, v)
    ensures FlagIsLate(v, |s.out|, s.main.p, s.main.t)
    decreases |all|
  {
    hide Do, Enabled;
    if |all| == |acts| {
      assert all == acts;
    } else {
      hide FlagIsLate;
      var before := LastStep(sc, all, v);
      StuckStaysLate(sc, acts, s, all[..|all| - 1], before);
      StepKeepsLate(sc, before, all[|all| - 1], |s.out|, s.main.p, s.main.t);
    }
  }

  /** Until its response the loop works on one turn. */
  predicate SameTurn(s: State, n: nat, p: Request, t: Turn) {
    || |s.out| > n
    || (|s.out| == n && !s.main.Waiting? && !s.main.Entered? && s.main.p == p && s.main.t == t)
  }

  lemma StepKeepsTurn(sc: Script, s: State, a: Action, n: nat, p: Request, t: Turn)
    requires Complete(sc) && Enabled(s, a) && SameTurn(s, n, p, t)
    ensures SameTurn(Do(sc, s, a), n, p, t)
  {
    hide TurnAt, StopOf, ReplyTo, AnswerAtOnce, StartsTurn, WorkOf;
  }

  lemma {:induction false} StaysInTurn(sc: Script, acts: seq<Action>, s: State, all: seq<Action>, v: State)
    requires Reaches(sc, acts, s) && s.main.Resetting? && acts <= all && Reaches(sc, all, v)
    ensures SameTurn(v, |s.out|, s.main.p, s.main.t)
    decreases |all|
  {
    hide Do, Enabled;
    if |all| == |acts| {
      assert all == acts;
    } else {
      hide SameTurn;
      var before := LastStep(sc, all, v);
      StaysInTurn(sc, acts, s, all[..|all| - 1], before);
      StepKeepsTurn(sc, before, all[|all| - 1], |s.out|, s.main.p, s.main.t);
    }
  }

  // ---- and those do ----

  /** In front of step `j` of a cancelled turn whose token was drained. */
  predicate Drained(s: State, n: nat, p: Request, t: Turn, j: nat) {
    s.cancelled && !s.slot && s.reader.Reading? && |s.out| == n && s.main == Checking(p, t, j)
  }

  lemma FlagAndDrain(sc: Script, acts: seq<Action>, s: State) returns (all: seq<Action>, v: State)
    requires Reaches(sc, acts, s) && s.main.Resetting? && !Stuck(s)
    ensures acts <= all && Reaches(sc, all, v) && Drained(v, |s.out|, s.main.p, s.main.t, 0)
  {
    all, v := BackToInput(sc, acts, s);
    all, v := StepOn(sc, all, v, Reset);
    all, v := StepOn(sc, all, v, StoreFlag);
    all, v := StepOn(sc, all, v, OfferToken);
    all, v := StepOn(sc, all, v, Drain);
  }

  lemma PassStep(sc: Script, acts: seq<Action>, s: State, n: nat, p: Request, t: Turn, j: nat)
    returns (all: seq<Action>, v: State)
    requires Reaches(sc, acts, s) && Drained(s, n, p, t, j)
    requires j < |t.steps| && t.steps[j].permission && !Stops(WorkOf(t.steps[j]))
    ensures acts <= all && Reaches(sc, all, v) && Drained(v, n, p, t, j + 1)
  {
    hide Reaches;
    all, v := StepOn(sc, acts, s, Check);
    if WorkOf(t.steps[j]) == Ask { all, v := SendAnswer(sc, all, v); }
    all, v := StepOn(sc, all, v, DoWork);
  }

  lemma {:induction false} PassSteps(sc: Script, acts: seq<Action>, s: State, n: nat, p: Request, t: Turn, j: nat, k: nat)
    returns (all: seq<Action>, v: State)
    requires Reaches(sc, acts, s) && Drained(s, n, p, t, j) && j <= k && MaySleep(t.steps, k)
    ensures acts <= all && Reaches(sc, all, v) && Drained(v, n, p, t, k)
    decreases k - j
  {
    hide Drained, Reaches;
    all, v := acts, s;
    if j < k {
      all, v := PassStep(sc, acts, s, n, p, t, j);
      all, v := PassSteps(sc, all, v, n, p, t, j + 1, k);
    }
  }

  lemma FallAsleep(sc: Script, acts: seq<Action>, s: State, k: nat) returns (all: seq<Action>, v: State)
    requires Reaches(sc, acts, s) && s.main.Resetting? && !Stuck(s) && MaySleep(s.main.t.steps, k)
    ensures acts <= all && Reaches(sc, all, v) && |v.out| == |s.out| && Sleeps(all, v, k)
    ensures v.main == Doing(s.main.p, s.main.t, k, 0)
  {
    var n, p, t := |s.out|, s.main.p, s.main.t;
    all, v := FlagAndDrain(sc, acts, s);
    all, v := PassSteps(sc, all, v, n, p, t, 0, k);
    hide Reaches;
    all, v := StepOn(sc, all, v, Check);
    EveryRunKeepsTurn(sc, all, v);
  }

  /**
   * Which steps may sleep, read off the script: from any moment at which a turn is about to reset the flag, some run of
   * that turn sleeps at step `k` if and only if the reader is not stuck, the step hangs, it and all steps in front of it
   * have permission requests, and none in front of it hangs.
   */
  lemma SleepsIff(sc: Script, acts: seq<Action>, s: State, k: nat)
    requires Reaches(sc, acts, s) && s.main.Resetting?
    ensures (exists all, v :: acts <= all && Reaches(sc, all, v) && |v.out| == |s.out| && Sleeps(all, v, k)) <==>
            !Stuck(s) && MaySleep(s.main.t.steps, k)
  {
    hide MaySleep, Sleeps;
    if !Stuck(s) && MaySleep(s.main.t.steps, k) {
      var all, v := FallAsleep(sc, acts, s, k);
    } else {
      forall all, v | acts <= all && Reaches(sc, all, v) && |v.out| == |s.out| ensures !Sleeps(all, v, k) {
        if Sleeps(all, v, k) { NoSleep(sc, acts, s, all, v, k); }
      }
    }
  }

  lemma NoSleep(sc: Script, acts: seq<Action>, s: State, all: seq<Action>, v: State, k: nat)
    requires Reaches(sc, acts, s) && s.main.Resetting? && acts <= all && Reaches(sc, all, v) && |v.out| == |s.out|
    requires Sleeps(all, v, k)
    ensures !Stuck(s) && MaySleep(s.main.t.steps, k)
  {
    hide MaySleep, WorkOf;
    SleeperMaySleep(sc, all, v, k);
    StaysInTurn(sc, acts, s, all, v);
    EveryRunKeepsTurn(sc, all, v);
    if Stuck(s) { StuckStaysLate(sc, acts, s, all, v); }
  }

  /** So a turn that begins with a hanging step that has a permission request may sleep through its cancel. */
  lemma HangBesidePermissionSleeps(sc: Script, p: Request) returns (acts: seq<Action>, s: State)
    requires Complete(sc) && p.Prompt? && TurnAt(sc, 0).steps != []
    requires WorkOf(TurnAt(sc, 0).steps[0]) == Hang && TurnAt(sc, 0).steps[0].permission
    ensures Reaches(sc, acts, s) && s.main == Doing(p, TurnAt(sc, 0), 0, 0) && Sleeps(acts, s, 0)
  {
    acts, s := [], START;
    acts, s := SendOne(sc, acts, s, p);
    acts, s := StepOn(sc, acts, s, Take);
    acts, s := StepOn(sc, acts, s, Enter);
    hide Reaches, FlaggedSince;
    acts, s := FallAsleep(sc, acts, s, 0);
  }
}
