/** What every interleaving of the reader and the turn loop keeps: the order of responses, and what a cancel does. */
module AgentTurns {
  import opened Options
  import opened Agent

  // ---- one response for each request, in order ----

  function IdOf(r: Response): nat {
    r.id
  }

  function Ids(rs: seq<Response>): (r: seq<nat>)
    ensures |r| == |rs| && forall i :: 0 <= i < |rs| ==> r[i] == rs[i].id
  {
    seq(|rs|, i requires 0 <= i < |rs| => IdOf(rs[i]))
  }

  function RequestIds(ps: seq<Request>): (r: seq<nat>)
    ensures |r| == |ps| && forall i :: 0 <= i < |ps| ==> r[i] == ps[i].id
  {
    seq(|ps|, i requires 0 <= i < |ps| => ps[i].id)
  }

  function Busy(m: Main): seq<nat> {
    if m.Waiting? then [] else [m.p.id]
  }

  /** The request that the reader has read and not passed on yet. */
  function InHand(r: Reader): seq<nat> {
    if r.Holding? && r.m.Req? then [r.m.r.id] else []
  }

  function AnswersInHand(r: Reader): nat {
    if r.Holding? && r.m.Ans? then 1 else 0
  }

  ghost predicate InOrder(s: State) {
    && s.taken == Ids(s.out) + Busy(s.main) && s.arrived == s.taken + RequestIds(s.reqs) + InHand(s.reader)
    && s.given == s.used + s.inbox + AnswersInHand(s.reader)
    && |s.reqs| <= ROOM && s.inbox <= ROOM
  }

  /** A step of the loop answers nothing or the request it works on. */
  lemma LoopAnswersItsRequest(sc: Script, s: State, a: Action)
    requires Complete(sc) && !IsReaders(a) && Enabled(s, a) && !a.Take?
    ensures var t := DoLoop(sc, s, a);
            && t.taken == s.taken && t.arrived == s.arrived && t.reqs == s.reqs && t.reader == s.reader && !s.main.Waiting?
            && t.given == s.given && t.used + t.inbox == s.used + s.inbox && t.inbox <= s.inbox
            && ((t.out == s.out && !t.main.Waiting? && t.main.p == s.main.p)
                || (t.main.Waiting? && |t.out| == |s.out| + 1 && t.out[..|s.out|] == s.out && t.out[|s.out|].id == s.main.p.id))
  {
    hide TurnAt, WorkOf, StopOf, DoCheck, DoStep;
    if a.Check? { CheckStaysInTurn(s); }
    if a.DoWork? { WorkStaysInTurn(s); }
  }

  lemma CheckStaysInTurn(s: State)
    requires Enabled(s, Check)
    ensures var m := DoCheck(s).main; !m.Waiting? && m.p == s.main.p && m.t == s.main.t && DoCheck(s).(main := s.main) == s
  {
    hide WorkOf;
  }

  lemma WorkStaysInTurn(s: State)
    requires Enabled(s, DoWork)
    ensures var r := DoStep(s);
            && !r.main.Waiting? && r.main.p == s.main.p && r.main.t == s.main.t
            && r.inbox <= s.inbox && r.used + r.inbox == s.used + s.inbox
            && r.(main := s.main, slot := s.slot, inbox := s.inbox, used := s.used) == s
  {
    hide WorkOf;
  }

  lemma ReaderKeepsOrder(s: State, a: Action)
    requires IsReaders(a) && Enabled(s, a) && InOrder(s)
    ensures InOrder(DoRead(s, a))
  {
    var t := DoRead(s, a);
    if a.Push? && s.reader.m.Req? {
      assert RequestIds(t.reqs) == RequestIds(s.reqs) + [s.reader.m.r.id];
    }
  }

  lemma RequestIdsSplit(ps: seq<Request>, before: seq<nat>, behind: seq<nat>)
    requires ps != []
    ensures before + RequestIds(ps) + behind == (before + [ps[0].id]) + RequestIds(ps[1..]) + behind
  {
    assert RequestIds(ps) == [ps[0].id] + RequestIds(ps[1..]);
  }

  lemma TakeKeepsOrder(sc: Script, s: State)
    requires Complete(sc) && Enabled(s, Take) && InOrder(s)
    ensures InOrder(DoLoop(sc, s, Take))
  {
    hide RequestIds, Ids, InHand, AnswersInHand;
    RequestIdsSplit(s.reqs, s.taken, InHand(s.reader));
    assert s.taken + [s.reqs[0].id] == Ids(s.out) + [s.reqs[0].id];
  }

  lemma LoopKeepsOrder(sc: Script, s: State, a: Action)
    requires Complete(sc) && !IsReaders(a) && Enabled(s, a) && !a.Take? && InOrder(s)
    ensures InOrder(DoLoop(sc, s, a))
  {
    LoopAnswersItsRequest(sc, s, a);
    hide DoLoop, Enabled;
    var t := DoLoop(sc, s, a);
    if t.main.Waiting? { assert Ids(t.out) == Ids(s.out) + [s.main.p.id]; }
  }

  lemma StepKeepsOrder(sc: Script, s: State, a: Action)
    requires Complete(sc) && Enabled(s, a) && InOrder(s)
    ensures InOrder(Do(sc, s, a))
  {
    hide DoRead, DoLoop, InOrder, Enabled;
    if IsReaders(a) {
      ReaderKeepsOrder(s, a);
    } else if a.Take? {
      TakeKeepsOrder(sc, s);
    } else {
      LoopKeepsOrder(sc, s, a);
    }
  }

  /**
   * Each request gets exactly one response and the responses come in the order of the requests: at any time those of
   * all that were read but the one being worked on, the ones still queued, and the one in the reader's hand.
   */
  lemma {:induction false} OneResponseEach(sc: Script, acts: seq<Action>, s: State)
    requires Reaches(sc, acts, s)
    ensures s.arrived == Ids(s.out) + Busy(s.main) + RequestIds(s.reqs) + InHand(s.reader)
    ensures InOrder(s)
    decreases |acts|
  {
    hide Do, Enabled;
    if acts != [] {
      var before := LastStep(sc, acts, s);
      OneResponseEach(sc, acts[..|acts| - 1], before);
      StepKeepsOrder(sc, before, acts[|acts| - 1]);
    }
  }

  // ---- cancel ----

  /** A cancel was flagged after the last reset. */
  predicate FlaggedSince(acts: seq<Action>)
    decreases |acts|
  {
    acts != [] &&
    var a := acts[|acts| - 1];
    !a.Reset? && (a.StoreFlag? || FlaggedSince(acts[..|acts| - 1]))
  }

  /** Between the reset and the decision how the turn ends. */
  predicate InTurn(m: Main) {
    m.Draining? || m.Checking? || m.Doing? || m.Ending?
  }

  predicate Stops(w: Work) {
    w.Hang? || w.HangForever?
  }

  /** The loop is at a step of the turn, none of those before it hangs, and its turn is one of the script. */
  ghost predicate AtAStep(sc: Script, m: Main) {
    && (m.Doing? ==> m.k < |m.t.steps|)
    && (m.Checking? ==> m.k <= |m.t.steps|)
    && (m.Doing? || m.Checking? ==> forall j :: 0 <= j < m.k && j < |m.t.steps| ==> !Stops(WorkOf(m.t.steps[j])))
    && (!m.Waiting? && !m.Entered? ==> m.t in sc.turns)
  }

  lemma LoopStaysAtStep(sc: Script, s: State, a: Action)
    requires Complete(sc) && Enabled(s, a) && AtAStep(sc, s.main)
    ensures AtAStep(sc, Do(sc, s, a).main)
  {
    hide WorkOf, StopOf, ReplyTo, AnswerAtOnce, StartsTurn;
    if s.main.Entered? { assert TurnAt(sc, s.turn) in sc.turns; }
  }

  /** How many steps of the turn were started. */
  function Started(m: Main): nat {
    if m.Checking? then m.k else if m.Doing? then m.k + 1 else 0
  }

  /** A flag without a token to come means that every step so far had a permission request. */
  ghost predicate TokenToCome(s: State) {
    (s.main.Checking? || s.main.Doing?) && s.cancelled && !s.slot && !s.reader.Offering? ==>
      forall j :: 0 <= j < Started(s.main) && j < |s.main.t.steps| ==> s.main.t.steps[j].permission
  }

  lemma StepKeepsTokens(sc: Script, s: State, a: Action)
    requires Complete(sc) && Enabled(s, a) && TokenToCome(s)
    ensures TokenToCome(Do(sc, s, a))
  {
    hide StopOf, ReplyTo, TurnAt, AnswerAtOnce, StartsTurn, WorkOf;
  }

  lemma FlagMoves(sc: Script, s: State, a: Action)
    requires Complete(sc) && Enabled(s, a)
    ensures Do(sc, s, a).cancelled == (a.StoreFlag? || (!a.Reset? && s.cancelled))
  {
    hide WorkOf, StopOf, ReplyTo, TurnAt;
  }

  lemma {:induction false} EveryRunKeepsTurn(sc: Script, acts: seq<Action>, s: State)
    requires Reaches(sc, acts, s)
    ensures AtAStep(sc, s.main) && TokenToCome(s)
    ensures s.cancelled == FlaggedSince(acts)
    decreases |acts|
  {
    hide AtAStep, TokenToCome, Do, Enabled;
    if acts == [] {
      StartKeepsTurn(sc);
    } else {
      var before := LastStep(sc, acts, s);
      EveryRunKeepsTurn(sc, acts[..|acts| - 1], before);
      LoopStaysAtStep(sc, before, acts[|acts| - 1]);
      StepKeepsTokens(sc, before, acts[|acts| - 1]);
      FlagMoves(sc, before, acts[|acts| - 1]);
    }
  }

  lemma StartKeepsTurn(sc: Script)
    ensures AtAStep(sc, START.main) && TokenToCome(START)
  {
  }

  /** A step of the loop settles how the turn of `p` ends. */
  ghost predicate Settles(sc: Script, s: State, a: Action) {
    Complete(sc) && Enabled(s, a) && InTurn(s.main) && Do(sc, s, a).main.Replying?
  }

  /** The step takes a token out of the channel and ends the turn with it. */
  predicate TakesToken(s: State, a: Action) {
    a.DoWork? && s.main.Doing? && s.main.k < |s.main.t.steps| && WorkOf(s.main.t.steps[s.main.k]) == Hang
  }

  /**
   * No cancel is lost after the reset: the turn ends as cancelled exactly when one was flagged since then, a hanging
   * step was woken by a token, or the script itself says so; otherwise it ends with the scripted reason.
   */
  lemma CancelDecides(sc: Script, acts: seq<Action>, s: State, a: Action)
    requires Reaches(sc, acts, s) && Settles(sc, s, a)
    ensures var stop := Do(sc, s, a).main.stop;
            && (stop == CANCELLED <==> FlaggedSince(acts) || TakesToken(s, a) || StopOf(s.main.t) == CANCELLED)
            && (stop != CANCELLED ==> stop == StopOf(s.main.t))
  {
    EveryRunKeepsTurn(sc, acts, s);
  }

  /** The turn that was settled with `stop` is still to be answered, or was answered so. */
  ghost predicate AnswersWith(s: State, n: nat, p: Request, t: Turn, stop: string) {
    (|s.out| == n && s.main == Replying(p, t, stop)) || (|s.out| > n && s.out[n] == ReplyTo(p, t, stop))
  }

  lemma {:induction false} AnswerIsKept(sc: Script, acts: seq<Action>, s: State, more: seq<Action>, v: State,
                                        p: Request, t: Turn, stop: string)
    requires Reaches(sc, acts, s) && s.main == Replying(p, t, stop) && Reaches(sc, acts + more, v)
    ensures AnswersWith(v, |s.out|, p, t, stop)
    decreases |more|
  {
    hide Do, Enabled, ReplyTo;
    if more == [] {
      assert acts + more == acts;
    } else {
      var n := |more| - 1;
      assert (acts + more)[..|acts + more| - 1] == acts + more[..n];
      var before, a := RunOf(sc, acts + more[..n]).value, more[n];
      AnswerIsKept(sc, acts, s, more[..n], before, p, t, stop);
      AnswerStays(sc, before, a, |s.out|, p, t, stop);
    }
  }

  lemma AnswerStays(sc: Script, s: State, a: Action, n: nat, p: Request, t: Turn, stop: string)
    requires Complete(sc) && Enabled(s, a) && AnswersWith(s, n, p, t, stop)
    ensures AnswersWith(Do(sc, s, a), n, p, t, stop)
  {
    hide TurnAt, StopOf, WorkOf, ReplyTo;
  }

  /** A prompt whose turn saw a cancel between its reset and its end is answered with `cancelled` and nothing else. */
  lemma CancelIsAnswered(sc: Script, acts: seq<Action>, s: State, a: Action, more: seq<Action>, v: State)
    requires Reaches(sc, acts, s) && Settles(sc, s, a) && FlaggedSince(acts)
    requires Reaches(sc, acts + [a] + more, v) && |v.out| > |s.out|
    ensures v.out[|s.out|] == Stopped(s.main.p.id, CANCELLED)
  {
    hide Do, FlaggedSince;
    CancelDecides(sc, acts, s, a);
    SettlingKeepsOut(sc, s, a);
    RunOn(sc, acts, s, a);
    AnswerIsKept(sc, acts + [a], Do(sc, s, a), more, v, s.main.p, s.main.t, CANCELLED);
  }

  lemma SettlingKeepsOut(sc: Script, s: State, a: Action)
    requires Settles(sc, s, a)
    ensures var r := Do(sc, s, a); r.out == s.out && r.main == Replying(s.main.p, s.main.t, r.main.stop)
  {
    hide TurnAt, WorkOf, StopOf;
  }

  /**
   * After a cancel of this turn a step is started if and only if it has a permission request; at any other step the turn
   * is settled as cancelled.
   */
  lemma LateStepsAskPermission(sc: Script, acts: seq<Action>, s: State)
    requires Reaches(sc, acts, s) && s.main.Checking? && s.main.k < |s.main.t.steps| && FlaggedSince(acts)
    ensures var m, r := s.main, Do(sc, s, Check).main;
            && (r == Doing(m.p, m.t, m.k, 0) <==> m.t.steps[m.k].permission)
            && (r == Replying(m.p, m.t, CANCELLED) <==> !m.t.steps[m.k].permission)
  {
    EveryRunKeepsTurn(sc, acts, s);
  }

  // ---- what an early cancel does ----

  /** A prompt is read, then a cancel is flagged, and only then does the turn reset the flag. */
  lemma FlagThenReset(sc: Script, p: Request) returns (acts: seq<Action>, s: State)
    requires Complete(sc) && p.Prompt?
    ensures acts == [Read(Req(p)), Push, StoreFlag, Take, Enter, Reset] && Reaches(sc, acts, s)
    ensures s.main == Draining(p, TurnAt(sc, 0)) && s.reader.Offering? && !s.slot && !s.cancelled && s.out == []
  {
    s := START;
    acts := [];
    acts, s := StepOn(sc, acts, s, Read(Req(p)));
    acts, s := StepOn(sc, acts, s, Push);
    acts, s := StepOn(sc, acts, s, StoreFlag);
    acts, s := StepOn(sc, acts, s, Take);
    acts, s := StepOn(sc, acts, s, Enter);
    acts, s := StepOn(sc, acts, s, Reset);
  }

  /** A cancel from before the reset may be dropped: its flag is cleared and its token is drained. */
  lemma EarlyCancelMayBeDropped(sc: Script, p: Request) returns (acts: seq<Action>, s: State)
    requires Complete(sc) && p.Prompt? && TurnAt(sc, 0).steps == []
    ensures StoreFlag in acts && Reaches(sc, acts, s)
    ensures s.out == [ReplyTo(p, TurnAt(sc, 0), StopOf(TurnAt(sc, 0)))]
  {
    acts, s := FlagThenReset(sc, p);
    acts, s := StepOn(sc, acts, s, OfferToken);
    acts, s := StepOn(sc, acts, s, Drain);
    acts, s := StepOn(sc, acts, s, Check);
    acts, s := StepOn(sc, acts, s, EndCheck);
    acts, s := StepOn(sc, acts, s, Reply);
    assert acts[2] == StoreFlag;
  }

  /** Or it may still hit: its token arrives after the drain and wakes a hanging step, with no flag in sight. */
  lemma EarlyCancelMayStillHit(sc: Script, p: Request) returns (acts: seq<Action>, s: State)
    requires Complete(sc) && p.Prompt?
    requires TurnAt(sc, 0).steps != [] && WorkOf(TurnAt(sc, 0).steps[0]) == Hang
    ensures Reaches(sc, acts, s) && !FlaggedSince(acts) && s.out == [Stopped(p.id, CANCELLED)]
  {
    acts, s := FlagThenReset(sc, p);
    acts, s := StepOn(sc, acts, s, Drain);
    acts, s := StepOn(sc, acts, s, OfferToken);
    acts, s := StepOn(sc, acts, s, Check);
    acts, s := StepOn(sc, acts, s, DoWork);
    acts, s := StepOn(sc, acts, s, Reply);
    EveryRunKeepsTurn(sc, acts, s);
  }
}
