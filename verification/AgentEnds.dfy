/**
 * When a request of the scripted agent can still be answered. The reader takes a message off the input before it looks
 * for room, so a full queue stops it with the message in hand and with every cancel and answer behind that unread.
 */
module AgentEnds {
  import opened Options
  import opened Agent
  import opened AgentTurns

  // ---- the reader on a full queue ----

  predicate Stuck(s: State) {
    s.reader.Holding? && !HasRoom(s, s.reader.m)
  }

  /** Whether the reader moves; if not, the queue of answers or that of requests is full. */
  datatype Hold = Moves | AtAnswers | AtRequests

  function HoldOf(s: State): Hold {
    if !Stuck(s) then Moves else if s.reader.m.Ans? then AtAnswers else AtRequests
  }

  /**
   * What a client can count: while a request is being worked on, the reader is stuck exactly when 18 requests are
   * unanswered or 17 answers are unused. There are never more.
   */
  lemma StuckIff(sc: Script, acts: seq<Action>, s: State)
    requires Reaches(sc, acts, s) && !s.main.Waiting?
    ensures |s.arrived| <= |s.out| + 18 && s.given <= s.used + 17
    ensures HoldOf(s) == AtRequests <==> |s.arrived| == |s.out| + 18
    ensures HoldOf(s) == AtAnswers <==> s.given == s.used + 17
  {
    OneResponseEach(sc, acts, s);
  }

  // ---- what the rest of a turn needs ----

  /**
   * The steps from `k` on can be passed while the reader moves: a client that cancels ends the turn at the first step
   * without a permission request, and gives the others what they wait for, but for one that hangs forever.
   */
  function MovingEnds(steps: seq<Step>, k: nat): bool
    decreases |steps| - k, 1
  {
    k >= |steps| || !steps[k].permission || MovingDoes(steps, k)
  }

  /** The same from inside step `k` on. */
  function MovingDoes(steps: seq<Step>, k: nat): bool
    requires k < |steps|
    decreases |steps| - k, 0
  {
    match WorkOf(steps[k])
    case HangForever => false
    case Hang => true
    case _ => MovingEnds(steps, k + 1)
  }

  /**
   * While it is stuck the flag, the token and the `n` answers that are there have to do; a step that takes an answer out
   * of a full queue of answers sets the reader free.
   */
  function StuckEnds(steps: seq<Step>, k: nat, hold: Hold, flag: bool, token: bool, n: nat): bool
    decreases |steps| - k, 1
  {
    k >= |steps| || (flag && !steps[k].permission) || StuckDoes(steps, k, hold, flag, token, n)
  }

  function StuckDoes(steps: seq<Step>, k: nat, hold: Hold, flag: bool, token: bool, n: nat): bool
    requires k < |steps|
    decreases |steps| - k, 0
  {
    match WorkOf(steps[k])
    case HangForever => false
    case Hang => token
    case Ask => n > 0 && if hold.AtAnswers? then MovingEnds(steps, k + 1) else StuckEnds(steps, k + 1, hold, flag, token, n - 1)
    case _ => StuckEnds(steps, k + 1, hold, flag, token, n)
  }

  function Ends(s: State, t: Turn, k: nat, flag: bool, token: bool): bool {
    if HoldOf(s).Moves? then MovingEnds(t.steps, k) else StuckEnds(t.steps, k, HoldOf(s), flag, token, s.inbox)
  }

  function Does(s: State, t: Turn, k: nat): bool
    requires k < |t.steps|
  {
    if HoldOf(s).Moves? then MovingDoes(t.steps, k)
    else StuckDoes(t.steps, k, HoldOf(s), s.cancelled, s.slot, s.inbox)
  }

  /** Read off a state and the script: can the request at work still get its response? */
  predicate CanEnd(sc: Script, s: State)
    requires Complete(sc) && !s.main.Waiting?
  {
    match s.main
    case Entered(p) => !StartsTurn(s, p) || Ends(s, TurnAt(sc, s.turn), 0, false, false)
    case Resetting(_, t) => Ends(s, t, 0, false, false)
    case Draining(_, t) => Ends(s, t, 0, s.cancelled, false)
    case Checking(_, t, k) => Ends(s, t, k, s.cancelled, s.slot)
    case Doing(_, t, k, _) => k < |t.steps| && Does(s, t, k)
    case _ => true
  }

  // ---- what cannot end does not end ----

  /** A reader that moves is at least as good as one that is stuck. */
  lemma {:induction false} StuckIsWorse(steps: seq<Step>, k: nat, hold: Hold, flag: bool, token: bool, n: nat)
    ensures StuckEnds(steps, k, hold, flag, token, n) ==> MovingEnds(steps, k)
    decreases |steps| - k
  {
    hide WorkOf;
    if k < |steps| {
      StuckIsWorse(steps, k + 1, hold, flag, token, n);
      if n > 0 { StuckIsWorse(steps, k + 1, hold, flag, token, n - 1); }
      assert StuckDoes(steps, k, hold, flag, token, n) ==> MovingDoes(steps, k);
    }
  }

  lemma StuckDoesWorse(steps: seq<Step>, k: nat, hold: Hold, flag: bool, token: bool, n: nat)
    requires k < |steps|
    ensures StuckDoes(steps, k, hold, flag, token, n) ==> MovingDoes(steps, k)
  {
    hide WorkOf, StuckEnds, MovingEnds;
    StuckIsWorse(steps, k + 1, hold, flag, token, n);
    if n > 0 { StuckIsWorse(steps, k + 1, hold, flag, token, n - 1); }
  }

  lemma ReaderHelpsNot(sc: Script, s: State, a: Action)
    requires Complete(sc) && !s.main.Waiting? && IsReaders(a) && Enabled(s, a) && CanEnd(sc, DoRead(s, a))
    ensures CanEnd(sc, s)
  {
    hide WorkOf, StuckEnds, MovingEnds, StuckDoes, MovingDoes, TurnAt;
    var r := DoRead(s, a);
    assert HoldOf(s).Moves? && r.main == s.main && r.turn == s.turn && r.refuse == s.refuse;
    match s.main
    case Entered(p) => StuckIsWorse(TurnAt(sc, s.turn).steps, 0, HoldOf(r), false, false, r.inbox);
    case Resetting(_, t) => StuckIsWorse(t.steps, 0, HoldOf(r), false, false, r.inbox);
    case Draining(_, t) => StuckIsWorse(t.steps, 0, HoldOf(r), r.cancelled, false, r.inbox);
    case Checking(_, t, k) => StuckIsWorse(t.steps, k, HoldOf(r), r.cancelled, r.slot, r.inbox);
    case Doing(_, t, k, _) => if k < |t.steps| { StuckDoesWorse(t.steps, k, HoldOf(r), r.cancelled, r.slot, r.inbox); }
    case _ =>
  }

  lemma WorkHelpsNot(sc: Script, s: State)
    requires Complete(sc) && Enabled(s, DoWork) && s.inbox <= ROOM && (DoStep(s).main.Waiting? || CanEnd(sc, DoStep(s)))
    ensures CanEnd(sc, s)
  {
    hide StuckEnds, MovingEnds, TurnAt, StartsTurn;
  }

  lemma CheckHelpsNot(sc: Script, s: State)
    requires Complete(sc) && Enabled(s, Check) && (DoCheck(s).main.Waiting? || CanEnd(sc, DoCheck(s)))
    ensures CanEnd(sc, s)
  {
    hide StuckDoes, MovingDoes, TurnAt, StartsTurn;
  }

  lemma LoopHelpsNot(sc: Script, s: State, a: Action)
    requires Complete(sc) && !s.main.Waiting? && !IsReaders(a) && Enabled(s, a) && s.inbox <= ROOM
    requires DoLoop(sc, s, a).main.Waiting? || CanEnd(sc, DoLoop(sc, s, a))
    ensures CanEnd(sc, s)
  {
    hide StuckEnds, MovingEnds, StuckDoes, MovingDoes, TurnAt, DoStep, DoCheck;
    if a.DoWork? {
      WorkHelpsNot(sc, s);
    } else if a.Check? {
      CheckHelpsNot(sc, s);
    }
  }

  /** From a state that cannot end no run leads to the response. */
  lemma {:induction false} StaysOpen(sc: Script, acts: seq<Action>, s: State, all: seq<Action>, v: State)
    requires Reaches(sc, acts, s) && !s.main.Waiting? && !CanEnd(sc, s)
    requires acts <= all && Reaches(sc, all, v)
    ensures v.out == s.out && !v.main.Waiting? && v.main.p == s.main.p && !CanEnd(sc, v)
    decreases |all|
  {
    hide Do, Enabled, CanEnd, Complete;
    if |all| == |acts| {
      assert all == acts;
    } else {
      var before := LastStep(sc, all, v);
      StaysOpen(sc, acts, s, all[..|all| - 1], before);
      OneResponseEach(sc, all[..|all| - 1], before);
      StepKeepsOpen(sc, before, all[|all| - 1]);
    }
  }

  lemma StepKeepsOpen(sc: Script, s: State, a: Action)
    requires Complete(sc) && !s.main.Waiting? && Enabled(s, a) && s.inbox <= ROOM && !CanEnd(sc, s)
    ensures var r := Do(sc, s, a); r.out == s.out && !r.main.Waiting? && r.main.p == s.main.p && !CanEnd(sc, r)
  {
    hide CanEnd, DoLoop;
    if IsReaders(a) {
      if CanEnd(sc, DoRead(s, a)) { ReaderHelpsNot(sc, s, a); }
    } else {
      LoopAnswersItsRequest(sc, s, a);
      if DoLoop(sc, s, a).main.Waiting? || CanEnd(sc, DoLoop(sc, s, a)) { LoopHelpsNot(sc, s, a); }
    }
  }

  // ---- what can end is brought to its end ----

  /** How far the loop still has to go with its request. */
  function Phase(m: Main): nat {
    match m
    case Waiting => 0
    case Replying(_, _, _) => 1
    case Ending(_, _) => 2
    case Checking(_, _, _) => 3
    case Doing(_, _, _, _) => 3
    case Draining(_, _) => 4
    case Resetting(_, _) => 5
    case Entered(_) => 6
  }

  function StepsLeft(m: Main): int {
    match m
    case Checking(_, t, k) => if k <= |t.steps| then 2 * (|t.steps| - k) + 1 else 0
    case Doing(_, t, k, _) => if k <= |t.steps| then 2 * (|t.steps| - k) else 0
    case _ => 0
  }

  function RoundsLeft(m: Main): int {
    if m.Doing? && m.k < |m.t.steps| && WorkOf(m.t.steps[m.k]).Deltas? && m.n <= WorkOf(m.t.steps[m.k]).count
    then WorkOf(m.t.steps[m.k]).count - m.n else 0
  }

  predicate Sooner(m: Main, n: Main) {
    || Phase(m) < Phase(n)
    || (Phase(m) == Phase(n) && 0 <= StepsLeft(m) < StepsLeft(n))
    || (Phase(m) == Phase(n) && StepsLeft(m) == StepsLeft(n) && 0 <= RoundsLeft(m) < RoundsLeft(n))
  }

  function NextOf(m: Main): Action {
    match m
    case Waiting => Take
    case Entered(_) => Enter
    case Resetting(_, _) => Reset
    case Draining(_, _) => Drain
    case Checking(_, _, _) => Check
    case Doing(_, _, _, _) => DoWork
    case Ending(_, _) => EndCheck
    case Replying(_, _, _) => Reply
  }

  lemma WorkMovesOn(s: State)
    requires Enabled(s, DoWork)
    ensures Sooner(DoStep(s).main, s.main)
  {
  }

  lemma CheckMovesOn(s: State)
    requires Enabled(s, Check)
    ensures Sooner(DoCheck(s).main, s.main)
  {
    hide WorkOf;
  }

  lemma LoopMovesOn(sc: Script, s: State)
    requires Complete(sc) && !s.main.Waiting? && Enabled(s, NextOf(s.main))
    ensures Sooner(DoLoop(sc, s, NextOf(s.main)).main, s.main)
  {
    hide StopOf, WorkOf, DoStep, DoCheck, StepsLeft, RoundsLeft, TurnAt, ReplyTo, StartsTurn, AnswerAtOnce;
    if s.main.Doing? { WorkMovesOn(s); }
    if s.main.Checking? { CheckMovesOn(s); }
  }

  /** The step at hand has what it waits for, and a client that can cancel in front of a step has done so. */
  predicate Helped(s: State) {
    && (s.main.Doing? ==> Enabled(s, DoWork))
    && (s.main.Checking? && s.main.k < |s.main.t.steps| && HoldOf(s).Moves? ==> s.cancelled || s.main.t.steps[s.main.k].permission)
  }

  lemma HelpedGoesOn(sc: Script, s: State)
    requires Complete(sc) && !s.main.Waiting? && CanEnd(sc, s) && Helped(s) && s.inbox <= ROOM
    ensures Enabled(s, NextOf(s.main))
    ensures var r := DoLoop(sc, s, NextOf(s.main)); r.main.Waiting? || CanEnd(sc, r)
  {
    hide StopOf, TurnAt, ReplyTo, AnswerAtOnce, DoStep, DoCheck, StuckEnds, StuckDoes, MovingEnds, MovingDoes;
    if s.main.Doing? { HelpedWorks(sc, s); }
    if s.main.Checking? { HelpedPasses(sc, s); }
  }

  lemma HelpedWorks(sc: Script, s: State)
    requires Complete(sc) && s.main.Doing? && CanEnd(sc, s) && Helped(s) && s.inbox <= ROOM
    ensures !DoStep(s).main.Waiting? && CanEnd(sc, DoStep(s))
  {
    hide StuckEnds, MovingEnds, TurnAt, StartsTurn;
  }

  lemma HelpedPasses(sc: Script, s: State)
    requires Complete(sc) && s.main.Checking? && CanEnd(sc, s) && Helped(s)
    ensures !DoCheck(s).main.Waiting? && CanEnd(sc, DoCheck(s))
  {
    hide StuckDoes, MovingDoes, TurnAt, StartsTurn;
  }

  /** Only the reader has moved. */
  predicate SameLoop(s: State, t: State) {
    t.main == s.main && t.out == s.out && t.turn == s.turn && t.refuse == s.refuse
  }

  /** A reader that moves gets back to the input. */
  lemma BackToInput(sc: Script, acts: seq<Action>, s: State) returns (all: seq<Action>, t: State)
    requires Reaches(sc, acts, s) && !Stuck(s)
    ensures acts <= all && Reaches(sc, all, t) && SameLoop(s, t) && t.reader.Reading?
    ensures t.cancelled == s.cancelled && t.inbox >= s.inbox && (s.reader.Reading? ==> t == s)
  {
    all, t := acts, s;
    match s.reader
    case Reading =>
    case Offering => all, t := StepOn(sc, acts, s, OfferToken);
    case Holding(_) => all, t := StepOn(sc, acts, s, Push);
  }

  lemma SendCancel(sc: Script, acts: seq<Action>, s: State) returns (all: seq<Action>, t: State)
    requires Reaches(sc, acts, s) && !Stuck(s)
    ensures acts <= all && Reaches(sc, all, t) && SameLoop(s, t) && t.reader.Reading? && t.cancelled && t.slot
  {
    all, t := BackToInput(sc, acts, s);
    all, t := StepOn(sc, all, t, StoreFlag);
    all, t := StepOn(sc, all, t, OfferToken);
  }

  lemma SendAnswer(sc: Script, acts: seq<Action>, s: State) returns (all: seq<Action>, t: State)
    requires Reaches(sc, acts, s) && !Stuck(s)
    ensures acts <= all && Reaches(sc, all, t) && SameLoop(s, t) && t.reader.Reading? && t.inbox > 0 && t.cancelled == s.cancelled
    ensures s.reader.Reading? ==> t.slot == s.slot
  {
    all, t := BackToInput(sc, acts, s);
    if t.inbox == 0 {
      all, t := StepOn(sc, all, t, Read(Ans));
      all, t := StepOn(sc, all, t, Push);
    }
  }

  lemma SameLoopCanEnd(sc: Script, s: State, t: State)
    requires Complete(sc) && !s.main.Waiting? && CanEnd(sc, s) && SameLoop(s, t) && HoldOf(s).Moves? && HoldOf(t).Moves?
    ensures CanEnd(sc, t)
  {
    hide MovingEnds, MovingDoes, TurnAt;
  }

  /** The client gives the loop what it needs to go on, if the reader moves; else it is there. */
  lemma GiveHelp(sc: Script, acts: seq<Action>, s: State) returns (all: seq<Action>, t: State)
    requires Reaches(sc, acts, s) && !s.main.Waiting? && CanEnd(sc, s)
    ensures acts <= all && Reaches(sc, all, t) && SameLoop(s, t) && CanEnd(sc, t) && Helped(t)
  {
    hide StuckEnds, MovingEnds, TurnAt, Reaches, StartsTurn;
    all, t := acts, s;
    if HoldOf(s).Moves? {
      if s.main.Checking? || (s.main.Doing? && WorkOf(s.main.t.steps[s.main.k]) == Hang) {
        all, t := SendCancel(sc, acts, s);
      } else if s.main.Doing? && WorkOf(s.main.t.steps[s.main.k]) == Ask {
        all, t := SendAnswer(sc, acts, s);
      }
      ScriptIsComplete(sc, acts, s);
      SameLoopCanEnd(sc, s, t);
    }
  }

  lemma {:induction false} EndTurn(sc: Script, acts: seq<Action>, s: State) returns (all: seq<Action>, t: State)
    requires Reaches(sc, acts, s) && !s.main.Waiting? && CanEnd(sc, s)
    ensures acts <= all && Reaches(sc, all, t) && t.main.Waiting?
    ensures |t.out| == |s.out| + 1 && t.out[..|s.out|] == s.out && t.out[|s.out|].id == s.main.p.id
    decreases Phase(s.main), StepsLeft(s.main), RoundsLeft(s.main)
  {
    hide CanEnd, Reaches, DoLoop, Enabled, Helped, StepsLeft, RoundsLeft, Phase, Complete;
    all, t := GiveHelp(sc, acts, s);
    OneResponseEach(sc, all, t);
    ScriptIsComplete(sc, all, t);
    HelpedGoesOn(sc, t);
    LoopMovesOn(sc, t);
    LoopAnswersItsRequest(sc, t, NextOf(t.main));
    all, t := StepOn(sc, all, t, NextOf(t.main));
    if !t.main.Waiting? { all, t := EndTurn(sc, all, t); }
  }

  lemma ScriptIsComplete(sc: Script, acts: seq<Action>, s: State)
    requires Reaches(sc, acts, s)
    ensures Complete(sc)
  {
  }

  /**
   * Exactly when the request at work can still get its response, for every script and every moment of every run: if the
   * reader moves, when no step that hangs forever stands in the way; if it is stuck on a full queue, when the rest of the
   * turn needs no cancel, token or answer beyond those already there.
   */
  lemma TurnCanEndIff(sc: Script, acts: seq<Action>, s: State)
    requires Reaches(sc, acts, s) && !s.main.Waiting?
    ensures (exists all, t :: acts <= all && Reaches(sc, all, t) && |t.out| > |s.out|) <==> CanEnd(sc, s)
  {
    hide CanEnd;
    if CanEnd(sc, s) {
      var all, t := EndTurn(sc, acts, s);
    } else {
      forall all, t | acts <= all && Reaches(sc, all, t) ensures t.out == s.out { StaysOpen(sc, acts, s, all, t); }
    }
  }

  // ---- clients that keep to the room there is ----

  ghost predicate NeverForever(ts: seq<Turn>) {
    forall t, st :: t in ts && st in t.steps ==> !st.forever
  }

  lemma {:induction false} NothingInTheWay(steps: seq<Step>, k: nat)
    requires forall st :: st in steps ==> !st.forever
    ensures MovingEnds(steps, k) && (k < |steps| ==> MovingDoes(steps, k))
    decreases |steps| - k
  {
    if k < |steps| { NothingInTheWay(steps, k + 1); }
  }

  /**
   * Without steps that hang forever every request of a client that never has more than 17 requests unanswered and 16
   * answers unused can be brought to its one response, from any moment on.
   */
  lemma EveryTurnCanEnd(sc: Script, acts: seq<Action>, s: State) returns (all: seq<Action>, t: State)
    requires Reaches(sc, acts, s) && NeverForever(sc.turns) && !s.main.Waiting?
    requires |s.arrived| <= |s.out| + 17 && s.given <= s.used + 16
    ensures acts <= all && Reaches(sc, all, t) && t.main.Waiting?
    ensures |t.out| == |s.out| + 1 && t.out[..|s.out|] == s.out && t.out[|s.out|].id == s.main.p.id
  {
    hide Reaches, MovingEnds, MovingDoes;
    StuckIff(sc, acts, s);
    EveryRunKeepsTurn(sc, acts, s);
    ScriptIsComplete(sc, acts, s);
    if !s.main.Entered? {
      NothingInTheWay(s.main.t.steps, if s.main.Doing? || s.main.Checking? then s.main.k else 0);
    } else {
      assert TurnAt(sc, s.turn) in sc.turns;
      NothingInTheWay(TurnAt(sc, s.turn).steps, 0);
    }
    all, t := EndTurn(sc, acts, s);
  }

  // ---- a client that does not ----

  /** Requests go to the queue as long as there is room. */
  lemma {:induction false} SendRequests(sc: Script, acts: seq<Action>, s: State, rs: seq<Request>)
    returns (all: seq<Action>, t: State)
    requires Reaches(sc, acts, s) && s.reader.Reading? && |s.reqs| + |rs| <= ROOM
    ensures acts <= all && Reaches(sc, all, t)
    ensures t == s.(reqs := s.reqs + rs, arrived := s.arrived + RequestIds(rs))
    decreases |rs|
  {
    hide Reaches, Enabled, Do;
    if rs == [] {
      all, t := acts, s;
      assert s.reqs + rs == s.reqs && s.arrived + RequestIds(rs) == s.arrived;
    } else {
      all, t := SendOne(sc, acts, s, rs[0]);
      all, t := SendRequests(sc, all, t, rs[1..]);
      assert (s.reqs + [rs[0]]) + rs[1..] == s.reqs + rs;
      assert (s.arrived + [rs[0].id]) + RequestIds(rs[1..]) == s.arrived + RequestIds(rs);
    }
  }

  lemma SendOne(sc: Script, acts: seq<Action>, s: State, r: Request) returns (all: seq<Action>, t: State)
    requires Reaches(sc, acts, s) && s.reader.Reading? && |s.reqs| < ROOM
    ensures acts <= all && Reaches(sc, all, t)
    ensures t == s.(reqs := s.reqs + [r], arrived := s.arrived + [r.id])
  {
    all, t := StepOn(sc, acts, s, Read(Req(r)));
    all, t := StepOn(sc, all, t, Push);
  }

  /** A turn that starts with `w` gets into that step. */
  lemma IntoFirstStep(sc: Script, p: Request) returns (acts: seq<Action>, s: State)
    requires Complete(sc) && p.Prompt? && TurnAt(sc, 0).steps != []
    ensures Reaches(sc, acts, s) && s.reader.Reading? && s.main == Doing(p, TurnAt(sc, 0), 0, 0)
    ensures s.reqs == [] && s.arrived == [p.id] && s.out == [] && s.inbox == s.given == s.used == 0 && !s.slot && !s.cancelled
  {
    acts, s := [], START;
    acts, s := SendOne(sc, acts, s, p);
    acts, s := StepOn(sc, acts, s, Take);
    acts, s := StepOn(sc, acts, s, Enter);
    acts, s := StepOn(sc, acts, s, Reset);
    acts, s := StepOn(sc, acts, s, Drain);
    acts, s := StepOn(sc, acts, s, Check);
  }

  /** 18 requests in front of the cancel or the answer that a step waits for: it is never read and nothing is answered. */
  lemma RequestsBlockTheReader(sc: Script, rs: seq<Request>) returns (acts: seq<Action>, s: State)
    requires Complete(sc) && |rs| == 18 && rs[0].Prompt? && TurnAt(sc, 0).steps != []
    requires WorkOf(TurnAt(sc, 0).steps[0]) == Hang || WorkOf(TurnAt(sc, 0).steps[0]) == Ask
    ensures Reaches(sc, acts, s) && s.arrived == RequestIds(rs) && HoldOf(s) == AtRequests
    ensures forall all, t :: acts <= all && Reaches(sc, all, t) ==> t.out == []
  {
    hide Reaches, StuckEnds;
    acts, s := IntoFirstStep(sc, rs[0]);
    acts, s := SendRequests(sc, acts, s, rs[1..17]);
    acts, s := StepOn(sc, acts, s, Read(Req(rs[17])));
    assert s.arrived == RequestIds(rs);
    assert !CanEnd(sc, s);
    hide CanEnd, Do;
    forall all, t | acts <= all && Reaches(sc, all, t) ensures t.out == [] { StaysOpen(sc, acts, s, all, t); }
  }

  /** And so do 17 answers that nobody asked for in front of the cancel that a step waits for. */
  lemma AnswersBlockTheReader(sc: Script, p: Request) returns (acts: seq<Action>, s: State)
    requires Complete(sc) && p.Prompt? && TurnAt(sc, 0).steps != [] && WorkOf(TurnAt(sc, 0).steps[0]) == Hang
    ensures Reaches(sc, acts, s) && s.given == 17 && HoldOf(s) == AtAnswers
    ensures forall all, t :: acts <= all && Reaches(sc, all, t) ==> t.out == []
  {
    hide Reaches, StuckEnds;
    acts, s := IntoFirstStep(sc, p);
    acts, s := SendAnswers(sc, acts, s, ROOM);
    acts, s := StepOn(sc, acts, s, Read(Ans));
    assert !CanEnd(sc, s);
    hide CanEnd, Do;
    forall all, t | acts <= all && Reaches(sc, all, t) ensures t.out == [] { StaysOpen(sc, acts, s, all, t); }
  }

  lemma {:induction false} SendAnswers(sc: Script, acts: seq<Action>, s: State, n: nat) returns (all: seq<Action>, t: State)
    requires Reaches(sc, acts, s) && s.reader.Reading? && s.inbox + n <= ROOM
    ensures acts <= all && Reaches(sc, all, t)
    ensures t == s.(inbox := s.inbox + n, given := s.given + n)
    decreases n
  {
    all, t := acts, s;
    if n > 0 {
      all, t := StepOn(sc, all, t, Read(Ans));
      all, t := StepOn(sc, all, t, Push);
      all, t := SendAnswers(sc, all, t, n - 1);
    }
  }
}
