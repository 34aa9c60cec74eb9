/**
 * The server object of daemon/acpfake/acpfake.go. What the reader does between two accesses of the turn loop is given
 * as a schedule; for every input and every schedule the loop is proved to be a run of the machine.
 */
module AgentServer {
  import opened Options
  import opened Agent
  import opened AgentTurns
  import opened AgentEnds

  // ---- the input ----

  /** A line of the input: a cancel, or what the reader passes on. */
  datatype Line = Cancel | Carries(m: Message)

  function LineOf(a: Action): seq<Line> {
    match a
    case StoreFlag => [Cancel]
    case Read(m) => [Carries(m)]
    case _ => []
  }

  function LinesRead(acts: seq<Action>): seq<Line>
    decreases |acts|
  {
    if acts == [] then [] else LinesRead(acts[..|acts| - 1]) + LineOf(acts[|acts| - 1])
  }

  function RequestsIn(lines: seq<Line>): seq<nat>
    decreases |lines|
  {
    if lines == [] then []
    else RequestsIn(lines[..|lines| - 1])
         + (match lines[|lines| - 1] case Carries(Req(r)) => [r.id] case _ => [])
  }

  /** What the reader does next; nothing while it is stuck or the input is at its end. */
  function ReadMove(s: State, input: seq<Line>): Option<Action> {
    match s.reader
    case Offering => Some(OfferToken)
    case Holding(m) => if HasRoom(s, m) then Some(Push) else None
    case Reading =>
      if input == [] then None
      else match input[0]
        case Cancel => Some(StoreFlag)
        case Carries(m) => Some(Read(m))
  }

  lemma ReadOn(sc: Script, acts: seq<Action>, s: State, a: Action)
    requires Reaches(sc, acts, s) && Enabled(s, a)
    ensures Reaches(sc, acts + [a], Do(sc, s, a)) && LinesRead(acts + [a]) == LinesRead(acts) + LineOf(a)
  {
    RunOn(sc, acts, s, a);
    assert (acts + [a])[..|acts|] == acts;
  }

  lemma ReadMoveOn(sc: Script, acts: seq<Action>, s: State, input: seq<Line>, whole: seq<Line>)
    requires Reaches(sc, acts, s) && LinesRead(acts) + input == whole && ReadMove(s, input).Some?
    ensures var a := ReadMove(s, input).value;
            && IsReaders(a) && Enabled(s, a) && Reaches(sc, acts + [a], DoRead(s, a))
            && LinesRead(acts + [a]) + (if s.reader.Reading? then input[1..] else input) == whole
  {
    hide Reaches, LinesRead, DoRead;
    ReadOn(sc, acts, s, ReadMove(s, input).value);
    if s.reader.Reading? {
      assert [input[0]] + input[1..] == input;
      assert (LinesRead(acts) + [input[0]]) + input[1..] == LinesRead(acts) + ([input[0]] + input[1..]);
    } else {
      assert LinesRead(acts) + [] == LinesRead(acts);
    }
  }

  lemma LoopOn(sc: Script, acts: seq<Action>, s: State, a: Action, input: seq<Line>, whole: seq<Line>)
    requires Reaches(sc, acts, s) && LinesRead(acts) + input == whole && Enabled(s, a) && !IsReaders(a)
    ensures Complete(sc) && Reaches(sc, acts + [a], DoLoop(sc, s, a)) && LinesRead(acts + [a]) + input == whole
  {
    hide LinesRead, DoLoop, Enabled;
    ReadOn(sc, acts, s, a);
    assert LinesRead(acts) + [] == LinesRead(acts);
  }

  lemma ArrivedMoves(sc: Script, s: State, a: Action)
    requires Complete(sc) && Enabled(s, a)
    ensures Do(sc, s, a).arrived == s.arrived + (match a case Read(Req(r)) => [r.id] case _ => [])
  {
    hide DoStep, DoCheck, DoEnter, StopOf, ReplyTo;
    if a.DoWork? { WorkStaysInTurn(s); }
    if a.Check? { CheckStaysInTurn(s); }
    if a.Enter? { EnterReadsNothing(sc, s); }
  }

  lemma EnterReadsNothing(sc: Script, s: State)
    requires Complete(sc) && Enabled(s, Enter)
    ensures DoEnter(sc, s).arrived == s.arrived
  {
  }

  /** The requests that arrived are those of the lines that were read, in order. */
  lemma {:induction false} ArrivedAreRead(sc: Script, acts: seq<Action>, s: State)
    requires Reaches(sc, acts, s)
    ensures s.arrived == RequestsIn(LinesRead(acts))
    decreases |acts|
  {
    hide Do, Enabled;
    if acts != [] {
      var before := LastStep(sc, acts, s);
      var a, lines := acts[|acts| - 1], LinesRead(acts);
      ArrivedAreRead(sc, acts[..|acts| - 1], before);
      ArrivedMoves(sc, before, a);
      if LineOf(a) != [] {
        assert lines[..|lines| - 1] == LinesRead(acts[..|acts| - 1]) && lines[|lines| - 1] == LineOf(a)[0];
      } else {
        assert lines == LinesRead(acts[..|acts| - 1]);
      }
    }
  }

  datatype StepEnd = GoesOn | IsCancelled | IsStuck

  class Server {
    const script: Script
    /** All lines of the input, and those that are not read yet. */
    ghost const whole: seq<Line>
    var input: seq<Line>
    var cancelled: bool
    var cancelCh: bool
    var inbox: nat
    var reqs: seq<Request>
    var refuse: string
    var turn: nat
    var out: seq<Response>
    var reader: Reader
    /** How many moves the reader gets to make at each pause of the loop. */
    var schedule: seq<nat>
    ghost var main: Main
    ghost var arrived: seq<nat>
    ghost var taken: seq<nat>
    ghost var given: nat
    ghost var used: nat
    ghost var acts: seq<Action>

    ghost function View(): State
      reads this
    {
      State(cancelled, cancelCh, reader, reqs, inbox, refuse, turn, main, out, arrived, taken, given, used)
    }

    /** The present state is that of a run, and that run has read the input up to here. */
    ghost predicate Valid()
      reads this
    {
      Complete(script) && Reaches(script, acts, View()) && LinesRead(acts) + input == whole
    }

    /** How much reader and loop still have to pass on. */
    ghost function Left(): nat
      reads this
    {
      3 * |input| + (match reader case Reading => 0 case Offering => 1 case Holding(_) => 2) + |reqs|
    }

    constructor (sc: Script, lines: seq<Line>, plan: seq<nat>)
      requires Complete(sc)
      ensures Valid() && script == sc && View() == START && input == whole == lines && schedule == plan
    {
      script, whole, input, schedule := sc, lines, lines, plan;
      cancelled, cancelCh, reader, inbox := false, false, Reading, 0;
      reqs, refuse, turn, out := [], "", 0, [];
      main, arrived, taken, given, used, acts := Waiting, [], [], 0, 0, [];
    }

    // ---- the reader ----

    /** The reader takes a line off the input: it stores the flag, or has a message in hand. */
    method ReadLine()
      requires Valid() && reader.Reading? && input != []
      modifies this`cancelled, this`reader, this`arrived, this`given, this`input, this`acts
      ensures Valid() && input == old(input)[1..]
      ensures var a := ReadMove(old(View()), old(input)).value;
              && IsReaders(a) && Enabled(old(View()), a) && View() == DoRead(old(View()), a) && acts == old(acts) + [a]
      ensures !reader.Reading?
    {
      hide Reaches, LinesRead, Do, Enabled;
      ReadMoveOn(script, acts, View(), input, whole);
      acts := acts + [ReadMove(View(), input).value];
      match input[0] {
        case Cancel => cancelled, reader := true, Offering;
        case Carries(Req(r)) => reader, arrived := Holding(Req(r)), arrived + [r.id];
        case Carries(Ans) => reader, given := Holding(Ans), given + 1;
      }
      input := input[1..];
    }

    /** The reader's next move, if it has one: it reads nothing while it has a message in hand. */
    method Read() returns (moved: bool)
      requires Valid()
      modifies this`cancelled, this`cancelCh, this`reader, this`reqs, this`arrived, this`inbox, this`given, this`input, this`acts
      ensures Valid() && moved == ReadMove(old(View()), old(input)).Some?
      ensures match ReadMove(old(View()), old(input))
              case None => View() == old(View()) && acts == old(acts) && input == old(input)
              case Some(a) =>
                && Enabled(old(View()), a) && View() == DoRead(old(View()), a) && acts == old(acts) + [a]
                && input == if old(reader).Reading? then old(input)[1..] else old(input)
      ensures if moved then Left() < old(Left()) else Left() == old(Left())
    {
      hide Reaches, LinesRead, Do, Enabled;
      ghost var s, a := View(), ReadMove(View(), input);
      if a.Some? { ReadMoveOn(script, acts, s, input, whole); }
      match reader {
        case Offering => cancelCh, reader := true, Reading;
        case Holding(Req(r)) =>
          if |reqs| >= ROOM { return false; }
          reqs, reader := reqs + [r], Reading;
        case Holding(Ans) =>
          if inbox >= ROOM { return false; }
          inbox, reader := inbox + 1, Reading;
        case Reading =>
          if input == [] { return false; }
          ReadLine();
          return true;
      }
      acts := acts + [a.value];
      moved := true;
    }

    /** The reader goes on while the loop does nothing. */
    method Pause()
      requires Valid()
      modifies this`cancelled, this`cancelCh, this`reader, this`reqs, this`arrived, this`inbox, this`given, this`input, this`acts, this`schedule
      ensures Valid() && Left() <= old(Left())
      ensures |reqs| >= |old(reqs)| && reqs[..|old(reqs)|] == old(reqs)
      ensures (old(cancelCh) ==> cancelCh) && inbox >= old(inbox)
    {
      hide Reaches, DoLoop, LinesRead, Enabled, Complete;
      if schedule == [] { return; }
      var moves := schedule[0];
      schedule := schedule[1..];
      for i := 0 to moves
        invariant Valid() && Left() <= old(Left())
        invariant |reqs| >= |old(reqs)| && reqs[..|old(reqs)|] == old(reqs)
        invariant (old(cancelCh) ==> cancelCh) && inbox >= old(inbox)
      {
        var moved := Read();
        if !moved { break; }
      }
    }

    // ---- the loop, one access at a time ----

    method TakeRequest() returns (p: Request)
      requires Valid() && main.Waiting? && reqs != []
      modifies this`reqs, this`main, this`taken, this`acts
      ensures Valid() && p == old(reqs)[0] && main == Entered(p) && Left() < old(Left())
    {
      hide Reaches, LinesRead;
      LoopOn(script, acts, View(), Take, input, whole);
      acts := acts + [Take];
      p := reqs[0];
      reqs, taken, main := reqs[1..], taken + [p.id], Entered(p);
    }

    /** What the loop does with a request: it starts a turn, or is answered at once. */
    method Handle(p: Request) returns (t: Option<Turn>)
      requires Valid() && main == Entered(p)
      modifies this`turn, this`out, this`refuse, this`main, this`acts
      ensures Valid() && t.Some? == StartsTurn(old(View()), p)
      ensures t.Some? ==> main == Resetting(p, t.value) && out == old(out)
      ensures t.None? ==> main == Waiting && out == old(out) + [AnswerAtOnce(p)]
    {
      hide Reaches, Do, Enabled, LinesRead;
      EnterRun(script, acts, View(), p, input, whole);
      acts := acts + [Enter];
      match p {
        case Load(id, session) =>
          if session in script.lost { refuse := session; }
          out, main := out + [Answered(id)], Waiting;
          return None;
        case Other(id) =>
          out, main := out + [Answered(id)], Waiting;
          return None;
        case Prompt(id, session) =>
          if refuse != "" && session == refuse {
            out, main := out + [Stopped(id, "refusal")], Waiting;
            return None;
          }
          t := Some(TurnAt(script, turn));
          turn, main := turn + 1, Resetting(p, t.value);
      }
    }

    method ResetFlag()
      requires Valid() && main.Resetting?
      modifies this`cancelled, this`main, this`acts
      ensures Valid() && main == Draining(old(main).p, old(main).t)
    {
      hide Reaches, LinesRead;
      LoopOn(script, acts, View(), Reset, input, whole);
      acts := acts + [Reset];
      cancelled, main := false, Draining(main.p, main.t);
    }

    method DrainToken()
      requires Valid() && main.Draining?
      modifies this`cancelCh, this`main, this`acts
      ensures Valid() && main == Checking(old(main).p, old(main).t, 0)
    {
      hide Reaches, LinesRead;
      LoopOn(script, acts, View(), Drain, input, whole);
      acts := acts + [Drain];
      cancelCh, main := false, Checking(main.p, main.t, 0);
    }

    /** Line 711; true when the turn is to stop here. */
    method CheckStep(p: Request, t: Turn, k: nat) returns (stop: bool)
      requires Valid() && main == Checking(p, t, k) && k < |t.steps|
      modifies this`main, this`acts
      ensures Valid() && main == if stop then Replying(p, t, CANCELLED) else Doing(p, t, k, 0)
    {
      hide Reaches, LinesRead;
      LoopOn(script, acts, View(), Check, input, whole);
      acts := acts + [Check];
      stop := cancelled && !t.steps[k].permission;
      main := if stop then Replying(p, t, CANCELLED) else Doing(p, t, k, 0);
    }

    /** Takes a token or an answer that is there, or sends what the step sends. */
    method Work(p: Request, t: Turn, k: nat)
      requires Valid() && main == Doing(p, t, k, 0) && Enabled(View(), DoWork) && !WorkOf(t.steps[k]).Deltas?
      modifies this`cancelCh, this`inbox, this`used, this`main, this`acts
      ensures Valid() && main == if WorkOf(t.steps[k]) == Hang then Replying(p, t, CANCELLED) else Checking(p, t, k + 1)
    {
      hide Reaches, LinesRead, DoRead;
      LoopOn(script, acts, View(), DoWork, input, whole);
      acts := acts + [DoWork];
      match WorkOf(t.steps[k]) {
        case Hang => cancelCh := false;
        case Ask => inbox, used := inbox - 1, used + 1;
        case _ =>
      }
      main := if WorkOf(t.steps[k]) == Hang then Replying(p, t, CANCELLED) else Checking(p, t, k + 1);
    }

    /** The deltas of a step, each only after another look at the flag. */
    method SendDeltas(p: Request, t: Turn, k: nat, count: nat)
      requires Valid() && main == Doing(p, t, k, 0) && k < |t.steps| && WorkOf(t.steps[k]) == Deltas(count)
      modifies this
      ensures Valid() && main == Checking(p, t, k + 1) && out == old(out) && Left() <= old(Left())
    {
      hide Reaches, WorkOf, LinesRead, DoRead;
      var i := 0;
      while true
        invariant Valid() && i <= count && main == Doing(p, t, k, i) && out == old(out) && Left() <= old(Left())
        decreases count - i
      {
        Pause();
        LoopOn(script, acts, View(), DoWork, input, whole);
        acts := acts + [DoWork];
        if i >= count || cancelled { break; }
        i, main := i + 1, Doing(p, t, k, i + 1);
      }
      main := Checking(p, t, k + 1);
    }

    /** The loop condition behind the last step. */
    method LeaveSteps(p: Request, t: Turn)
      requires Valid() && main == Checking(p, t, |t.steps|)
      modifies this`main, this`acts
      ensures Valid() && main == Ending(p, t)
    {
      hide Reaches, LinesRead;
      LoopOn(script, acts, View(), Check, input, whole);
      acts := acts + [Check];
      main := Ending(p, t);
    }

    /** The last look at the flag, line 819. */
    method CheckEnd(p: Request, t: Turn) returns (stop: string)
      requires Valid() && main == Checking(p, t, |t.steps|)
      modifies this
      ensures Valid() && main == Replying(p, t, stop) && out == old(out) && Left() <= old(Left())
    {
      hide Reaches, LinesRead, DoRead, StopOf;
      LeaveSteps(p, t);
      Pause();
      LoopOn(script, acts, View(), EndCheck, input, whole);
      acts := acts + [EndCheck];
      stop := if cancelled then CANCELLED else StopOf(t);
      main := Replying(p, t, stop);
    }

    method Finish(p: Request, t: Turn, stop: string)
      requires Valid() && main == Replying(p, t, stop)
      modifies this
      ensures Valid() && main == Waiting && out == old(out) + [ReplyTo(p, t, stop)] && Left() <= old(Left())
    {
      hide Reaches, LinesRead, DoRead;
      Pause();
      LoopOn(script, acts, View(), Reply, input, whole);
      acts := acts + [Reply];
      out, main := out + [ReplyTo(p, t, stop)], Waiting;
    }

    /** Blocks until what a step waits for is there; false when the reader has no move left that could bring it. */
    method Await(w: Work) returns (ready: bool)
      requires Valid()
      modifies this`cancelled, this`cancelCh, this`reader, this`reqs, this`arrived, this`inbox, this`given, this`input, this`acts, this`schedule
      ensures Valid() && ready == WorkReady(View(), w) && Left() <= old(Left())
      ensures !ready && w != HangForever ==> ReadMove(View(), input) == None
    {
      hide Reaches, LinesRead, DoRead;
      if w == HangForever { return false; }
      while !((w == Hang ==> cancelCh) && (w == Ask ==> inbox > 0))
        invariant Valid() && Left() <= old(Left())
        decreases Left()
      {
        var moved := Read();
        if !moved { return false; }
      }
      Pause();
      return true;
    }

    /** One turn of the loop over the steps. */
    method RunStep(p: Request, t: Turn, k: nat) returns (end: StepEnd)
      requires Valid() && main == Checking(p, t, k) && k < |t.steps|
      modifies this
      ensures Valid() && out == old(out) && Left() <= old(Left())
      ensures end == GoesOn ==> main == Checking(p, t, k + 1)
      ensures end == IsCancelled ==> main == Replying(p, t, CANCELLED)
      ensures end == IsStuck ==> main == Doing(p, t, k, 0) && NothingHelps()
    {
      hide Reaches, Do, Enabled, LinesRead, CanEnd, DoRead;
      Pause();
      var stop := CheckStep(p, t, k);
      if stop { return IsCancelled; }
      var w := WorkOf(t.steps[k]);
      if w.Deltas? {
        SendDeltas(p, t, k, w.count);
        return GoesOn;
      }
      var ready := Await(w);
      if !ready {
        StuckForGood(script, View(), input);
        return IsStuck;
      }
      WorkIsEnabled(View(), p, t, k);
      Work(p, t, k);
      end := if w == Hang then IsCancelled else GoesOn;
    }

    /** Why a request is not answered: the input is at its end, or no continuation whatever leads to a response. */
    ghost predicate NothingHelps()
      requires Complete(script)
      reads this
    {
      (input == [] && reader.Reading?) || (main.Doing? && !CanEnd(script, View()))
    }

    /** The reset of the flag and the drain of the channel, lines 674 to 678. */
    method BeginTurn(p: Request, t: Turn)
      requires Valid() && main == Resetting(p, t)
      modifies this
      ensures Valid() && main == Checking(p, t, 0) && out == old(out) && Left() <= old(Left())
    {
      hide Reaches, Do, Enabled, LinesRead, DoRead, Complete;
      Pause();
      ResetFlag();
      Pause();
      DrainToken();
    }

    /** The steps of a turn and its end; none when a step waits for something that never comes. */
    method RunTurn(p: Request, t: Turn) returns (stop: Option<string>)
      requires Valid() && main == Resetting(p, t)
      modifies this
      ensures Valid() && out == old(out) && Left() <= old(Left())
      ensures if stop.Some? then main == Replying(p, t, stop.value) else main.Doing? && main.p == p && NothingHelps()
    {
      hide Reaches, Do, Enabled, LinesRead, CanEnd, NothingHelps;
      BeginTurn(p, t);
      for k := 0 to |t.steps|
        invariant Valid() && main == Checking(p, t, k) && out == old(out) && Left() <= old(Left())
      {
        var end := RunStep(p, t, k);
        if end == IsCancelled { return Some(CANCELLED); }
        if end == IsStuck { return None; }
      }
      var reason := CheckEnd(p, t);
      return Some(reason);
    }

    /** One request: one response to it, or the loop waits for something that never comes. */
    method HandleNext() returns (answered: bool)
      requires Valid() && main.Waiting? && reqs != []
      modifies this
      ensures Valid() && Left() < old(Left())
      ensures answered ==> main == Waiting && |out| == |old(out)| + 1 && out[..|old(out)|] == old(out)
                           && out[|old(out)|].id == old(reqs)[0].id
      ensures !answered ==> main.Doing? && main.p == old(reqs)[0] && out == old(out) && NothingHelps()
    {
      hide Reaches, Do, Enabled, LinesRead, CanEnd;
      var p := TakeRequest();
      var t := Handle(p);
      if t.None? { return true; }
      var stop := RunTurn(p, t.value);
      if stop.None? { return false; }
      Finish(p, t.value, stop.value);
      return true;
    }

    /**
     * The whole loop: every request of the input is answered once and in order, or the loop stops for good at a step
     * that nothing helps, or idle behind a reader that is stuck with an answer nobody asked for.
     */
    method Serve() returns (served: bool)
      requires Valid() && main.Waiting?
      modifies this
      ensures Valid()
      ensures served ==> input == [] && Ids(out) == RequestsIn(whole)
      ensures !served ==> (main.Doing? && NothingHelps()) || (main.Waiting? && reqs == [] && HoldOf(View()) == AtAnswers)
    {
      hide Reaches, Do, Enabled, LinesRead, CanEnd;
      while true
        invariant Valid() && main.Waiting?
        decreases Left()
      {
        Pause();
        if reqs != [] {
          var answered := HandleNext();
          if !answered { return false; }
        } else {
          var moved := Read();
          if !moved {
            if reader.Reading? { AllAnswered(script, acts, View(), whole); }
            return reader.Reading?;
          }
        }
      }
    }
  }

  lemma EnterRun(sc: Script, acts: seq<Action>, s: State, p: Request, input: seq<Line>, whole: seq<Line>)
    requires Reaches(sc, acts, s) && s.main == Entered(p) && LinesRead(acts) + input == whole
    ensures Complete(sc) && LinesRead(acts + [Enter]) + input == whole && Reaches(sc, acts + [Enter], DoEnter(sc, s))
  {
    LoopOn(sc, acts, s, Enter, input, whole);
  }

  lemma WorkIsEnabled(s: State, p: Request, t: Turn, k: nat)
    requires s.main == Doing(p, t, k, 0) && k < |t.steps| && WorkReady(s, WorkOf(t.steps[k]))
    ensures Enabled(s, DoWork)
  {
  }

  /** A step that waits while the reader has no move left waits for good, unless the input only ends here. */
  lemma StuckForGood(sc: Script, s: State, input: seq<Line>)
    requires Complete(sc) && s.main.Doing? && s.main.k < |s.main.t.steps|
    requires var w := WorkOf(s.main.t.steps[s.main.k]); !WorkReady(s, w) && (w != HangForever ==> ReadMove(s, input) == None)
    ensures (input == [] && s.reader.Reading?) || !CanEnd(sc, s)
  {
    hide StuckEnds, MovingEnds;
  }

  lemma AllAnswered(sc: Script, acts: seq<Action>, s: State, whole: seq<Line>)
    requires Reaches(sc, acts, s) && s.main.Waiting? && s.reqs == [] && s.reader.Reading? && LinesRead(acts) == whole
    ensures Ids(s.out) == RequestsIn(whole)
  {
    OneResponseEach(sc, acts, s);
    ArrivedAreRead(sc, acts, s);
  }
}
