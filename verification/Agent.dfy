/**
 * The scripted agent of daemon/acpfake/acpfake.go: a reader goroutine (lines 389 to 412) and the loop over the
 * requests (lines 413 to 415) with the turns of `prompt` (lines 667 to 823). They share a flag, a channel with room for
 * one token and two queues with room for 16 messages. Every access to what they share is a step of its own.
 */
module Agent {
  import opened Options

  // ---- data model ----

  /** A scripted step. Several fields may be set; the switch takes the first that matches. */
  datatype Step = Step(forever: bool, hang: bool, quick: bool, permission: bool, deltas: Option<nat>)

  datatype Work = HangForever | Hang | Quick | Ask | Deltas(count: nat)

  function WorkOf(s: Step): Work {
    if s.forever then HangForever
    else if s.hang then Hang
    else if s.quick then Quick
    else if s.permission then Ask
    else if s.deltas.Some? then Deltas(s.deltas.value)
    else Quick
  }

  datatype Turn = Turn(steps: seq<Step>, stopReason: string, error: Option<int>)

  /** `lost` are the sessions whose load is answered without provenance and whose prompts are refused from then on. */
  datatype Script = Script(turns: seq<Turn>, lost: set<string>)

  const CANCELLED := "cancelled"

  function StopOf(t: Turn): string {
    if t.stopReason == "" then "end_turn" else t.stopReason
  }

  /** What a client asks for. Every method but a prompt is answered at once. */
  datatype Request = Prompt(id: nat, session: string) | Load(id: nat, session: string) | Other(id: nat)

  datatype Response = Stopped(id: nat, stop: string) | Failed(id: nat, code: int) | Answered(id: nat)

  /** What the reader passes on: a request, or an answer to a request of the agent. */
  datatype Message = Req(r: Request) | Ans

  /** Where the reader is: at the input, between storing the flag and offering the token, or with a message in hand. */
  datatype Reader = Reading | Offering | Holding(m: Message)

  /** Where the turn loop is. */
  datatype Main =
    | Waiting
    | Entered(p: Request)
    | Resetting(p: Request, t: Turn)
    | Draining(p: Request, t: Turn)
    | Checking(p: Request, t: Turn, k: nat)
    | Doing(p: Request, t: Turn, k: nat, n: nat)
    | Ending(p: Request, t: Turn)
    | Replying(p: Request, t: Turn, stop: string)

  /**
   * `arrived` and `taken` are the ids of the requests that the reader has read and the loop has taken; `given` and
   * `used` count the answers that were read and those that steps have taken.
   */
  datatype State = State(
    cancelled: bool,
    slot: bool,
    reader: Reader,
    reqs: seq<Request>,
    inbox: nat,
    refuse: string,
    turn: nat,
    main: Main,
    out: seq<Response>,
    arrived: seq<nat>,
    taken: seq<nat>,
    given: nat,
    used: nat)

  const START := State(false, false, Reading, [], 0, "", 0, Waiting, [], [], [], 0, 0)

  const ROOM := 16

  function Min(a: int, b: int): int {
    if a < b then a else b
  }

  /** The script as `Serve` completes it: there is at least one turn. */
  predicate Complete(sc: Script) {
    sc.turns != []
  }

  function TurnAt(sc: Script, n: nat): Turn
    requires Complete(sc)
  {
    sc.turns[Min(n, |sc.turns| - 1)]
  }

  function ReplyTo(p: Request, t: Turn, stop: string): Response {
    if t.error.Some? && stop != CANCELLED then Failed(p.id, t.error.value) else Stopped(p.id, stop)
  }

  // ---- steps ----

  datatype Action =
    | StoreFlag | OfferToken | Read(m: Message) | Push
    | Take | Enter | Reset | Drain | Check | DoWork | EndCheck | Reply

  predicate IsReaders(a: Action) {
    a.StoreFlag? || a.OfferToken? || a.Read? || a.Push?
  }

  /** Is there room in the queue that the message goes to? */
  predicate HasRoom(s: State, m: Message) {
    match m
    case Req(_) => |s.reqs| < ROOM
    case Ans => s.inbox < ROOM
  }

  predicate WorkReady(s: State, w: Work) {
    match w
    case HangForever => false
    case Hang => s.slot
    case Ask => s.inbox > 0
    case _ => true
  }

  /** While the reader has a message in hand it reads nothing else, a cancel included. */
  predicate Enabled(s: State, a: Action) {
    match a
    case StoreFlag => s.reader.Reading?
    case OfferToken => s.reader.Offering?
    case Read(_) => s.reader.Reading?
    case Push => s.reader.Holding? && HasRoom(s, s.reader.m)
    case Take => s.main.Waiting? && s.reqs != []
    case Enter => s.main.Entered?
    case Reset => s.main.Resetting?
    case Drain => s.main.Draining?
    case Check => s.main.Checking?
    case DoWork => s.main.Doing? && s.main.k < |s.main.t.steps| && WorkReady(s, WorkOf(s.main.t.steps[s.main.k]))
    case EndCheck => s.main.Ending?
    case Reply => s.main.Replying?
  }

  function DoRead(s: State, a: Action): State
    requires IsReaders(a) && Enabled(s, a)
  {
    match a
    case StoreFlag => s.(cancelled := true, reader := Offering)
    case OfferToken => s.(slot := true, reader := Reading)
    case Read(Req(r)) => s.(reader := Holding(Req(r)), arrived := s.arrived + [r.id])
    case Read(Ans) => s.(reader := Holding(Ans), given := s.given + 1)
    case Push =>
      match s.reader.m
      case Req(r) => s.(reader := Reading, reqs := s.reqs + [r])
      case Ans => s.(reader := Reading, inbox := s.inbox + 1)
  }

  /** Does the request start a turn? */
  predicate StartsTurn(s: State, p: Request) {
    p.Prompt? && !(s.refuse != "" && p.session == s.refuse)
  }

  /** What is answered without a turn. */
  function AnswerAtOnce(p: Request): Response {
    if p.Prompt? then Stopped(p.id, "refusal") else Answered(p.id)
  }

  function DoEnter(sc: Script, s: State): State
    requires Complete(sc) && Enabled(s, Enter)
  {
    var p := s.main.p;
    if StartsTurn(s, p) then s.(main := Resetting(p, TurnAt(sc, s.turn)), turn := s.turn + 1)
    else s.(main := Waiting, out := s.out + [AnswerAtOnce(p)],
            refuse := if p.Load? && p.session in sc.lost then p.session else s.refuse)
  }

  /** The loop check before a step, line 711. */
  function DoCheck(s: State): State
    requires Enabled(s, Check)
  {
    var m := s.main;
    if m.k >= |m.t.steps| then s.(main := Ending(m.p, m.t))
    else if s.cancelled && !m.t.steps[m.k].permission then s.(main := Replying(m.p, m.t, CANCELLED))
    else s.(main := Doing(m.p, m.t, m.k, 0))
  }

  function DoStep(s: State): State
    requires Enabled(s, DoWork)
  {
    var m := s.main;
    var next := Checking(m.p, m.t, m.k + 1);
    match WorkOf(m.t.steps[m.k])
    case Hang => s.(slot := false, main := Replying(m.p, m.t, CANCELLED))
    case Ask => s.(inbox := s.inbox - 1, used := s.used + 1, main := next)
    case Deltas(count) => s.(main := if m.n < count && !s.cancelled then m.(n := m.n + 1) else next)
    case _ => s.(main := next)
  }

  function DoLoop(sc: Script, s: State, a: Action): State
    requires Complete(sc) && !IsReaders(a) && Enabled(s, a)
  {
    var m := s.main;
    match a
    case Take => s.(reqs := s.reqs[1..], main := Entered(s.reqs[0]), taken := s.taken + [s.reqs[0].id])
    case Enter => DoEnter(sc, s)
    case Reset => s.(cancelled := false, main := Draining(m.p, m.t))
    case Drain => s.(slot := false, main := Checking(m.p, m.t, 0))
    case Check => DoCheck(s)
    case DoWork => DoStep(s)
    case EndCheck => s.(main := Replying(m.p, m.t, if s.cancelled then CANCELLED else StopOf(m.t)))
    case Reply => s.(main := Waiting, out := s.out + [ReplyTo(m.p, m.t, m.stop)])
  }

  function Do(sc: Script, s: State, a: Action): State
    requires Complete(sc) && Enabled(s, a)
  {
    if IsReaders(a) then DoRead(s, a) else DoLoop(sc, s, a)
  }

  function RunOf(sc: Script, acts: seq<Action>): Option<State>
    requires Complete(sc)
    decreases |acts|
  {
    if acts == [] then Some(START)
    else
      var before := RunOf(sc, acts[..|acts| - 1]);
      var a := acts[|acts| - 1];
      if before.Some? && Enabled(before.value, a) then Some(Do(sc, before.value, a)) else None
  }

  ghost predicate Reaches(sc: Script, acts: seq<Action>, s: State) {
    Complete(sc) && RunOf(sc, acts) == Some(s)
  }

  lemma RunOn(sc: Script, acts: seq<Action>, s: State, a: Action)
    requires Reaches(sc, acts, s) && Enabled(s, a)
    ensures Reaches(sc, acts + [a], Do(sc, s, a))
  {
    assert (acts + [a])[..|acts|] == acts;
  }

  /** A run and the state it leads to, one step further. */
  lemma StepOn(sc: Script, acts: seq<Action>, s: State, a: Action) returns (more: seq<Action>, t: State)
    requires Reaches(sc, acts, s) && Enabled(s, a)
    ensures more == acts + [a] && t == Do(sc, s, a) && Reaches(sc, more, t)
  {
    more, t := acts + [a], Do(sc, s, a);
    RunOn(sc, acts, s, a);
  }

  /** The last step of a run. */
  lemma LastStep(sc: Script, acts: seq<Action>, s: State) returns (before: State)
    requires Reaches(sc, acts, s) && acts != []
    ensures Reaches(sc, acts[..|acts| - 1], before)
    ensures Enabled(before, acts[|acts| - 1]) && s == Do(sc, before, acts[|acts| - 1])
  {
    hide Do, Enabled;
    before := RunOf(sc, acts[..|acts| - 1]).value;
  }
}
