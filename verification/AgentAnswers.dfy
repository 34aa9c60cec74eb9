/** What each request is answered with, from the input and the script alone. */
module AgentAnswers {
  import opened Options
  import opened Agent
  import opened AgentTurns

  // ---- which turn is played ----

  function Resets(acts: seq<Action>): nat
    decreases |acts|
  {
    if acts == [] then 0 else Resets(acts[..|acts| - 1]) + if acts[|acts| - 1].Reset? then 1 else 0
  }

  /** The turn that is played when `k` turns were started before: the k-th, and the last one over and over. */
  function Played(sc: Script, k: nat): Turn
    requires sc.turns != []
  {
    if k < |sc.turns| then sc.turns[k] else sc.turns[|sc.turns| - 1]
  }

  ghost predicate PlaysInOrder(sc: Script, acts: seq<Action>, s: State) {
    && sc.turns != []
    && s.turn == Resets(acts) + (if s.main.Resetting? then 1 else 0)
    && (s.main.Resetting? ==> s.main.t == Played(sc, Resets(acts)))
    && (!s.main.Waiting? && !s.main.Entered? && !s.main.Resetting? ==>
          Resets(acts) > 0 && s.main.t == Played(sc, Resets(acts) - 1))
  }

  lemma StepPlaysInOrder(sc: Script, acts: seq<Action>, s: State, a: Action)
    requires Complete(sc) && Enabled(s, a) && PlaysInOrder(sc, acts, s)
    ensures PlaysInOrder(sc, acts + [a], Do(sc, s, a))
  {
    hide WorkOf, StopOf, ReplyTo, AnswerAtOnce, StartsTurn;
    assert (acts + [a])[..|acts|] == acts;
    if a.DoWork? { WorkStaysInTurn(s); }
    if a.Check? { CheckStaysInTurn(s); }
    hide DoStep, DoCheck;
  }

  /**
   * The turns of the script are played one after the other, and the last one again when they are used up: at any moment
   * the turn being played is the one of the number of turns begun before. Refused prompts use up none.
   */
  lemma {:induction false} TurnsGoInOrder(sc: Script, acts: seq<Action>, s: State)
    requires Reaches(sc, acts, s)
    ensures PlaysInOrder(sc, acts, s)
    decreases |acts|
  {
    hide Do, Enabled;
    if acts != [] {
      var n := |acts| - 1;
      var before := LastStep(sc, acts, s);
      hide PlaysInOrder;
      TurnsGoInOrder(sc, acts[..n], before);
      assert acts == acts[..n] + [acts[n]];
      StepPlaysInOrder(sc, acts[..n], before, acts[n]);
    }
  }

  /** What a turn that was not cancelled is answered with. */
  function Scripted(id: nat, t: Turn): Response {
    if t.stopReason == "cancelled" then Stopped(id, "cancelled")
    else if t.error.Some? then Failed(id, t.error.value)
    else if t.stopReason == "" then Stopped(id, "end_turn")
    else Stopped(id, t.stopReason)
  }

  /**
   * The response to a prompt, however the run goes on after its turn is settled: `cancelled` when a cancel was flagged
   * since the reset or a hanging step took a token, otherwise what the script has for the turn of that number.
   */
  lemma TurnIsAnswered(sc: Script, acts: seq<Action>, s: State, a: Action, more: seq<Action>, v: State)
    requires Reaches(sc, acts, s) && Settles(sc, s, a)
    requires Reaches(sc, acts + [a] + more, v) && |v.out| > |s.out|
    ensures Resets(acts) > 0 && sc.turns != []
    ensures var id := s.main.p.id;
            v.out[|s.out|] == if FlaggedSince(acts) || TakesToken(s, a) then Stopped(id, "cancelled")
                              else Scripted(id, Played(sc, Resets(acts) - 1))
  {
    TurnsGoInOrder(sc, acts, s);
    CancelDecides(sc, acts, s, a);
    SettlingKeepsOut(sc, s, a);
    RunOn(sc, acts, s, a);
    hide Do, FlaggedSince;
    AnswerIsKept(sc, acts + [a], Do(sc, s, a), more, v, s.main.p, s.main.t, Do(sc, s, a).main.stop);
  }

  // ---- which request is at work ----

  /** The requests that were read. */
  function RequestsRead(acts: seq<Action>): seq<Request>
    decreases |acts|
  {
    if acts == [] then []
    else RequestsRead(acts[..|acts| - 1]) + (match acts[|acts| - 1] case Read(Req(r)) => [r] case _ => [])
  }

  function Takes(acts: seq<Action>): nat
    decreases |acts|
  {
    if acts == [] then 0 else Takes(acts[..|acts| - 1]) + if acts[|acts| - 1].Take? then 1 else 0
  }

  function Held(r: Reader): seq<Request> {
    if r.Holding? && r.m.Req? then [r.m.r] else []
  }

  /** The session that the last of these requests to lose one has lost; `""` when there is none. */
  function LastLost(sc: Script, rs: seq<Request>): string
    decreases |rs|
  {
    if rs == [] then ""
    else
      var r := rs[|rs| - 1];
      if r.Load? && r.session in sc.lost then r.session else LastLost(sc, rs[..|rs| - 1])
  }

  /** How many requests the loop has dealt with or begun to. */
  function Begun(acts: seq<Action>, m: Main): int {
    Takes(acts) - if m.Entered? then 1 else 0
  }

  ghost predicate ServesInOrder(sc: Script, acts: seq<Action>, s: State) {
    var rs, n := RequestsRead(acts), Takes(acts);
    && n <= |rs| && rs[n..] == s.reqs + Held(s.reader)
    && (!s.main.Waiting? ==> n > 0 && s.main.p == rs[n - 1])
    && 0 <= Begun(acts, s.main) && s.refuse == LastLost(sc, rs[..Begun(acts, s.main)])
  }

  lemma ReaderServesInOrder(sc: Script, acts: seq<Action>, s: State, a: Action)
    requires IsReaders(a) && Enabled(s, a) && ServesInOrder(sc, acts, s)
    ensures ServesInOrder(sc, acts + [a], DoRead(s, a))
  {
    hide LastLost;
    var all, t := acts + [a], DoRead(s, a);
    assert all[..|acts|] == acts;
    var rs, n := RequestsRead(acts), Takes(acts);
    var more := RequestsRead(all);
    var b := Begun(acts, s.main);
    assert more[..b] == rs[..b];
    if a.Read? && a.m.Req? {
      assert more[n..] == rs[n..] + [a.m.r];
    } else {
      assert more == rs + [] == rs;
    }
    if a.Push? && s.reader.m.Req? { assert t.reqs + Held(t.reader) == s.reqs + Held(s.reader); }
  }

  lemma LoopReadsNothing(acts: seq<Action>, a: Action)
    requires !IsReaders(a)
    ensures RequestsRead(acts + [a]) == RequestsRead(acts)
    ensures Takes(acts + [a]) == Takes(acts) + if a.Take? then 1 else 0
  {
    assert (acts + [a])[..|acts|] == acts;
    assert RequestsRead(acts) + [] == RequestsRead(acts);
  }

  lemma EnterServes(sc: Script, rs: seq<Request>, n: nat)
    requires 0 < n <= |rs|
    ensures var p := rs[n - 1];
            LastLost(sc, rs[..n]) == if p.Load? && p.session in sc.lost then p.session else LastLost(sc, rs[..n - 1])
  {
    assert rs[..n][..n - 1] == rs[..n - 1];
  }

  lemma LoopServesInOrder(sc: Script, acts: seq<Action>, s: State, a: Action)
    requires Complete(sc) && !IsReaders(a) && Enabled(s, a) && ServesInOrder(sc, acts, s)
    ensures ServesInOrder(sc, acts + [a], DoLoop(sc, s, a))
  {
    hide LastLost, RequestsRead, Takes, WorkOf, StopOf, ReplyTo, AnswerAtOnce, TurnAt;
    LoopReadsNothing(acts, a);
    var rs, n := RequestsRead(acts), Takes(acts);
    if a.Take? {
      assert rs[n] == rs[n..][0] == s.reqs[0];
      assert rs[n + 1..] == rs[n..][1..] == s.reqs[1..] + Held(s.reader);
    } else {
      if a.Enter? { EnterServes(sc, rs, n); }
      if a.DoWork? { WorkStaysInTurn(s); WorkKeepsRefuse(s); }
      if a.Check? { CheckStaysInTurn(s); }
      hide DoStep, DoCheck;
    }
  }

  lemma WorkKeepsRefuse(s: State)
    requires Enabled(s, DoWork)
    ensures DoStep(s).refuse == s.refuse && DoStep(s).reqs == s.reqs && DoStep(s).reader == s.reader && !DoStep(s).main.Entered?
  {
    hide WorkOf;
  }

  /**
   * The request at work is the next one of those read, the queue and the reader's hand hold the ones behind it, and
   * prompts are refused on the session that the last losing load before them has lost.
   */
  lemma {:induction false} RequestsGoInOrder(sc: Script, acts: seq<Action>, s: State)
    requires Reaches(sc, acts, s)
    ensures ServesInOrder(sc, acts, s)
    decreases |acts|
  {
    hide Do, Enabled;
    if acts != [] {
      var n := |acts| - 1;
      var before := LastStep(sc, acts, s);
      hide ServesInOrder;
      RequestsGoInOrder(sc, acts[..n], before);
      assert acts == acts[..n] + [acts[n]];
      StepServesInOrder(sc, acts[..n], before, acts[n]);
    }
  }

  lemma StepServesInOrder(sc: Script, acts: seq<Action>, s: State, a: Action)
    requires Complete(sc) && Enabled(s, a) && ServesInOrder(sc, acts, s)
    ensures ServesInOrder(sc, acts + [a], Do(sc, s, a))
  {
    hide ServesInOrder, DoRead, DoLoop;
    if IsReaders(a) { ReaderServesInOrder(sc, acts, s, a); } else { LoopServesInOrder(sc, acts, s, a); }
  }

  /**
   * What is answered at once, from the requests that were read: everything but a prompt, with its plain response, and a
   * prompt on the session that was lost last, with `refusal`. Every other prompt starts a turn.
   */
  lemma AnsweredAtOnce(sc: Script, acts: seq<Action>, s: State)
    requires Reaches(sc, acts, s) && s.main.Entered?
    ensures 0 < Takes(acts) <= |RequestsRead(acts)|
    ensures var p, r := RequestsRead(acts)[Takes(acts) - 1], Do(sc, s, Enter);
            var lost := LastLost(sc, RequestsRead(acts)[..Takes(acts) - 1]);
            if !p.Prompt? then r.main.Waiting? && r.out == s.out + [Answered(p.id)]
            else if lost != "" && p.session == lost then r.main.Waiting? && r.out == s.out + [Stopped(p.id, "refusal")]
            else r.main.Resetting? && r.main.p == p && r.out == s.out
  {
    hide LastLost, RequestsRead, Takes;
    RequestsGoInOrder(sc, acts, s);
  }

  // ---- what steps take and send ----

  /**
   * What a step needs and takes, by the fields that are set: one that hangs forever never goes on; one that hangs takes
   * the token and ends the turn as cancelled; a permission request takes one answer, unless something else is sent
   * in its place; all others take nothing.
   */
  lemma StepsTake(sc: Script, s: State)
    requires Complete(sc) && s.main.Doing? && s.main.k < |s.main.t.steps|
    ensures var st, m := s.main.t.steps[s.main.k], s.main;
            var asks := st.permission && !st.quick && !st.hang && !st.forever;
            && (Enabled(s, DoWork) <==> !st.forever && (st.hang ==> s.slot) && (asks ==> s.inbox > 0))
            && (Enabled(s, DoWork) ==>
                  var r := Do(sc, s, DoWork);
                  && (st.hang ==> !r.slot && r.main == Replying(m.p, m.t, CANCELLED))
                  && (!st.hang ==> r.slot == s.slot)
                  && (asks ==> r.inbox == s.inbox - 1 && r.used == s.used + 1 && r.main == Checking(m.p, m.t, m.k + 1))
                  && (!asks ==> r.inbox == s.inbox && r.used == s.used))
  {
  }

  /** No step has sent more deltas than it has. */
  predicate SentFits(m: Main) {
    m.Doing? && m.k < |m.t.steps| ==>
      match WorkOf(m.t.steps[m.k])
      case Deltas(count) => m.n <= count
      case _ => m.n == 0
  }

  lemma {:induction false} EveryRunSendsFitting(sc: Script, acts: seq<Action>, s: State)
    requires Reaches(sc, acts, s)
    ensures SentFits(s.main)
    decreases |acts|
  {
    if acts != [] {
      var before := LastStep(sc, acts, s);
      EveryRunSendsFitting(sc, acts[..|acts| - 1], before);
      StepSendsFitting(sc, before, acts[|acts| - 1]);
    }
  }

  lemma StepSendsFitting(sc: Script, s: State, a: Action)
    requires Complete(sc) && Enabled(s, a) && SentFits(s.main)
    ensures SentFits(Do(sc, s, a).main)
  {
    hide TurnAt, StopOf, ReplyTo, AnswerAtOnce, StartsTurn;
  }

  /** The deltas of a step are sent one by one until all of them are out or a cancel of the turn is seen. */
  lemma DeltasAreSent(sc: Script, acts: seq<Action>, s: State, count: nat)
    requires Reaches(sc, acts, s) && s.main.Doing? && s.main.k < |s.main.t.steps|
    requires var st := s.main.t.steps[s.main.k];
             !st.forever && !st.hang && !st.quick && !st.permission && st.deltas == Some(count)
    ensures s.main.n <= count && Enabled(s, DoWork)
    ensures Do(sc, s, DoWork).main ==
            if s.main.n < count && !FlaggedSince(acts) then s.main.(n := s.main.n + 1)
            else Checking(s.main.p, s.main.t, s.main.k + 1)
  {
    EveryRunSendsFitting(sc, acts, s);
    EveryRunKeepsTurn(sc, acts, s);
  }
}
