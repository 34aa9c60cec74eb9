/**
 * The fake clock of contracts/clock/clock.go. Times and durations are integers, a channel has room for one value.
 * `Set` takes the lock for the new time and the split of the waiters and sends afterwards, `Advance` reads the time
 * in one critical section and sets it in another, so the machine below lets other goroutines in between.
 */
module Clock {
  import opened Options

  // ---- data model ----

  datatype Waiter = Waiter(at: int, ch: nat)

  /** What lies in the channel and what was received from it. */
  datatype Chan = Chan(buffer: seq<int>, got: seq<int>)

  /** The deadline of an `After` channel and the time of the call. */
  datatype Timer = Timer(at: int, born: int)

  /** A call of `Advance` with a positive duration, and whether it had the lock for its `Set`. */
  datatype Call = Call(d: int, locked: bool)

  /** A goroutine inside `Set`: on its way to the lock, for an `Advance` with its call, or sending without the lock. */
  datatype Thread = Aiming(target: int, call: Option<nat>) | Sending(fire: seq<Waiter>, t: int)

  /** `times` holds every value of `now` so far, `timers` and `calls` what was asked for. */
  datatype State = State(
    now: int,
    waiters: seq<Waiter>,
    chans: map<nat, Chan>,
    threads: map<nat, Thread>,
    timers: map<nat, Timer>,
    times: seq<int>,
    calls: seq<Call>)

  function Fresh(start: int): State {
    State(start, [], map[], map[], map[], [start], [])
  }

  function Delivered(c: Chan): seq<int> {
    c.got + c.buffer
  }

  /** The waiters whose deadline `t` has reached, in order. */
  function Due(ws: seq<Waiter>, t: int): seq<Waiter>
    decreases |ws|
  {
    if ws == [] then []
    else
      var w := ws[|ws| - 1];
      Due(ws[..|ws| - 1], t) + (if w.at <= t then [w] else [])
  }

  function Later(ws: seq<Waiter>, t: int): seq<Waiter>
    decreases |ws|
  {
    if ws == [] then []
    else
      var w := ws[|ws| - 1];
      Later(ws[..|ws| - 1], t) + (if w.at > t then [w] else [])
  }

  lemma {:induction false} SidesHold(ws: seq<Waiter>, t: int)
    ensures forall w :: w in Due(ws, t) <==> w in ws && w.at <= t
    ensures forall w :: w in Later(ws, t) <==> w in ws && w.at > t
    decreases |ws|
  {
    if ws != [] { SidesHold(ws[..|ws| - 1], t); }
  }

  // ---- steps ----

  datatype Action =
    | After(d: int, ch: nat)
    | Receive(ch: nat)
    | CallSet(id: nat, t: int)
    | CallAdvance(id: nat, d: int)
    | Lock(id: nat)
    | Send(id: nat)
    | Return(id: nat)

  predicate Enabled(s: State, a: Action) {
    match a
    case After(_, ch) => ch !in s.timers && ch !in s.chans
    case Receive(ch) => ch in s.chans && s.chans[ch].buffer != []
    case CallSet(id, _) => id !in s.threads
    case CallAdvance(id, _) => id !in s.threads
    case Lock(id) => id in s.threads && s.threads[id].Aiming?
    case Send(id) => id in s.threads && s.threads[id].Sending? && s.threads[id].fire != []
                     && s.threads[id].fire[0].ch in s.chans && s.chans[s.threads[id].fire[0].ch].buffer == []
    case Return(id) => id in s.threads && s.threads[id].Sending? && s.threads[id].fire == []
  }

  function DoAfter(s: State, d: int, ch: nat): State {
    var t := s.(timers := s.timers[ch := Timer(s.now + d, s.now)]);
    if d <= 0 then t.(chans := s.chans[ch := Chan([s.now], [])])
    else t.(chans := s.chans[ch := Chan([], [])], waiters := s.waiters + [Waiter(s.now + d, ch)])
  }

  function DoLock(s: State, id: nat): State
    requires Enabled(s, Lock(id))
  {
    var th := s.threads[id];
    var r := s.(calls := if th.call.Some? && th.call.value < |s.calls| then
                           s.calls[th.call.value := s.calls[th.call.value].(locked := true)] else s.calls);
    if th.target < s.now then r.(threads := s.threads - {id})
    else r.(now := th.target, times := s.times + [th.target], waiters := Later(s.waiters, th.target),
            threads := s.threads[id := Sending(Due(s.waiters, th.target), th.target)])
  }

  function DoSend(s: State, id: nat): State
    requires Enabled(s, Send(id))
  {
    var th := s.threads[id];
    var ch := th.fire[0].ch;
    s.(chans := s.chans[ch := s.chans[ch].(buffer := s.chans[ch].buffer + [th.t])],
       threads := s.threads[id := Sending(th.fire[1..], th.t)])
  }

  function Do(s: State, a: Action): State
    requires Enabled(s, a)
  {
    match a
    case After(d, ch) => DoAfter(s, d, ch)
    case Receive(ch) => s.(chans := s.chans[ch := Chan(s.chans[ch].buffer[1..], s.chans[ch].got + s.chans[ch].buffer[..1])])
    case CallSet(id, t) => s.(threads := s.threads[id := Aiming(t, None)])
    case CallAdvance(id, d) =>
      if d <= 0 then s
      else s.(threads := s.threads[id := Aiming(s.now + d, Some(|s.calls|))], calls := s.calls + [Call(d, false)])
    case Lock(id) => DoLock(s, id)
    case Send(id) => DoSend(s, id)
    case Return(id) => s.(threads := s.threads - {id})
  }

  function RunOf(start: int, acts: seq<Action>): Option<State>
    decreases |acts|
  {
    if acts == [] then Some(Fresh(start))
    else
      var before := RunOf(start, acts[..|acts| - 1]);
      var a := acts[|acts| - 1];
      if before.Some? && Enabled(before.value, a) then Some(Do(before.value, a)) else None
  }

  ghost predicate Reaches(start: int, acts: seq<Action>, s: State) {
    RunOf(start, acts) == Some(s)
  }

  lemma RunOn(start: int, acts: seq<Action>, s: State, a: Action)
    requires Reaches(start, acts, s) && Enabled(s, a)
    ensures Reaches(start, acts + [a], Do(s, a))
  {
    assert (acts + [a])[..|acts|] == acts;
  }
}
