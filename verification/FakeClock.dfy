/** The methods of `Fake`, each proved to be a run of the machine in which nobody else takes part. */
module FakeClock {
  import opened Options
  import opened Clock
  import opened ClockSafety

  /** What the channels hold after `t` was sent for each waiter in turn. */
  function SendAll(chans: map<nat, Chan>, fire: seq<Waiter>, t: int): (r: map<nat, Chan>)
    requires forall w :: w in fire ==> w.ch in chans
    ensures r.Keys == chans.Keys
    decreases |fire|
  {
    if fire == [] then chans
    else
      var ch := fire[0].ch;
      SendAll(chans[ch := chans[ch].(buffer := chans[ch].buffer + [t])], fire[1..], t)
  }

  function Marked(calls: seq<Call>, call: Option<nat>): seq<Call> {
    if call.Some? && call.value < |calls| then calls[call.value := calls[call.value].(locked := true)] else calls
  }

  function Inside(s: State, th: Thread): State {
    s.(threads := map[0 := th])
  }

  class Fake {
    var now: int
    var waiters: seq<Waiter>
    var chans: map<nat, Chan>
    var next: nat
    ghost const start: int
    ghost var timers: map<nat, Timer>
    ghost var times: seq<int>
    ghost var calls: seq<Call>
    ghost var acts: seq<Action>

    ghost function View(): State
      reads this
    {
      State(now, waiters, chans, map[], timers, times, calls)
    }

    /** Between calls the clock is in a state that a run of the machine reaches, with nobody inside. */
    ghost predicate Valid()
      reads this
    {
      Reaches(start, acts, View()) && forall ch :: ch in chans || ch in timers ==> ch < next
    }

    constructor (t: int)
      ensures Valid() && View() == Fresh(t)
    {
      now, waiters, chans, next, start := t, [], map[], 0, t;
      timers, times, calls, acts := map[], [t], [], [];
    }

    method Now() returns (t: int)
      ensures t == now
    {
      t := now;
    }

    method After(d: int) returns (ch: nat)
      requires Valid()
      modifies this
      ensures Valid() && View() == DoAfter(old(View()), d, ch) && ch !in old(chans)
      ensures acts == old(acts) + [Action.After(d, ch)]
    {
      hide Reaches, Do, Enabled;
      ch := next;
      AfterRun(start, acts, View(), d, ch);
      acts := acts + [Action.After(d, ch)];
      timers := timers[ch := Timer(now + d, now)];
      next := next + 1;
      var at := now + d;
      if d <= 0 {
        chans := chans[ch := Chan([now], [])];
        return;
      }
      chans := chans[ch := Chan([], [])];
      waiters := waiters + [Waiter(at, ch)];
    }

    method Split(t: int) returns (keep: seq<Waiter>, fire: seq<Waiter>)
      ensures keep == Later(waiters, t) && fire == Due(waiters, t)
    {
      keep, fire := [], [];
      for i := 0 to |waiters|
        invariant keep == Later(waiters[..i], t) && fire == Due(waiters[..i], t)
      {
        assert waiters[..i + 1][..i] == waiters[..i];
        var w := waiters[i];
        if w.at <= t { fire := fire + [w]; } else { keep := keep + [w]; }
      }
      assert waiters[..|waiters|] == waiters;
    }

    /** The sends of `Set`, in the order in which the waiters came. */
    method SendOut(fire: seq<Waiter>, t: int)
      requires Reaches(start, acts, Inside(View(), Sending(fire, t)))
      requires forall ch :: ch in chans || ch in timers ==> ch < next
      modifies this`chans, this`acts
      ensures Valid() && (forall w :: w in fire ==> w.ch in old(chans)) && chans == SendAll(old(chans), fire, t)
    {
      hide Do, Reaches;
      FiresAreKnown(start, acts, Inside(View(), Sending(fire, t)), fire);
      assert fire[0..] == fire;
      for i := 0 to |fire|
        invariant forall w :: w in fire ==> w.ch in chans
        invariant chans.Keys == old(chans).Keys
        invariant SendAll(chans, fire[i..], t) == SendAll(old(chans), fire, t)
        invariant Reaches(start, acts, Inside(View(), Sending(fire[i..], t)))
      {
        var w := fire[i];
        assert fire[i..][0] == w && fire[i..][1..] == fire[i + 1..];
        SendRun(start, acts, View(), fire[i..], t);
        acts := acts + [Send(0)];
        chans := chans[w.ch := chans[w.ch].(buffer := chans[w.ch].buffer + [t])];
      }
      assert fire[|fire|..] == [];
      ReturnRun(start, acts, View(), t);
      acts := acts + [Return(0)];
    }

    /** `Set` from the lock on; `call` is the Advance it belongs to. */
    method LockAndSend(t: int, ghost call: Option<nat>)
      requires Reaches(start, acts, Inside(View(), Aiming(t, call)))
      requires forall ch :: ch in chans || ch in timers ==> ch < next
      modifies this
      ensures Valid() && timers == old(timers) && calls == Marked(old(calls), call)
      ensures t < old(now) ==> now == old(now) && waiters == old(waiters) && chans == old(chans) && times == old(times)
      ensures t >= old(now) ==>
                && now == t && times == old(times) + [t] && waiters == Later(old(waiters), t)
                && (forall w :: w in Due(old(waiters), t) ==> w.ch in old(chans))
                && chans == SendAll(old(chans), Due(old(waiters), t), t)
    {
      hide Do, Reaches, Due, Later, SendAll;
      LockRun(start, acts, View(), t, call);
      acts := acts + [Lock(0)];
      calls := Marked(calls, call);
      if t < now { return; }
      now := t;
      times := times + [t];
      var keep, fire := Split(t);
      waiters := keep;
      SendOut(fire, t);
    }

    method Set(t: int)
      requires Valid()
      modifies this
      ensures Valid() && timers == old(timers) && calls == old(calls)
      ensures t < old(now) ==> View() == old(View())
      ensures t >= old(now) ==>
                && now == t && times == old(times) + [t] && waiters == Later(old(waiters), t)
                && (forall w :: w in Due(old(waiters), t) ==> w.ch in old(chans))
                && chans == SendAll(old(chans), Due(old(waiters), t), t)
    {
      RunOn(start, acts, View(), CallSet(0, t));
      acts := acts + [CallSet(0, t)];
      LockAndSend(t, None);
    }

    method Advance(d: int)
      requires Valid()
      modifies this
      ensures Valid() && timers == old(timers)
      ensures d <= 0 ==> View() == old(View())
      ensures d > 0 ==>
                var t := old(now) + d;
                && now == t && times == old(times) + [t] && waiters == Later(old(waiters), t)
                && (forall w :: w in Due(old(waiters), t) ==> w.ch in old(chans))
                && chans == SendAll(old(chans), Due(old(waiters), t), t)
                && calls == old(calls) + [Call(d, true)]
    {
      if d <= 0 { return; }
      RunOn(start, acts, View(), CallAdvance(0, d));
      acts := acts + [CallAdvance(0, d)];
      calls := calls + [Call(d, false)];
      var t := Now();
      LockAndSend(t + d, Some(|calls| - 1));
    }
  }

  lemma AfterRun(start: int, acts: seq<Action>, s: State, d: int, ch: nat)
    requires Reaches(start, acts, s) && ch !in s.chans && ch !in s.timers
    ensures Reaches(start, acts + [After(d, ch)], DoAfter(s, d, ch))
  {
    RunOn(start, acts, s, After(d, ch));
  }

  lemma FiresAreKnown(start: int, acts: seq<Action>, s: State, fire: seq<Waiter>)
    requires Reaches(start, acts, s) && 0 in s.threads && s.threads[0].Sending? && s.threads[0].fire == fire
    ensures forall w :: w in fire ==> w.ch in s.chans
  {
    EveryRunKeepsInv(start, acts, s);
    forall w | w in fire ensures w.ch in s.chans {
      var i: nat :| i < |fire| && fire[i] == w;
      assert InFire(s, 0, i, w);
    }
  }

  lemma SendRun(start: int, acts: seq<Action>, s: State, fire: seq<Waiter>, t: int)
    requires Reaches(start, acts, Inside(s, Sending(fire, t))) && fire != [] && fire[0].ch in s.chans
    ensures var ch := fire[0].ch;
            var sent := s.(chans := s.chans[ch := s.chans[ch].(buffer := s.chans[ch].buffer + [t])]);
            Reaches(start, acts + [Send(0)], Inside(sent, Sending(fire[1..], t)))
  {
    var now := Inside(s, Sending(fire, t));
    NobodyBlocks(start, acts, now, 0);
    RunOn(start, acts, now, Send(0));
    assert DoSend(now, 0).threads == map[0 := Sending(fire[1..], t)];
  }

  lemma ReturnRun(start: int, acts: seq<Action>, s: State, t: int)
    requires Reaches(start, acts, Inside(s, Sending([], t))) && s.threads == map[]
    ensures Reaches(start, acts + [Return(0)], s)
  {
    var now := Inside(s, Sending([], t));
    RunOn(start, acts, now, Return(0));
    assert now.threads - {0} == map[];
  }

  lemma LockRun(start: int, acts: seq<Action>, s: State, t: int, call: Option<nat>)
    requires Reaches(start, acts, Inside(s, Aiming(t, call))) && s.threads == map[]
    ensures var r := s.(calls := Marked(s.calls, call));
            Reaches(start, acts + [Lock(0)],
              if t < s.now then r
              else Inside(r.(now := t, times := s.times + [t], waiters := Later(s.waiters, t)),
                          Sending(Due(s.waiters, t), t)))
  {
    hide Due, Later;
    var now := Inside(s, Aiming(t, call));
    RunOn(start, acts, now, Lock(0));
    assert now.threads - {0} == map[];
    assert t >= s.now ==> Do(now, Lock(0)).threads == map[0 := Sending(Due(s.waiters, t), t)];
  }
}
