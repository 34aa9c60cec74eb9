/** What the fake clock keeps under any interleaving of timers, receives, Sets and Advances. */
module ClockSafety {
  import opened Options
  import opened Clock

  // ---- the invariant ----

  /** `v` is the first value of the clock, from the call of `After` on, that reaches the deadline. */
  ghost predicate IsFirst(v: int, tm: Timer, times: seq<int>) {
    && v in times && v >= tm.at && v >= tm.born
    && forall u :: u in times && u >= tm.at && u >= tm.born ==> v <= u
  }

  ghost predicate InFire(s: State, id: nat, i: nat, w: Waiter) {
    id in s.threads && s.threads[id].Sending? && i < |s.threads[id].fire| && s.threads[id].fire[i] == w
  }

  ghost predicate TimesInv(s: State) {
    && s.now in s.times && (forall u :: u in s.times ==> u <= s.now)
    && s.chans.Keys == s.timers.Keys
    && (forall ch :: ch in s.timers ==> s.timers[ch].born in s.times)
  }

  /** The waiter's channel is known, open and empty. */
  ghost predicate Open(s: State, w: Waiter) {
    && w.ch in s.timers && w.ch in s.chans && Delivered(s.chans[w.ch]) == []
    && w.at == s.timers[w.ch].at && s.timers[w.ch].born < w.at
  }

  ghost predicate WaitersInv(s: State) {
    && (forall w :: w in s.waiters ==> Open(s, w) && w.at > s.now)
    && (forall i, j :: 0 <= i < j < |s.waiters| ==> s.waiters[i].ch != s.waiters[j].ch)
  }

  ghost predicate FiresInv(s: State) {
    && (forall id, i, w :: InFire(s, id, i, w) ==>
          Open(s, w) && s.threads[id].t <= s.now && IsFirst(s.threads[id].t, s.timers[w.ch], s.times))
    && (forall id, jd, i, j, v, w :: InFire(s, id, i, v) && InFire(s, jd, j, w) && v.ch == w.ch ==> id == jd && i == j)
  }

  ghost predicate Pending(s: State, ch: nat) {
    || (exists w :: w in s.waiters && w.ch == ch)
    || (exists id, i, w :: InFire(s, id, i, w) && w.ch == ch)
  }

  ghost predicate DeliveredInv(s: State) {
    forall ch :: ch in s.chans && ch in s.timers ==>
      if Delivered(s.chans[ch]) == [] then Pending(s, ch)
      else |Delivered(s.chans[ch])| == 1 && IsFirst(Delivered(s.chans[ch])[0], s.timers[ch], s.times)
  }

  ghost predicate Inv(s: State) {
    TimesInv(s) && WaitersInv(s) && FiresInv(s) && DeliveredInv(s)
  }

  // ---- splitting the waiters ----

  lemma {:induction false} DueIsDistinct(ws: seq<Waiter>, t: int)
    requires forall i, j :: 0 <= i < j < |ws| ==> ws[i].ch != ws[j].ch
    ensures forall i, j :: 0 <= i < j < |Due(ws, t)| ==> Due(ws, t)[i].ch != Due(ws, t)[j].ch
    decreases |ws|
  {
    if ws != [] {
      var n := |ws| - 1;
      DueIsDistinct(ws[..n], t);
      SidesHold(ws[..n], t);
      var r := Due(ws[..n], t);
      forall i | 0 <= i < |r| ensures r[i].ch != ws[n].ch { assert r[i] in ws[..n]; }
    }
  }

  lemma {:induction false} LaterIsDistinct(ws: seq<Waiter>, t: int)
    requires forall i, j :: 0 <= i < j < |ws| ==> ws[i].ch != ws[j].ch
    ensures forall i, j :: 0 <= i < j < |Later(ws, t)| ==> Later(ws, t)[i].ch != Later(ws, t)[j].ch
    decreases |ws|
  {
    if ws != [] {
      var n := |ws| - 1;
      LaterIsDistinct(ws[..n], t);
      SidesHold(ws[..n], t);
      var r := Later(ws[..n], t);
      forall i | 0 <= i < |r| ensures r[i].ch != ws[n].ch { assert r[i] in ws[..n]; }
    }
  }

  /** The places in front of `n` whose deadline `t` has reached. */
  ghost function DuePlaces(ws: seq<Waiter>, t: int, n: nat): set<nat>
    requires n <= |ws|
  {
    set k: nat | k < n && ws[k].at <= t
  }

  lemma SidesStep(ws: seq<Waiter>, t: int, n: nat)
    requires n < |ws|
    ensures Due(ws[..n + 1], t) == Due(ws[..n], t) + if ws[n].at <= t then [ws[n]] else []
    ensures Later(ws[..n + 1], t) == Later(ws[..n], t) + if ws[n].at > t then [ws[n]] else []
  {
    assert ws[..n + 1][..n] == ws[..n];
  }

  lemma PlacesStep(ws: seq<Waiter>, t: int, n: nat)
    requires n < |ws|
    ensures |DuePlaces(ws, t, n + 1)| == |DuePlaces(ws, t, n)| + if ws[n].at <= t then 1 else 0
  {
    var before := DuePlaces(ws, t, n);
    assert n !in before;
    assert DuePlaces(ws, t, n + 1) == if ws[n].at <= t then before + {n} else before;
  }

  lemma {:induction false} DueAreCounted(ws: seq<Waiter>, t: int, n: nat)
    requires n <= |ws|
    ensures |Due(ws[..n], t)| == |DuePlaces(ws, t, n)| && |Due(ws[..n], t)| + |Later(ws[..n], t)| == n
    decreases n
  {
    if n > 0 {
      hide Due, Later, DuePlaces;
      DueAreCounted(ws, t, n - 1);
      SidesStep(ws, t, n - 1);
      PlacesStep(ws, t, n - 1);
    }
  }

  lemma {:induction false} SidesGrow(ws: seq<Waiter>, t: int, n: nat)
    requires n <= |ws|
    ensures Due(ws[..n], t) <= Due(ws, t) && Later(ws[..n], t) <= Later(ws, t)
    decreases |ws| - n
  {
    hide Due, Later;
    if n < |ws| {
      SidesGrow(ws, t, n + 1);
      SidesStep(ws, t, n);
    } else {
      assert ws[..n] == ws;
    }
  }

  /** Each waiter goes to one side, and there behind exactly those of its side that stood in front of it. */
  lemma SplitIsInOrder(ws: seq<Waiter>, t: int, i: nat)
    requires i < |ws|
    ensures var n := |DuePlaces(ws, t, i)|;
            if ws[i].at <= t then n < |Due(ws, t)| && Due(ws, t)[n] == ws[i]
            else 0 <= i - n < |Later(ws, t)| && Later(ws, t)[i - n] == ws[i]
    ensures |Due(ws, t)| + |Later(ws, t)| == |ws|
  {
    hide Due, Later, DuePlaces;
    DueAreCounted(ws, t, i);
    DueAreCounted(ws, t, |ws|);
    assert ws[..|ws|] == ws;
    SidesStep(ws, t, i);
    SidesGrow(ws, t, i + 1);
  }

  // ---- each step keeps it ----

  lemma AfterKeepsWaiters(s: State, d: int, ch: nat)
    requires Inv(s) && Enabled(s, After(d, ch))
    ensures TimesInv(DoAfter(s, d, ch)) && WaitersInv(DoAfter(s, d, ch))
  {
    hide FiresInv, DeliveredInv;
    var t := DoAfter(s, d, ch);
    forall w | w in t.waiters ensures Open(t, w) && w.at > t.now { if w in s.waiters { assert Open(s, w); } }
  }

  lemma AfterKeepsFires(s: State, d: int, ch: nat)
    requires Inv(s) && Enabled(s, After(d, ch))
    ensures FiresInv(DoAfter(s, d, ch))
  {
    hide IsFirst, DeliveredInv, WaitersInv;
    var t := DoAfter(s, d, ch);
    assert forall id, i, w :: InFire(t, id, i, w) <==> InFire(s, id, i, w);
  }

  lemma AfterKeepsDelivered(s: State, d: int, ch: nat)
    requires Inv(s) && Enabled(s, After(d, ch))
    ensures DeliveredInv(DoAfter(s, d, ch))
  {
    hide IsFirst, FiresInv, WaitersInv, Pending, InFire;
    var t := DoAfter(s, d, ch);
    BornIsFirst(s, Timer(s.now + d, s.now));
    forall k | k in t.chans && Delivered(t.chans[k]) == [] ensures Pending(t, k) {
      if k == ch { NewWaiterIsPending(s, d, ch); } else { AfterKeepsPending(s, d, ch, k); }
    }
  }

  lemma NewWaiterIsPending(s: State, d: int, ch: nat)
    requires d > 0
    ensures Pending(DoAfter(s, d, ch), ch)
  {
    assert Waiter(s.now + d, ch) in DoAfter(s, d, ch).waiters;
  }

  lemma AfterKeepsPending(s: State, d: int, ch: nat, k: nat)
    requires Pending(s, k)
    ensures Pending(DoAfter(s, d, ch), k)
  {
    StillPending(s, DoAfter(s, d, ch), k);
  }

  lemma AfterKeeps(s: State, d: int, ch: nat)
    requires Inv(s) && Enabled(s, After(d, ch))
    ensures Inv(DoAfter(s, d, ch))
  {
    AfterKeepsWaiters(s, d, ch);
    AfterKeepsFires(s, d, ch);
    AfterKeepsDelivered(s, d, ch);
    hide DoAfter, TimesInv, WaitersInv, FiresInv, DeliveredInv;
  }

  lemma BornIsFirst(s: State, tm: Timer)
    requires TimesInv(s) && tm.born == s.now
    ensures tm.at <= s.now ==> IsFirst(s.now, tm, s.times)
  {
  }

  lemma StillPending(s: State, t: State, ch: nat)
    requires Pending(s, ch)
    requires forall w :: w in s.waiters && w.ch == ch ==> w in t.waiters
    requires forall id, i, w :: InFire(s, id, i, w) && w.ch == ch ==> InFire(t, id, i, w)
    ensures Pending(t, ch)
  {
  }

  /** A step that leaves times, timers, waiters and sends alone and only moves values out of a channel. */
  lemma QuietKeeps(s: State, t: State)
    requires Inv(s) && t.times == s.times && t.now == s.now && t.timers == s.timers && t.waiters == s.waiters
    requires t.chans.Keys == s.chans.Keys && forall ch :: ch in s.chans ==> Delivered(t.chans[ch]) == Delivered(s.chans[ch])
    requires forall id :: (id in s.threads && s.threads[id].Sending? && s.threads[id].fire != []) ==>
                            id in t.threads && t.threads[id] == s.threads[id]
    requires forall id :: (id in t.threads && t.threads[id].Sending?) ==> id in s.threads && t.threads[id] == s.threads[id]
    ensures Inv(t)
  {
    hide IsFirst, Delivered;
    assert forall id, i, w :: InFire(t, id, i, w) <==> InFire(s, id, i, w);
    assert forall ch :: ch in t.chans <==> ch in s.chans;
    forall ch | ch in t.chans && Delivered(t.chans[ch]) == [] ensures Pending(t, ch) { StillPending(s, t, ch); }
  }

  lemma ReceiveKeeps(s: State, ch: nat)
    requires Inv(s) && Enabled(s, Receive(ch))
    ensures Inv(Do(s, Receive(ch)))
  {
    var t := Do(s, Receive(ch));
    assert s.chans[ch].buffer == s.chans[ch].buffer[..1] + s.chans[ch].buffer[1..];
    assert Delivered(t.chans[ch]) == Delivered(s.chans[ch]);
    hide Inv;
    QuietKeeps(s, t);
  }

  lemma LaterTimeKeepsFirst(v: int, tm: Timer, times: seq<int>, u: int)
    requires IsFirst(v, tm, times) && v <= u
    ensures IsFirst(v, tm, times + [u])
  {
  }

  lemma LockFires(s: State, id: nat)
    requires Inv(s) && Enabled(s, Lock(id)) && s.threads[id].target >= s.now
    ensures var t := DoLock(s, id);
            && TimesInv(t) && WaitersInv(t)
            && (forall jd, i, w :: InFire(t, jd, i, w) && jd != id ==> InFire(s, jd, i, w))
            && (forall i, w :: InFire(t, id, i, w) ==> w in s.waiters && w.at <= t.now)
            && (forall i, j, v, w :: InFire(t, id, i, v) && InFire(t, id, j, w) && v.ch == w.ch ==> i == j)
  {
    hide IsFirst, Due, Later;
    var t, target := DoLock(s, id), s.threads[id].target;
    SidesHold(s.waiters, target);
    DueIsDistinct(s.waiters, target);
    LaterIsDistinct(s.waiters, target);
    assert forall u :: u in t.times ==> u in s.times || u == target;
    assert target in t.times && forall u :: u in s.times ==> u in t.times;
  }

  lemma LockKeepsFires(s: State, id: nat)
    requires Inv(s) && Enabled(s, Lock(id)) && s.threads[id].target >= s.now
    ensures FiresInv(DoLock(s, id))
  {
    var t, target := DoLock(s, id), s.threads[id].target;
    LockFires(s, id);
    hide IsFirst, Due, Later, Delivered, TimesInv;
    forall jd, i, w | InFire(t, jd, i, w)
      ensures Open(t, w) && t.threads[jd].t <= t.now && IsFirst(t.threads[jd].t, t.timers[w.ch], t.times)
    {
      if jd != id {
        assert InFire(s, jd, i, w);
        LaterTimeKeepsFirst(s.threads[jd].t, s.timers[w.ch], s.times, target);
      }
    }
  }

  lemma LockKeepsDelivered(s: State, id: nat)
    requires Inv(s) && Enabled(s, Lock(id)) && s.threads[id].target >= s.now
    ensures DeliveredInv(DoLock(s, id))
  {
    var t, target := DoLock(s, id), s.threads[id].target;
    hide IsFirst, Delivered, FiresInv, WaitersInv;
    forall ch | ch in t.chans && ch in t.timers
      ensures if Delivered(t.chans[ch]) == [] then Pending(t, ch)
              else |Delivered(t.chans[ch])| == 1 && IsFirst(Delivered(t.chans[ch])[0], t.timers[ch], t.times)
    {
      if Delivered(t.chans[ch]) == [] {
        StillPendingAfterLock(s, id, ch);
      } else {
        var v := Delivered(t.chans[ch])[0];
        LaterTimeKeepsFirst(v, s.timers[ch], s.times, target);
      }
    }
  }

  lemma StillPendingAfterLock(s: State, id: nat, ch: nat)
    requires Enabled(s, Lock(id)) && s.threads[id].target >= s.now && Pending(s, ch)
    ensures Pending(DoLock(s, id), ch)
  {
    var t, target := DoLock(s, id), s.threads[id].target;
    SidesHold(s.waiters, target);
    if w :| w in s.waiters && w.ch == ch {
      if w.at <= target {
        var i :| 0 <= i < |Due(s.waiters, target)| && Due(s.waiters, target)[i] == w;
        assert InFire(t, id, i, w);
      } else {
        assert w in t.waiters;
      }
    } else {
      var jd, i, w :| InFire(s, jd, i, w) && w.ch == ch;
      assert InFire(t, jd, i, w);
    }
  }

  lemma LockKeeps(s: State, id: nat)
    requires Inv(s) && Enabled(s, Lock(id))
    ensures Inv(DoLock(s, id))
  {
    if s.threads[id].target < s.now {
      QuietKeeps(s, DoLock(s, id));
    } else {
      LockFires(s, id);
      LockKeepsFires(s, id);
      LockKeepsDelivered(s, id);
      hide DoLock, TimesInv, WaitersInv, FiresInv, DeliveredInv;
    }
  }

  lemma SendFires(s: State, id: nat, jd: nat, i: nat, w: Waiter)
    requires Enabled(s, Send(id))
    ensures InFire(DoSend(s, id), jd, i, w) <==> InFire(s, jd, if jd == id then i + 1 else i, w)
  {
  }

  lemma SendKeepsWaiters(s: State, id: nat)
    requires Inv(s) && Enabled(s, Send(id))
    ensures TimesInv(DoSend(s, id)) && WaitersInv(DoSend(s, id))
  {
    var t, w0 := DoSend(s, id), s.threads[id].fire[0];
    assert InFire(s, id, 0, w0);
  }

  lemma SendKeepsFires(s: State, id: nat)
    requires Inv(s) && Enabled(s, Send(id))
    ensures FiresInv(DoSend(s, id))
  {
    hide IsFirst, WaitersInv, DeliveredInv, TimesInv;
    var t, w0 := DoSend(s, id), s.threads[id].fire[0];
    assert InFire(s, id, 0, w0);
    forall jd, i, w | InFire(t, jd, i, w)
      ensures Open(t, w) && t.threads[jd].t <= t.now && IsFirst(t.threads[jd].t, t.timers[w.ch], t.times)
    {
      SendFires(s, id, jd, i, w);
      assert w.ch != w0.ch;
    }
    forall jd, kd, i, j, v, w | InFire(t, jd, i, v) && InFire(t, kd, j, w) && v.ch == w.ch ensures jd == kd && i == j {
      SendFires(s, id, jd, i, v);
      SendFires(s, id, kd, j, w);
    }
  }

  lemma SendKeepsDelivered(s: State, id: nat)
    requires Inv(s) && Enabled(s, Send(id))
    ensures DeliveredInv(DoSend(s, id))
  {
    hide IsFirst, WaitersInv, TimesInv;
    var t, w0 := DoSend(s, id), s.threads[id].fire[0];
    assert InFire(s, id, 0, w0);
    assert Delivered(t.chans[w0.ch]) == Delivered(s.chans[w0.ch]) + [s.threads[id].t];
    forall ch | ch in t.chans && ch in t.timers && Delivered(t.chans[ch]) == [] ensures Pending(t, ch) {
      if !exists w :: w in s.waiters && w.ch == ch {
        var jd: nat, i: nat, w :| InFire(s, jd, i, w) && w.ch == ch;
        assert ch != w0.ch;
        SendFires(s, id, jd, if jd == id then i - 1 else i, w);
      }
    }
  }

  lemma SendKeeps(s: State, id: nat)
    requires Inv(s) && Enabled(s, Send(id))
    ensures Inv(DoSend(s, id))
  {
    SendKeepsWaiters(s, id);
    SendKeepsFires(s, id);
    SendKeepsDelivered(s, id);
    hide DoSend, TimesInv, WaitersInv, FiresInv, DeliveredInv;
  }

  lemma StepKeepsInv(s: State, a: Action)
    requires Inv(s) && Enabled(s, a)
    ensures Inv(Do(s, a))
  {
    match a
    case After(d, ch) => AfterKeeps(s, d, ch);
    case Receive(ch) => ReceiveKeeps(s, ch);
    case Lock(id) => LockKeeps(s, id);
    case Send(id) => SendKeeps(s, id);
    case _ => QuietKeeps(s, Do(s, a));
  }

  lemma {:induction false} EveryRunKeepsInv(start: int, acts: seq<Action>, s: State)
    requires Reaches(start, acts, s)
    ensures Inv(s)
    decreases |acts|
  {
    hide Do, Enabled, Inv;
    if acts == [] {
      FreshIsInv(start);
    } else {
      var before := RunOf(start, acts[..|acts| - 1]).value;
      EveryRunKeepsInv(start, acts[..|acts| - 1], before);
      StepKeepsInv(before, acts[|acts| - 1]);
    }
  }

  lemma FreshIsInv(start: int)
    ensures Inv(Fresh(start))
  {
  }

  // ---- what callers can rely on ----

  /** The clock never goes back, whoever sets it to what. */
  lemma {:induction false} TimeNeverGoesBack(start: int, acts: seq<Action>, n: nat)
    requires n <= |acts| && RunOf(start, acts).Some?
    ensures RunOf(start, acts[..n]).Some? && RunOf(start, acts[..n]).value.now <= RunOf(start, acts).value.now
    decreases |acts|
  {
    if n == |acts| {
      assert acts[..n] == acts;
    } else {
      assert acts[..|acts| - 1][..n] == acts[..n];
      TimeNeverGoesBack(start, acts[..|acts| - 1], n);
    }
  }

  /** Nobody inside `Set` ever waits for a receiver: every send finds room. */
  lemma NobodyBlocks(start: int, acts: seq<Action>, s: State, id: nat)
    requires Reaches(start, acts, s) && id in s.threads
    ensures Enabled(s, Lock(id)) || Enabled(s, Send(id)) || Enabled(s, Return(id))
  {
    EveryRunKeepsInv(start, acts, s);
    if s.threads[id].Sending? && s.threads[id].fire != [] {
      assert InFire(s, id, 0, s.threads[id].fire[0]);
    }
  }

  /** A channel gets at most one value, the first clock value from the call on that reaches the deadline. */
  lemma ChannelsGetOneValue(start: int, acts: seq<Action>, s: State, ch: nat)
    requires Reaches(start, acts, s) && ch in s.timers
    ensures ch in s.chans && |Delivered(s.chans[ch])| <= 1
    ensures Delivered(s.chans[ch]) != [] ==> IsFirst(Delivered(s.chans[ch])[0], s.timers[ch], s.times)
    ensures Delivered(s.chans[ch]) != [] ==> s.timers[ch].at <= Delivered(s.chans[ch])[0] <= s.now
  {
    EveryRunKeepsInv(start, acts, s);
  }

  ghost predicate NobodySends(s: State) {
    forall id :: id in s.threads ==> s.threads[id].Aiming?
  }

  /** Once the sends are through, the channels that got their value are exactly those whose deadline has come. */
  lemma DueMeansFired(start: int, acts: seq<Action>, s: State, ch: nat)
    requires Reaches(start, acts, s) && ch in s.timers && NobodySends(s)
    ensures ch in s.chans && (Delivered(s.chans[ch]) != [] <==> s.timers[ch].at <= s.now)
  {
    EveryRunKeepsInv(start, acts, s);
    assert forall id, i, w :: !InFire(s, id, i, w);
  }

  lemma WaitersLieAhead(start: int, acts: seq<Action>, s: State, w: Waiter)
    requires Reaches(start, acts, s) && w in s.waiters
    ensures w.at > s.now && w.ch in s.chans && Delivered(s.chans[w.ch]) == []
  {
    EveryRunKeepsInv(start, acts, s);
  }

  // ---- concurrent Advances ----

  ghost predicate OnlyAdvances(acts: seq<Action>) {
    forall a :: a in acts ==> !a.CallSet?
  }

  /** The durations that `Advance` was called with and did not ignore. */
  function Asked(acts: seq<Action>): seq<int>
    decreases |acts|
  {
    if acts == [] then []
    else
      var a := acts[|acts| - 1];
      Asked(acts[..|acts| - 1]) + (if a.CallAdvance? && a.d > 0 then [a.d] else [])
  }

  function Sum(ds: seq<int>): int
    decreases |ds|
  {
    if ds == [] then 0 else Sum(ds[..|ds| - 1]) + ds[|ds| - 1]
  }

  function LockedSum(calls: seq<Call>): int
    decreases |calls|
  {
    if calls == [] then 0
    else
      var c := calls[|calls| - 1];
      LockedSum(calls[..|calls| - 1]) + (if c.locked then c.d else 0)
  }

  lemma {:induction false} LockAdds(calls: seq<Call>, i: nat)
    requires i < |calls| && !calls[i].locked
    ensures LockedSum(calls[i := calls[i].(locked := true)]) == LockedSum(calls) + calls[i].d
    decreases |calls|
  {
    var n := |calls| - 1;
    var more := calls[i := calls[i].(locked := true)];
    if i == n {
      assert more[..n] == calls[..n];
    } else {
      assert more[..n] == calls[..n][i := calls[i].(locked := true)];
      LockAdds(calls[..n], i);
    }
  }

  ghost predicate AimsAt(s: State, id: nat, i: nat) {
    id in s.threads && s.threads[id].Aiming? && s.threads[id].call == Some(i)
  }

  ghost predicate AdvanceInv(start: int, s: State) {
    && start <= s.now <= start + LockedSum(s.calls)
    && (forall i :: 0 <= i < |s.calls| && s.calls[i].locked ==> s.now >= start + s.calls[i].d)
    && (forall i :: 0 <= i < |s.calls| ==> s.calls[i].d > 0)
    && (forall i: nat :: i < |s.calls| && !s.calls[i].locked ==> exists id :: AimsAt(s, id, i))
    && (forall id :: id in s.threads && s.threads[id].Aiming? ==> s.threads[id].call.Some?)
    && (forall id, i: nat :: AimsAt(s, id, i) ==>
          && i < |s.calls| && !s.calls[i].locked
          && start + s.calls[i].d <= s.threads[id].target <= start + LockedSum(s.calls) + s.calls[i].d)
    && (forall id, jd, i: nat :: AimsAt(s, id, i) && AimsAt(s, jd, i) ==> id == jd)
  }

  lemma CallKeepsAdvance(start: int, s: State, id: nat, d: int)
    requires AdvanceInv(start, s) && Enabled(s, CallAdvance(id, d))
    ensures AdvanceInv(start, Do(s, CallAdvance(id, d)))
  {
    var t, n := Do(s, CallAdvance(id, d)), |s.calls|;
    if d > 0 {
      hide LockedSum;
      assert AimsAt(t, id, n);
      assert forall jd, i: nat :: AimsAt(t, jd, i) ==> (jd == id && i == n) || (jd != id && AimsAt(s, jd, i));
      forall i: nat | i < |t.calls| && !t.calls[i].locked ensures exists jd :: AimsAt(t, jd, i) {
        if i < n {
          var jd :| AimsAt(s, jd, i);
          assert AimsAt(t, jd, i);
        }
      }
    }
  }

  lemma LockKeepsAdvance(start: int, s: State, id: nat)
    requires AdvanceInv(start, s) && Enabled(s, Lock(id))
    ensures AdvanceInv(start, Do(s, Lock(id)))
  {
    var t, k := Do(s, Lock(id)), s.threads[id].call.value;
    assert AimsAt(s, id, k);
    LockAdds(s.calls, k);
    hide LockedSum, Due, Later;
    forall jd, i: nat | AimsAt(t, jd, i) ensures jd != id && AimsAt(s, jd, i) && i != k {
      assert jd != id;
      assert AimsAt(s, jd, i);
    }
    forall i: nat | i < |t.calls| && !t.calls[i].locked ensures exists jd :: AimsAt(t, jd, i) {
      var jd :| AimsAt(s, jd, i);
      assert AimsAt(t, jd, i);
    }
  }

  lemma OthersKeepAdvance(start: int, s: State, a: Action)
    requires AdvanceInv(start, s) && Enabled(s, a) && !a.CallSet? && !a.CallAdvance? && !a.Lock?
    ensures AdvanceInv(start, Do(s, a))
  {
    hide LockedSum;
    var t := Do(s, a);
    assert forall jd, i: nat :: AimsAt(t, jd, i) <==> AimsAt(s, jd, i);
  }

  lemma {:induction false} EveryRunKeepsAdvance(start: int, acts: seq<Action>, s: State)
    requires Reaches(start, acts, s) && OnlyAdvances(acts)
    ensures AdvanceInv(start, s) && Durations(s.calls) == Asked(acts)
    decreases |acts|
  {
    hide AdvanceInv, LockedSum;
    if acts == [] {
      FreshKeepsAdvance(start);
    } else {
      var n := |acts| - 1;
      var before, a := RunOf(start, acts[..n]).value, acts[n];
      assert a in acts;
      EveryRunKeepsAdvance(start, acts[..n], before);
      match a
      case CallAdvance(id, d) => CallKeepsAdvance(start, before, id, d);
      case Lock(id) => LockKeepsAdvance(start, before, id);
      case _ => OthersKeepAdvance(start, before, a);
    }
  }

  function Durations(calls: seq<Call>): (r: seq<int>)
    ensures |r| == |calls| && forall i :: 0 <= i < |calls| ==> r[i] == calls[i].d
  {
    seq(|calls|, i requires 0 <= i < |calls| => calls[i].d)
  }

  lemma FreshKeepsAdvance(start: int)
    ensures AdvanceInv(start, Fresh(start))
  {
  }

  lemma {:induction false} AllLockedSum(calls: seq<Call>)
    requires forall c :: c in calls ==> c.locked
    ensures LockedSum(calls) == Sum(Durations(calls))
    decreases |calls|
  {
    if calls != [] {
      var n := |calls| - 1;
      assert Durations(calls)[..n] == Durations(calls[..n]);
      assert calls[n] in calls;
      AllLockedSum(calls[..n]);
    }
  }

  /** When all calls of `Advance` are through the lock, the clock has moved by at least the longest and at most by their sum. */
  lemma AdvancesEndBetween(start: int, acts: seq<Action>, s: State)
    requires Reaches(start, acts, s) && OnlyAdvances(acts)
    requires forall id :: id in s.threads ==> s.threads[id].Sending?
    ensures forall d :: d in Asked(acts) ==> start + d <= s.now
    ensures s.now <= start + Sum(Asked(acts))
  {
    EveryRunKeepsAdvance(start, acts, s);
    assert forall i: nat :: i < |s.calls| ==> s.calls[i].locked;
    AllLockedSum(s.calls);
  }

  /** The lower bound is met: of two Advances that both read before either sets, the shorter one is lost. */
  lemma OverlapLosesTheShorter(start: int, i: nat, j: nat, d: int, e: int) returns (acts: seq<Action>, s: State)
    requires i != j && d > 0 && e > 0
    ensures acts == [CallAdvance(i, d), CallAdvance(j, e), Lock(i), Lock(j)]
    ensures Reaches(start, acts, s) && s.now == start + if d < e then e else d
  {
    hide Due, Later;
    var s0 := Fresh(start);
    var s1 := Do(s0, CallAdvance(i, d));
    var s2 := Do(s1, CallAdvance(j, e));
    var s3 := Do(s2, Lock(i));
    s := Do(s3, Lock(j));
    RunOn(start, [], s0, CallAdvance(i, d));
    RunOn(start, [] + [CallAdvance(i, d)], s1, CallAdvance(j, e));
    RunOn(start, [] + [CallAdvance(i, d)] + [CallAdvance(j, e)], s2, Lock(i));
    RunOn(start, [] + [CallAdvance(i, d)] + [CallAdvance(j, e)] + [Lock(i)], s3, Lock(j));
    acts := [CallAdvance(i, d), CallAdvance(j, e), Lock(i), Lock(j)];
    assert [] + [CallAdvance(i, d)] + [CallAdvance(j, e)] + [Lock(i)] + [Lock(j)] == acts;
  }

  // ---- what the calls ask for ----

  function At(start: int, acts: seq<Action>, n: nat): State
    requires n <= |acts| && RunOf(start, acts).Some?
  {
    PrefixRuns(start, acts, n);
    RunOf(start, acts[..n]).value
  }

  lemma {:induction false} PrefixRuns(start: int, acts: seq<Action>, n: nat)
    requires n <= |acts| && RunOf(start, acts).Some?
    ensures RunOf(start, acts[..n]).Some?
    decreases |acts|
  {
    hide Do, Enabled;
    if n == |acts| {
      assert acts[..n] == acts;
    } else {
      assert acts[..|acts| - 1][..n] == acts[..n];
      PrefixRuns(start, acts[..|acts| - 1], n);
    }
  }

  lemma AtNext(start: int, acts: seq<Action>, n: nat)
    requires n < |acts| && RunOf(start, acts).Some?
    ensures Enabled(At(start, acts, n), acts[n]) && At(start, acts, n + 1) == Do(At(start, acts, n), acts[n])
  {
    hide Do, Enabled;
    PrefixRuns(start, acts, n + 1);
    assert acts[..n + 1][..n] == acts[..n];
  }

  lemma TimersStay(s: State, a: Action, ch: nat)
    requires Enabled(s, a) && ch in s.timers
    ensures ch in Do(s, a).timers && Do(s, a).timers[ch] == s.timers[ch]
  {
  }

  /** The deadline of a channel is the time of its call plus the duration asked for, to the end of the run. */
  lemma {:induction false} DeadlinesAreKept(start: int, acts: seq<Action>, n: nat, m: nat)
    requires RunOf(start, acts).Some? && n < m <= |acts| && acts[n].After?
    ensures var s, d, ch := At(start, acts, m), acts[n].d, acts[n].ch;
            && ch in s.timers && s.timers[ch].born == At(start, acts, n).now
            && s.timers[ch].at == At(start, acts, n).now + d
    decreases m
  {
    hide At;
    AtNext(start, acts, m - 1);
    if m > n + 1 {
      DeadlinesAreKept(start, acts, n, m - 1);
      TimersStay(At(start, acts, m - 1), acts[m - 1], acts[n].ch);
    }
  }

  /** The call that thread `id` is in, which has not had the lock yet. */
  ghost predicate Calls(start: int, acts: seq<Action>, n: nat, id: nat, target: int)
    requires n < |acts| && RunOf(start, acts).Some?
  {
    || acts[n] == CallSet(id, target)
    || (acts[n].CallAdvance? && acts[n].id == id && acts[n].d > 0 && target == At(start, acts, n).now + acts[n].d)
  }

  ghost predicate QuietIn(acts: seq<Action>, id: nat, n: nat, m: nat)
    requires m <= |acts|
  {
    forall k :: n < k < m ==> acts[k] != Lock(id)
  }

  lemma AimStays(s: State, a: Action, id: nat)
    requires Enabled(s, a) && id in s.threads && s.threads[id].Aiming? && a != Lock(id)
    requires !(a.CallAdvance? && a.id == id)
    ensures id in Do(s, a).threads && Do(s, a).threads[id] == s.threads[id]
  {
  }

  lemma {:induction false} AimIsKept(start: int, acts: seq<Action>, n: nat, m: nat, id: nat, target: int)
    requires RunOf(start, acts).Some? && n < m <= |acts| && Calls(start, acts, n, id, target) && QuietIn(acts, id, n, m)
    ensures var s := At(start, acts, m); id in s.threads && s.threads[id].Aiming? && s.threads[id].target == target
    decreases m
  {
    hide At;
    AtNext(start, acts, m - 1);
    if m > n + 1 {
      AimIsKept(start, acts, n, m - 1, id, target);
      AimStays(At(start, acts, m - 1), acts[m - 1], id);
    }
  }

  /**
   * A call of `Set`, or of `Advance` with the time it read plus its duration, moves the time exactly to its target
   * when it gets the lock, unless the time is later already.
   */
  lemma CallsMoveTheTime(start: int, acts: seq<Action>, n: nat, m: nat, id: nat, target: int)
    requires RunOf(start, acts).Some? && n < m < |acts| && Calls(start, acts, n, id, target)
    requires QuietIn(acts, id, n, m) && acts[m] == Lock(id)
    ensures var now := At(start, acts, m).now;
            At(start, acts, m + 1).now == if target < now then now else target
  {
    hide At;
    AimIsKept(start, acts, n, m, id, target);
    AtNext(start, acts, m);
  }
}
