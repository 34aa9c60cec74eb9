/** The two judgements of web/lib/feed.ts, lines 127 to 184: is a task live, and is a row still in progress. */
module Feed {
  import opened Options
  import opened Events
  import opened Rail
  import RailProps

  datatype TaskStatus =
    | Dispatched | Preparing | Running | WaitingHuman
    | Deferred | Queued | Paused | Completed | Failed | Cancelled

  datatype PendingCtx = PendingCtx(taskStatus: Option<TaskStatus>, attempt: Option<int>)

  predicate IsLiveStatus(s: TaskStatus) {
    s == Dispatched || s == Preparing || s == Running || s == WaitingHuman
  }

  predicate IsTurnClose(e: Event) {
    e.kind == "runtime" && (e.verb == "turn_end" || e.verb == "error" || e.verb == "cancel")
  }

  function AttemptOf(e: Event): int {
    e.attempt.GetOr(1)
  }

  predicate StatusAllows(ctx: PendingCtx) {
    ctx.taskStatus.None? || IsLiveStatus(ctx.taskStatus.value)
  }

  // ---- is the task live ----

  /** `Math.max(...cur.map(attemptOf), floor)` */
  function MaxAttempt(es: seq<Event>, floor: int): (r: int)
    ensures r >= floor && forall e :: e in es ==> AttemptOf(e) <= r
    ensures r == floor || exists e :: e in es && AttemptOf(e) == r
  {
    if es == [] then floor
    else
      var r := MaxAttempt(es[1..], floor);
      if AttemptOf(es[0]) > r then AttemptOf(es[0]) else r
  }

  predicate IsTaskLive(events: seq<Event>, ctx: PendingCtx) {
    StatusAllows(ctx) &&
    var cur := Standing(events);
    if cur == [] then ctx.taskStatus.Some?
    else
      var last := MaxAttempt(cur, ctx.attempt.GetOr(0));
      !exists e :: e in cur && AttemptOf(e) == last && IsTurnClose(e)
  }

  // ---- is a row in progress ----

  /** What `pendingJudge` closes over; no largest attempt is minus infinity. */
  datatype Judge = Judge(live: bool, closed: set<int>, maxAttempt: Option<int>)

  predicate AtLeast(a: int, floor: Option<int>) {
    floor.Some? ==> a >= floor.value
  }

  predicate Pending(j: Judge, latest: Event) {
    j.live && latest.outcome == "started" && AttemptOf(latest) !in j.closed && AtLeast(AttemptOf(latest), j.maxAttempt)
  }

  /** The judge knows the closed attempts and the largest one, of the events seen so far and of the context. */
  ghost predicate JudgeFits(j: Judge, seen: seq<Event>, ctx: PendingCtx) {
    && j.live == StatusAllows(ctx)
    && (forall a :: a in j.closed <==> exists e :: e in seen && Stands(e) && IsTurnClose(e) && AttemptOf(e) == a)
    && (forall a :: AtLeast(a, j.maxAttempt) <==>
          AtLeast(a, ctx.attempt) && forall e :: e in seen && Stands(e) ==> a >= AttemptOf(e))
  }

  method PendingJudge(events: seq<Event>, ctx: PendingCtx) returns (j: Judge)
    ensures JudgeFits(j, events, ctx)
  {
    var live := ctx.taskStatus.None? || IsLiveStatus(ctx.taskStatus.value);
    var closed: set<int> := {};
    var maxAttempt := ctx.attempt;
    for i := 0 to |events|
      invariant JudgeFits(Judge(live, closed, maxAttempt), events[..i], ctx)
    {
      ghost var before := Judge(live, closed, maxAttempt);
      var e := events[i];
      if Stands(e) {
        if IsTurnClose(e) { closed := closed + {AttemptOf(e)}; }
        if maxAttempt.None? || AttemptOf(e) > maxAttempt.value { maxAttempt := Some(AttemptOf(e)); }
      }
      JudgeGoesOn(before, Judge(live, closed, maxAttempt), events, i, ctx);
    }
    assert events[..|events|] == events;
    j := Judge(live, closed, maxAttempt);
  }

  lemma JudgeGoesOn(before: Judge, after: Judge, events: seq<Event>, i: nat, ctx: PendingCtx)
    requires i < |events| && JudgeFits(before, events[..i], ctx) && after.live == before.live
    requires var e := events[i];
             if !Stands(e) then after == before
             else
               && after.closed == (if IsTurnClose(e) then before.closed + {AttemptOf(e)} else before.closed)
               && after.maxAttempt == (if before.maxAttempt.None? || AttemptOf(e) > before.maxAttempt.value
                                       then Some(AttemptOf(e)) else before.maxAttempt)
    ensures JudgeFits(after, events[..i + 1], ctx)
  {
    hide Stands, IsTurnClose, AttemptOf;
    assert forall e :: e in events[..i + 1] <==> e in events[..i] || e == events[i];
    forall a
      ensures AtLeast(a, after.maxAttempt) <==>
                AtLeast(a, ctx.attempt) && forall e :: e in events[..i + 1] && Stands(e) ==> a >= AttemptOf(e)
    {
      assert AtLeast(a, before.maxAttempt) <==>
               AtLeast(a, ctx.attempt) && forall e :: e in events[..i] && Stands(e) ==> a >= AttemptOf(e);
    }
  }

  // ---- the two agree ----

  /**
   * A standing event is in progress exactly when its task is live and it is a started event of the last attempt: the
   * two judgements read different data and cannot contradict each other.
   */
  lemma JudgementsAgree(events: seq<Event>, ctx: PendingCtx, j: Judge, e: Event)
    requires JudgeFits(j, events, ctx) && e in events && Stands(e)
    requires forall d :: d in events && Stands(d) ==> AttemptOf(d) >= 1
    ensures Pending(j, e) <==>
            && IsTaskLive(events, ctx) && e.outcome == "started"
            && AttemptOf(e) == MaxAttempt(Standing(events), ctx.attempt.GetOr(0))
  {
    hide IsTurnClose, AttemptOf, Stands;
    var cur := Standing(events);
    assert e in cur;
    var last := MaxAttempt(cur, ctx.attempt.GetOr(0));
    assert AtLeast(AttemptOf(e), j.maxAttempt) <==>
             AtLeast(AttemptOf(e), ctx.attempt) && forall d :: d in events && Stands(d) ==> AttemptOf(e) >= AttemptOf(d);
    assert AttemptOf(e) == last ==>
             (AttemptOf(e) in j.closed <==> exists d :: d in cur && AttemptOf(d) == last && IsTurnClose(d));
  }

  /** A pending row needs a live task whatever the attempts are. */
  lemma PendingMeansLive(events: seq<Event>, ctx: PendingCtx, j: Judge, e: Event)
    requires JudgeFits(j, events, ctx) && e in events && Stands(e) && Pending(j, e)
    ensures IsTaskLive(events, ctx)
  {
    hide IsTurnClose, AttemptOf, Stands;
    var cur := Standing(events);
    assert e in cur;
    var last := MaxAttempt(cur, ctx.attempt.GetOr(0));
    assert forall d :: d in events && Stands(d) ==> AttemptOf(e) >= AttemptOf(d);
    forall d | d in cur && AttemptOf(d) == last ensures !IsTurnClose(d) {
      assert AttemptOf(d) <= AttemptOf(e) && AttemptOf(e) <= last;
    }
  }

  /** What is left of a finished turn: a started row without a result. */
  predicate IsUnresolved(latest: Event, pending: bool) {
    !pending && latest.outcome == "started" && !(latest.kind == "runtime" && latest.verb == "start")
  }

  /** The rail of a task that is not live shows no row in progress; started rows other than turn starts read unresolved. */
  lemma DeadTasksShowNothingPending(events: seq<Event>, ctx: PendingCtx, j: Judge, row: Row)
    requires JudgeFits(j, events, ctx) && !IsTaskLive(events, ctx) && row in FoldEvents(events)
    ensures !Pending(j, row.latest)
    ensures IsUnresolved(row.latest, Pending(j, row.latest)) <==>
            row.latest.outcome == "started" && (row.latest.kind != "runtime" || row.latest.verb != "start")
  {
    hide FoldEvents, JudgeFits, IsTaskLive, Pending, Stands;
    RailProps.LatestStands(events, row);
    if Pending(j, row.latest) { PendingMeansLive(events, ctx, j, row.latest); }
  }

  /** New events never bring a row back to progress. */
  lemma PendingOnlyFades(events: seq<Event>, more: seq<Event>, ctx: PendingCtx, j: Judge, k: Judge, e: Event)
    requires JudgeFits(j, events, ctx) && JudgeFits(k, events + more, ctx) && Pending(k, e)
    ensures Pending(j, e)
  {
    hide IsTurnClose, AttemptOf, Stands;
    var a := AttemptOf(e);
    assert forall d :: d in events ==> d in events + more;
    assert AtLeast(a, k.maxAttempt) && AtLeast(a, j.maxAttempt);
  }

  // ---- the whole judgement, read off the events ----

  /** The statuses in which a turn may be running. */
  predicate MayRun(status: Option<TaskStatus>) {
    status.None? || status.value in {Dispatched, Preparing, Running, WaitingHuman}
  }

  /** The turn of attempt `a` was ended by this event. */
  predicate Ends(e: Event, a: int) {
    && Stands(e) && e.kind == "runtime" && e.verb in {"turn_end", "error", "cancel"}
    && (if e.attempt.Some? then e.attempt.value else 1) == a
  }

  /**
   * A standing event is in progress if and only if its task may be running, it was started and has no result, nothing
   * ended its attempt, and neither an event nor the context knows a later attempt.
   */
  lemma PendingIff(events: seq<Event>, ctx: PendingCtx, j: Judge, e: Event)
    requires JudgeFits(j, events, ctx)
    ensures var a := if e.attempt.Some? then e.attempt.value else 1;
            Pending(j, e) <==>
            && MayRun(ctx.taskStatus) && e.outcome == "started"
            && (forall d :: d in events ==> !Ends(d, a))
            && (forall d :: d in events && Stands(d) ==> (if d.attempt.Some? then d.attempt.value else 1) <= a)
            && (ctx.attempt.Some? ==> ctx.attempt.value <= a)
  {
    hide Stands;
    var a := AttemptOf(e);
    assert AtLeast(a, j.maxAttempt) <==> AtLeast(a, ctx.attempt) && forall d :: d in events && Stands(d) ==> a >= AttemptOf(d);
    assert forall d :: d in events ==> (Ends(d, a) <==> Stands(d) && IsTurnClose(d) && AttemptOf(d) == a);
  }

  /** The largest attempt that a standing event or the context knows. */
  ghost predicate IsLastAttempt(events: seq<Event>, ctx: PendingCtx, a: int) {
    var floor := if ctx.attempt.Some? then ctx.attempt.value else 0;
    && a >= floor && (forall d :: d in events && Stands(d) ==> (if d.attempt.Some? then d.attempt.value else 1) <= a)
    && (a == floor || exists d :: d in events && Stands(d) && (if d.attempt.Some? then d.attempt.value else 1) == a)
  }

  /**
   * A task is live if and only if its status allows it and nothing has ended its last attempt; without any event only
   * a known status makes it so.
   */
  lemma LiveIff(events: seq<Event>, ctx: PendingCtx, a: int)
    requires IsLastAttempt(events, ctx, a)
    ensures IsTaskLive(events, ctx) <==>
            && MayRun(ctx.taskStatus)
            && if forall d :: d in events ==> !Stands(d) then ctx.taskStatus.Some? else forall d :: d in events ==> !Ends(d, a)
  {
    hide Stands;
    var cur := Standing(events);
    var last := MaxAttempt(cur, ctx.attempt.GetOr(0));
    assert cur != [] ==> cur[0] in cur;
    assert last == a;
    assert forall d :: d in events ==> (Ends(d, a) <==> d in cur && IsTurnClose(d) && AttemptOf(d) == a);
  }
}
