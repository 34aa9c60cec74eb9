/** What every run of deliveries keeps: the newest card wins, no version is lost, and no permission is invented. */
module CardRuns {
  import opened Options
  import opened Cards

  // ---- the newest card wins ----

  /** What two deliveries of one state of a card have in common. */
  function Payload(c: Card): Card {
    c.(versions := None, actions := [])
  }

  predicate SameState(a: Card, b: Card) {
    Payload(a) == Payload(b)
  }

  predicate SameKey(a: Card, b: Card) {
    a.version == b.version && a.updatedAt == b.updatedAt
  }

  /** One version and time of a card means one state of it. */
  ghost predicate Coherent(es: seq<Event>) {
    forall i, j :: 0 <= i < |es| && 0 <= j < |es| && es[i].card.id == es[j].card.id && SameKey(es[i].card, es[j].card)
      ==> SameState(es[i].card, es[j].card)
  }

  /** The response to the viewer's own call is not checked for age; here it is never older than the cache. */
  ghost predicate Timely(cache: Cache, es: seq<Event>) {
    forall k :: 0 <= k < |es| && es[k].Response? ==>
      var before := Run(cache, es[..k]);
      es[k].card.id in before ==> !Older(es[k].card, before[es[k].card.id].card)
  }

  /** The responses about one card are none of them outdated when they arrive. */
  ghost predicate TimelyFor(cache: Cache, es: seq<Event>, id: string) {
    forall k :: 0 <= k < |es| && es[k].Response? && es[k].card.id == id && id in Run(cache, es[..k]) ==>
      !Older(es[k].card, Run(cache, es[..k])[id].card)
  }

  lemma KeyStep(cache: Cache, e: Event, id: string)
    requires id in cache
    ensures id in Apply(cache, e)
    ensures Older(Apply(cache, e)[id].card, cache[id].card)
        <==> e.Response? && e.card.id == id && Older(e.card, cache[id].card)
  {
  }

  /** Between moments `m` and `n` of the run the stored key of the card did not go down. */
  ghost predicate KeyHeld(cache: Cache, es: seq<Event>, id: string, m: nat, n: nat)
    requires m <= n <= |es|
  {
    id in Run(cache, es[..m]) ==>
      id in Run(cache, es[..n]) && !Older(Run(cache, es[..n])[id].card, Run(cache, es[..m])[id].card)
  }

  lemma {:induction false} TimelyKeysHold(cache: Cache, es: seq<Event>, id: string, m: nat, n: nat)
    requires m <= n <= |es| && TimelyFor(cache, es, id)
    ensures KeyHeld(cache, es, id, m, n)
    decreases n
  {
    hide Apply;
    if m < n {
      TimelyKeysHold(cache, es, id, m, n - 1);
      assert es[..n][..n - 1] == es[..n - 1];
      if id in Run(cache, es[..n - 1]) { KeyStep(Run(cache, es[..n - 1]), es[n - 1], id); }
    }
  }

  /**
   * The stored version and time of a card never go down along a run, between any two of its moments, exactly when no
   * response about it is outdated on arrival: responses are the one channel that is not checked for age.
   */
  lemma KeysNeverDecreaseIff(cache: Cache, es: seq<Event>, id: string)
    ensures (forall m, n :: 0 <= m <= n <= |es| ==> KeyHeld(cache, es, id, m, n)) <==> TimelyFor(cache, es, id)
  {
    hide Apply;
    if TimelyFor(cache, es, id) {
      forall m, n | 0 <= m <= n <= |es| ensures KeyHeld(cache, es, id, m, n) { TimelyKeysHold(cache, es, id, m, n); }
    }
    if forall m, n :: 0 <= m <= n <= |es| ==> KeyHeld(cache, es, id, m, n) {
      forall k | 0 <= k < |es| && es[k].Response? && es[k].card.id == id && id in Run(cache, es[..k])
        ensures !Older(es[k].card, Run(cache, es[..k])[id].card)
      {
        assert KeyHeld(cache, es, id, k, k + 1);
        assert es[..k + 1][..k] == es[..k];
        KeyStep(Run(cache, es[..k]), es[k], id);
      }
    }
  }

  /** The card in the cache is one that was delivered, and no delivered one is newer. */
  ghost predicate Newest(es: seq<Event>, id: string, c: Card) {
    && (exists k :: 0 <= k < |es| && es[k].card.id == id && SameState(es[k].card, c))
    && (forall k :: 0 <= k < |es| && es[k].card.id == id ==> !Older(c, es[k].card))
  }

  lemma NewestStep(es: seq<Event>, e: Event, id: string, cache: Cache)
    requires Coherent(es + [e])
    requires id in cache ==> Newest(es, id, cache[id].card)
    requires id !in cache ==> forall k :: 0 <= k < |es| ==> es[k].card.id != id
    requires e.Response? && e.card.id in cache ==> !Older(e.card, cache[e.card.id].card)
    ensures var after := Apply(cache, e);
            && (id in after ==> Newest(es + [e], id, after[id].card))
            && (id !in after ==> forall k :: 0 <= k < |es + [e]| ==> (es + [e])[k].card.id != id)
  {
    var all := es + [e];
    var after := Apply(cache, e);
    if id in cache {
      var k :| 0 <= k < |es| && es[k].card.id == id && SameState(es[k].card, cache[id].card);
      assert all[k] == es[k];
      assert all[|es|] == e;
      if e.card.id == id {
        if SameKey(e.card, cache[id].card) { assert SameKey(all[|es|].card, all[k].card); }
        assert SameState(if Older(e.card, cache[id].card) then all[k].card else e.card, after[id].card);
      }
    } else if e.card.id == id {
      assert all[|es|] == e && SameState(e.card, after[id].card);
    }
  }

  lemma PrefixIsTimely(cache: Cache, es: seq<Event>, n: nat)
    requires Timely(cache, es) && n <= |es|
    ensures Timely(cache, es[..n])
  {
    forall k | 0 <= k < n && es[..n][k].Response?
      ensures var before := Run(cache, es[..n][..k]);
              es[..n][k].card.id in before ==> !Older(es[..n][k].card, before[es[..n][k].card.id].card)
    {
      assert es[..n][..k] == es[..k];
    }
  }

  lemma {:induction false} RunKeepsNewest(es: seq<Event>, id: string)
    requires Coherent(es) && Timely(map[], es)
    ensures id in Run(map[], es) <==> exists k :: 0 <= k < |es| && es[k].card.id == id
    ensures id in Run(map[], es) ==> Newest(es, id, Run(map[], es)[id].card)
    decreases |es|
  {
    hide Apply, Newest;
    if es == [] {
      assert Run(map[], es) == map[];
    } else {
      var n := |es| - 1;
      var before := Run(map[], es[..n]);
      PrefixIsTimely(map[], es, n);
      assert Coherent(es[..n]);
      RunKeepsNewest(es[..n], id);
      assert es == es[..n] + [es[n]];
      NewestStep(es[..n], es[n], id, before);
      if id in before {
        var k :| 0 <= k < n && es[..n][k].card.id == id;
        assert es[k].card.id == id;
      }
    }
  }

  /** Each state delivered in `a` is also delivered in `b`, over whatever channel and however often. */
  ghost predicate Covers(a: seq<Event>, b: seq<Event>) {
    forall i :: 0 <= i < |a| ==> exists j :: 0 <= j < |b| && SameState(a[i].card, b[j].card)
  }

  lemma CoherentHalves(a: seq<Event>, b: seq<Event>)
    requires Coherent(a + b)
    ensures Coherent(a) && Coherent(b)
    ensures forall i, j :: 0 <= i < |a| && 0 <= j < |b| && a[i].card.id == b[j].card.id && SameKey(a[i].card, b[j].card)
              ==> SameState(a[i].card, b[j].card)
  {
    hide SameState;
    var ab := a + b;
    assert forall i :: 0 <= i < |a| ==> ab[i] == a[i];
    forall i, j | 0 <= i < |b| && 0 <= j < |b| && b[i].card.id == b[j].card.id && SameKey(b[i].card, b[j].card)
      ensures SameState(b[i].card, b[j].card)
    {
      assert ab[|a| + i] == b[i] && ab[|a| + j] == b[j];
    }
    forall i, j | 0 <= i < |a| && 0 <= j < |b| && a[i].card.id == b[j].card.id && SameKey(a[i].card, b[j].card)
      ensures SameState(a[i].card, b[j].card)
    {
      assert ab[i] == a[i] && ab[|a| + j] == b[j];
    }
  }

  lemma SameStateSameKey(x: Card, y: Card)
    requires SameState(x, y)
    ensures x.id == y.id && SameKey(x, y)
  {
    assert Payload(x).version == x.version && Payload(x).updatedAt == x.updatedAt && Payload(x).id == x.id;
    assert Payload(y).version == y.version && Payload(y).updatedAt == y.updatedAt && Payload(y).id == y.id;
  }

  lemma DeliveredAs(es: seq<Event>, id: string, c: Card) returns (k: nat)
    requires Newest(es, id, c)
    ensures k < |es| && es[k].card.id == id && SameState(es[k].card, c)
  {
    hide SameState;
    k :| 0 <= k < |es| && es[k].card.id == id && SameState(es[k].card, c);
  }

  /** No state delivered in `a` is newer than the newest one of `b`. */
  lemma NoneIsNewer(a: seq<Event>, b: seq<Event>, id: string, c: Card, cb: Card)
    requires Covers(a, b) && Newest(a, id, c) && Newest(b, id, cb)
    ensures !Older(cb, c)
  {
    hide SameState;
    var i := DeliveredAs(a, id, c);
    var j :| 0 <= j < |b| && SameState(a[i].card, b[j].card);
    SameStateSameKey(a[i].card, c);
    SameStateSameKey(a[i].card, b[j].card);
  }

  lemma NewestIsOne(a: seq<Event>, b: seq<Event>, id: string, ca: Card, cb: Card)
    requires Coherent(a + b) && Covers(a, b) && Covers(b, a)
    requires Newest(a, id, ca) && Newest(b, id, cb)
    ensures SameState(ca, cb)
  {
    hide Coherent, Covers, SameState, Newest;
    NoneIsNewer(a, b, id, ca, cb);
    NoneIsNewer(b, a, id, cb, ca);
    var i := DeliveredAs(a, id, ca);
    var j := DeliveredAs(b, id, cb);
    SameStateSameKey(a[i].card, ca);
    SameStateSameKey(b[j].card, cb);
    CoherentHalves(a, b);
    SameStateIsEquivalence(a[i].card, b[j].card, ca, cb);
  }

  lemma SameStateIsEquivalence(x: Card, y: Card, x': Card, y': Card)
    requires SameState(x, y) && SameState(x, x') && SameState(y, y')
    ensures SameState(x', y')
  {
  }

  /**
   * Two runs over the same states of cards end with the same cards, in whatever order, over whichever channel and
   * however often the states were delivered.
   */
  lemma RunsConverge(a: seq<Event>, b: seq<Event>, id: string)
    requires Coherent(a + b) && Covers(a, b) && Covers(b, a)
    requires Timely(map[], a) && Timely(map[], b)
    ensures id in Run(map[], a) <==> id in Run(map[], b)
    ensures id in Run(map[], a) ==> SameState(Run(map[], a)[id].card, Run(map[], b)[id].card)
  {
    hide Run, Newest, Coherent, Covers, Timely, SameState;
    assert Coherent(a) && Coherent(b) by { CoherentHalves(a, b); }
    RunKeepsNewest(a, id);
    RunKeepsNewest(b, id);
    DeliveredInBoth(a, b, id);
    DeliveredInBoth(b, a, id);
    if id in Run(map[], a) { NewestIsOne(a, b, id, Run(map[], a)[id].card, Run(map[], b)[id].card); }
  }

  lemma DeliveredInBoth(a: seq<Event>, b: seq<Event>, id: string)
    requires Covers(a, b)
    ensures (exists i :: 0 <= i < |a| && a[i].card.id == id) ==> exists j :: 0 <= j < |b| && b[j].card.id == id
  {
    if i :| 0 <= i < |a| && a[i].card.id == id {
      var j :| 0 <= j < |b| && SameState(a[i].card, b[j].card);
      assert b[j].card.id == id;
    }
  }

  // ---- permissions ----

  /** A card whose actions were never confirmed offers none. */
  ghost predicate NothingUntrusted(cache: Cache) {
    forall id :: id in cache && !cache[id].trusted ==> cache[id].card.actions == []
  }

  lemma {:induction false} FittingActionsAre(status: Status, actions: seq<Action>)
    ensures forall a :: a in FittingActions(status, actions) <==> a in actions && ActionFits(status, a)
  {
    if actions != [] { FittingActionsAre(status, actions[1..]); }
  }

  /** A broadcast that is taken keeps exactly the known actions that make sense for the new status. */
  lemma BroadcastFiltersActions(cache: Cache, card: Card, a: Action)
    requires Apply(cache, Broadcast(card)) != cache
    ensures var after := Apply(cache, Broadcast(card));
            && card.id in after
            && (a in after[card.id].card.actions <==>
                  && card.id in cache && a in cache[card.id].card.actions
                  && (card.status == ResultSubmitted || (card.status == Accepted && a == Revise)))
            && (after[card.id].trusted <==> card.id in cache && cache[card.id].trusted)
  {
    if card.id in cache { FittingActionsAre(card.status, cache[card.id].card.actions); }
  }

  /** The action was given to this viewer by a fetch or by the answer to the viewer's own call. */
  ghost predicate Granted(es: seq<Event>, id: string, a: Action) {
    exists k :: 0 <= k < |es| && !es[k].Broadcast? && es[k].card.id == id && a in es[k].card.actions
  }

  /** No broadcast ever adds a permission: what the cache offers was granted to the viewer for this card. */
  lemma {:induction false} OffersAreGranted(es: seq<Event>, id: string)
    ensures NothingUntrusted(Run(map[], es))
    ensures id in Run(map[], es) ==> forall a :: a in Run(map[], es)[id].card.actions ==> Granted(es, id, a)
    decreases |es|
  {
    if es != [] {
      var n := |es| - 1;
      var before, e := Run(map[], es[..n]), es[n];
      OffersAreGranted(es[..n], id);
      var after := Run(map[], es);
      assert after == Apply(before, e);
      if id in after {
        forall a | a in after[id].card.actions ensures Granted(es, id, a) {
          if id in before { FittingActionsAre(e.card.status, before[id].card.actions); }
          if id in before && a in before[id].card.actions {
            var k :| 0 <= k < n && !es[..n][k].Broadcast? && es[..n][k].card.id == id && a in es[..n][k].card.actions;
            assert es[k] == es[..n][k];
          } else {
            assert es[n] == e;
          }
        }
      }
    }
  }

  // ---- versions ----

  /** What a past version shows when every field is there: what the card showed, but for the status. */
  function PushedView(c: Card): View {
    View(version := c.version, current := false,
         goal := Some(c.body.goal), criteria := c.body.criteria, boundaries := Some(c.body.boundaries),
         refs := Some(c.body.refs), outputFormat := c.body.outputFormat, budgetUsd := c.body.budgetUsd,
         reviseReason := c.body.reviseReason, delegateMessageId := c.body.delegateMessageId,
         result := c.body.result, judgement := c.body.judgement, status := None)
  }

  /** What a listed version shows: the fields that it lists and no others, none of them taken from the current version. */
  function ListedView(s: Snap): View {
    View(version := s.version, current := false,
         goal := s.goal, criteria := if s.criteria.Some? then s.criteria.value else [], boundaries := s.boundaries,
         refs := s.refs, outputFormat := s.outputFormat, budgetUsd := s.budgetUsd, reviseReason := s.reviseReason,
         delegateMessageId := s.delegateMessageId, result := s.result, judgement := s.judgement, status := None)
  }

  /** Past versions are listed once and lie below the current one. */
  ghost predicate WellListed(c: Card) {
    var snaps := c.versions.GetOr([]);
    && (forall s :: s in snaps ==> s.version < c.version)
    && (forall i, j :: 0 <= i < j < |snaps| ==> snaps[i].version != snaps[j].version)
  }

  /**
   * What a card shows of its versions, field by field: the current one with its status, a past one as it is listed, and
   * nothing of a version that is not listed.
   */
  lemma VersionsShown(c: Card, v: int)
    requires WellListed(c)
    ensures CardVersion(c, None) == CardVersion(c, Some(c.version))
         == Some(PushedView(c).(current := true, status := Some(c.status)))
    ensures forall w :: w in c.versions.GetOr([]) ==> CardVersion(c, Some(w.version)) == Some(ListedView(w))
    ensures v != c.version && (forall w :: w in c.versions.GetOr([]) ==> w.version != v) ==> CardVersion(c, Some(v)) == None
  {
  }

  /** A fetched card lists every version below its own. */
  ghost predicate Complete(c: Card) {
    WellListed(c) && c.versions.Some? && forall v :: 1 <= v < c.version ==> FindSnap(c.versions.value, v).Some?
  }

  /** What the server sends: complete lists or none, and broadcasts have none. */
  ghost predicate Proper(e: Event) {
    && e.card.version >= 1
    && match e
       case Fetched(c) => Complete(c)
       case Broadcast(c) => c.versions.None?
       case Response(c) => c.versions.None? || Complete(c)
  }

  lemma {:induction false} DropVersionIs(snaps: seq<Snap>, v: int)
    ensures forall s :: s in DropVersion(snaps, v) <==> s in snaps && s.version != v
    ensures (forall s :: s in snaps ==> s.version != v) ==> DropVersion(snaps, v) == snaps
  {
    if snaps != [] { DropVersionIs(snaps[1..], v); }
  }

  lemma {:induction false} FindSnapAppend(snaps: seq<Snap>, s: Snap, v: int)
    ensures FindSnap(snaps + [s], v) ==
            if FindSnap(snaps, v).Some? then FindSnap(snaps, v) else if s.version == v then Some(s) else None
  {
    if snaps == [] {
      assert snaps + [s] == [s] && [s][1..] == [];
    } else {
      assert (snaps + [s])[1..] == snaps[1..] + [s];
      FindSnapAppend(snaps[1..], s, v);
    }
  }

  ghost predicate AllWellListed(cache: Cache) {
    forall id :: id in cache ==> WellListed(cache[id].card)
  }

  /** Was the card replaced by this delivery? */
  predicate Taken(cache: Cache, e: Event) {
    Apply(cache, e) != cache
  }

  lemma WellListedStep(cache: Cache, e: Event)
    requires AllWellListed(cache) && Proper(e)
    requires e.Response? && e.card.id in cache ==> !Older(e.card, cache[e.card.id].card)
    ensures AllWellListed(Apply(cache, e))
  {
    var id := e.card.id;
    if id in cache {
      var p := cache[id].card;
      var snaps := p.versions.GetOr([]);
      assert WellListed(p);
      DropVersionIs(snaps, p.version);
      if e.card.versions.None? && e.card.version > p.version {
        var pushed := snaps + [SnapOf(p)];
        assert PushedVersions(Some(cache[id]), e.card) == Some(pushed);
        assert WellListed(e.card.(versions := Some(pushed)));
      }
    }
  }

  /** A version of the card other than the current one keeps the view it had. */
  lemma OldViewStays(cache: Cache, e: Event, v: int)
    requires AllWellListed(cache) && e.card.id in cache
    requires !Older(e.card, cache[e.card.id].card) && e.card.versions.None?
    requires v < cache[e.card.id].card.version
    ensures var after := Apply(cache, e);
            e.card.id in after && (!e.Fetched? ==>
              CardVersion(after[e.card.id].card, Some(v)) == CardVersion(cache[e.card.id].card, Some(v)))
  {
    var p := cache[e.card.id].card;
    assert WellListed(p);
    DropVersionIs(p.versions.GetOr([]), p.version);
    FindSnapAppend(p.versions.GetOr([]), SnapOf(p), v);
  }

  /** Is this state of the card behind the one in the cache? */
  ghost predicate Behind(cache: Cache, c: Card) {
    c.id in cache &&
    var p := cache[c.id].card;
    c.version < p.version || (c.version == p.version && c.updatedAt < p.updatedAt)
  }

  /** Is it the one in the cache, by version, time and status? */
  ghost predicate Repeats(cache: Cache, c: Card) {
    c.id in cache &&
    var p := cache[c.id].card;
    c.version == p.version && c.updatedAt == p.updatedAt && c.status == p.status
  }

  /**
   * What a delivery shows: nothing new when it is behind the cache, nor when a broadcast repeats it; otherwise the card as
   * it was delivered, with these actions only where the viewer asked for it, and with the versions it lists. A
   * response is always shown, and no other card changes.
   */
  lemma DeliveriesAreShown(cache: Cache, e: Event)
    ensures var after := Apply(cache, e);
            && (forall id :: id != e.card.id ==> (id in after <==> id in cache) && (id in cache ==> after[id] == cache[id]))
            && (!e.Response? && Behind(cache, e.card) ==> after == cache)
            && (e.Broadcast? && Repeats(cache, e.card) ==> after == cache)
            && (e.Response? || !(Behind(cache, e.card) || (e.Broadcast? && Repeats(cache, e.card))) ==>
                  && e.card.id in after
                  && after[e.card.id].card == e.card.(versions := after[e.card.id].card.versions, actions := after[e.card.id].card.actions)
                  && (!e.Broadcast? ==> after[e.card.id].card.actions == e.card.actions && after[e.card.id].trusted)
                  && (e.Fetched? || e.card.versions.Some? ==> after[e.card.id].card.versions == e.card.versions))
  {
  }

  /** The version that a broadcast pushes out can be read afterwards, with the fields it had. */
  lemma PushedOutIsKept(cache: Cache, card: Card)
    requires AllWellListed(cache) && card.id in cache
    requires card.versions.None? && card.version > cache[card.id].card.version
    ensures var p := cache[card.id].card;
            CardVersion(Apply(cache, Broadcast(card))[card.id].card, Some(p.version)) == Some(PushedView(p))
  {
    var p := cache[card.id].card;
    assert WellListed(p);
    DropVersionIs(p.versions.GetOr([]), p.version);
    FindSnapAppend(p.versions.GetOr([]), SnapOf(p), p.version);
  }

  ghost predicate AllProper(es: seq<Event>) {
    forall k :: 0 <= k < |es| ==> Proper(es[k])
  }

  /** Along every run the past versions of every card are listed once and lie below the current one. */
  lemma {:induction false} RunKeepsListsClean(es: seq<Event>)
    requires AllProper(es) && Timely(map[], es)
    ensures AllWellListed(Run(map[], es))
    decreases |es|
  {
    hide Apply, Proper, Older, WellListed;
    if es != [] {
      var n := |es| - 1;
      PrefixIsTimely(map[], es, n);
      RunKeepsListsClean(es[..n]);
      WellListedStep(Run(map[], es[..n]), es[n]);
    }
  }

  /** Version `v` of the card can be shown, and the card has not fallen behind it. */
  ghost predicate Retrievable(cache: Cache, id: string, v: int) {
    id in cache && v <= cache[id].card.version && CardVersion(cache[id].card, Some(v)).Some?
  }

  lemma RetrievableStep(cache: Cache, e: Event, id: string, v: int)
    requires AllWellListed(cache) && Proper(e) && 1 <= v && Retrievable(cache, id, v)
    requires e.Response? && e.card.id in cache ==> !Older(e.card, cache[e.card.id].card)
    ensures Retrievable(Apply(cache, e), id, v)
  {
    hide WellListed;
    if e.card.id == id && !Older(e.card, cache[id].card) && e.card.versions.None? && !e.Fetched? {
      OldViewOrPushedOut(cache, e, v);
    }
  }

  lemma OldViewOrPushedOut(cache: Cache, e: Event, v: int)
    requires AllWellListed(cache) && e.card.id in cache && !e.Fetched?
    requires !Older(e.card, cache[e.card.id].card) && e.card.versions.None?
    requires v <= cache[e.card.id].card.version && CardVersion(cache[e.card.id].card, Some(v)).Some?
    ensures e.card.id in Apply(cache, e) && CardVersion(Apply(cache, e)[e.card.id].card, Some(v)).Some?
  {
    var p := cache[e.card.id].card;
    if v < p.version {
      OldViewStays(cache, e, v);
    } else if e.card.version > p.version {
      DropVersionIs(p.versions.GetOr([]), p.version);
      FindSnapAppend(p.versions.GetOr([]), SnapOf(p), v);
      assert WellListed(p);
    }
  }

  /** Every version that was ever the current one of a card can still be shown at the end of the run. */
  lemma {:induction false} NoVersionIsLost(es: seq<Event>, m: nat, id: string)
    requires AllProper(es) && Timely(map[], es)
    requires m <= |es| && id in Run(map[], es[..m])
    ensures Retrievable(Run(map[], es), id, Run(map[], es[..m])[id].card.version)
    decreases |es|
  {
    hide Apply, Proper, Older, CardVersion;
    var v := Run(map[], es[..m])[id].card.version;
    if m == |es| {
      assert es[..m] == es;
      CurrentIsRetrievable(Run(map[], es), id);
    } else {
      var n := |es| - 1;
      PrefixIsTimely(map[], es, n);
      assert es[..n][..m] == es[..m];
      NoVersionIsLost(es[..n], m, id);
      RunKeepsListsClean(es[..n]);
      VersionsArePositive(es[..m], id);
      RetrievableStep(Run(map[], es[..n]), es[n], id, v);
    }
  }

  lemma CurrentIsRetrievable(cache: Cache, id: string)
    requires id in cache
    ensures Retrievable(cache, id, cache[id].card.version)
  {
  }

  lemma {:induction false} VersionsArePositive(es: seq<Event>, id: string)
    requires AllProper(es) && id in Run(map[], es)
    ensures Run(map[], es)[id].card.version >= 1
    decreases |es|
  {
    if es != [] {
      var n := |es| - 1;
      var before := Run(map[], es[..n]);
      if id in before { VersionsArePositive(es[..n], id); }
      assert Proper(es[n]);
    }
  }

  /** The delivery lists version `v` the way the client knows it, or lists nothing, or is about another card. */
  ghost predicate Agrees(e: Event, id: string, v: int, view: View) {
    e.card.id == id && e.card.versions.Some? ==>
      var s := FindSnap(e.card.versions.value, v); s.Some? && SnapView(s.value) == view
  }

  lemma ViewStep(cache: Cache, e: Event, id: string, v: int, view: View)
    requires AllWellListed(cache) && Proper(e) && id in cache && v < cache[id].card.version
    requires CardVersion(cache[id].card, Some(v)) == Some(view) && Agrees(e, id, v, view)
    requires e.Response? && e.card.id in cache ==> !Older(e.card, cache[e.card.id].card)
    ensures var after := Apply(cache, e);
            id in after && v < after[id].card.version && CardVersion(after[id].card, Some(v)) == Some(view)
  {
    hide WellListed;
    if e.card.id == id && !Older(e.card, cache[id].card) && e.card.versions.None? {
      OldViewStays(cache, e, v);
    }
  }

  /**
   * A version that a broadcast pushed out at step `k` keeps, to the end of the run, the very fields it had then,
   * as long as the lists that are fetched later agree with it.
   */
  lemma {:induction false} PushedOutVersionsKeepTheirFields(es: seq<Event>, k: nat, id: string)
    requires AllProper(es) && Timely(map[], es)
    requires k < |es| && es[k].Broadcast? && es[k].card.id == id && id in Run(map[], es[..k])
    requires es[k].card.version > Run(map[], es[..k])[id].card.version
    requires var p := Run(map[], es[..k])[id].card;
             forall j :: k < j < |es| ==> Agrees(es[j], id, p.version, PushedView(p))
    ensures var p, after := Run(map[], es[..k])[id].card, Run(map[], es);
            id in after && p.version < after[id].card.version
            && CardVersion(after[id].card, Some(p.version)) == Some(PushedView(p))
    decreases |es|
  {
    hide Apply, Proper, Older, CardVersion, PushedView, Agrees;
    var n := |es| - 1;
    var p := Run(map[], es[..k])[id].card;
    PrefixIsTimely(map[], es, n);
    RunKeepsListsClean(es[..n]);
    if k == n {
      BroadcastPushesOut(Run(map[], es[..n]), es[n]);
    } else {
      assert es[..n][..k] == es[..k];
      PushedOutVersionsKeepTheirFields(es[..n], k, id);
      ViewStep(Run(map[], es[..n]), es[n], id, p.version, PushedView(p));
    }
  }

  lemma BroadcastPushesOut(cache: Cache, e: Event)
    requires AllWellListed(cache) && Proper(e) && e.Broadcast? && e.card.id in cache
    requires e.card.version > cache[e.card.id].card.version
    ensures var p, after := cache[e.card.id].card, Apply(cache, e);
            e.card.id in after && p.version < after[e.card.id].card.version
            && CardVersion(after[e.card.id].card, Some(p.version)) == Some(PushedView(p))
  {
    PushedOutIsKept(cache, e.card);
  }

  // ---- what a bubble still asks for ----

  /** The result of version `v`, if it is the current one or listed and has one. */
  ghost predicate HasResult(c: Card, v: int) {
    if v == c.version then c.body.result.Some?
    else exists w :: w in c.versions.GetOr([]) && w.version == v && w.result.Some?
  }

  /**
   * What a bubble of version `v` asks for, in this order: the card when the version is not known; its result, for a
   * result bubble without one; and the actions, only of the current version, while a person could judge it and no
   * trusted place has said what this viewer may do.
   */
  lemma BubbleNeeds(c: Cached, v: int, role: Role)
    requires WellListed(c.card)
    ensures var known := v == c.card.version || exists w :: w in c.card.versions.GetOr([]) && w.version == v;
            CardNeed(Some(c), CardVersion(c.card, Some(v)), role) ==
            if !known then Some(NeedCard)
            else if role == ResultRole && !HasResult(c.card, v) then Some(NeedResult)
            else if v == c.card.version && (c.card.status == ResultSubmitted || c.card.status == Accepted) && !c.trusted
              then Some(NeedActions)
            else None
    ensures CardNeed(None, CardVersion(c.card, Some(v)), role) == Some(NeedCard)
  {
    if w :| w in c.card.versions.GetOr([]) && w.version == v { VersionsShown(c.card, v); }
  }

  /** A card known from broadcasts alone asks for its actions exactly when a person could judge it. */
  lemma BroadcastLeavesActionsOpen(cache: Cache, card: Card)
    requires card.id !in cache
    ensures var c := Apply(cache, Broadcast(card))[card.id];
            && c.card.actions == [] && !c.trusted
            && (CardNeed(Some(c), CardVersion(c.card, None), Delegation) == Some(NeedActions)
                <==> exists a :: ActionFits(card.status, a))
  {
    assert ActionFits(card.status, Revise) <==> card.status == ResultSubmitted || card.status == Accepted;
  }
}
