/**
 * Task cards in the client's cache (web/lib/cards.ts).
 *
 * `null` and a missing field are both None, and a timestamp is the number that `Date.parse` gives.
 */
module Cards {
  import opened Options

  // ---- data model ----

  datatype Status = InProgress | ResultSubmitted | Accepted | Cancelled
  datatype Action = Accept | Revise
  datatype Criterion = Criterion(n: nat, text: string, how: string)
  datatype Ref = Ref(kind: string, id: string, title: string)
  datatype Verdict = Met | Partial | Unmet
  datatype CardResult = CardResult(summary: string, verdicts: seq<Verdict>, metCount: Option<nat>, auto: bool,
                                   costUsd: Option<real>, messageId: Option<string>)
  datatype Judgement = Judgement(accepted: bool, judge: string, reason: Option<string>)

  /** The fields that each version of a card has for itself. */
  datatype Body = Body(goal: string, criteria: seq<Criterion>, boundaries: string, refs: seq<Ref>,
                       outputFormat: Option<string>, budgetUsd: Option<real>, reviseReason: Option<string>,
                       delegateMessageId: Option<string>, result: Option<CardResult>, judgement: Option<Judgement>)

  /** A past version as it is listed. Any field may be missing. */
  datatype Snap = Snap(version: int, goal: Option<string>, criteria: Option<seq<Criterion>>, boundaries: Option<string>,
                       refs: Option<seq<Ref>>, outputFormat: Option<string>, budgetUsd: Option<real>,
                       reviseReason: Option<string>, delegateMessageId: Option<string>, result: Option<CardResult>,
                       judgement: Option<Judgement>)

  datatype Card = Card(id: string, workId: Option<string>, number: int, title: string, version: int, status: Status,
                       assignee: string, laneId: string, parent: Option<string>, body: Body, updatedAt: int,
                       versions: Option<seq<Snap>>, actions: seq<Action>)

  /** A card with the note whether its actions ever came from a place that is trusted. */
  datatype Cached = Cached(card: Card, trusted: bool)

  type Cache = map<string, Cached>

  datatype View = View(version: int, current: bool, goal: Option<string>, criteria: seq<Criterion>,
                       boundaries: Option<string>, refs: Option<seq<Ref>>, outputFormat: Option<string>,
                       budgetUsd: Option<real>, reviseReason: Option<string>, delegateMessageId: Option<string>,
                       result: Option<CardResult>, judgement: Option<Judgement>, status: Option<Status>)

  datatype Role = Delegation | ResultRole
  datatype Need = NeedCard | NeedResult | NeedActions

  // ---- versions ----

  predicate ActionFits(status: Status, a: Action) {
    if a == Accept then status == ResultSubmitted else status == ResultSubmitted || status == Accepted
  }

  function CurrentView(c: Card): View {
    View(c.version, true, Some(c.body.goal), c.body.criteria, Some(c.body.boundaries), Some(c.body.refs),
         c.body.outputFormat, c.body.budgetUsd, c.body.reviseReason, c.body.delegateMessageId, c.body.result,
         c.body.judgement, Some(c.status))
  }

  function SnapView(s: Snap): View {
    View(s.version, false, s.goal, s.criteria.GetOr([]), s.boundaries, s.refs, s.outputFormat, s.budgetUsd,
         s.reviseReason, s.delegateMessageId, s.result, s.judgement, None)
  }

  function FindSnap(snaps: seq<Snap>, v: int): (r: Option<Snap>)
    ensures r.Some? ==> r.value in snaps && r.value.version == v
    ensures r.None? ==> forall s :: s in snaps ==> s.version != v
  {
    if snaps == [] then None
    else if snaps[0].version == v then Some(snaps[0])
    else FindSnap(snaps[1..], v)
  }

  /** `cardVersion`: the asked version, or the current one when none is asked for. */
  function CardVersion(c: Card, version: Option<int>): Option<View> {
    var v := version.GetOr(c.version);
    if v == c.version then Some(CurrentView(c))
    else match FindSnap(c.versions.GetOr([]), v)
      case None => None
      case Some(s) => Some(SnapView(s))
  }

  /** `cardNeed`: what a bubble must still ask for. */
  function CardNeed(c: Option<Cached>, view: Option<View>, role: Role): Option<Need> {
    if c.None? || view.None? then Some(NeedCard)
    else if role == ResultRole && view.value.result.None? then Some(NeedResult)
    else if view.value.current && (c.value.card.status == ResultSubmitted || c.value.card.status == Accepted)
            && !c.value.trusted then Some(NeedActions)
    else None
  }

  // ---- the cache ----

  /** `older`: a lower version, or the same version with an earlier time. */
  predicate Older(a: Card, b: Card) {
    a.version < b.version || (a.version == b.version && a.updatedAt < b.updatedAt)
  }

  function CardsOnFetched(cache: Cache, card: Card): Cache {
    if card.id in cache && Older(card, cache[card.id].card) then cache
    else cache[card.id := Cached(card, true)]
  }

  /** The version that a newer one pushes out, with all its fields. */
  function SnapOf(c: Card): Snap {
    Snap(c.version, Some(c.body.goal), Some(c.body.criteria), Some(c.body.boundaries), Some(c.body.refs),
         c.body.outputFormat, c.body.budgetUsd, c.body.reviseReason, c.body.delegateMessageId, c.body.result,
         c.body.judgement)
  }

  function DropVersion(snaps: seq<Snap>, v: int): seq<Snap> {
    if snaps == [] then []
    else (if snaps[0].version != v then [snaps[0]] else []) + DropVersion(snaps[1..], v)
  }

  function FittingActions(status: Status, actions: seq<Action>): seq<Action> {
    if actions == [] then []
    else (if ActionFits(status, actions[0]) then [actions[0]] else []) + FittingActions(status, actions[1..])
  }

  /** The list of past versions after `card` arrived for `prev`. */
  function PushedVersions(prev: Option<Cached>, card: Card): Option<seq<Snap>> {
    if prev.None? then None
    else
      var p := prev.value.card;
      if card.version > p.version then Some(DropVersion(p.versions.GetOr([]), p.version) + [SnapOf(p)])
      else p.versions
  }

  /** `cardsOnUpserted`: a broadcast, or the response to the viewer's own call (`trust`). */
  function CardsOnUpserted(cache: Cache, card: Card, trust: bool): Cache {
    var prev := if card.id in cache then Some(cache[card.id]) else None;
    if !trust && prev.Some? && prev.value.card.version == card.version && prev.value.card.updatedAt == card.updatedAt
       && prev.value.card.status == card.status then cache
    else if !trust && prev.Some? && Older(card, prev.value.card) then cache
    else
      var versions := if card.versions.Some? then card.versions else PushedVersions(prev, card);
      var actions := if trust then card.actions
                     else if prev.Some? then FittingActions(card.status, prev.value.card.actions)
                     else [];
      var trusted := trust || (prev.Some? && prev.value.trusted);
      cache[card.id := Cached(card.(versions := versions, actions := actions), trusted)]
  }

  // ---- deliveries ----

  /** What reaches the cache: a fetched card, a broadcast, or the response to accepting or revising. */
  datatype Event = Fetched(card: Card) | Broadcast(card: Card) | Response(card: Card)

  function Apply(cache: Cache, e: Event): Cache {
    match e
    case Fetched(c) => CardsOnFetched(cache, c)
    case Broadcast(c) => CardsOnUpserted(cache, c, false)
    case Response(c) => CardsOnUpserted(cache, c, true)
  }

  function Run(cache: Cache, es: seq<Event>): Cache
    decreases |es|
  {
    if es == [] then cache else Apply(Run(cache, es[..|es| - 1]), es[|es| - 1])
  }
}
