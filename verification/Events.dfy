/** The events of a task, as web/components/ActivityRail.tsx and web/lib/feed.ts read them. */
module Events {
  import opened Options

  /**
   * `number` is the field `seq` and `kind` the field `class`; `call` is the payload's `tool_call_id` when that is a
   * string; `supersededBy` the id of the newer version.
   */
  datatype Event = Event(
    number: int,
    kind: string,
    verb: string,
    outcome: string,
    attempt: Option<int>,
    call: Option<string>,
    supersededBy: Option<string>)

  function SeqOf(e: Event): int {
    e.number
  }

  /** `!e.superseded_by`: missing, null and the empty string all mean that the event stands. */
  predicate Stands(e: Event) {
    e.supersededBy.None? || e.supersededBy.value == ""
  }

  function Standing(es: seq<Event>): (r: seq<Event>)
    ensures forall e :: e in r <==> e in es && Stands(e)
  {
    if es == [] then [] else (if Stands(es[0]) then [es[0]] else []) + Standing(es[1..])
  }

  lemma {:induction false} StandingOfConcat(a: seq<Event>, b: seq<Event>)
    ensures Standing(a + b) == Standing(a) + Standing(b)
  {
    if a == [] {
      assert a + b == b;
    } else {
      assert (a + b)[1..] == a[1..] + b;
      StandingOfConcat(a[1..], b);
    }
  }
}
