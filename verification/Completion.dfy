/** Drafts of completion conditions and the contract's form of them: web/lib/completion.ts, lines 16 to 75. */
module Completion {
  import opened Options

  // ---- data model ----

  datatype CondType = ArtifactSubmitted | AgentApproval | UserApproval | Manual

  const COND_ORDER: seq<CondType> := [ArtifactSubmitted, AgentApproval, UserApproval, Manual]

  datatype Op = And | Or

  datatype Draft = Draft(op: Op, conds: seq<CondType>, submitter: string, reviewer: string)

  /** The contract has one atom type that the screen cannot make. */
  datatype AtomType = Screen(t: CondType) | CriteriaMet

  datatype Atom = Atom(kind: AtomType, agentId: Option<string>, who: Option<string>)
  datatype Condition = Group(op: Op, conditions: seq<Condition>) | Leaf(atom: Atom)

  // ---- writing ----

  function Chosen(conds: seq<CondType>, order: seq<CondType>): (r: seq<CondType>)
    ensures forall t :: t in r <==> t in order && t in conds
  {
    if order == [] then []
    else (if order[0] in conds then [order[0]] else []) + Chosen(conds, order[1..])
  }

  function AtomOf(d: Draft, t: CondType): Atom {
    match t
    case ArtifactSubmitted =>
      if d.submitter != "" then Atom(Screen(t), Some(d.submitter), None) else Atom(Screen(t), None, Some("assignee"))
    case AgentApproval => if d.reviewer != "" then Atom(Screen(t), Some(d.reviewer), None) else Atom(Screen(t), None, None)
    case _ => Atom(Screen(t), None, None)
  }

  function Leaves(d: Draft, ts: seq<CondType>): (r: seq<Condition>)
    ensures |r| == |ts| && forall i :: 0 <= i < |ts| ==> r[i] == Leaf(AtomOf(d, ts[i]))
  {
    seq(|ts|, i requires 0 <= i < |ts| => Leaf(AtomOf(d, ts[i])))
  }

  function ToCompletionCondition(d: Draft): Condition {
    Group(d.op, Leaves(d, Chosen(d.conds, COND_ORDER)))
  }

  // ---- reading ----

  /** `a.agent_id` when it is there and not empty. */
  function NamedAgent(a: Atom, other: string): string {
    if a.agentId.Some? && a.agentId.value != "" then a.agentId.value else other
  }

  function ReadAtom(draft: Draft, a: Atom): Draft {
    match a.kind
    case CriteriaMet => draft
    case Screen(t) =>
      Draft(draft.op,
            if t in draft.conds then draft.conds else draft.conds + [t],
            if t == ArtifactSubmitted then NamedAgent(a, draft.submitter) else draft.submitter,
            if t == AgentApproval then NamedAgent(a, draft.reviewer) else draft.reviewer)
  }

  function ReadAll(draft: Draft, cs: seq<Condition>): Draft
    decreases |cs|
  {
    if cs == [] then draft
    else
      var before := ReadAll(draft, cs[..|cs| - 1]);
      var c := cs[|cs| - 1];
      if c.Leaf? then ReadAtom(before, c.atom) else before
  }

  predicate Readable(c: Condition) {
    c.Leaf? && c.atom.kind.Screen?
  }

  function Unreadable(cs: seq<Condition>): nat
    decreases |cs|
  {
    if cs == [] then 0
    else Unreadable(cs[..|cs| - 1]) + if Readable(cs[|cs| - 1]) then 0 else 1
  }

  function Items(cc: Condition): seq<Condition> {
    if cc.Group? then cc.conditions else [cc]
  }

  function EmptyDraft(op: Op): Draft {
    Draft(op, [], "", "")
  }

  /** The draft that the screen starts with, and how many items it cannot show. */
  function Read(cc: Option<Condition>): (Draft, nat) {
    if cc.None? then (EmptyDraft(And), 0)
    else (ReadAll(EmptyDraft(if cc.value.Group? then cc.value.op else And), Items(cc.value)), Unreadable(Items(cc.value)))
  }

  function AtomLeaves(cs: seq<Condition>): seq<Condition>
    decreases |cs|
  {
    if cs == [] then []
    else AtomLeaves(cs[..|cs| - 1]) + if cs[|cs| - 1].Leaf? then [cs[|cs| - 1]] else []
  }

  lemma {:induction false} FilteringFirstIsTheSame(draft: Draft, cs: seq<Condition>)
    ensures ReadAll(draft, AtomLeaves(cs)) == ReadAll(draft, cs)
    ensures |AtomLeaves(cs)| <= |cs| && Unreadable(AtomLeaves(cs)) + |cs| - |AtomLeaves(cs)| == Unreadable(cs)
    ensures forall c :: c in AtomLeaves(cs) ==> c.Leaf?
    decreases |cs|
  {
    hide ReadAtom;
    if cs != [] {
      var front, c := cs[..|cs| - 1], cs[|cs| - 1];
      FilteringFirstIsTheSame(draft, front);
      var atoms := AtomLeaves(front);
      if c.Leaf? {
        assert (atoms + [c])[..|atoms|] == atoms && (atoms + [c])[|atoms|] == c;
      } else {
        assert AtomLeaves(cs) == atoms;
      }
    }
  }

  /** The body of the loop: one atom read into the draft. */
  method ReadInto(before: Draft, a: Atom) returns (draft: Draft, skip: nat)
    ensures draft == ReadAtom(before, a) && skip == if Readable(Leaf(a)) then 0 else 1
  {
    draft := before;
    if a.kind == CriteriaMet { return draft, 1; }
    var t := a.kind.t;
    if t !in draft.conds { draft := draft.(conds := draft.conds + [t]); }
    if t == ArtifactSubmitted && a.agentId.Some? && a.agentId.value != "" { draft := draft.(submitter := a.agentId.value); }
    if t == AgentApproval && a.agentId.Some? && a.agentId.value != "" { draft := draft.(reviewer := a.agentId.value); }
    skip := 0;
  }

  method FromCompletionCondition(cc: Option<Condition>) returns (draft: Draft, dropped: nat)
    ensures (draft, dropped) == Read(cc)
  {
    hide ReadAtom, Readable, AtomLeaves;
    if cc.None? { return EmptyDraft(And), 0; }
    var items := if cc.value.Group? then cc.value.conditions else [cc.value];
    var op := if cc.value.Group? then cc.value.op else And;
    var atoms := AtomLeaves(items);
    FilteringFirstIsTheSame(EmptyDraft(op), items);
    var nested := |items| - |atoms|;
    draft := EmptyDraft(op);
    var skipped := 0;
    for i := 0 to |atoms|
      invariant draft == ReadAll(EmptyDraft(op), atoms[..i])
      invariant skipped == Unreadable(atoms[..i])
    {
      assert atoms[..i + 1][..i] == atoms[..i];
      assert atoms[i] in atoms;
      var skip;
      draft, skip := ReadInto(draft, atoms[i].atom);
      skipped := skipped + skip;
    }
    assert atoms[..|atoms|] == atoms;
    dropped := nested + skipped;
  }

  // ---- the normal form ----

  /** In the fixed order, without repeats, with agents only where their condition is chosen. */
  function Normal(d: Draft): Draft {
    Draft(d.op, Chosen(d.conds, COND_ORDER),
          if ArtifactSubmitted in d.conds then d.submitter else "",
          if AgentApproval in d.conds then d.reviewer else "")
  }

  lemma {:induction false} ChosenIgnoresOrder(a: seq<CondType>, b: seq<CondType>, order: seq<CondType>)
    requires forall t :: t in order ==> (t in a <==> t in b)
    ensures Chosen(a, order) == Chosen(b, order)
  {
    if order != [] { ChosenIgnoresOrder(a, b, order[1..]); }
  }

  lemma AllTypesAreOrdered(t: CondType)
    ensures t in COND_ORDER
  {
    assert COND_ORDER[0] == ArtifactSubmitted && COND_ORDER[1] == AgentApproval;
    assert COND_ORDER[2] == UserApproval && COND_ORDER[3] == Manual;
  }

  lemma NormalChoosesTheSame(d: Draft)
    ensures forall t :: t in Normal(d).conds <==> t in d.conds
  {
    forall t ensures t in Normal(d).conds <==> t in d.conds { AllTypesAreOrdered(t); }
  }

  lemma NormalIsIdempotent(d: Draft)
    ensures Normal(Normal(d)) == Normal(d)
  {
    NormalChoosesTheSame(d);
    ChosenIgnoresOrder(Normal(d).conds, d.conds, COND_ORDER);
  }

  lemma NormalKeepsAtoms(d: Draft, t: CondType)
    requires t in d.conds
    ensures AtomOf(Normal(d), t) == AtomOf(d, t)
  {
  }

  /** What is written depends on the normal form only. */
  lemma WritingNormalizes(d: Draft)
    ensures ToCompletionCondition(Normal(d)) == ToCompletionCondition(d)
  {
    NormalChoosesTheSame(d);
    ChosenIgnoresOrder(Normal(d).conds, d.conds, COND_ORDER);
    var ts := Chosen(d.conds, COND_ORDER);
    forall t | t in ts ensures AtomOf(Normal(d), t) == AtomOf(d, t) { NormalKeepsAtoms(d, t); }
    hide AtomOf, Chosen;
    assert Normal(d).op == d.op;
    hide Normal;
    assert Leaves(Normal(d), ts) == Leaves(d, ts);
  }

  // ---- round trips ----

  ghost predicate NoRepeats(ts: seq<CondType>) {
    forall i, j :: 0 <= i < j < |ts| ==> ts[i] != ts[j]
  }

  lemma {:induction false} ChosenHasNoRepeats(conds: seq<CondType>, order: seq<CondType>)
    requires NoRepeats(order)
    ensures NoRepeats(Chosen(conds, order))
  {
    if order != [] {
      ChosenHasNoRepeats(conds, order[1..]);
      assert forall j :: 0 < j < |order| ==> order[j] == order[1..][j - 1];
    }
  }

  lemma ReadingOneMore(d: Draft, ts: seq<CondType>)
    requires ts != []
    ensures var n := |ts| - 1;
            && ReadAll(EmptyDraft(d.op), Leaves(d, ts)) == ReadAtom(ReadAll(EmptyDraft(d.op), Leaves(d, ts[..n])), AtomOf(d, ts[n]))
            && Unreadable(Leaves(d, ts)) == Unreadable(Leaves(d, ts[..n]))
  {
    hide ReadAtom;
    var n := |ts| - 1;
    assert Leaves(d, ts)[..n] == Leaves(d, ts[..n]);
    assert Leaves(d, ts)[n] == Leaf(AtomOf(d, ts[n]));
  }

  function Taken(d: Draft, ts: seq<CondType>): Draft {
    Draft(d.op, ts, if ArtifactSubmitted in ts then d.submitter else "", if AgentApproval in ts then d.reviewer else "")
  }

  lemma TakingOneMore(d: Draft, ts: seq<CondType>)
    requires ts != [] && NoRepeats(ts)
    ensures ReadAtom(Taken(d, ts[..|ts| - 1]), AtomOf(d, ts[|ts| - 1])) == Taken(d, ts)
  {
    var n := |ts| - 1;
    assert ts == ts[..n] + [ts[n]];
    assert forall t :: t in ts <==> t in ts[..n] || t == ts[n];
  }

  /** Reading the atoms of `ts` gives back `ts` and the agents of the types in it. */
  lemma {:induction false} ReadingLeaves(d: Draft, ts: seq<CondType>)
    requires NoRepeats(ts)
    ensures ReadAll(EmptyDraft(d.op), Leaves(d, ts)) == Taken(d, ts)
    ensures Unreadable(Leaves(d, ts)) == 0
    decreases |ts|
  {
    if ts == [] {
      assert Leaves(d, ts) == [];
    } else {
      hide ReadAll, ReadAtom, Taken, Unreadable;
      ReadingLeaves(d, ts[..|ts| - 1]);
      ReadingOneMore(d, ts);
      TakingOneMore(d, ts);
    }
  }

  /** Reading what was written drops nothing and gives the normal form of the draft. */
  lemma DraftRoundTrip(d: Draft)
    ensures Read(Some(ToCompletionCondition(d))) == (Normal(d), 0)
  {
    var ts := Chosen(d.conds, COND_ORDER);
    ChosenHasNoRepeats(d.conds, COND_ORDER);
    ReadingLeaves(d, ts);
    AllTypesAreOrdered(ArtifactSubmitted);
    AllTypesAreOrdered(AgentApproval);
  }

  /** Two drafts are written alike exactly when they have one normal form. */
  lemma WrittenAlikeIff(d: Draft, e: Draft)
    ensures ToCompletionCondition(d) == ToCompletionCondition(e) <==> Normal(d) == Normal(e)
  {
    hide Read, ToCompletionCondition, Normal;
    DraftRoundTrip(d);
    DraftRoundTrip(e);
    WritingNormalizes(d);
    WritingNormalizes(e);
  }

  // ---- what a draft can write ----

  function Rank(t: CondType): (r: nat)
    ensures r < 4 && COND_ORDER[r] == t
  {
    match t
    case ArtifactSubmitted => 0
    case AgentApproval => 1
    case UserApproval => 2
    case Manual => 3
  }

  predicate Ascending(ts: seq<CondType>) {
    forall i, j :: 0 <= i < j < |ts| ==> Rank(ts[i]) < Rank(ts[j])
  }

  /** An atom the screen can make: a submitter by agent or as the assignee, a reviewer by agent or open, nothing else. */
  predicate WritableAtom(a: Atom) {
    match a.kind
    case CriteriaMet => false
    case Screen(ArtifactSubmitted) =>
      || (a.agentId.Some? && a.agentId.value != "" && a.who.None?)
      || (a.agentId.None? && a.who == Some("assignee"))
    case Screen(AgentApproval) => a.who.None? && (a.agentId.Some? ==> a.agentId.value != "")
    case Screen(_) => a.agentId.None? && a.who.None?
  }

  /** A flat group of such atoms, each type once and in the fixed order. */
  predicate Writable(cc: Condition) {
    && cc.Group?
    && (forall c :: c in cc.conditions ==> c.Leaf? && WritableAtom(c.atom))
    && forall i, j :: 0 <= i < j < |cc.conditions| ==>
         && cc.conditions[i].Leaf? && cc.conditions[i].atom.kind.Screen?
         && cc.conditions[j].Leaf? && cc.conditions[j].atom.kind.Screen?
         && Rank(cc.conditions[i].atom.kind.t) < Rank(cc.conditions[j].atom.kind.t)
  }

  lemma {:induction false} ChosenAscends(conds: seq<CondType>, k: nat)
    requires k <= 4
    ensures Ascending(Chosen(conds, COND_ORDER[k..]))
    ensures forall t :: t in Chosen(conds, COND_ORDER[k..]) ==> Rank(t) >= k
    decreases 4 - k
  {
    if k < 4 {
      assert COND_ORDER[k..][0] == COND_ORDER[k] && COND_ORDER[k..][1..] == COND_ORDER[k + 1..];
      RankOfPlace(k);
      ChosenAscends(conds, k + 1);
      var rest := Chosen(conds, COND_ORDER[k + 1..]);
      assert forall i :: 0 <= i < |rest| ==> rest[i] in rest;
    }
  }

  lemma RankOfPlace(k: nat)
    requires k < 4
    ensures Rank(COND_ORDER[k]) == k
  {
  }

  lemma ChosenStep(conds: seq<CondType>, k: nat)
    requires k < 4
    ensures Chosen(conds, COND_ORDER[k..])
         == (if COND_ORDER[k] in conds then [COND_ORDER[k]] else []) + Chosen(conds, COND_ORDER[k + 1..])
  {
    assert COND_ORDER[k..][0] == COND_ORDER[k] && COND_ORDER[k..][1..] == COND_ORDER[k + 1..];
  }

  lemma HigherTypes(ts: seq<CondType>, k: nat, t: CondType)
    requires k < 4 && Ascending(ts) && ts != [] && Rank(ts[0]) >= k
    ensures t in ts[1..] ==> Rank(t) > k
    ensures Rank(ts[0]) > k && t in ts ==> Rank(t) > k
  {
    hide Rank;
    if t in ts {
      var i :| 0 <= i < |ts| && ts[i] == t;
      assert i > 0 ==> Rank(ts[0]) < Rank(ts[i]);
    }
    if t in ts[1..] {
      var i :| 0 <= i < |ts[1..]| && ts[1..][i] == t;
      assert Rank(ts[0]) < Rank(ts[i + 1]);
    }
  }

  lemma FirstIsNotNeeded(ts: seq<CondType>, k: nat)
    requires k < 4 && ts != [] && ts[0] == COND_ORDER[k]
    ensures Chosen(ts, COND_ORDER[k + 1..]) == Chosen(ts[1..], COND_ORDER[k + 1..])
  {
    hide Chosen;
    var order := COND_ORDER[k + 1..];
    forall t | t in order ensures t in ts <==> t in ts[1..] {
      var i :| 0 <= i < |order| && order[i] == t;
      RankOfPlace(k + 1 + i);
      RankOfPlace(k);
    }
    ChosenIgnoresOrder(ts, ts[1..], order);
  }

  lemma {:induction false} ChosenOfAscending(ts: seq<CondType>, k: nat)
    requires k <= 4 && Ascending(ts) && forall t :: t in ts ==> Rank(t) >= k
    ensures Chosen(ts, COND_ORDER[k..]) == ts
    decreases 4 - k
  {
    hide Rank, Chosen;
    if k == 4 {
      forall t ensures t !in ts { assert Rank(t) < 4; }
      ChosenOfNone(ts);
    } else {
      ChosenStep(ts, k);
      RankOfPlace(k);
      if ts != [] && ts[0] == COND_ORDER[k] {
        forall t | t in ts[1..] ensures Rank(t) >= k + 1 { HigherTypes(ts, k, t); }
        ChosenOfAscending(ts[1..], k + 1);
        FirstIsNotNeeded(ts, k);
        assert ts == [ts[0]] + ts[1..];
      } else {
        forall t | t in ts ensures Rank(t) >= k + 1 { HigherTypes(ts, k, t); }
        ChosenOfAscending(ts, k + 1);
      }
    }
  }

  lemma ChosenOfNone(ts: seq<CondType>)
    ensures Chosen(ts, COND_ORDER[4..]) == []
  {
  }

  lemma AtomIsWritable(d: Draft, t: CondType)
    ensures WritableAtom(AtomOf(d, t)) && AtomOf(d, t).kind == Screen(t)
  {
  }

  lemma WrittenIsWritable(d: Draft)
    ensures Writable(ToCompletionCondition(d))
  {
    hide AtomOf, WritableAtom, Rank, Chosen;
    ChosenAscends(d.conds, 0);
    assert COND_ORDER[0..] == COND_ORDER;
    var ts := Chosen(d.conds, COND_ORDER);
    forall i | 0 <= i < |ts| ensures WritableAtom(AtomOf(d, ts[i])) && AtomOf(d, ts[i]).kind == Screen(ts[i]) {
      AtomIsWritable(d, ts[i]);
    }
  }

  /** The agent that the first atom of a type names. */
  function AgentFor(cs: seq<Condition>, t: CondType): (r: string)
    decreases |cs|
  {
    if cs == [] then ""
    else if cs[0].Leaf? && cs[0].atom.kind == Screen(t) then cs[0].atom.agentId.GetOr("")
    else AgentFor(cs[1..], t)
  }

  lemma {:induction false} AgentForIs(cs: seq<Condition>, t: CondType, i: nat)
    requires i < |cs| && cs[i].Leaf? && cs[i].atom.kind == Screen(t)
    requires forall j :: 0 <= j < i && cs[j].Leaf? ==> cs[j].atom.kind != Screen(t)
    ensures AgentFor(cs, t) == cs[i].atom.agentId.GetOr("")
    decreases i
  {
    if i > 0 {
      forall j | 0 <= j < i - 1 && cs[1..][j].Leaf? ensures cs[1..][j].atom.kind != Screen(t) {
        assert cs[1..][j] == cs[j + 1];
      }
      AgentForIs(cs[1..], t, i - 1);
    }
  }

  function Types(cs: seq<Condition>): (r: seq<CondType>)
    requires forall c :: c in cs ==> c.Leaf? && c.atom.kind.Screen?
    ensures |r| == |cs| && forall i :: 0 <= i < |cs| ==> r[i] == cs[i].atom.kind.t
  {
    seq(|cs|, i requires 0 <= i < |cs| => assert cs[i] in cs; cs[i].atom.kind.t)
  }

  lemma WritableIsWritten(cc: Condition) returns (d: Draft)
    requires Writable(cc)
    ensures ToCompletionCondition(d) == cc
  {
    var cs := cc.conditions;
    var ts := Types(cs);
    d := Draft(cc.op, ts, AgentFor(cs, ArtifactSubmitted), AgentFor(cs, AgentApproval));
    ChosenOfAscending(ts, 0);
    assert COND_ORDER[0..] == COND_ORDER;
    forall i | 0 <= i < |cs| ensures cs[i] == Leaf(AtomOf(d, ts[i])) {
      assert cs[i] in cs;
      AgentForIs(cs, ts[i], i);
    }
    assert Leaves(d, ts) == cs;
  }

  /** Editing a stored condition and saving it unchanged keeps it exactly when it has the shape that the screen makes. */
  lemma SavingKeepsIff(cc: Condition)
    ensures ToCompletionCondition(Read(Some(cc)).0) == cc <==> Writable(cc)
  {
    hide Read, ToCompletionCondition, Normal, Writable;
    WrittenIsWritable(Read(Some(cc)).0);
    if Writable(cc) {
      var d := WritableIsWritten(cc);
      DraftRoundTrip(d);
      WritingNormalizes(d);
    }
  }

  // ---- gates ----

  predicate HasHumanGate(d: Draft) {
    UserApproval in d.conds || Manual in d.conds
  }

  datatype Gate = Ok | NeedOne | ReviewerRequired | ReviewerNotParticipant

  function ConditionGate(d: Draft, participants: seq<string>): Gate {
    if |d.conds| == 0 then NeedOne
    else if AgentApproval in d.conds && d.reviewer == "" then ReviewerRequired
    else if AgentApproval in d.conds && d.reviewer !in participants then ReviewerNotParticipant
    else Ok
  }

  lemma NormalKeepsTheGates(d: Draft, participants: seq<string>)
    ensures ConditionGate(Normal(d), participants) == ConditionGate(d, participants)
    ensures HasHumanGate(Normal(d)) == HasHumanGate(d)
  {
    NormalChoosesTheSame(d);
    assert d.conds != [] ==> d.conds[0] in Normal(d).conds;
    assert Normal(d).conds != [] ==> Normal(d).conds[0] in d.conds;
  }

  /** The contract: at least one item, a reviewer among the participants, a submitter by agent or by role but not both. */
  ghost predicate ContractAllows(cc: Condition, participants: seq<string>) {
    && Items(cc) != []
    && forall c :: c in Items(cc) && c.Leaf? ==>
         && (c.atom.kind == Screen(AgentApproval) ==> c.atom.agentId.Some? && c.atom.agentId.value in participants)
         && (c.atom.kind == Screen(ArtifactSubmitted) ==> c.atom.agentId.Some? != c.atom.who.Some?)
  }

  lemma WrittenItems(d: Draft, c: Condition)
    ensures c in Items(ToCompletionCondition(d)) <==> exists t :: t in d.conds && c == Leaf(AtomOf(d, t))
  {
    hide AtomOf;
    var ts := Chosen(d.conds, COND_ORDER);
    var cs := Leaves(d, ts);
    if c in cs {
      var i :| 0 <= i < |cs| && cs[i] == c;
      assert ts[i] in ts;
    }
    if t :| t in d.conds && c == Leaf(AtomOf(d, t)) {
      AllTypesAreOrdered(t);
      var i :| 0 <= i < |ts| && ts[i] == t;
      assert cs[i] == c;
    }
  }

  /** The gate lets a draft through exactly when the contract accepts what it writes. */
  lemma GateIsTheContract(d: Draft, participants: seq<string>)
    ensures ConditionGate(d, participants) == Ok <==> ContractAllows(ToCompletionCondition(d), participants)
  {
    hide ToCompletionCondition, Items;
    var cs := Items(ToCompletionCondition(d));
    forall c ensures c in cs <==> exists t :: t in d.conds && c == Leaf(AtomOf(d, t)) { WrittenItems(d, c); }
    assert d.conds != [] ==> Leaf(AtomOf(d, d.conds[0])) in cs;
    assert AgentApproval in d.conds ==> Leaf(AtomOf(d, AgentApproval)) in cs;
    assert cs != [] ==> cs[0] in cs;
  }

  /**
   * Why a draft may not be saved, read off what it writes: nothing at all; an approval without a reviewer; an approval
   * by somebody who does not take part. And whether a person has to confirm.
   */
  lemma GateReasons(d: Draft, participants: seq<string>)
    ensures var cs, gate := Items(ToCompletionCondition(d)), ConditionGate(d, participants);
            && (gate == NeedOne <==> cs == [])
            && (gate == ReviewerRequired <==>
                  exists c :: c in cs && c.Leaf? && c.atom.kind == Screen(AgentApproval) && c.atom.agentId.None?)
            && (gate == ReviewerNotParticipant <==>
                  exists c :: c in cs && c.Leaf? && c.atom.kind == Screen(AgentApproval)
                           && c.atom.agentId.Some? && c.atom.agentId.value !in participants)
            && (HasHumanGate(d) <==>
                  exists c :: c in cs && c.Leaf? && (c.atom.kind == Screen(UserApproval) || c.atom.kind == Screen(Manual)))
  {
    hide ToCompletionCondition, Items;
    var cs := Items(ToCompletionCondition(d));
    forall c ensures c in cs <==> exists t :: t in d.conds && c == Leaf(AtomOf(d, t)) { WrittenItems(d, c); }
    assert d.conds != [] ==> Leaf(AtomOf(d, d.conds[0])) in cs;
    assert cs != [] ==> cs[0] in cs;
    assert AgentApproval in d.conds ==> Leaf(AtomOf(d, AgentApproval)) in cs;
    assert UserApproval in d.conds ==> Leaf(AtomOf(d, UserApproval)) in cs;
    assert Manual in d.conds ==> Leaf(AtomOf(d, Manual)) in cs;
  }

  // ---- what reading finds ----

  /** The last item of the type that names an agent. */
  ghost predicate NamesLast(cs: seq<Condition>, t: CondType, k: int) {
    && 0 <= k < |cs| && Names(cs[k], t)
    && forall j :: k < j < |cs| ==> !Names(cs[j], t)
  }

  predicate Names(c: Condition, t: CondType) {
    c.Leaf? && c.atom.kind == Screen(t) && c.atom.agentId.Some? && c.atom.agentId.value != ""
  }

  ghost predicate AgentIs(cs: seq<Condition>, t: CondType, agent: string) {
    if exists k :: 0 <= k < |cs| && Names(cs[k], t) then exists k :: NamesLast(cs, t, k) && agent == cs[k].atom.agentId.value
    else agent == ""
  }

  lemma AgentStep(cs: seq<Condition>, c: Condition, t: CondType, agent: string)
    requires AgentIs(cs, t, agent)
    ensures AgentIs(cs + [c], t, if Names(c, t) then c.atom.agentId.value else agent)
  {
    var all := cs + [c];
    if Names(c, t) {
      assert NamesLast(all, t, |cs|);
    } else if k :| NamesLast(cs, t, k) && agent == cs[k].atom.agentId.value {
      assert NamesLast(all, t, k) && all[k] == cs[k];
    } else {
      forall k | 0 <= k < |all| ensures !Names(all[k], t) { assert k < |cs| ==> all[k] == cs[k]; }
    }
  }

  /**
   * What reading a group finds: the types of its atoms, each once; for submitter and reviewer the agent of the last atom
   * that names one; and as many dropped items as are no atoms of the screen. A single atom is read as a group of one,
   * and without a condition the draft is empty.
   */
  lemma {:induction false} ReadFinds(op: Op, cs: seq<Condition>)
    ensures var (d, dropped) := Read(Some(Group(op, cs)));
            && d.op == op
            && (forall t :: t in d.conds <==> exists k :: 0 <= k < |cs| && cs[k].Leaf? && cs[k].atom.kind == Screen(t))
            && (forall i, j :: 0 <= i < j < |d.conds| ==> d.conds[i] != d.conds[j])
            && AgentIs(cs, ArtifactSubmitted, d.submitter) && AgentIs(cs, AgentApproval, d.reviewer)
            && dropped == |set k: nat | k < |cs| && !(cs[k].Leaf? && cs[k].atom.kind.Screen?)|
    ensures |cs| == 1 && cs[0].Leaf? && op == And ==> Read(Some(cs[0])) == Read(Some(Group(op, cs)))
    ensures Read(None) == (Draft(And, [], "", ""), 0)
    decreases |cs|
  {
    hide AgentIs, Names;
    if cs == [] {
      ReadNothing();
    } else {
      var n: nat := |cs| - 1;
      var front, c := cs[..n], cs[n];
      ReadFinds(op, front);
      assert cs == front + [c];
      var d := Read(Some(Group(op, front))).0;
      AgentStep(front, c, ArtifactSubmitted, d.submitter);
      AgentStep(front, c, AgentApproval, d.reviewer);
      ReadStep(d, c);
      DroppedStep(cs, n);
      TypesStep(front, c);
    }
  }

  lemma ReadNothing()
    ensures AgentIs([], ArtifactSubmitted, "") && AgentIs([], AgentApproval, "")
  {
  }

  lemma TypesStep(front: seq<Condition>, c: Condition)
    ensures var cs := front + [c];
            forall t :: (exists k :: 0 <= k < |cs| && cs[k].Leaf? && cs[k].atom.kind == Screen(t)) <==>
              (exists k :: 0 <= k < |front| && front[k].Leaf? && front[k].atom.kind == Screen(t))
              || (c.Leaf? && c.atom.kind == Screen(t))
  {
    var cs := front + [c];
    forall t | exists k :: 0 <= k < |front| && front[k].Leaf? && front[k].atom.kind == Screen(t)
      ensures exists k :: 0 <= k < |cs| && cs[k].Leaf? && cs[k].atom.kind == Screen(t)
    {
      var k :| 0 <= k < |front| && front[k].Leaf? && front[k].atom.kind == Screen(t);
      assert cs[k] == front[k];
    }
    assert cs[|front|] == c;
  }

  lemma ReadStep(d: Draft, c: Condition)
    ensures var r := if c.Leaf? then ReadAtom(d, c.atom) else d;
            && r.op == d.op
            && r.submitter == (if Names(c, ArtifactSubmitted) then c.atom.agentId.value else d.submitter)
            && r.reviewer == (if Names(c, AgentApproval) then c.atom.agentId.value else d.reviewer)
            && (forall t :: t in r.conds <==> t in d.conds || (c.Leaf? && c.atom.kind == Screen(t)))
  {
  }

  lemma DroppedStep(cs: seq<Condition>, n: nat)
    requires n < |cs|
    ensures var all, front := set k: nat | k < n + 1 && !(cs[k].Leaf? && cs[k].atom.kind.Screen?),
                              set k: nat | k < |cs[..n]| && !(cs[..n][k].Leaf? && cs[..n][k].atom.kind.Screen?);
            |all| == |front| + if cs[n].Leaf? && cs[n].atom.kind.Screen? then 0 else 1
  {
    var all := set k: nat | k < n + 1 && !(cs[k].Leaf? && cs[k].atom.kind.Screen?);
    var front := set k: nat | k < |cs[..n]| && !(cs[..n][k].Leaf? && cs[..n][k].atom.kind.Screen?);
    assert all == if cs[n].Leaf? && cs[n].atom.kind.Screen? then front else front + {n};
  }
}
