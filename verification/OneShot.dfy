/**
 `resolve_intent` run by many threads: the two passes of the resolver and the one-shot allowance an
 administrator may give in between.
 */
module OneShot {
  import opened Statuses
  import opened Authority
  import opened Governance
  import opened Resolver

  /** What a request brings: its intent, the tool it asks for, and the ranked candidates. */
  datatype Request = Request(intent: string, requested: Option<string>, all: seq<Candidate>)

  datatype Stage =
    | Fresh
    | Asked(policy: Policy, toolId: string)
    | Noting(policy: Policy, toolId: string)
    | Taking(policy: Policy, toolId: string)
    | Answered(policy: Policy, selected: Option<Candidate>)

  datatype Resolving = Resolving(request: Request, stage: Stage)

  function PolicyAt(g: Gov, request: Request, ceiling: Category): Policy {
    Policy(ceiling, request.requested, {}, g.exceptions, g.overrides)
  }

  function IdFor(request: Request, toolId: string): IntentId { IntentId(request.intent, toolId) }

  function CapabilityIn(all: seq<Candidate>, toolId: string): string {
    var c := Named(all, Some(toolId));
    if c.Some? then c.value.capability else ""
  }

  datatype Stepped = Stepped(gov: Gov, call: Resolving)

  /** A call's next access to the store, with the resolver run in between. */
  function StepOf(g: Gov, call: Resolving, ceiling: Category): Stepped {
    var request := call.request;
    match call.stage
    case Fresh =>
      var p := PolicyAt(g, request, ceiling);
      var r := Resolve(request.all, p, g.stop);
      Stepped(g, call.(stage := if r.approval.Some? then Asked(p, r.approval.value.id) else Answered(p, r.selected)))
    case Asked(p, toolId) =>
      Stepped(g, call.(stage := if HasOnce(g, IdFor(request, toolId), toolId) then Taking(p, toolId) else Noting(p, toolId)))
    case Noting(p, toolId) =>
      Stepped(RecordIntent(g, IdFor(request, toolId), CapabilityIn(request.all, toolId)), call.(stage := Answered(p, None)))
    case Taking(p, toolId) =>
      var again := Resolve(request.all, p.(once := {toolId}), false);
      if again.selected.None? || again.selected.value.id != toolId then Stepped(g, call.(stage := Answered(p, again.selected)))
      else
        var taken := ConsumeOnce(g, IdFor(request, toolId), toolId);
        if taken.None? then Stepped(g, call.(stage := Answered(p, None)))
        else Stepped(taken.value, call.(stage := Answered(p, again.selected)))
    case Answered(_, _) => Stepped(g, call)
  }

  // ----- one call on its own -------------------------------------------------------------

  /** The three steps of a call in a row. */
  function Alone(g: Gov, request: Request, ceiling: Category): Stepped {
    var one := StepOf(g, Resolving(request, Fresh), ceiling);
    var two := StepOf(one.gov, one.call, ceiling);
    StepOf(two.gov, two.call, ceiling)
  }

  lemma AnsweredAtOnce(g: Gov, request: Request, ceiling: Category)
    requires Resolve(request.all, PolicyAt(g, request, ceiling), g.stop).approval.None?
    ensures var p := PolicyAt(g, request, ceiling);
      Alone(g, request, ceiling) == Stepped(g, Resolving(request, Answered(p, Resolve(request.all, p, g.stop).selected)))
  {
    hide Resolve, PolicyAt;
  }

  lemma AskedFor(g: Gov, request: Request, ceiling: Category)
    requires Resolve(request.all, PolicyAt(g, request, ceiling), g.stop).approval.Some?
    ensures var p := PolicyAt(g, request, ceiling);
      var toolId := Resolve(request.all, p, g.stop).approval.value.id;
      Alone(g, request, ceiling)
      == StepOf(g, Resolving(request, if HasOnce(g, IdFor(request, toolId), toolId) then Taking(p, toolId) else Noting(p, toolId)), ceiling)
  {
    var p := PolicyAt(g, request, ceiling);
    var toolId := Resolve(request.all, p, g.stop).approval.value.id;
    assert StepOf(g, Resolving(request, Fresh), ceiling) == Stepped(g, Resolving(request, Asked(p, toolId)));
    hide Resolve, PolicyAt, HasOnce, ConsumeOnce, RecordIntent;
  }

  /** `resolve_intent`, undisturbed, is its steps in a row. */
  method ResolveIntent(store: GovernanceStore, request: Request, ceiling: Category) returns (stage: Stage)
    modifies store
    ensures stage.Answered?
    ensures Alone(old(store.State()), request, ceiling) == Stepped(store.State(), Resolving(request, stage))
  {
    var p := PolicyAt(store.State(), request, ceiling);
    var r := ResolveLoop(request.all, p, store.stop);
    hide Resolve, PolicyAt, CapabilityIn, Alone, RecordIntent;
    if r.approval.None? {
      AnsweredAtOnce(store.State(), request, ceiling);
      return Answered(p, r.selected);
    }
    AskedFor(store.State(), request, ceiling);
    var toolId := r.approval.value.id;
    var id := IdFor(request, toolId);
    if !HasOnce(store.State(), id, toolId) {
      store.RecordPendingApproval(id, CapabilityIn(request.all, toolId));
      return Answered(p, None);
    }
    var again := ResolveLoop(request.all, p.(once := {toolId}), false);
    stage := Answered(p, again.selected);
    if again.selected.Some? && again.selected.value.id == toolId {
      hide HasOnce;
      var taken := store.ConsumeOnceFor(id, toolId);
      hide ConsumeOnce;
      if !taken { stage := Answered(p, None); }
    }
  }

  // ----- many calls ----------------------------------------------------------------------

  /** Every approval given so far is in `granted`. */
  datatype System = System(gov: Gov, calls: seq<Resolving>, granted: multiset<IntentId>)

  datatype Act =
    | Arrive(request: Request)
    | Proceed(c: nat)
    | Allow(id: IntentId, toolId: string)
    | Stop(enabled: bool)
    | Except(toolId: string) | Unexcept(toolId: string)
    | Overrule(capability: string, to: Category) | Unoverrule(capability: string)

  function Do(s: System, act: Act, ceiling: Category): System {
    match act
    case Arrive(request) => s.(calls := s.calls + [Resolving(request, Fresh)])
    case Proceed(c) =>
      if c >= |s.calls| then s else
      var next := StepOf(s.gov, s.calls[c], ceiling);
      s.(gov := next.gov, calls := s.calls[c := next.call])
    case Allow(id, toolId) =>
      var r := GrantIntent(s.gov, id, toolId);
      if r.None? then s else s.(gov := r.value, granted := s.granted + multiset{id})
    case Stop(enabled) => s.(gov := SetStop(s.gov, enabled))
    case Except(toolId) => s.(gov := AddException(s.gov, toolId))
    case Unexcept(toolId) => s.(gov := RemoveException(s.gov, toolId))
    case Overrule(capability, category) => s.(gov := SetOverride(s.gov, capability, category))
    case Unoverrule(capability) => s.(gov := RemoveOverride(s.gov, capability))
  }

  function Run(acts: seq<Act>, ceiling: Category): System {
    if acts == [] then System(FRESH, [], multiset{}) else Do(Run(acts[..|acts| - 1], ceiling), acts[|acts| - 1], ceiling)
  }

  /** The call selected a tool its policy put over the ceiling and no exception covered. */
  predicate OverCeiling(call: Resolving, id: IntentId) {
    && call.stage.Answered? && call.stage.selected.Some?
    && var c := call.stage.selected.value;
       id == IdFor(call.request, c.id) && !WithinCeiling(c, call.stage.policy) && c.id !in call.stage.policy.exceptions
  }

  function Selections(calls: seq<Resolving>, id: IntentId): nat {
    if calls == [] then 0 else
    Selections(calls[..|calls| - 1], id) + if OverCeiling(calls[|calls| - 1], id) then 1 else 0
  }

  lemma {:induction false} SelectionsAfter(calls: seq<Resolving>, c: nat, next: Resolving, id: IntentId)
    requires c < |calls|
    ensures Selections(calls[c := next], id)
      == Selections(calls, id) + (if OverCeiling(next, id) then 1 else 0) - if OverCeiling(calls[c], id) then 1 else 0
  {
    var n := |calls| - 1;
    hide OverCeiling;
    if c == n {
      assert calls[c := next][..n] == calls[..n];
    } else {
      SelectionsAfter(calls[..n], c, next, id);
      assert calls[c := next][..n] == calls[..n][c := next];
    }
  }

  lemma OneMoreCall(calls: seq<Resolving>, request: Request, id: IntentId)
    ensures Selections(calls + [Resolving(request, Fresh)], id) == Selections(calls, id)
  {
    assert (calls + [Resolving(request, Fresh)])[..|calls|] == calls;
  }

  /** An allowance row that still stands. */
  predicate Unused(g: Gov, id: IntentId) { id in g.once && !g.once[id].consumed }

  ghost predicate Accounted(s: System, id: IntentId) {
    Selections(s.calls, id) + (if Unused(s.gov, id) then 1 else 0) <= s.granted[id]
  }

  /** What a waiting call remembers is what its first pass asked for. */
  predicate Remembers(call: Resolving) {
    match call.stage
    case Asked(p, toolId) => AsksFor(call.request, p, toolId)
    case Noting(p, toolId) => AsksFor(call.request, p, toolId)
    case Taking(p, toolId) => AsksFor(call.request, p, toolId)
    case _ => true
  }

  predicate AsksFor(request: Request, p: Policy, toolId: string) {
    var r := Resolve(request.all, p, false);
    r.approval.Some? && r.approval.value.id == toolId
  }

  lemma StepRemembers(g: Gov, call: Resolving, ceiling: Category)
    requires Remembers(call)
    ensures Remembers(StepOf(g, call, ceiling).call)
  {
    if g.stop { StopAsksNothing(call.request.all, PolicyAt(g, call.request, ceiling)); }
    hide Resolve, HasOnce;
  }

  lemma StopAsksNothing(all: seq<Candidate>, p: Policy)
    ensures Resolve(all, p, true).approval.None? && Resolve(all, p, true).selected.None?
  {}

  /** The second pass cannot miss: with the allowance found, it selects the requested tool and consumption is tried. */
  lemma TakingConsumes(g: Gov, call: Resolving, ceiling: Category)
    requires call.stage.Taking? && Remembers(call)
    ensures var next := StepOf(g, call, ceiling);
      var id := IdFor(call.request, call.stage.toolId);
      if HasOnce(g, id, call.stage.toolId) then
        next.gov == g.(once := g.once[id := g.once[id].(consumed := true)])
        && next.call.stage.Answered? && next.call.stage.selected.Some? && next.call.stage.selected.value.id == call.stage.toolId
      else next.gov == g && next.call.stage == Answered(call.stage.policy, None)
  {
    SecondPassSelectsRequested(call.request.all, call.stage.policy);
    hide Resolve;
  }

  lemma FreshNeverOver(g: Gov, call: Resolving, ceiling: Category, id: IntentId)
    requires call.stage.Fresh?
    ensures !OverCeiling(StepOf(g, call, ceiling).call, id) && StepOf(g, call, ceiling).gov == g
  {
    SelectedIsAllowed(call.request.all, PolicyAt(g, call.request, ceiling), g.stop);
    hide Resolve;
  }

  lemma TakingAccounts(g: Gov, call: Resolving, ceiling: Category, id: IntentId)
    requires Remembers(call) && call.stage.Taking?
    ensures var next := StepOf(g, call, ceiling);
      (if OverCeiling(next.call, id) then 1 else 0) <= (if Unused(g, id) then 1 else 0) - (if Unused(next.gov, id) then 1 else 0)
  {
    TakingConsumes(g, call, ceiling);
    assert StepOf(g, call, ceiling).call.request == call.request;
    hide StepOf, Remembers, WithinCeiling;
  }

  lemma OthersAccount(g: Gov, call: Resolving, ceiling: Category, id: IntentId)
    requires !call.stage.Fresh? && !call.stage.Taking?
    ensures var next := StepOf(g, call, ceiling);
      (OverCeiling(next.call, id) ==> OverCeiling(call, id)) && (Unused(next.gov, id) <==> Unused(g, id))
  {
    hide Resolve, WithinCeiling, CapabilityIn, HasOnce;
  }

  lemma AnsweredStays(g: Gov, call: Resolving, ceiling: Category)
    requires call.stage.Answered?
    ensures StepOf(g, call, ceiling) == Stepped(g, call)
  {}

  /** No step gains a selection without using an allowance up. */
  lemma StepAccounts(g: Gov, call: Resolving, ceiling: Category, id: IntentId)
    requires Remembers(call)
    ensures var next := StepOf(g, call, ceiling);
      (if OverCeiling(next.call, id) then 1 else 0) - (if OverCeiling(call, id) then 1 else 0)
      <= (if Unused(g, id) then 1 else 0) - (if Unused(next.gov, id) then 1 else 0)
  {
    hide StepOf, WithinCeiling, Remembers, Unused;
    if call.stage.Fresh? { FreshNeverOver(g, call, ceiling, id); }
    else if call.stage.Taking? { TakingAccounts(g, call, ceiling, id); }
    else if call.stage.Answered? { AnsweredStays(g, call, ceiling); }
    else { OthersAccount(g, call, ceiling, id); }
  }

  ghost predicate AllRemember(calls: seq<Resolving>) { forall c :: 0 <= c < |calls| ==> Remembers(calls[c]) }

  lemma DoAccounts(s: System, act: Act, ceiling: Category, id: IntentId)
    requires AllRemember(s.calls) && Accounted(s, id)
    ensures AllRemember(Do(s, act, ceiling).calls) && Accounted(Do(s, act, ceiling), id)
  {
    hide Selections, OverCeiling, Remembers;
    match act
    case Proceed(c) =>
      if c < |s.calls| {
        StepAccounts(s.gov, s.calls[c], ceiling, id);
        StepRemembers(s.gov, s.calls[c], ceiling);
        SelectionsAfter(s.calls, c, StepOf(s.gov, s.calls[c], ceiling).call, id);
        hide StepOf, Unused;
      }
    case Arrive(request) =>
      OneMoreCall(s.calls, request, id);
      FreshRemembers(request);
    case _ =>
  }

  lemma FreshRemembers(request: Request)
    ensures Remembers(Resolving(request, Fresh))
  {}

  /**
   One-shot accounting over every interleaving: for each request id, the selections of an over-ceiling
   tool that no exception covers, plus the allowance still standing, are at most the approvals given,
   even though approving again overwrites the row.
   */
  lemma {:induction false} OneShotAccounting(acts: seq<Act>, ceiling: Category, id: IntentId)
    ensures AllRemember(Run(acts, ceiling).calls) && Accounted(Run(acts, ceiling), id)
  {
    if acts != [] {
      OneShotAccounting(acts[..|acts| - 1], ceiling, id);
      DoAccounts(Run(acts[..|acts| - 1], ceiling), acts[|acts| - 1], ceiling, id);
      hide Do, AllRemember, Accounted;
    }
  }
}
