/** What an undisturbed request to the resolver answers and leaves in the store, said of the store's own rows. */
module OneShotLaws {
  import opened Statuses
  import opened Authority
  import opened Governance
  import opened Resolver
  import opened ResolverLaws
  import opened OneShot

  /** The policy of the first pass: the store's exceptions and overrides, and nothing allowed once. */
  predicate Reads(p: Policy, g: Gov, request: Request, ceiling: Category) {
    p.ceiling == ceiling && p.requested == request.requested && p.once == {} && p.exceptions == g.exceptions && p.overrides == g.overrides
  }

  lemma PolicyReads(p: Policy, g: Gov, request: Request, ceiling: Category)
    ensures Reads(p, g, request, ceiling) <==> p == PolicyAt(g, request, ceiling)
  {}

  /** The requested candidate is over the ceiling and not excepted, and there is no stop. */
  predicate Needs(g: Gov, request: Request, p: Policy, i: nat) {
    !g.stop && IsRequested(request.all, p, i) && Over(request.all[i], p) && request.all[i].id !in g.exceptions
  }

  /** An unconsumed allowance of this very intent and tool. */
  predicate Stands(g: Gov, row: IntentId, toolId: string) {
    row in g.once && g.once[row].toolId == toolId && !g.once[row].consumed
  }

  lemma AsksExactly(g: Gov, request: Request, p: Policy, i: nat, ceiling: Category)
    requires Reads(p, g, request, ceiling) && IsRequested(request.all, p, i)
    ensures Resolve(request.all, p, g.stop).approval.Some? <==> Needs(g, request, p, i)
    ensures Needs(g, request, p, i) ==> Resolve(request.all, p, g.stop).approval.value.id == request.all[i].id
  {
    RequestedChoice(request.all, p, i);
    StoppedChoice(request.all, p);
    hide Resolve, Over, Marked;
  }

  lemma SameRequest(all: seq<Candidate>, p: Policy, q: Policy, i: nat)
    requires q == p.(once := q.once) && IsRequested(all, p, i)
    ensures IsRequested(all, q, i)
  {}

  lemma CapabilityFound(all: seq<Candidate>, p: Policy, i: nat)
    requires IsRequested(all, p, i)
    ensures CapabilityIn(all, all[i].id) == all[i].capability
  {
    var k := NamedFirst(all, Some(all[i].id));
    assert k == i;
    hide Named;
  }

  lemma NotingExactly(g: Gov, request: Request, p: Policy, i: nat, ceiling: Category)
    requires IsRequested(request.all, p, i)
    ensures var c := request.all[i];
      StepOf(g, Resolving(request, Noting(p, c.id)), ceiling)
      == Stepped(g.(intents := g.intents[IntentId(request.intent, c.id) := IntentApproval(c.id, c.capability, PendingApproval)]),
                 Resolving(request, Answered(p, None)))
  {
    CapabilityFound(request.all, p, i);
    hide CapabilityIn, IsRequested;
  }

  lemma SecondPass(all: seq<Candidate>, p: Policy, i: nat)
    requires IsRequested(all, p, i)
    ensures Resolve(all, p.(once := {all[i].id}), false).selected == Some(Marked(all)[i])
    ensures Marked(all)[i].id == all[i].id
  {
    SameRequest(all, p, p.(once := {all[i].id}), i);
    RequestedChoice(all, p.(once := {all[i].id}), i);
    MarkedExactly(all, i);
    hide Resolve, Marked, Over, IsRequested;
  }

  lemma TakingExactly(g: Gov, request: Request, p: Policy, i: nat, ceiling: Category)
    requires IsRequested(request.all, p, i) && Stands(g, IntentId(request.intent, request.all[i].id), request.all[i].id)
    ensures var c := request.all[i];
      var row := IntentId(request.intent, c.id);
      StepOf(g, Resolving(request, Taking(p, c.id)), ceiling)
      == Stepped(g.(once := g.once[row := g.once[row].(consumed := true)]), Resolving(request, Answered(p, Some(Marked(request.all)[i]))))
  {
    SecondPass(request.all, p, i);
    hide Resolve, Marked, IsRequested;
  }

  /**
   Over the ceiling: with a standing allowance of this intent and tool, the requested candidate is selected and
   that allowance, alone, is consumed; without one nothing is selected and the request is pending under the
   candidate's capability, whatever became of it before.
   */
  lemma OverCeilingExactly(g: Gov, request: Request, p: Policy, i: nat, ceiling: Category)
    requires Reads(p, g, request, ceiling) && Needs(g, request, p, i)
    ensures var out, c := Alone(g, request, ceiling), request.all[i];
      var row := IntentId(request.intent, c.id);
      if Stands(g, row, c.id) then
        && out.gov == g.(once := g.once[row := g.once[row].(consumed := true)])
        && out.call == Resolving(request, Answered(p, Some(Marked(request.all)[i])))
      else
        && out.gov == g.(intents := g.intents[row := IntentApproval(c.id, c.capability, PendingApproval)])
        && out.call == Resolving(request, Answered(p, None))
  {
    hide Resolve, Marked, Alone, CapabilityIn, Over, PolicyAt, StepOf, ConsumeOnce, RecordIntent;
    PolicyReads(p, g, request, ceiling);
    AsksExactly(g, request, p, i, ceiling);
    AskedFor(g, request, ceiling);
    if Stands(g, IntentId(request.intent, request.all[i].id), request.all[i].id) {
      TakingExactly(g, request, p, i, ceiling);
    } else {
      NotingExactly(g, request, p, i, ceiling);
    }
  }

  /**
   Otherwise the store is left alone, and the request is answered at once: nothing under a stop, the requested
   candidate when it is excepted, and the best of those shown in every other case.
   */
  lemma OtherwiseExactly(g: Gov, request: Request, p: Policy, ceiling: Category)
    requires Reads(p, g, request, ceiling) && forall i: nat :: !Needs(g, request, p, i)
    ensures var out, r := Alone(g, request, ceiling), Resolve(request.all, p, false);
      && out.gov == g && out.call.request == request && out.call.stage.Answered? && out.call.stage.policy == p
      && var selected := out.call.stage.selected;
         && (g.stop ==> selected.None?)
         && (!g.stop ==>
              && (forall i: nat :: IsRequested(request.all, p, i) && request.all[i].id in g.exceptions ==>
                    selected == Some(Marked(request.all)[i]))
              && ((forall i: nat :: IsRequested(request.all, p, i) ==> request.all[i].id !in g.exceptions) ==>
                    && (selected.None? <==> r.visible == [])
                    && (selected.Some? ==> selected.value in r.visible && forall o :: o in r.visible ==> AtLeast(selected.value, o))))
  {
    hide Resolve, Marked, Alone, Over, AtLeast;
    PolicyReads(p, g, request, ceiling);
    StoppedChoice(request.all, p);
    var k := NamedFirst(request.all, p.requested);
    if Named(request.all, p.requested).Some? {
      assert IsRequested(request.all, p, k);
      AsksExactly(g, request, p, k, ceiling);
      RequestedChoice(request.all, p, k);
      forall i: nat | IsRequested(request.all, p, i) ensures i == k {}
    } else {
      assert forall c :: c in request.all ==> Some(c.id) != p.requested;
      assert forall i :: 0 <= i < |request.all| ==> request.all[i] in request.all;
      UnrequestedChoice(request.all, p);
    }
    AnsweredAtOnce(g, request, ceiling);
  }

  // ----- approvals -----------------------------------------------------------------------

  /** An allowance is given exactly for a pending request of its own tool, and stands from then on. */
  lemma AllowanceExactly(g: Gov, row: IntentId, toolId: string)
    ensures var r := GrantIntent(g, row, toolId);
      && (r.Some? <==> row in g.intents && g.intents[row].toolId == toolId && g.intents[row].status == PendingApproval)
      && (r.Some? ==>
            && Stands(r.value, row, toolId)
            && r.value == g.(once := g.once[row := Once(toolId, false)],
                             intents := g.intents[row := IntentApproval(toolId, g.intents[row].capability, ApprovedOnce)]))
  {}

  /** An exception decides the pending requests of its tool, an override those of its capability, and no others. */
  lemma DecidedExactly(g: Gov, toolId: string, capability: string, category: Category, row: IntentId)
    requires row in g.intents
    ensures var excepted, overruled := AddException(g, toolId).intents, SetOverride(g, capability, category).intents;
      var was := g.intents[row];
      && row in excepted && row in overruled
      && (was.status == PendingApproval && was.toolId == toolId ==> excepted[row] == was.(status := ByException))
      && (!(was.status == PendingApproval && was.toolId == toolId) ==> excepted[row] == was)
      && (was.status == PendingApproval && was.capability == capability ==> overruled[row] == was.(status := ByOverride))
      && (!(was.status == PendingApproval && was.capability == capability) ==> overruled[row] == was)
  {}
}
