/** Which labels a finished or failed role leaves behind, and so who may go next. */
module RoutingLaws {
  import opened Statuses
  import opened Database
  import opened Reconciler
  import opened Ticks
  import opened LabelRouting

  /** Some label or assignee of the item is the role's, and none of its labels is terminal. */
  lemma MatchesExactly(item: WorkItem, config: Config)
    ensures MatchesRole(item, config) <==>
      && (forall l :: l in item.labels ==> l !in config.terminalLabels)
      && ((exists l :: l in item.labels && l in config.roleLabels) || (exists a :: a in item.assignees && a in config.roleAssignees))
  {
    if l :| l in item.labels && l in config.roleLabels { assert l in item.labels * config.roleLabels; }
    if a :| a in item.assignees && a in config.roleAssignees { assert a in item.assignees * config.roleAssignees; }
    if l :| l in item.labels && l in config.terminalLabels { assert l in item.labels * config.terminalLabels; }
  }

  // ----- who goes next -------------------------------------------------------------------

  /** A planner's plan goes to a builder, a builder's change to a reviewer, and that on to release or back. */
  predicate GoesTo(from: Role, status: FinalStatus, to: Role) {
    || (from == Planner && status == ReadyForBuild && to == Builder)
    || (from == Builder && status == PrReadyForReview && to == Reviewer)
    || (from == Reviewer && status == Approve && to == Release)
    || (from == Reviewer && status == RequestChanges && to == Builder)
  }

  /** The two labels that call a role. */
  predicate Calls(l: Label, role: Role) {
    match role
    case Planner => l == HermesPlanner || l == StateReadyForPlanning
    case Builder => l == HermesBuilder || l == StateReadyForBuild
    case Reviewer => l == HermesReviewer || l == StateReviewNeeded
    case Release => l == HermesRelease || l == StateReadyForRelease
    case _ => false
  }

  lemma LabelsCall(role: Role)
    requires role in FOUR
    ensures forall l :: l in DefaultRoleLabels(role) <==> Calls(l, role)
  {}

  /** The row of a finished role names the role that goes next, if one does. */
  lemma NextRoleExactly(role: Role, status: FinalStatus, to: Role)
    ensures ResolveTransition(role, status).Some? && ResolveTransition(role, status).value.nextRole == Some(to)
            <==> GoesTo(role, status, to)
  {}

  /** A status is refused a row exactly when it neither hands on nor ends the work. */
  lemma NoRowExactly(role: Role, status: FinalStatus)
    requires status in RoleFinalStatuses(role)
    ensures ResolveTransition(role, status).None? <==>
      role == ProjectManager && status in {CharterReady, RoadmapReady, ReadyForIteration, InProgress, Review, ReplanRequired}
  {}

  /** The labels an applied completion adds. */
  predicate Adds(role: Role, status: FinalStatus, l: Label) {
    || (exists to :: GoesTo(role, status, to) && Calls(l, to))
    || (role == Release && status == NoAction && l == StateDone)
    || (role == Release && status == BlockedNoAction && l == HermesManualOnly)
    || (status == Blocked && l == HermesBlocked)
  }

  /** The labels it takes off: the role's own, when it hands on or is the last. */
  predicate Drops(role: Role, status: FinalStatus, l: Label) {
    Calls(l, role) && ((exists to :: GoesTo(role, status, to)) || (role == Release && status in {NoAction, BlockedNoAction}))
  }

  lemma GoesExactly(role: Role, status: FinalStatus)
    ensures (exists to :: GoesTo(role, status, to)) <==>
      (role == Planner && status == ReadyForBuild) || (role == Builder && status == PrReadyForReview)
      || (role == Reviewer && status in {Approve, RequestChanges})
  {
    assert role == Planner && status == ReadyForBuild ==> GoesTo(role, status, Builder);
    assert role == Builder && status == PrReadyForReview ==> GoesTo(role, status, Reviewer);
    assert role == Reviewer && status == Approve ==> GoesTo(role, status, Release);
    assert role == Reviewer && status == RequestChanges ==> GoesTo(role, status, Builder);
  }

  lemma AddsTo(role: Role, status: FinalStatus, to: Role, l: Label)
    requires GoesTo(role, status, to)
    ensures Adds(role, status, l) <==> Calls(l, to)
    ensures Drops(role, status, l) <==> Calls(l, role)
  {
    hide Calls;
  }

  lemma AddsLast(role: Role, status: FinalStatus, l: Label)
    requires forall to :: !GoesTo(role, status, to)
    ensures Adds(role, status, l) <==>
      (role == Release && status == NoAction && l == StateDone) || (role == Release && status == BlockedNoAction && l == HermesManualOnly)
      || (status == Blocked && l == HermesBlocked)
    ensures Drops(role, status, l) <==> Calls(l, role) && role == Release && status in {NoAction, BlockedNoAction}
  {
    hide Calls, GoesTo;
  }

  lemma SpecTo(role: Role, status: FinalStatus, to: Role, l: Label)
    requires GoesTo(role, status, to)
    ensures ResolveTransition(role, status).Some?
    ensures l in ResolveTransition(role, status).value.addLabels <==> Calls(l, to)
    ensures l in ResolveTransition(role, status).value.removeLabels <==> Calls(l, role)
  {
    CompletionLabels(role, status);
    NextRoleExactly(role, status, to);
    LabelsCall(to);
    LabelsCall(role);
    hide ResolveTransition, Calls, DefaultRoleLabels;
  }

  lemma SpecLast(role: Role, status: FinalStatus, l: Label)
    requires forall to :: !GoesTo(role, status, to)
    requires status in RoleFinalStatuses(role) && ResolveTransition(role, status).Some?
    ensures l in ResolveTransition(role, status).value.addLabels <==>
      (role == Release && status == NoAction && l == StateDone) || (role == Release && status == BlockedNoAction && l == HermesManualOnly)
      || (status == Blocked && l == HermesBlocked)
    ensures l in ResolveTransition(role, status).value.removeLabels
      <==> Calls(l, role) && role == Release && status in {NoAction, BlockedNoAction}
  {
    GoesExactly(role, status);
    hide GoesTo;
  }

  lemma AddsExactly(role: Role, status: FinalStatus, l: Label)
    requires status in RoleFinalStatuses(role) && ResolveTransition(role, status).Some?
    ensures l in ResolveTransition(role, status).value.addLabels <==> Adds(role, status, l)
    ensures l in ResolveTransition(role, status).value.removeLabels <==> Drops(role, status, l)
  {
    hide ResolveTransition, RoleFinalStatuses, GoesTo, Adds, Drops, Calls;
    if to :| GoesTo(role, status, to) {
      AddsTo(role, status, to, l);
      SpecTo(role, status, to, l);
    } else {
      AddsLast(role, status, l);
      SpecLast(role, status, l);
    }
  }

  /** An applied completion leaves a label exactly when it adds it, or it was there and is not taken off. */
  lemma CompletionExactly(labels: set<Label>, t: Transition, l: Label)
    requires t.mark.Final? && t.mark.status in RoleFinalStatuses(t.fromRole) && t.providerApplied
    requires ResolveTransition(t.fromRole, t.mark.status).Some?
    ensures l in Relabelled(labels, t) <==>
      (Adds(t.fromRole, t.mark.status, l) || l in labels) && !Drops(t.fromRole, t.mark.status, l)
  {
    AddsExactly(t.fromRole, t.mark.status, l);
    hide Adds, Drops, ResolveTransition, RoleFinalStatuses;
  }

  /** A failure for good is marked blocked; a requeue, or a change the provider did not make, leaves the labels alone. */
  lemma FailureExactly(labels: set<Label>, t: Transition, l: Label)
    ensures !t.providerApplied || t.mark.LostRequeued? || t.mark.FailedRequeued? ==> (l in Relabelled(labels, t) <==> l in labels)
    ensures t.providerApplied && t.mark in {Lost, Mark.Failed, ConfigBlocked, Mark.Timeout, Invalid, Stale} ==>
      (l in Relabelled(labels, t) <==> l in labels || l == HermesBlocked)
  {}

  /** By the default labels, the role would take the issue up. */
  predicate TakesUp(labels: set<Label>, role: Role) {
    (exists l :: l in labels && Calls(l, role))
    && forall l :: l in labels ==> l !in {StateDone, StateCancelled, HermesBlocked, HermesManualOnly}
  }

  /**
   After an applied completion of the one role the labels call, exactly the role the work goes to would take
   the issue up. Nobody would when the status ends the work, and the label says how it ended.
   */
  lemma WhoGoesNext(labels: set<Label>, t: Transition, to: Role)
    requires t.fromRole in FOUR && to in FOUR && t.mark.Final? && t.mark.status in RoleFinalStatuses(t.fromRole) && t.providerApplied
    requires TakesUp(labels, t.fromRole) && forall l, q :: l in labels && Calls(l, q) ==> q == t.fromRole
    ensures TakesUp(Relabelled(labels, t), to) <==> GoesTo(t.fromRole, t.mark.status, to)
    ensures StateDone in Relabelled(labels, t) <==> t.fromRole == Release && t.mark.status == NoAction
    ensures HermesManualOnly in Relabelled(labels, t) <==> t.fromRole == Release && t.mark.status == BlockedNoAction
    ensures HermesBlocked in Relabelled(labels, t) <==> t.mark.status == Blocked
    ensures StateCancelled !in Relabelled(labels, t)
  {
    hide Relabelled, ResolveTransition, DefaultRoleLabels, GoesTo, Adds, Drops, Calls, RoleFinalStatuses;
    var role, status := t.fromRole, t.mark.status;
    CompletionLabels(role, status);
    forall l ensures l in Relabelled(labels, t) <==> (Adds(role, status, l) || l in labels) && !Drops(role, status, l) {
      CompletionExactly(labels, t, l);
    }
    if next :| GoesTo(role, status, next) {
      HandsOver(labels, Relabelled(labels, t), role, status, next, to);
    } else {
      Ends(labels, Relabelled(labels, t), role, status, to);
    }
  }

  lemma CallsApart(l: Label, p: Role, q: Role)
    requires Calls(l, p) && Calls(l, q)
    ensures p == q && l !in {StateDone, StateCancelled, HermesBlocked, HermesManualOnly}
  {}

  lemma GoesOnce(role: Role, status: FinalStatus, to: Role, other: Role)
    requires GoesTo(role, status, to)
    ensures GoesTo(role, status, other) <==> other == to
    ensures to != role && to in FOUR && role != Release && status != Blocked
  {}

  lemma HandsOver(labels: set<Label>, after: set<Label>, role: Role, status: FinalStatus, next: Role, to: Role)
    requires GoesTo(role, status, next) && to in FOUR
    requires TakesUp(labels, role) && forall l, q :: l in labels && Calls(l, q) ==> q == role
    requires forall l :: l in after <==> (Adds(role, status, l) || l in labels) && !Drops(role, status, l)
    ensures TakesUp(after, to) <==> GoesTo(role, status, to)
    ensures StateDone !in after && HermesManualOnly !in after && HermesBlocked !in after && StateCancelled !in after
    ensures role != Release && status != Blocked
  {
    hide GoesTo, Adds, Drops, Calls;
    GoesOnce(role, status, next, to);
    forall l ensures l in after <==> (Calls(l, next) || l in labels) && !Calls(l, role) { AddsTo(role, status, next, l); }
    forall l | l in after ensures l !in {StateDone, StateCancelled, HermesBlocked, HermesManualOnly} {
      if Calls(l, next) { CallsApart(l, next, next); }
    }
    if l :| l in after && Calls(l, to) {
      if l !in labels { CallsApart(l, next, to); }
    }
    if to == next {
      CalledBy(to);
      var l :| Calls(l, to);
      if Calls(l, role) { CallsApart(l, to, role); }
      assert l in after;
    }
  }

  lemma Ends(labels: set<Label>, after: set<Label>, role: Role, status: FinalStatus, to: Role)
    requires (forall q :: !GoesTo(role, status, q)) && role in FOUR && status in RoleFinalStatuses(role)
    requires TakesUp(labels, role) && forall l, q :: l in labels && Calls(l, q) ==> q == role
    requires forall l :: l in after <==> (Adds(role, status, l) || l in labels) && !Drops(role, status, l)
    ensures !TakesUp(after, to)
    ensures StateDone in after <==> role == Release && status == NoAction
    ensures HermesManualOnly in after <==> role == Release && status == BlockedNoAction
    ensures HermesBlocked in after <==> status == Blocked
    ensures StateCancelled !in after
  {
    GoesExactly(role, status);
    assert status == Blocked || (role == Release && status in {NoAction, BlockedNoAction});
    hide GoesTo, Adds, Drops, RoleFinalStatuses, Calls, TakesUp;
    AddsLast(role, status, StateDone);
    AddsLast(role, status, HermesManualOnly);
    AddsLast(role, status, HermesBlocked);
    AddsLast(role, status, StateCancelled);
    NobodyCalled(role);
    UntakenOnceTerminal(after, to);
    AsBefore(labels, role);
  }

  lemma NobodyCalled(role: Role)
    ensures !Calls(StateDone, role) && !Calls(HermesManualOnly, role) && !Calls(HermesBlocked, role) && !Calls(StateCancelled, role)
  {}

  lemma AsBefore(labels: set<Label>, role: Role)
    requires TakesUp(labels, role)
    ensures labels !! {StateDone, StateCancelled, HermesBlocked, HermesManualOnly}
  {}

  lemma UntakenOnceTerminal(labels: set<Label>, role: Role)
    requires StateDone in labels || HermesManualOnly in labels || HermesBlocked in labels
    ensures !TakesUp(labels, role)
  {}

  lemma CalledBy(role: Role)
    requires role in FOUR
    ensures exists l :: Calls(l, role)
  {
    assert Calls(HermesPlanner, Planner) && Calls(HermesBuilder, Builder) && Calls(HermesReviewer, Reviewer) && Calls(HermesRelease, Release);
  }
}
