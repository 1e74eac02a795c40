/** Roles, final statuses and the transition table of the orchestrator. */
module Statuses {

  datatype Option<+T> = None | Some(value: T)

  datatype Role = ProjectManager | Planner | Builder | Reviewer | Release | Incident | Learning

  datatype FinalStatus =
    | CharterReady | RoadmapReady | ReadyForIteration | InProgress | Review | Done | ReplanRequired
    | Paused | Killed | ReadyForBuild | PrReadyForReview | Approve | RequestChanges | Blocked
    | BlockedNoAction | NoAction | Monitoring | Escalated | ProposedForHumanReview

  function RoleName(role: Role): string {
    match role
    case ProjectManager => "project-manager"
    case Planner => "planner"
    case Builder => "builder"
    case Reviewer => "reviewer"
    case Release => "release"
    case Incident => "incident"
    case Learning => "learning"
  }

  function StatusName(status: FinalStatus): string {
    match status
    case CharterReady => "CHARTER_READY"
    case RoadmapReady => "ROADMAP_READY"
    case ReadyForIteration => "READY_FOR_ITERATION"
    case InProgress => "IN_PROGRESS"
    case Review => "REVIEW"
    case Done => "DONE"
    case ReplanRequired => "REPLAN_REQUIRED"
    case Paused => "PAUSED"
    case Killed => "KILLED"
    case ReadyForBuild => "READY_FOR_BUILD"
    case PrReadyForReview => "PR_READY_FOR_REVIEW"
    case Approve => "APPROVE"
    case RequestChanges => "REQUEST_CHANGES"
    case Blocked => "BLOCKED"
    case BlockedNoAction => "BLOCKED_NO_ACTION"
    case NoAction => "NO_ACTION"
    case Monitoring => "MONITORING"
    case Escalated => "ESCALATED"
    case ProposedForHumanReview => "PROPOSED_FOR_HUMAN_REVIEW"
  }

  function RoleFinalStatuses(role: Role): set<FinalStatus> {
    match role
    case ProjectManager =>
      {CharterReady, RoadmapReady, ReadyForIteration, InProgress, Review, Done, Blocked, ReplanRequired, Paused, Killed}
    case Planner => {ReadyForBuild, Blocked}
    case Builder => {PrReadyForReview, Blocked}
    case Reviewer => {Approve, RequestChanges, Blocked}
    case Release => {NoAction, BlockedNoAction}
    case Incident => {Monitoring, Escalated, NoAction}
    case Learning => {ProposedForHumanReview, NoAction}
  }

  const TERMINAL_FINAL_STATUSES: set<FinalStatus> :=
    {Blocked, BlockedNoAction, NoAction, Monitoring, Escalated, ProposedForHumanReview, Done, Paused, Killed}

  /** `validate_final_status`: the status of that name the role may finish with. */
  function ValidateFinalStatus(role: Role, name: string): (r: Option<FinalStatus>)
    ensures r.Some? <==> exists s :: s in RoleFinalStatuses(role) && StatusName(s) == name
    ensures r.Some? ==> r.value in RoleFinalStatuses(role) && StatusName(r.value) == name
  {
    if exists s :: s in RoleFinalStatuses(role) && StatusName(s) == name then
      NamesDistinct();
      var s :| s in RoleFinalStatuses(role) && StatusName(s) == name;
      Some(s)
    else None
  }

  lemma NamesDistinct()
    ensures forall s, u :: StatusName(s) == StatusName(u) ==> s == u
  {
    forall s, u | s != u ensures StatusName(s) != StatusName(u) { NameDistinct(s, u); }
  }

  lemma NameDistinct(s: FinalStatus, u: FinalStatus)
    requires s != u
    ensures StatusName(s) != StatusName(u)
  {}

  // ----- transitions ---------------------------------------------------------------------

  datatype Label =
    | StateProjectManagement | StateReadyForPlanning | StateReadyForBuild | StateReviewNeeded | StateReadyForRelease
    | StateDone | StateCancelled
    | HermesProjectManager | HermesPlanner | HermesBuilder | HermesReviewer | HermesRelease
    | HermesIncident | HermesLearning | HermesBlocked | HermesManualOnly
    | Other(name: string)

  const TERMINAL_LABELS: set<Label> := {StateDone, StateCancelled, HermesBlocked, HermesManualOnly}

  function DefaultRoleLabels(role: Role): set<Label> {
    match role
    case ProjectManager => {HermesProjectManager, StateProjectManagement}
    case Planner => {HermesPlanner, StateReadyForPlanning}
    case Builder => {HermesBuilder, StateReadyForBuild}
    case Reviewer => {HermesReviewer, StateReviewNeeded}
    case Release => {HermesRelease, StateReadyForRelease}
    case Incident => {HermesIncident}
    case Learning => {HermesLearning}
  }

  datatype TransitionSpec = TransitionSpec(nextRole: Option<Role>, addLabels: set<Label>, removeLabels: set<Label>)

  /** `resolve_transition`: the table first, then the terminal statuses; anything else moves nothing. */
  function ResolveTransition(role: Role, status: FinalStatus): Option<TransitionSpec> {
    match (role, status)
    case (Planner, ReadyForBuild) =>
      Some(TransitionSpec(Some(Builder), {StateReadyForBuild, HermesBuilder}, {StateReadyForPlanning, HermesPlanner}))
    case (Builder, PrReadyForReview) =>
      Some(TransitionSpec(Some(Reviewer), {StateReviewNeeded, HermesReviewer}, {StateReadyForBuild, HermesBuilder}))
    case (Reviewer, Approve) =>
      Some(TransitionSpec(Some(Release), {StateReadyForRelease, HermesRelease}, {StateReviewNeeded, HermesReviewer}))
    case (Reviewer, RequestChanges) =>
      Some(TransitionSpec(Some(Builder), {StateReadyForBuild, HermesBuilder}, {StateReviewNeeded, HermesReviewer}))
    case (Release, NoAction) =>
      Some(TransitionSpec(None, {StateDone}, {StateReadyForRelease, HermesRelease}))
    case (Release, BlockedNoAction) =>
      Some(TransitionSpec(None, {HermesManualOnly}, {StateReadyForRelease, HermesRelease}))
    case _ =>
      if status in TERMINAL_FINAL_STATUSES then
        Some(TransitionSpec(None, if status == Blocked then {HermesBlocked} else {}, {}))
      else None
  }
}
