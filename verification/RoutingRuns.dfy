/** Runs of the four containers that are there: the commands, the answers they get, and where they lead. */
module RoutingRuns {
  import opened Statuses
  import opened Json
  import opened FinalResponses
  import opened Database
  import opened Reconciler
  import opened Ticks
  import opened RowEffects
  import opened LabelRouting

  function Defaults(role: Role, maxAttempts: nat): Config {
    Config(role, maxAttempts, 300, true, true, 3600, true, true, 1, DefaultRoleLabels(role), TERMINAL_LABELS, {},
           RepairConfig(true, false, 65536))
  }

  // ----- a role takes the issue up -------------------------------------------------------

  function WaitingDb(item: WorkItem, role: Role): Db {
    Db(map[IdOf(item) := item], map[AssignmentKey(item, role) := Assignment(IdOf(item), role, Pending, 0, None, 0, 0, 0)], [], [])
  }

  function OpenDb(item: WorkItem, role: Role): Db {
    var key := AssignmentKey(item, role);
    Db(map[IdOf(item) := item], map[key := Assignment(IdOf(item), role, Started, 1, None, 0, 0, 0)], [Run(key, "run", Active, 1, 0, None)], [])
  }

  /** A tick that fetches the issue and starts its run. */
  function TakeUpTick(item: WorkItem, role: Role, maxAttempts: nat): Command {
    var key := AssignmentKey(item, role);
    RunOnce(Input(0, map[], Some([item]), map[key := "run"]), Defaults(role, maxAttempts), [key])
  }

  lemma NothingToReconcile(config: Config)
    ensures ActiveRows(EMPTY) == [] && Reconciled(EMPTY, NewsFor([], map[], config), config, 0) == Some(Pass(EMPTY, Nothing()))
    ensures Told(EMPTY, NewsFor([], map[], config), config, 0) == EMPTY
  {}

  lemma Discovered1(item: WorkItem, config: Config)
    requires MatchesRole(item, config)
    ensures DiscoverUpTo(EMPTY, [item], 1, config, 0) == WaitingDb(item, config.role)
  {
    hide AssignmentKey, MatchesRole;
    assert DiscoverUpTo(EMPTY, [item], 0, config, 0) == EMPTY;
  }

  lemma Selected1(item: WorkItem, role: Role)
    ensures IsSelection(WaitingDb(item, role), role, 1, 0, [AssignmentKey(item, role)])
  {
    hide AssignmentKey;
    assert Due(WaitingDb(item, role), AssignmentKey(item, role), role, 0);
  }

  lemma Started1(item: WorkItem, role: Role)
    ensures var key := AssignmentKey(item, role);
      StartUpTo(WaitingDb(item, role), [key], map[key := "run"], 1, 0) == Some(OpenDb(item, role))
  {
    hide AssignmentKey;
    var key := AssignmentKey(item, role);
    assert StartUpTo(WaitingDb(item, role), [key], map[key := "run"], 0, 0) == Some(WaitingDb(item, role));
    var db := WaitingDb(item, role);
    var a := db.assignments[key];
    assert !HasActiveRun(db.runs, key);
    assert db.assignments[key := a.(status := Started, attemptCount := 1, nextRetryAt := None, updatedAt := 0)] == OpenDb(item, role).assignments;
    assert !(exists r :: r in db.runs && r.hermesRunId == "run");
    assert db.runs + [Run(key, "run", Active, 1, 0, None)] == OpenDb(item, role).runs;
    assert MarkStarted(db, key, "run", 0) == Some(OpenDb(item, role));
  }

  lemma TakenUp(item: WorkItem, role: Role, maxAttempts: nat)
    requires MatchesRole(item, Defaults(role, maxAttempts))
    ensures var tick := TakeUpTick(item, role, maxAttempts);
      && Permitted(EMPTY, tick, maxAttempts) && Commits(EMPTY, tick) && Outcome(EMPTY, tick) == OpenDb(item, role)
      && ToldBy(EMPTY, tick) == EMPTY
  {
    var tick := TakeUpTick(item, role, maxAttempts);
    NothingToReconcile(tick.config);
    Discovered1(item, tick.config);
    Selected1(item, role);
    Started1(item, role);
    hide AssignmentKey, MatchesRole, Reconciled, ActiveRows, DiscoverUpTo, StartUpTo, IsSelection, OpenDb, WaitingDb, Told, NewsFor;
    assert Prepared(EMPTY, tick.input, tick.config) == Some(WaitingDb(item, role));
  }

  // ----- a role's run comes back ---------------------------------------------------------

  function ResponseFor(key: string, role: Role, status: FinalStatus): FinalResponse {
    FinalResponse(key, role, status, "done", [], [], [], [], Null, Null)
  }

  function PayloadFor(key: string, role: Role, status: FinalStatus): Dict {
    map["final_response" := Obj(ToDict(ResponseFor(key, role, status)))]
  }

  /** A tick in which the run is found completed; the fetch that follows gives nothing, or raises. */
  function FinishTick(item: WorkItem, role: Role, status: FinalStatus, fetches: bool, maxAttempts: nat): Command {
    var reported := Reported("completed", PayloadFor(AssignmentKey(item, role), role, status), false, false, None);
    RunOnce(Input(0, map["run" := Reply(reported, false)], if fetches then Some([]) else None, map[]), Defaults(role, maxAttempts), [])
  }

  function CompletionRow(key: string, role: Role, status: FinalStatus): Transition
    requires ResolveTransition(role, status).Some?
  {
    Transition(key, role, Final(status), ResolveTransition(role, status).value.nextRole, true)
  }

  function DoneDb(item: WorkItem, role: Role, status: FinalStatus): Db
    requires ResolveTransition(role, status).Some?
  {
    var key := AssignmentKey(item, role);
    Db(map[IdOf(item) := item], map[key := Assignment(IdOf(item), role, Completed, 1, None, 0, 0, 0)],
       [Run(key, "run", RunCompleted, 1, 0, Some(0))], [CompletionRow(key, role, status)])
  }

  lemma PayloadParses(key: string, role: Role, status: FinalStatus)
    requires key != "" && status in RoleFinalStatuses(role)
    ensures ParseFinalResponse(PayloadFor(key, role, status), role, key) == Accepted(ResponseFor(key, role, status))
  {
    var r := ResponseFor(key, role, status);
    StoredParses(r, role, key);
    ReadObject(ToDict(r));
    hide ParseFields, ToDict, ReadField;
    assert Get(PayloadFor(key, role, status), KEYS[0]) == Obj(ToDict(r));
  }

  lemma FoundDone(row: ActiveRow, status: FinalStatus, config: Config)
    requires row.run.assignmentKey != "" && status in RoleFinalStatuses(row.role)
    ensures Find(row, Reported("completed", PayloadFor(row.run.assignmentKey, row.role, status), false, false, None), config)
      == RunDone(Some(status))
  {
    PayloadParses(row.run.assignmentKey, row.role, status);
    hide ParseFinalResponse, PayloadFor, RepairedPayload;
  }

  lemma KeyNotEmpty(item: WorkItem, role: Role)
    ensures AssignmentKey(item, role) != ""
  {}

  function RowFor(item: WorkItem, role: Role): ActiveRow {
    ActiveRow(Run(AssignmentKey(item, role), "run", Active, 1, 0, None), role, item.revision)
  }

  lemma OneActiveRow(item: WorkItem, role: Role)
    ensures ActiveRows(OpenDb(item, role)) == [RowFor(item, role)]
  {
    hide AssignmentKey;
    var db := OpenDb(item, role);
    assert db.runs[..0] == [] && ActiveRowsOf(db, []) == [];
  }

  lemma DoneVerdict(item: WorkItem, role: Role, status: FinalStatus, config: Config)
    requires ':' !in item.revision && ResolveTransition(role, status).Some? && config.runTimeout >= 0
    ensures Judge(RowFor(item, role), RunDone(Some(status)), config, 0)
      == Ended(Ending(RunCompleted, Completed, None, Tally.Finished, Some(Final(status)), ResolveTransition(role, status).value.nextRole, false))
  {
    KeyEndsWithRevision(item, role);
    hide AssignmentKey, LastField, ResolveTransition;
  }

  lemma DoneApplied(item: WorkItem, role: Role, status: FinalStatus, config: Config)
    requires ResolveTransition(role, status).Some? && config.applyTransitions && config.adapterPresent
    ensures Apply(OpenDb(item, role), RowFor(item, role),
                  Ending(RunCompleted, Completed, None, Tally.Finished, Some(Final(status)), ResolveTransition(role, status).value.nextRole, false),
                  false, config, 0)
      == DoneDb(item, role, status)
  {
    hide AssignmentKey, ResolveTransition;
    var db, key := OpenDb(item, role), AssignmentKey(item, role);
    assert FinishRuns(db.runs, key, RunCompleted, 0) == [Run(key, "run", RunCompleted, 1, 0, Some(0))];
  }

  lemma ReconciledDone(item: WorkItem, role: Role, status: FinalStatus, fetches: bool, maxAttempts: nat)
    requires ':' !in item.revision && status in RoleFinalStatuses(role) && ResolveTransition(role, status).Some?
    ensures var tick, db := FinishTick(item, role, status, fetches, maxAttempts), OpenDb(item, role);
      var pass := Reconciled(db, NewsFor(ActiveRows(db), tick.input.replies, tick.config), tick.config, 0);
      pass.Some? && pass.value.db == DoneDb(item, role, status) && ToldBy(db, tick) == DoneDb(item, role, status)
  {
    hide AssignmentKey, ResolveTransition, RoleFinalStatuses, Find, PayloadFor, Judge, Apply, ActiveRows, OpenDb, DoneDb, RowFor;
    var tick, db, row := FinishTick(item, role, status, fetches, maxAttempts), OpenDb(item, role), RowFor(item, role);
    OneActiveRow(item, role);
    KeyNotEmpty(item, role);
    RowRun(item, role);
    FoundDone(row, status, tick.config);
    DoneVerdict(item, role, status, tick.config);
    DoneApplied(item, role, status, tick.config);
    var news := NewsFor([row], tick.input.replies, tick.config);
    assert news == [News(RunDone(Some(status)), false)];
    hide NewsFor, FinishTick;
    assert ReconcileUpTo(db, [row], news, 0, tick.config, 0) == Some(Pass(db, Nothing()));
    assert ReconcileUpTo(db, [row], news, 1, tick.config, 0).Some?;
    ToldWhole(db, news, tick.config, 0);
    hide ReconcileUpTo;
  }

  lemma RowRun(item: WorkItem, role: Role)
    ensures RowFor(item, role).run.hermesRunId == "run" && RowFor(item, role).run.assignmentKey == AssignmentKey(item, role)
    ensures RowFor(item, role).role == role
  {}

  lemma NothingDue(item: WorkItem, role: Role, status: FinalStatus)
    requires ResolveTransition(role, status).Some?
    ensures IsSelection(DoneDb(item, role, status), role, 1, 0, [])
  {
    hide AssignmentKey, ResolveTransition;
    assert forall k :: !Due(DoneDb(item, role, status), k, role, 0);
  }

  /** The completion is told to the provider either way; it is kept only if the fetch works. */
  lemma FinishedRun(item: WorkItem, role: Role, status: FinalStatus, fetches: bool, maxAttempts: nat)
    requires ':' !in item.revision && status in RoleFinalStatuses(role) && ResolveTransition(role, status).Some?
    ensures var tick, db := FinishTick(item, role, status, fetches, maxAttempts), OpenDb(item, role);
      && Permitted(db, tick, maxAttempts) && (Commits(db, tick) <==> fetches)
      && Outcome(db, tick) == (if fetches then DoneDb(item, role, status) else db)
      && ToldBy(db, tick) == DoneDb(item, role, status)
  {
    var tick, db := FinishTick(item, role, status, fetches, maxAttempts), OpenDb(item, role);
    ReconciledDone(item, role, status, fetches, maxAttempts);
    NothingDue(item, role, status);
    hide AssignmentKey, ResolveTransition, RoleFinalStatuses, PayloadFor, Reconciled, ActiveRows, NewsFor, OpenDb, DoneDb, IsSelection, Told;
    var pass := Reconciled(db, NewsFor(ActiveRows(db), tick.input.replies, tick.config), tick.config, 0);
    assert Prepared(db, tick.input, tick.config) == if fetches then Some(pass.value.db) else None;
    hide Prepared;
  }

  // ----- steps of the system -------------------------------------------------------------

  function IssueNow(s: System): WorkItem { s.issue.(labels := s.labels) }

  /** Only the labels of an item are not in its key. */
  lemma SameKey(item: WorkItem, labels: set<Label>, role: Role)
    ensures AssignmentKey(item.(labels := labels), role) == AssignmentKey(item, role)
  {}

  lemma NoRowsAdded(db: Db, key: string)
    ensures Added(db, db, key) == []
  {}

  lemma TakeUp(s: System, role: Role, maxAttempts: nat)
    requires role in FOUR && role in s.dbs && s.dbs[role] == EMPTY && Has(s.labels, role) && s.labels * TERMINAL_LABELS == {}
    ensures var tick := TakeUpTick(IssueNow(s), role, maxAttempts);
      && MayStep(s, role, tick, maxAttempts) && Commits(s.dbs[role], tick) && SeesIssue(s, role, tick)
      && Next(s, role, tick) == s.(dbs := s.dbs[role := OpenDb(IssueNow(s), role)])
  {
    var item := IssueNow(s);
    var tick := TakeUpTick(item, role, maxAttempts);
    assert MatchesRole(item, tick.config);
    TakenUp(item, role, maxAttempts);
    SameKey(s.issue, s.labels, role);
    NoRowsAdded(EMPTY, KeyOf(s, role));
    hide AssignmentKey, Outcome, ToldBy, Permitted, Added, OpenDb, Commits, DefaultRoleLabels, MatchesRole, Defaults;
    assert Asked(s, role, tick) == [];
    assert Next(s, role, tick) == s.(dbs := s.dbs[role := OpenDb(item, role)]);
    assert tick.input.fetched.value[0] == item;
    assert DefaultLabels(tick.config, role, s.issue) by { DefaultsDefault(role, maxAttempts, s.issue); }
  }

  lemma DefaultsDefault(role: Role, maxAttempts: nat, issue: WorkItem)
    ensures DefaultLabels(Defaults(role, maxAttempts), role, issue)
  {}

  lemma RowAdded(item: WorkItem, role: Role, status: FinalStatus)
    requires ResolveTransition(role, status).Some?
    ensures var key := AssignmentKey(item, role);
      Added(OpenDb(item, role), DoneDb(item, role, status), key) == [CompletionRow(key, role, status)]
  {
    hide AssignmentKey, ResolveTransition;
    var key := AssignmentKey(item, role);
    var t := CompletionRow(key, role, status);
    assert [t][..0] == [] && RowsFor([], key) == [];
    assert RowsFor([t], key) == [t];
  }

  lemma OneRelabelling(labels: set<Label>, t: Transition)
    ensures RelabelledBy(labels, [t]) == Relabelled(labels, t)
  {
    assert [t][..0] == [] && RelabelledBy(labels, []) == labels;
  }

  lemma FinishParts(item: WorkItem, role: Role, status: FinalStatus, fetches: bool, maxAttempts: nat)
    ensures var tick := FinishTick(item, role, status, fetches, maxAttempts);
      && tick.RunOnce? && tick.config == Defaults(role, maxAttempts)
      && (tick.input.fetched.Some? ==> tick.input.fetched.value == [])
  {
    hide PayloadFor, AssignmentKey;
  }

  lemma FinishMay(s: System, role: Role, had: set<Label>, status: FinalStatus, fetches: bool, maxAttempts: nat)
    requires role in FOUR && role in s.dbs && s.dbs[role] == OpenDb(s.issue.(labels := had), role)
    requires ':' !in s.issue.revision && status in RoleFinalStatuses(role) && ResolveTransition(role, status).Some?
    ensures var tick := FinishTick(s.issue.(labels := had), role, status, fetches, maxAttempts);
      MayStep(s, role, tick, maxAttempts) && (Commits(s.dbs[role], tick) <==> fetches)
  {
    hide AssignmentKey, Outcome, ToldBy, Permitted, OpenDb, DoneDb, Commits, ResolveTransition, RoleFinalStatuses, Next, Defaults, FinishTick,
         DefaultLabels;
    var item := s.issue.(labels := had);
    FinishedRun(item, role, status, fetches, maxAttempts);
    FinishParts(item, role, status, fetches, maxAttempts);
    DefaultsDefault(role, maxAttempts, s.issue);
    DefaultsRole(role, maxAttempts);
  }

  lemma DefaultsRole(role: Role, maxAttempts: nat)
    ensures Defaults(role, maxAttempts).role == role
  {}

  /** The role's run, started when the issue had these labels, comes back. */
  lemma Finish(s: System, role: Role, had: set<Label>, status: FinalStatus, fetches: bool, maxAttempts: nat)
    requires role in FOUR && role in s.dbs && s.dbs[role] == OpenDb(s.issue.(labels := had), role)
    requires ':' !in s.issue.revision && status in RoleFinalStatuses(role) && ResolveTransition(role, status).Some?
    ensures var item := s.issue.(labels := had);
      var tick, spec := FinishTick(item, role, status, fetches, maxAttempts), ResolveTransition(role, status).value;
      && MayStep(s, role, tick, maxAttempts) && (Commits(s.dbs[role], tick) <==> fetches)
      && Asked(s, role, tick) == [CompletionRow(KeyOf(s, role), role, status)]
      && Next(s, role, tick) == s.(labels := s.labels + spec.addLabels - spec.removeLabels,
                                   dbs := if fetches then s.dbs[role := DoneDb(item, role, status)] else s.dbs)
  {
    var item := s.issue.(labels := had);
    hide AssignmentKey, Outcome, ToldBy, Permitted, Added, OpenDb, DoneDb, Commits, RoleFinalStatuses, RelabelledBy, ResolveTransition,
         FinishTick, MayStep;
    FinishedRun(item, role, status, fetches, maxAttempts);
    FinishMay(s, role, had, status, fetches, maxAttempts);
    SameKey(s.issue, had, role);
    RowAdded(item, role, status);
    OneRelabelling(s.labels, CompletionRow(KeyOf(s, role), role, status));
    assert s.dbs[role := s.dbs[role]] == s.dbs;
  }

  // ----- runs ----------------------------------------------------------------------------

  lemma RunOne(s: System, step: Step, maxAttempts: nat)
    requires MayStep(s, step.role, step.command, maxAttempts) && step.role in s.dbs
    ensures MayRun(s, [step], maxAttempts) && AfterSteps(s, [step], maxAttempts) == Next(s, step.role, step.command)
  {
    hide MayStep, Next;
    assert [step][1..] == [];
  }

  /** One run after another. */
  lemma {:induction false} RunConcat(s: System, first: seq<Step>, rest: seq<Step>, maxAttempts: nat)
    requires MayRun(s, first, maxAttempts) && MayRun(AfterSteps(s, first, maxAttempts), rest, maxAttempts)
    ensures MayRun(s, first + rest, maxAttempts)
    ensures AfterSteps(s, first + rest, maxAttempts) == AfterSteps(AfterSteps(s, first, maxAttempts), rest, maxAttempts)
    decreases first
  {
    hide MayStep, Next;
    if first == [] {
      assert first + rest == rest;
    } else {
      assert (first + rest)[1..] == first[1..] + rest;
      StepHasDb(s, first[0], maxAttempts);
      RunConcat(Next(s, first[0].role, first[0].command), first[1..], rest, maxAttempts);
    }
  }

  lemma HandoffLabels(role: Role, next: Role)
    requires role != next
    ensures DefaultRoleLabels(role) + DefaultRoleLabels(next) - DefaultRoleLabels(role) == DefaultRoleLabels(next)
  {
    RoleLabelsApart(role, next);
    hide DefaultRoleLabels;
  }

  lemma LateHandoffLabels(labels: set<Label>, role: Role, next: Role)
    requires role != next && labels !! DefaultRoleLabels(role)
    ensures labels + DefaultRoleLabels(next) - DefaultRoleLabels(role) == labels + DefaultRoleLabels(next)
  {
    RoleLabelsApart(role, next);
    hide DefaultRoleLabels;
  }

  lemma OwnLabels(role: Role)
    ensures Has(DefaultRoleLabels(role), role) && DefaultRoleLabels(role) * TERMINAL_LABELS == {}
  {
    RoleHasLabels(role);
    TerminalApart(role);
    hide DefaultRoleLabels;
    assert DefaultRoleLabels(role) * DefaultRoleLabels(role) == DefaultRoleLabels(role);
  }

  lemma BothLabels(p: Role, q: Role)
    ensures Has(DefaultRoleLabels(p) + DefaultRoleLabels(q), p) && Has(DefaultRoleLabels(p) + DefaultRoleLabels(q), q)
  {
    OwnLabels(p);
    OwnLabels(q);
    hide DefaultRoleLabels;
    assert DefaultRoleLabels(p) <= (DefaultRoleLabels(p) + DefaultRoleLabels(q)) * DefaultRoleLabels(p);
    assert DefaultRoleLabels(q) <= (DefaultRoleLabels(p) + DefaultRoleLabels(q)) * DefaultRoleLabels(q);
  }

  function Labelled(s: System, role: Role): WorkItem { s.issue.(labels := DefaultRoleLabels(role)) }

  function TakesUp(s: System, role: Role, m: nat): Step { Step(role, TakeUpTick(Labelled(s, role), role, m)) }

  function Finishes(s: System, role: Role, status: FinalStatus, fetches: bool, m: nat): Step {
    Step(role, FinishTick(Labelled(s, role), role, status, fetches, m))
  }

  /** The state in which the issue has one role's labels and that role's run has been started. */
  lemma TakeUpStep(s: System, role: Role, m: nat)
    requires role in FOUR && role in s.dbs && s.dbs[role] == EMPTY && s.labels == DefaultRoleLabels(role)
    ensures var step := TakesUp(s, role, m);
      && MayStep(s, role, step.command, m) && Commits(s.dbs[role], step.command) && SeesIssue(s, role, step.command)
      && Next(s, role, step.command) == s.(dbs := s.dbs[role := OpenDb(Labelled(s, role), role)])
  {
    OwnLabels(role);
    hide MayStep, Next, Commits, DefaultRoleLabels, OpenDb, TakeUpTick;
    TakeUp(s, role, m);
  }

  /** The system after a role has taken the issue up and its run has come back with a handoff. */
  function HandedOn(s: System, role: Role, status: FinalStatus, next: Role, fetches: bool): System
    requires ResolveTransition(role, status).Some?
  {
    var db := if fetches then DoneDb(Labelled(s, role), role, status) else OpenDb(Labelled(s, role), role);
    s.(labels := DefaultRoleLabels(next), dbs := s.dbs[role := db])
  }

  predicate MayHandOn(s: System, role: Role, status: FinalStatus, next: Role) {
    && role in FOUR && role in s.dbs && s.dbs[role] == EMPTY && s.labels == DefaultRoleLabels(role) && ':' !in s.issue.revision
    && status in RoleFinalStatuses(role) && ResolveTransition(role, status).Some?
    && ResolveTransition(role, status).value.nextRole == Some(next)
  }

  lemma HandsOn(s: System, role: Role, status: FinalStatus, next: Role, fetches: bool, m: nat)
    requires MayHandOn(s, role, status, next)
    ensures var open, step := s.(dbs := s.dbs[role := OpenDb(Labelled(s, role), role)]), Finishes(s, role, status, fetches, m);
      && MayStep(open, role, step.command, m) && (Commits(open.dbs[role], step.command) <==> fetches)
      && Asked(open, role, step.command) == [CompletionRow(KeyOf(s, role), role, status)]
      && Next(open, role, step.command) == HandedOn(s, role, status, next, fetches)
  {
    hide MayStep, Next, DefaultRoleLabels, OpenDb, DoneDb, TakeUpTick, FinishTick, Commits, ResolveTransition, RoleFinalStatuses, Asked,
         CompletionRow, AssignmentKey;
    CompletionLabels(role, status);
    HandoffLabels(role, next);
    var open := s.(dbs := s.dbs[role := OpenDb(Labelled(s, role), role)]);
    Finish(open, role, DefaultRoleLabels(role), status, fetches, m);
    assert open.dbs[role := DoneDb(Labelled(s, role), role, status)] == s.dbs[role := DoneDb(Labelled(s, role), role, status)];
  }

  /** A role with the issue's labels takes it up and hands it on; the database keeps it if the fetch works. */
  lemma {:induction false} HandOn(s: System, role: Role, status: FinalStatus, next: Role, fetches: bool, m: nat) returns (steps: seq<Step>)
    requires MayHandOn(s, role, status, next)
    ensures MayRun(s, steps, m) && AfterSteps(s, steps, m) == HandedOn(s, role, status, next, fetches)
    ensures steps == [TakesUp(s, role, m), Finishes(s, role, status, fetches, m)]
  {
    hide MayStep, Next, MayRun, AfterSteps, OpenDb, TakeUpTick, FinishTick, Commits, Asked, HandedOn, SeesIssue;
    var a, b := TakesUp(s, role, m), Finishes(s, role, status, fetches, m);
    TakeUpStep(s, role, m);
    HandsOn(s, role, status, next, fetches, m);
    var open := s.(dbs := s.dbs[role := OpenDb(Labelled(s, role), role)]);
    RunOne(s, a, m);
    RunOne(open, b, m);
    RunConcat(s, [a], [b], m);
    steps := [a] + [b];
  }

  lemma Handoffs3()
    ensures ResolveTransition(Planner, ReadyForBuild) == Some(TransitionSpec(Some(Builder), DefaultRoleLabels(Builder), DefaultRoleLabels(Planner)))
    ensures ResolveTransition(Builder, PrReadyForReview) == Some(TransitionSpec(Some(Reviewer), DefaultRoleLabels(Reviewer), DefaultRoleLabels(Builder)))
    ensures ResolveTransition(Reviewer, RequestChanges) == Some(TransitionSpec(Some(Builder), DefaultRoleLabels(Builder), DefaultRoleLabels(Reviewer)))
    ensures ReadyForBuild in RoleFinalStatuses(Planner) && PrReadyForReview in RoleFinalStatuses(Builder)
    ensures RequestChanges in RoleFinalStatuses(Reviewer)
  {
    CompletionLabels(Planner, ReadyForBuild);
    CompletionLabels(Builder, PrReadyForReview);
    CompletionLabels(Reviewer, RequestChanges);
    hide DefaultRoleLabels;
  }

  /**
   A split that happens. From any issue the planner starts on: the planner's run completes, the provider
   makes the handoff, and the fetch raises, so the database forgets it and the planner's assignment is open
   without its labels. The builder takes the issue up and hands it on; then the planner's run is reconciled
   again. The issue carries two roles' labels.
   */
  lemma {:induction false} SplitReachable(s: System, m: nat) returns (steps: seq<Step>)
    requires Start(s) && s.labels == DefaultRoleLabels(Planner) && ':' !in s.issue.revision
    ensures MayRun(s, steps, m)
    ensures Has(AfterSteps(s, steps, m).labels, Builder) && Has(AfterSteps(s, steps, m).labels, Reviewer)
    ensures !Token(AfterSteps(s, steps, m))
  {
    hide MayStep, Next, MayRun, AfterSteps, OpenDb, DoneDb, TakeUpTick, FinishTick, Commits, ResolveTransition,
         RoleFinalStatuses, Asked, Has;
    Handoffs3();
    RoleLabelsApart(Reviewer, Planner);
    LateHandoffLabels(DefaultRoleLabels(Reviewer), Planner, Builder);
    BothLabels(Reviewer, Builder);
    hide DefaultRoleLabels;
    var forgotten := HandOn(s, Planner, ReadyForBuild, Builder, false, m);
    var s2 := HandedOn(s, Planner, ReadyForBuild, Builder, false);
    var built := HandOn(s2, Builder, PrReadyForReview, Reviewer, true, m);
    var s4 := HandedOn(s2, Builder, PrReadyForReview, Reviewer, true);
    Finish(s4, Planner, DefaultRoleLabels(Planner), ReadyForBuild, true, m);
    var again := Finishes(s, Planner, ReadyForBuild, true, m);
    RunOne(s4, again, m);
    RunConcat(s2, built, [again], m);
    RunConcat(s, forgotten, built + [again], m);
    steps := forgotten + (built + [again]);
    TwoClaims(AfterSteps(s, steps, m), Builder, Reviewer);
  }

  lemma TwoClaims(s: System, p: Role, q: Role)
    requires p != q && Has(s.labels, p) && Has(s.labels, q)
    ensures !Token(s)
  {
    hide Has, StageOfRole;
  }

  // ----- requests for changes ------------------------------------------------------------

  lemma CommittedStep(s: System, step: Step, m: nat)
    requires m > 0 && DbsHold(s, m) && Token(s) && MayStep(s, step.role, step.command, m)
    requires step.role in s.dbs && Commits(s.dbs[step.role], step.command)
    ensures DbsHold(Next(s, step.role, step.command), m) && Token(Next(s, step.role, step.command))
  {
    hide DbsHold, Token, MayStep, Commits, Next;
    DbsKeep(s, step.role, step.command, m);
    TokenKept(s, step.role, step.command, m);
  }

  /** The reviewer at work on the issue. */
  function Reviewing(s: System): System {
    s.(dbs := s.dbs[Reviewer := OpenDb(Labelled(s, Reviewer), Reviewer)])
  }

  predicate MayReview(s: System) {
    Reviewer in s.dbs && s.dbs[Reviewer] == EMPTY && s.labels == DefaultRoleLabels(Reviewer) && ':' !in s.issue.revision
  }

  lemma {:induction false} ReviewerWorks(s: System, m: nat)
    requires m > 0 && DbsHold(s, m) && Token(s) && MayReview(s)
    ensures MayRun(s, [TakesUp(s, Reviewer, m)], m) && AfterSteps(s, [TakesUp(s, Reviewer, m)], m) == Reviewing(s)
    ensures DbsHold(Reviewing(s), m) && Token(Reviewing(s))
  {
    hide MayStep, Next, MayRun, AfterSteps, DefaultRoleLabels, OpenDb, TakeUpTick, Commits, AssignmentKey, DbsHold, Token;
    TakeUpStep(s, Reviewer, m);
    CommittedStep(s, TakesUp(s, Reviewer, m), m);
    RunOne(s, TakesUp(s, Reviewer, m), m);
  }

  /** The tick in which the reviewer's run comes back with a request for changes. */
  function AsksForChanges(s: System, m: nat): Command { Finishes(s, Reviewer, RequestChanges, true, m).command }

  lemma {:induction false} ReviewerAsks(s: System, m: nat)
    requires MayReview(s)
    ensures var r, command := Reviewing(s), AsksForChanges(s, m);
      && MayStep(r, Reviewer, command, m) && RequestsChanges(r, command) && ResolveTransition(Reviewer, RequestChanges).Some?
      && Next(r, Reviewer, command) == HandedOn(s, Reviewer, RequestChanges, Builder, true)
  {
    hide MayStep, Next, DefaultRoleLabels, OpenDb, DoneDb, FinishTick, Commits, ResolveTransition, RoleFinalStatuses, Asked, AssignmentKey,
         HandedOn;
    Handoffs3();
    HandsOn(s, Reviewer, RequestChanges, Builder, true, m);
  }

  /** A request for changes that restarts the builder: the issue came to the reviewer first. */
  lemma {:induction false} RestartReachable(s: System, m: nat) returns (tick: Command)
    requires Start(s) && m > 0 && s.labels == DefaultRoleLabels(Reviewer) && ':' !in s.issue.revision
    ensures MayRun(s, [TakesUp(s, Reviewer, m)], m) && AfterSteps(s, [TakesUp(s, Reviewer, m)], m) == Reviewing(s)
    ensures Builder in Reviewing(s).dbs && StageOfRole(Reviewing(s), Builder) == Absent
    ensures var command := AsksForChanges(s, m);
      && MayStep(Reviewing(s), Reviewer, command, m) && RequestsChanges(Reviewing(s), command)
      && var asked := Next(Reviewing(s), Reviewer, command);
         && MayStep(asked, Builder, tick, m) && Builder in asked.dbs && Commits(asked.dbs[Builder], tick) && SeesIssue(asked, Builder, tick)
         && StageOfRole(Next(asked, Builder, tick), Builder) == Open
  {
    hide MayStep, Next, MayRun, AfterSteps, DefaultRoleLabels, OpenDb, DoneDb, TakeUpTick, FinishTick, Commits, RequestsChanges,
         AssignmentKey, DbsHold, Token;
    StartHolds(s, m);
    ReviewerWorks(s, m);
    ReviewerAsks(s, m);
    EmptyStage(Reviewing(s), Builder);
    var asked := HandedOn(s, Reviewer, RequestChanges, Builder, true);
    TakeUpStep(asked, Builder, m);
    tick := TakesUp(asked, Builder, m).command;
    OpenStage(Labelled(asked, Builder), Builder);
    SameKey(s.issue, DefaultRoleLabels(Builder), Builder);
  }

  lemma EmptyStage(s: System, role: Role)
    requires role in s.dbs && s.dbs[role] == EMPTY
    ensures StageOfRole(s, role) == Absent
  {}

  /** A request for changes that stops everything: the builder had built this revision. */
  lemma {:induction false} StopReachable(s: System, m: nat) returns (steps: seq<Step>, review: System)
    requires Start(s) && m > 0 && s.labels == DefaultRoleLabels(Builder) && ':' !in s.issue.revision
    ensures MayRun(s, steps, m) && AfterSteps(s, steps, m) == Reviewing(review)
    ensures Builder in review.dbs && StageOfRole(Reviewing(review), Builder) == Stage.Finished
    ensures var r, command := Reviewing(review), AsksForChanges(review, m);
      && MayStep(r, Reviewer, command, m) && RequestsChanges(r, command)
      && Quiet(Next(r, Reviewer, command)) && Has(Next(r, Reviewer, command).labels, Builder)
  {
    hide MayStep, Next, MayRun, AfterSteps, DefaultRoleLabels, OpenDb, DoneDb, TakeUpTick, FinishTick, Commits, RequestsChanges,
         AssignmentKey, DbsHold, Token, Quiet, ResolveTransition, RoleFinalStatuses, Asked;
    StartHolds(s, m);
    Handoffs3();
    TakeUpStep(s, Builder, m);
    CommittedStep(s, TakesUp(s, Builder, m), m);
    HandsOn(s, Builder, PrReadyForReview, Reviewer, true, m);
    CommittedStep(s.(dbs := s.dbs[Builder := OpenDb(Labelled(s, Builder), Builder)]), Finishes(s, Builder, PrReadyForReview, true, m), m);
    var built := HandOn(s, Builder, PrReadyForReview, Reviewer, true, m);
    review := HandedOn(s, Builder, PrReadyForReview, Reviewer, true);
    ReviewerWorks(review, m);
    ReviewerAsks(review, m);
    RunConcat(s, built, [TakesUp(review, Reviewer, m)], m);
    steps := built + [TakesUp(review, Reviewer, m)];
    DoneStage(Labelled(s, Builder), Builder, PrReadyForReview);
    SameKey(s.issue, DefaultRoleLabels(Builder), Builder);
    ChangesRequestedStops(Reviewing(review), AsksForChanges(review, m), m);
    AfterChangesRequested(Reviewing(review), AsksForChanges(review, m), m);
  }

  lemma DoneStage(item: WorkItem, role: Role, status: FinalStatus)
    requires ResolveTransition(role, status).Some?
    ensures StageIn(DoneDb(item, role, status), AssignmentKey(item, role)) == Stage.Finished
  {
    hide AssignmentKey, ResolveTransition;
  }

  lemma OpenStage(item: WorkItem, role: Role)
    ensures StageIn(OpenDb(item, role), AssignmentKey(item, role)) == Open
  {
    hide AssignmentKey;
  }
}
