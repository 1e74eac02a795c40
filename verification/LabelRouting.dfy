/**
 Four role containers, each with its own database, pass one issue along by its labels. The issue's
 title and body do not change, requeues keep to the default statuses, and a provider call changes the
 labels whole or not at all. A rollback undoes what a command did to its database and leaves the labels
 as the provider has them.
 */
module LabelRouting {
  import opened Statuses
  import opened Database
  import opened Reconciler
  import opened Ticks
  import opened RowEffects

  const FOUR: set<Role> := {Planner, Builder, Reviewer, Release}

  datatype System = System(issue: WorkItem, labels: set<Label>, dbs: map<Role, Db>)

  function KeyOf(s: System, role: Role): string { AssignmentKey(s.issue, role) }

  function StageOfRole(s: System, role: Role): Stage
    requires role in s.dbs
  {
    StageIn(s.dbs[role], KeyOf(s, role))
  }

  // ----- what a transition does to the labels --------------------------------------------

  /** `apply_issue_transition`: add, then remove. A requeue or an unapplied row asks for nothing. */
  function Relabelled(labels: set<Label>, t: Transition): set<Label> {
    if !t.providerApplied then labels
    else match t.mark
      case Final(status) =>
        var spec := ResolveTransition(t.fromRole, status);
        if spec.None? then labels else labels + spec.value.addLabels - spec.value.removeLabels
      case LostRequeued => labels
      case FailedRequeued => labels
      case _ => labels + {HermesBlocked}
  }

  function RelabelledBy(labels: set<Label>, ts: seq<Transition>): set<Label> {
    if ts == [] then labels else Relabelled(RelabelledBy(labels, ts[..|ts| - 1]), ts[|ts| - 1])
  }

  predicate Has(labels: set<Label>, role: Role) { labels * DefaultRoleLabels(role) != {} }

  /** No role but this one finds its labels on the issue. */
  ghost predicate OnlyFor(labels: set<Label>, role: Role) {
    forall q: Role :: q != role ==> !Has(labels, q)
  }

  lemma RoleLabelsApart(p: Role, q: Role)
    requires p != q
    ensures DefaultRoleLabels(p) !! DefaultRoleLabels(q)
  {}

  lemma TerminalApart(q: Role)
    ensures DefaultRoleLabels(q) !! TERMINAL_LABELS
  {}

  /** The transition table: add the successor's labels, take the role's own away, or add a terminal label. */
  lemma CompletionLabels(role: Role, status: FinalStatus)
    requires role in FOUR && status in RoleFinalStatuses(role)
    ensures var spec := ResolveTransition(role, status);
      && spec.Some?
      && (spec.value.nextRole.Some? ==>
            spec.value.nextRole.value in FOUR && spec.value.nextRole.value != role && role != Release
            && spec.value.addLabels == DefaultRoleLabels(spec.value.nextRole.value)
            && spec.value.removeLabels == DefaultRoleLabels(role))
      && (spec.value.nextRole.None? ==>
            spec.value.addLabels <= TERMINAL_LABELS && spec.value.addLabels != {}
            && (spec.value.removeLabels == {} || spec.value.removeLabels == DefaultRoleLabels(role)))
  {}

  // ----- steps ---------------------------------------------------------------------------

  predicate DefaultLabels(config: Config, role: Role, issue: WorkItem) {
    config.role == role && config.roleLabels == DefaultRoleLabels(role) && config.terminalLabels == TERMINAL_LABELS
    && config.roleAssignees * issue.assignees == {}
  }

  /** A fetched item that has the issue's key is the issue, with the labels it has by then. */
  predicate FetchesIssue(input: Input, issue: WorkItem, labels: set<Label>, role: Role) {
    input.fetched.Some? ==>
      forall j :: 0 <= j < |input.fetched.value| && AssignmentKey(input.fetched.value[j], role) == AssignmentKey(issue, role) ==>
        input.fetched.value[j].labels == labels && input.fetched.value[j].assignees == issue.assignees
  }

  /** The transition rows a command has asked the provider to apply to the issue, kept or rolled back. */
  ghost function Asked(s: System, role: Role, command: Command): seq<Transition>
    requires role in s.dbs
  {
    Added(s.dbs[role], ToldBy(s.dbs[role], command), KeyOf(s, role))
  }

  ghost function Next(s: System, role: Role, command: Command): System
    requires role in s.dbs
  {
    s.(dbs := s.dbs[role := Outcome(s.dbs[role], command)], labels := RelabelledBy(s.labels, Asked(s, role, command)))
  }

  ghost predicate MayStep(s: System, role: Role, command: Command, maxAttempts: nat) {
    && role in FOUR && role in s.dbs
    && Permitted(s.dbs[role], command, maxAttempts) && DefaultStatuses(s.dbs[role], command) && RunsAs(command, role)
    && ((command.RunOnce? || command.ReconcileOnly?) ==> DefaultLabels(command.config, role, s.issue))
    && (command.RunOnce? ==> FetchesIssue(command.input, s.issue, Next(s, role, command).labels, role))
  }

  // ----- the token -----------------------------------------------------------------------

  ghost predicate DbsHold(s: System, maxAttempts: nat) {
    s.dbs.Keys == FOUR
    && forall r :: r in FOUR ==> Inv(s.dbs[r], maxAttempts) && Linked(s.dbs[r]) && RoleLocal(s.dbs[r], r)
  }

  predicate Busy(stage: Stage) { stage == Open || stage == Halted }

  /** The token: some one role's labels at most, and whoever has unfinished work holds them. */
  ghost predicate Token(s: System) {
    s.dbs.Keys == FOUR
    && (exists r :: r in FOUR && OnlyFor(s.labels, r))
    && (forall r :: r in FOUR && Busy(StageOfRole(s, r)) ==> OnlyFor(s.labels, r) && Has(s.labels, r))
  }

  /** What one assignment's move does to the labels. */
  lemma MoveLabels(labels: set<Label>, before: Stage, after: Stage, written: seq<Transition>, key: string, role: Role)
    requires role in FOUR && Moves(before, after, written, key, role)
    requires Busy(before) ==> OnlyFor(labels, role) && Has(labels, role)
    ensures var next := RelabelledBy(labels, written);
      && (before != Open ==> next == labels)
      && (before == Open && after != Stage.Finished ==> OnlyFor(next, role) && Has(next, role))
      && (before == Open ==> exists r :: r in FOUR && OnlyFor(next, r))
  {
    if written != [] {
      var t := written[0];
      assert RelabelledBy(labels, written) == Relabelled(labels, t) by {
        assert written[..0] == [];
        assert RelabelledBy(labels, []) == labels;
      }
      if after == Stage.Finished && IsCompletion(t, key, role) {
        CompletionMoves(labels, t, key, role);
      } else {
        BlockedLabels(labels, role);
        hide Has;
      }
    }
    if before == Open && after == Stage.Finished && written == [] {
      hide Has;
    }
  }

  /** Terminal labels change nobody's claim. */
  lemma TerminalLabels(labels: set<Label>, add: set<Label>, role: Role)
    requires OnlyFor(labels, role) && Has(labels, role) && add <= TERMINAL_LABELS
    ensures OnlyFor(labels + add, role) && Has(labels + add, role)
  {
    forall q: Role ensures Has(labels + add, q) == Has(labels, q) {
      TerminalApart(q);
      hide DefaultRoleLabels;
      assert (labels + add) * DefaultRoleLabels(q) == labels * DefaultRoleLabels(q);
    }
  }

  lemma BlockedLabels(labels: set<Label>, role: Role)
    requires OnlyFor(labels, role) && Has(labels, role)
    ensures OnlyFor(labels + {HermesBlocked}, role) && Has(labels + {HermesBlocked}, role)
  {
    TerminalLabels(labels, {HermesBlocked}, role);
  }

  /** An applied completion that takes labels off the issue. */
  predicate TakesAway(t: Transition) {
    t.providerApplied && t.mark.Final?
    && var spec := ResolveTransition(t.fromRole, t.mark.status); spec.Some? && spec.value.removeLabels != {}
  }

  predicate TakesLabels(ts: seq<Transition>) { exists i :: 0 <= i < |ts| && TakesAway(ts[i]) }

  /** Rolled back, a role is open again; it still has its labels exactly when no row took them. */
  lemma RolledBackLabels(labels: set<Label>, after: Stage, written: seq<Transition>, key: string, role: Role)
    requires role in FOUR && Moves(Open, after, written, key, role) && OnlyFor(labels, role) && Has(labels, role)
    ensures var next := RelabelledBy(labels, written);
      && (TakesLabels(written) ==> !Has(next, role))
      && (!TakesLabels(written) ==> OnlyFor(next, role) && Has(next, role))
  {
    if written != [] {
      var t := written[0];
      assert written[..0] == [] && RelabelledBy(labels, []) == labels;
      assert RelabelledBy(labels, written) == Relabelled(labels, t);
      assert TakesLabels(written) <==> TakesAway(t);
      hide Has, TakesLabels;
      if after == Stage.Finished {
        CompletionTakes(labels, t, key, role);
      } else {
        BlockedLabels(labels, role);
      }
    }
  }

  lemma CompletionTakes(labels: set<Label>, t: Transition, key: string, role: Role)
    requires role in FOUR && IsCompletion(t, key, role) && OnlyFor(labels, role) && Has(labels, role)
    ensures var next := Relabelled(labels, t);
      && (TakesAway(t) ==> !Has(next, role))
      && (!TakesAway(t) ==> OnlyFor(next, role) && Has(next, role))
  {
    CompletionLabels(role, t.mark.status);
    var spec := ResolveTransition(role, t.mark.status).value;
    hide ResolveTransition, RoleFinalStatuses;
    if TakesAway(t) {
      if spec.nextRole.Some? { RoleLabelsApart(spec.nextRole.value, role); } else { TerminalApart(role); }
      hide DefaultRoleLabels;
      StayOut(labels, spec.addLabels, spec.removeLabels, DefaultRoleLabels(role));
    } else if t.providerApplied {
      RoleHasLabels(role);
      hide DefaultRoleLabels;
      assert spec.removeLabels == {};
      assert Relabelled(labels, t) == labels + spec.addLabels;
      TerminalLabels(labels, spec.addLabels, role);
    }
  }

  lemma RoleHasLabels(role: Role)
    ensures DefaultRoleLabels(role) != {}
  {}

  lemma StayOut(labels: set<Label>, add: set<Label>, remove: set<Label>, d: set<Label>)
    requires add !! d && (labels * d == {} || d <= remove)
    ensures (labels + add - remove) * d == {}
  {}

  lemma CompletionMoves(labels: set<Label>, t: Transition, key: string, role: Role)
    requires role in FOUR && IsCompletion(t, key, role) && OnlyFor(labels, role)
    ensures exists r :: r in FOUR && OnlyFor(Relabelled(labels, t), r)
  {
    CompletionLabels(role, t.mark.status);
    var spec := ResolveTransition(role, t.mark.status).value;
    var next := Relabelled(labels, t);
    hide ResolveTransition, RoleFinalStatuses;
    var holder := if t.providerApplied && spec.nextRole.Some? then spec.nextRole.value else role;
    forall q: Role | q != holder ensures !Has(next, q) {
      assert q != role ==> !Has(labels, q);
      if t.providerApplied {
        TerminalApart(q);
        RoleLabelsApart(holder, q);
        hide DefaultRoleLabels;
        StayOut(labels, spec.addLabels, spec.removeLabels, DefaultRoleLabels(q));
      }
    }
    assert OnlyFor(next, holder);
  }

  lemma StepParts(s: System, role: Role, command: Command, maxAttempts: nat)
    requires MayStep(s, role, command, maxAttempts)
    ensures role in FOUR && role in s.dbs && RunsAs(command, role)
    ensures Permitted(s.dbs[role], command, maxAttempts) && DefaultStatuses(s.dbs[role], command)
  {
    hide Permitted, DefaultStatuses, RunsAs, Next;
  }

  lemma DbsKeep(s: System, role: Role, command: Command, maxAttempts: nat)
    requires DbsHold(s, maxAttempts) && maxAttempts > 0 && MayStep(s, role, command, maxAttempts)
    ensures DbsHold(Next(s, role, command), maxAttempts)
  {
    hide Inv, Linked, Outcome, Permitted, DefaultStatuses, MayStep, RunsAs, RoleLocal, Asked, RelabelledBy;
    StepParts(s, role, command, maxAttempts);
    CommandKeeps(s.dbs[role], command, maxAttempts);
    StaysLocal(s.dbs[role], command, maxAttempts, role);
  }

  lemma StaysLocal(db: Db, command: Command, maxAttempts: nat, role: Role)
    requires Inv(db, maxAttempts) && Linked(db) && RoleLocal(db, role) && maxAttempts > 0
    requires Permitted(db, command, maxAttempts) && DefaultStatuses(db, command) && RunsAs(command, role)
    ensures RoleLocal(Outcome(db, command), role)
  {
    hide Inv, Linked, Outcome, Permitted, DefaultStatuses, MovedBy;
    forall key | key in Outcome(db, command).assignments ensures Outcome(db, command).assignments[key].role == role {
      CommandMoves(db, command, maxAttempts, key, role);
    }
  }

  /** A role's assignment opens from nothing only while its own labels are there and no terminal one is. */
  lemma OpenedWithLabels(s: System, role: Role, command: Command, maxAttempts: nat)
    requires MayStep(s, role, command, maxAttempts) && OpenedBy(command, KeyOf(s, role))
    ensures var labels := Next(s, role, command).labels;
      Has(labels, role) && labels * TERMINAL_LABELS == {}
  {
    hide Next, Permitted, DefaultStatuses, AssignmentKey;
    var items := command.input.fetched.value;
    var j :| 0 <= j < |items| && Opens(items[j], command.config, KeyOf(s, role));
    assert items[j].labels == Next(s, role, command).labels;
  }

  /** What a step must respect, whoever takes it, for the token to stay whole. */
  ghost predicate KeepsToken(labels: set<Label>, nextLabels: set<Label>, before: Stage, after: Stage, role: Role) {
    && (before == Absent ==> after == Absent || after == Open)
    && (before == Stage.Finished ==> after == Stage.Finished)
    && (before != Open ==> nextLabels == labels)
    && (before == Absent && after == Open ==> Has(nextLabels, role))
    && (before == Open && Busy(after) ==> OnlyFor(nextLabels, role) && Has(nextLabels, role))
    && (before == Open ==> exists r :: r in FOUR && OnlyFor(nextLabels, r))
  }

  lemma TokenStep(s: System, next: System, role: Role)
    requires Token(s) && role in FOUR && next.dbs.Keys == FOUR
    requires forall q :: q in FOUR && q != role ==> StageOfRole(next, q) == StageOfRole(s, q)
    requires KeepsToken(s.labels, next.labels, StageOfRole(s, role), StageOfRole(next, role), role)
    ensures Token(next)
  {
    hide Has, StageOfRole;
    var before := StageOfRole(s, role);
    if before == Open {
      forall q | q in FOUR && Busy(StageOfRole(next, q)) ensures q == role {
        assert q != role ==> OnlyFor(s.labels, q) && Has(s.labels, q);
      }
    } else {
      var r :| r in FOUR && OnlyFor(s.labels, r);
      assert Has(s.labels, role) ==> r == role;
      forall q | q in FOUR && Busy(StageOfRole(next, q)) ensures OnlyFor(next.labels, q) && Has(next.labels, q) {
        assert q != role ==> Busy(StageOfRole(s, q));
      }
    }
  }

  lemma CommittedKeepsToken(s: System, role: Role, command: Command, maxAttempts: nat)
    requires DbsHold(s, maxAttempts) && maxAttempts > 0 && MayStep(s, role, command, maxAttempts) && Token(s)
    requires Commits(s.dbs[role], command)
    ensures var next := Next(s, role, command);
      KeepsToken(s.labels, next.labels, StageOfRole(s, role), StageOfRole(next, role), role)
  {
    hide Inv, Linked, Outcome, Permitted, DefaultStatuses, MayStep, RunsAs, RoleLocal, AssignmentKey, OpenedBy, Moves, Has, RelabelledBy,
         StageIn, ToldBy, Commits;
    StepParts(s, role, command, maxAttempts);
    var db, key := s.dbs[role], KeyOf(s, role);
    var next := Next(s, role, command);
    CommandMoves(db, command, maxAttempts, key, role);
    CommittedRows(db, command);
    assert Asked(s, role, command) == Added(db, Outcome(db, command), key);
    var before, after := StageOfRole(s, role), StageOfRole(next, role);
    MoveLabels(s.labels, before, after, Added(db, Outcome(db, command), key), key, role);
    if before == Absent && after == Open { OpenedWithLabels(s, role, command, maxAttempts); }
    StageMoves(before, after, Added(db, Outcome(db, command), key), key, role);
  }

  lemma StageMoves(before: Stage, after: Stage, written: seq<Transition>, key: string, role: Role)
    requires Moves(before, after, written, key, role)
    ensures before == Absent ==> after == Absent || after == Open
    ensures before == Stage.Finished ==> after == Stage.Finished
    ensures before == Halted ==> Busy(after)
    ensures before == Open ==> after != Absent
  {}

  /** A committed command never splits the token. */
  lemma {:induction false} TokenKept(s: System, role: Role, command: Command, maxAttempts: nat)
    requires DbsHold(s, maxAttempts) && maxAttempts > 0 && MayStep(s, role, command, maxAttempts) && Token(s)
    requires Commits(s.dbs[role], command)
    ensures Token(Next(s, role, command))
  {
    hide Inv, Linked, Outcome, Permitted, DefaultStatuses, AssignmentKey, KeepsToken, RelabelledBy, StageIn, MayStep, RoleLocal, RunsAs,
         ToldBy, Commits, Asked;
    CommittedKeepsToken(s, role, command, maxAttempts);
    StepParts(s, role, command, maxAttempts);
    TokenStep(s, Next(s, role, command), role);
  }

  /** Rolled back, every database is as it was; only the labels may have moved, and only under an open assignment. */
  lemma RolledBackStep(s: System, role: Role, command: Command, maxAttempts: nat)
    requires DbsHold(s, maxAttempts) && maxAttempts > 0 && MayStep(s, role, command, maxAttempts) && Token(s)
    requires !Commits(s.dbs[role], command)
    ensures var next, asked := Next(s, role, command), Asked(s, role, command);
      && next.dbs == s.dbs
      && (TakesLabels(asked) ==> StageOfRole(s, role) == Open && !Has(next.labels, role))
      && (!TakesLabels(asked) && StageOfRole(s, role) == Open ==> OnlyFor(next.labels, role) && Has(next.labels, role))
      && (!TakesLabels(asked) && StageOfRole(s, role) != Open ==> next.labels == s.labels)
  {
    hide Inv, Linked, Outcome, Permitted, DefaultStatuses, MayStep, RunsAs, RoleLocal, AssignmentKey, Moves, Has, StageIn, ToldBy, Commits;
    StepParts(s, role, command, maxAttempts);
    var db, key := s.dbs[role], KeyOf(s, role);
    RolledBack(db, command);
    ToldMoves(db, command, maxAttempts, key, role);
    var before, after := StageOfRole(s, role), StageIn(ToldBy(db, command), key);
    var asked := Asked(s, role, command);
    assert s.dbs[role := db] == s.dbs;
    if before == Open {
      RolledBackLabels(s.labels, after, asked, key, role);
    } else {
      NothingAsked(before, after, asked, key, role);
    }
  }

  lemma NothingAsked(before: Stage, after: Stage, written: seq<Transition>, key: string, role: Role)
    requires Moves(before, after, written, key, role) && before != Open
    ensures written == []
  {}

  /** A command that commits, or that took no labels off the issue before it was rolled back. */
  ghost predicate Safe(s: System, role: Role, command: Command)
    requires role in s.dbs
  {
    Commits(s.dbs[role], command) || !TakesLabels(Asked(s, role, command))
  }

  /**
   The token survives a step exactly when the command commits or took no labels off the issue. A handoff
   rolled back leaves its role with an open assignment and without its labels.
   */
  lemma {:induction false} TokenExactly(s: System, role: Role, command: Command, maxAttempts: nat)
    requires DbsHold(s, maxAttempts) && maxAttempts > 0 && MayStep(s, role, command, maxAttempts) && Token(s)
    ensures Token(Next(s, role, command)) <==> Safe(s, role, command)
  {
    hide Inv, Linked, Outcome, Permitted, DefaultStatuses, AssignmentKey, RelabelledBy, StageIn, MayStep, RoleLocal, RunsAs,
         ToldBy, Commits, Asked, TakesLabels, Has;
    StepParts(s, role, command, maxAttempts);
    var next := Next(s, role, command);
    if Commits(s.dbs[role], command) {
      TokenKept(s, role, command, maxAttempts);
    } else {
      RolledBackStep(s, role, command, maxAttempts);
      hide Next;
      if TakesLabels(Asked(s, role, command)) {
        assert Busy(StageOfRole(next, role));
      } else if StageOfRole(s, role) == Open {
        forall q | q in FOUR && Busy(StageOfRole(next, q)) ensures q == role {
          assert StageOfRole(next, q) == StageOfRole(s, q);
        }
      } else {
        assert next == s.(labels := next.labels);
      }
    }
  }

  // ----- the condition on what a command is given ----------------------------------------

  /** The row is done with a status whose transition takes labels off, and the provider call goes through. */
  predicate HandsOver(row: ActiveRow, n: News, config: Config, now: int) {
    var v := Judge(row, n.finding, config, now);
    && v.Ended? && TakesLabels(Rows(row, v.ending, n.adapterRaises, config))
  }

  /** Some run of the issue hands over, and no lookup before it raises. */
  predicate HandsOverIn(db: Db, input: Input, config: Config, key: string) {
    var rows := ActiveRows(db);
    var news := NewsFor(rows, input.replies, config);
    exists j :: 0 <= j < |rows| && rows[j].run.assignmentKey == key && HandsOver(rows[j], news[j], config, input.now)
                && Undisturbed(rows, news, j, config, input.now)
  }

  lemma AddedRows(db: Db, next: Db, row: ActiveRow, n: News, config: Config, now: int)
    requires EndedAs(db, next, row, n, config, now)
    ensures TakesLabels(Added(db, next, row.run.assignmentKey)) <==> HandsOver(row, n, config, now)
  {
    var key := row.run.assignmentKey;
    var v := Judge(row, n.finding, config, now);
    if v.Ended? {
      assert Added(db, next, key) == Rows(row, v.ending, n.adapterRaises, config) by { hide Judge, Rows, RowsFor; }
      hide Judge, Rows, RowsFor, TakesLabels;
    } else {
      assert Added(db, next, key) == [] by { hide Judge, Rows, RowsFor; }
      hide Judge, Rows, RowsFor;
    }
  }

  /** What was taken off the issue can be read off the answers, before anything is written. */
  lemma {:induction false} TakesLabelsExactly(db: Db, input: Input, config: Config, key: string)
    requires Inv(db, config.maxAttempts)
    ensures TakesLabels(Added(db, Told(db, NewsFor(ActiveRows(db), input.replies, config), config, input.now), key))
      <==> HandsOverIn(db, input, config, key)
  {
    hide Inv, ReconcileUpTo, ActiveRows, NewsFor, Reach, Judge, EndedAs, Untouched, HandsOver, RowsFor, Added, TakesLabels,
         DistinctKeys, Undisturbed;
    var rows := ActiveRows(db);
    var news := NewsFor(rows, input.replies, config);
    var n := Reach(db, rows, news, |rows|, config, input.now);
    var told := Told(db, news, config, input.now);
    RowsStartAhead(db, config.maxAttempts);
    PassOnKey(db, rows, news, n, config, input.now, key);
    if j :| 0 <= j < |rows| && rows[j].run.assignmentKey == key {
      OneRow(rows, j, key);
      ReachExactly(db, rows, news, |rows|, j, config, input.now);
      if HandsOver(rows[j], news[j], config, input.now) && Undisturbed(rows, news, j, config, input.now) {
        HandsOverReached(db, rows, news, j, config, input.now);
      }
      if j < n {
        AddedRows(db, told, rows[j], news[j], config, input.now);
      } else {
        UntouchedTakes(db, told, key);
      }
    } else {
      UntouchedTakes(db, told, key);
    }
  }

  /** A row that hands over does not raise, so when nothing before it does it is reached. */
  lemma HandsOverReached(db: Db, rows: seq<ActiveRow>, news: seq<News>, j: nat, config: Config, now: int)
    requires j < |rows| == |news| && HandsOver(rows[j], news[j], config, now) && Undisturbed(rows, news, j, config, now)
    ensures j < Reach(db, rows, news, |rows|, config, now)
  {
    ReachExactly(db, rows, news, |rows|, j + 1, config, now);
    hide Judge, Reach;
  }

  lemma OneRow(rows: seq<ActiveRow>, j: nat, key: string)
    requires DistinctKeys(rows, 0) && j < |rows| && rows[j].run.assignmentKey == key
    ensures forall i :: 0 <= i < |rows| && rows[i].run.assignmentKey == key ==> i == j
  {}

  lemma UntouchedTakes(db: Db, next: Db, key: string)
    requires Untouched(db, next, key)
    ensures !TakesLabels(Added(db, next, key))
  {
    hide RowsFor;
    assert Added(db, next, key) == [];
  }

  /**
   For a tick, in terms of what it is given: the token survives exactly when every picked row can be
   started after an undisturbed reconciliation and fetch, or no run of the issue hands over.
   */
  lemma {:induction false} TickTokenExactly(s: System, role: Role, input: Input, config: Config, picked: seq<string>)
    requires DbsHold(s, config.maxAttempts) && config.maxAttempts > 0 && Token(s)
    requires MayStep(s, role, RunOnce(input, config, picked), config.maxAttempts)
    ensures Token(Next(s, role, RunOnce(input, config, picked))) <==>
      var d := Prepared(s.dbs[role], input, config);
      || (d.Some? && Startable(d.value, picked, input.submissions, |picked|))
      || !HandsOverIn(s.dbs[role], input, config, KeyOf(s, role))
  {
    var command := RunOnce(input, config, picked);
    hide Inv, Linked, Outcome, Permitted, DefaultStatuses, AssignmentKey, MayStep, RoleLocal, RunsAs, Token, Next, Prepared, Startable,
         Tick, TakesLabels, HandsOverIn, Told, NewsFor, ActiveRows, Added;
    StepParts(s, role, command, config.maxAttempts);
    TokenExactly(s, role, command, config.maxAttempts);
    TickCommits(s.dbs[role], input, config, picked);
    TakesLabelsExactly(s.dbs[role], input, config, KeyOf(s, role));
  }

  // ----- whole histories -----------------------------------------------------------------

  datatype Step = Step(role: Role, command: Command)

  ghost predicate MayRun(s: System, steps: seq<Step>, maxAttempts: nat)
    decreases steps
  {
    steps != [] ==>
      && MayStep(s, steps[0].role, steps[0].command, maxAttempts)
      && MayRun(Next(s, steps[0].role, steps[0].command), steps[1..], maxAttempts)
  }

  ghost function AfterSteps(s: System, steps: seq<Step>, maxAttempts: nat): System
    requires MayRun(s, steps, maxAttempts)
    decreases steps
  {
    if steps == [] then s else AfterSteps(Next(s, steps[0].role, steps[0].command), steps[1..], maxAttempts)
  }

  function RowsOf(s: System, role: Role): seq<Transition>
    requires role in s.dbs
  {
    RowsFor(s.dbs[role].transitions, KeyOf(s, role))
  }

  function Completions(ts: seq<Transition>): nat {
    if ts == [] then 0 else Completions(ts[..|ts| - 1]) + if ts[|ts| - 1].mark.Final? then 1 else 0
  }

  function Handoffs(ts: seq<Transition>): nat {
    if ts == [] then 0 else
    Handoffs(ts[..|ts| - 1]) + if ts[|ts| - 1].mark.Final? && ts[|ts| - 1].nextRole.Some? then 1 else 0
  }

  /** A role has completed once if it is Finished, and never otherwise; release hands to nobody. */
  predicate Tallied(ts: seq<Transition>, stage: Stage, role: Role) {
    && Completions(ts) == (if stage == Stage.Finished then 1 else 0)
    && Handoffs(ts) <= (if role == Release then 0 else Completions(ts))
  }

  ghost predicate Once(s: System) {
    s.dbs.Keys == FOUR && forall r :: r in FOUR ==> Tallied(RowsOf(s, r), StageOfRole(s, r), r)
  }

  lemma TallyOne(ts: seq<Transition>, t: Transition)
    ensures Completions(ts + [t]) == Completions(ts) + if t.mark.Final? then 1 else 0
    ensures Handoffs(ts + [t]) == Handoffs(ts) + if t.mark.Final? && t.nextRole.Some? then 1 else 0
  {
    assert (ts + [t])[..|ts|] == ts;
  }

  lemma MoveTallies(ts: seq<Transition>, before: Stage, after: Stage, written: seq<Transition>, key: string, role: Role)
    requires role in FOUR && Tallied(ts, before, role) && Moves(before, after, written, key, role)
    ensures Tallied(ts + written, after, role)
  {
    hide RoleFinalStatuses, ResolveTransition, Completions, Handoffs, MaySkip;
    NoSkip(role);
    if written == [] {
      assert ts + written == ts;
    } else {
      assert ts + written == ts + [written[0]];
      TallyOne(ts, written[0]);
      if after == Stage.Finished { CompletionLabels(role, written[0].mark.status); }
    }
  }

  lemma NoSkip(role: Role)
    requires role in FOUR
    ensures !MaySkip(role)
  {
    forall s | s in RoleFinalStatuses(role) ensures ResolveTransition(role, s).Some? {
      CompletionLabels(role, s);
    }
  }

  lemma {:induction false} OnceKept(s: System, role: Role, command: Command, maxAttempts: nat)
    requires DbsHold(s, maxAttempts) && maxAttempts > 0 && MayStep(s, role, command, maxAttempts) && Once(s)
    ensures Once(Next(s, role, command))
  {
    hide Inv, Linked, Outcome, Permitted, DefaultStatuses, MayStep, RunsAs, RoleLocal, AssignmentKey, OpenedBy, Moves, RelabelledBy,
         StageIn, RowsFor, Tallied, Asked, ToldBy;
    StepParts(s, role, command, maxAttempts);
    var db, key := s.dbs[role], KeyOf(s, role);
    var next := Next(s, role, command);
    CommandMoves(db, command, maxAttempts, key, role);
    var written := Added(db, Outcome(db, command), key);
    assert RowsOf(next, role) == RowsOf(s, role) + written;
    MoveTallies(RowsOf(s, role), StageOfRole(s, role), StageOfRole(next, role), written, key, role);
    assert forall q :: q in FOUR && q != role ==> RowsOf(next, q) == RowsOf(s, q) && StageOfRole(next, q) == StageOfRole(s, q);
  }

  ghost predicate Start(s: System) {
    s.dbs.Keys == FOUR && (forall r :: r in FOUR ==> s.dbs[r] == EMPTY) && exists r :: r in FOUR && OnlyFor(s.labels, r)
  }

  lemma StartHolds(s: System, maxAttempts: nat)
    requires Start(s)
    ensures DbsHold(s, maxAttempts) && Token(s) && Once(s)
  {
    EmptyHolds(maxAttempts);
    hide Inv, Linked, Has, AssignmentKey;
  }

  ghost predicate Kept(s: System, maxAttempts: nat) { DbsHold(s, maxAttempts) && Once(s) }

  lemma {:induction false} StepsKeep(s: System, steps: seq<Step>, maxAttempts: nat)
    requires Kept(s, maxAttempts) && maxAttempts > 0 && MayRun(s, steps, maxAttempts)
    ensures Kept(AfterSteps(s, steps, maxAttempts), maxAttempts)
    decreases steps
  {
    if steps != [] {
      hide MayStep, Next, DbsHold, Once;
      DbsKeep(s, steps[0].role, steps[0].command, maxAttempts);
      OnceKept(s, steps[0].role, steps[0].command, maxAttempts);
      StepsKeep(Next(s, steps[0].role, steps[0].command), steps[1..], maxAttempts);
    }
  }

  /** The token is whole at the start and after every step. */
  ghost predicate AlwaysToken(s: System, steps: seq<Step>, maxAttempts: nat)
    requires MayRun(s, steps, maxAttempts)
    decreases steps
  {
    Token(s) && (steps != [] ==> AlwaysToken(Next(s, steps[0].role, steps[0].command), steps[1..], maxAttempts))
  }

  ghost predicate AllSafe(s: System, steps: seq<Step>, maxAttempts: nat)
    requires MayRun(s, steps, maxAttempts)
    decreases steps
  {
    steps != [] ==>
      && steps[0].role in s.dbs && Safe(s, steps[0].role, steps[0].command)
      && AllSafe(Next(s, steps[0].role, steps[0].command), steps[1..], maxAttempts)
  }

  lemma StepHasDb(s: System, step: Step, maxAttempts: nat)
    requires MayStep(s, step.role, step.command, maxAttempts)
    ensures step.role in s.dbs
  {
    StepParts(s, step.role, step.command, maxAttempts);
    hide MayStep;
  }

  lemma {:induction false} AlwaysTokenExactly(s: System, steps: seq<Step>, maxAttempts: nat)
    requires DbsHold(s, maxAttempts) && Token(s) && maxAttempts > 0 && MayRun(s, steps, maxAttempts)
    ensures AlwaysToken(s, steps, maxAttempts) <==> AllSafe(s, steps, maxAttempts)
    ensures AlwaysToken(s, steps, maxAttempts) ==> Token(AfterSteps(s, steps, maxAttempts))
    decreases steps
  {
    if steps != [] {
      hide MayStep, Next, DbsHold, Token, Safe;
      StepHasDb(s, steps[0], maxAttempts);
      var next := Next(s, steps[0].role, steps[0].command);
      DbsKeep(s, steps[0].role, steps[0].command, maxAttempts);
      TokenExactly(s, steps[0].role, steps[0].command, maxAttempts);
      if Token(next) {
        AlwaysTokenExactly(next, steps[1..], maxAttempts);
      } else {
        NeverToken(next, steps[1..], maxAttempts);
      }
    }
  }

  lemma NeverToken(s: System, steps: seq<Step>, maxAttempts: nat)
    requires MayRun(s, steps, maxAttempts) && !Token(s)
    ensures !AlwaysToken(s, steps, maxAttempts)
  {
    hide Token, MayRun;
  }

  function AllHandoffs(s: System): nat
    requires s.dbs.Keys == FOUR
  {
    Handoffs(RowsOf(s, Planner)) + Handoffs(RowsOf(s, Builder)) + Handoffs(RowsOf(s, Reviewer)) + Handoffs(RowsOf(s, Release))
  }

  /**
   Whatever the four containers do, in any order and whatever their gateways answer: every role completes
   at most once for the revision and there are at most three handoffs. Throughout, the issue's role labels
   are one role's and unfinished work belongs to that role, exactly when no command is rolled back after
   it took labels off the issue.
   */
  lemma {:induction false} SingleToken(s: System, steps: seq<Step>, maxAttempts: nat)
    requires Start(s) && maxAttempts > 0 && MayRun(s, steps, maxAttempts)
    ensures var end := AfterSteps(s, steps, maxAttempts);
      && Once(end) && AllHandoffs(end) <= 3
      && (AlwaysToken(s, steps, maxAttempts) <==> AllSafe(s, steps, maxAttempts))
      && (AllSafe(s, steps, maxAttempts) ==> Token(end))
  {
    hide MayRun, DbsHold, Token, AlwaysToken, AllSafe;
    StartHolds(s, maxAttempts);
    StepsKeep(s, steps, maxAttempts);
    AlwaysTokenExactly(s, steps, maxAttempts);
    AtMostThree(AfterSteps(s, steps, maxAttempts));
  }

  lemma AtMostThree(s: System)
    requires Once(s)
    ensures AllHandoffs(s) <= 3
  {
    hide StageOfRole, RowsOf;
    assert Tallied(RowsOf(s, Planner), StageOfRole(s, Planner), Planner);
    assert Tallied(RowsOf(s, Builder), StageOfRole(s, Builder), Builder);
    assert Tallied(RowsOf(s, Reviewer), StageOfRole(s, Reviewer), Reviewer);
    assert Tallied(RowsOf(s, Release), StageOfRole(s, Release), Release);
  }

  // ----- where it stops ------------------------------------------------------------------

  /** Nobody works on the issue, and nobody will: whoever has its labels has finished, or a terminal label is there. */
  ghost predicate Quiet(s: System) {
    s.dbs.Keys == FOUR
    && forall r :: r in FOUR ==>
         !Busy(StageOfRole(s, r)) && (Has(s.labels, r) && s.labels * TERMINAL_LABELS == {} ==> StageOfRole(s, r) == Stage.Finished)
  }

  lemma {:induction false} QuietStays(s: System, role: Role, command: Command, maxAttempts: nat)
    requires DbsHold(s, maxAttempts) && maxAttempts > 0 && MayStep(s, role, command, maxAttempts) && Token(s) && Quiet(s)
    ensures var next := Next(s, role, command);
      Quiet(next) && next.labels == s.labels && (forall r :: r in FOUR ==> StageOfRole(next, r) == StageOfRole(s, r))
  {
    hide Inv, Linked, Outcome, Permitted, DefaultStatuses, MayStep, RunsAs, RoleLocal, AssignmentKey, OpenedBy, RelabelledBy, StageIn,
         ToldBy, Commits, Asked, TakesLabels, Has;
    StepParts(s, role, command, maxAttempts);
    var next := Next(s, role, command);
    if Commits(s.dbs[role], command) {
      CommittedKeepsToken(s, role, command, maxAttempts);
      if StageOfRole(s, role) == Absent && StageOfRole(next, role) == Open {
        CommandMoves(s.dbs[role], command, maxAttempts, KeyOf(s, role), role);
        OpenedWithLabels(s, role, command, maxAttempts);
      }
    } else {
      RolledBackStep(s, role, command, maxAttempts);
    }
  }

  /** A committed reviewer's command whose completion asked for changes, and the provider made them. */
  ghost predicate RequestsChanges(s: System, command: Command) {
    && Reviewer in s.dbs && Commits(s.dbs[Reviewer], command)
    && var rows := Asked(s, Reviewer, command);
       |rows| == 1 && rows[0].mark == Final(RequestChanges) && rows[0].providerApplied
  }

  lemma RequestMoves(before: Stage, after: Stage, rows: seq<Transition>, key: string)
    requires Moves(before, after, rows, key, Reviewer) && |rows| == 1 && rows[0].mark.Final?
    ensures before == Open && after == Stage.Finished && IsCompletion(rows[0], key, Reviewer)
  {
    hide RoleFinalStatuses, ResolveTransition;
  }

  /** The labels are the builder's alone, the reviewer has finished, and everything else is as it was. */
  lemma {:induction false} AfterChangesRequested(s: System, command: Command, maxAttempts: nat)
    requires DbsHold(s, maxAttempts) && maxAttempts > 0 && MayStep(s, Reviewer, command, maxAttempts) && Token(s)
    requires RequestsChanges(s, command)
    ensures var next := Next(s, Reviewer, command);
      && Has(next.labels, Builder) && OnlyFor(next.labels, Builder) && next.labels * TERMINAL_LABELS == s.labels * TERMINAL_LABELS
      && StageOfRole(s, Reviewer) == Open && next.dbs.Keys == FOUR && StageOfRole(next, Reviewer) == Stage.Finished
      && (forall r :: r in FOUR && r != Reviewer ==> StageOfRole(next, r) == StageOfRole(s, r))
  {
    hide Inv, Linked, Outcome, Permitted, DefaultStatuses, MayStep, RunsAs, RoleLocal, AssignmentKey, OpenedBy, StageIn, RowsFor, Moves,
         ToldBy, Commits, Added, RelabelledBy, Has;
    StepParts(s, Reviewer, command, maxAttempts);
    var db, key := s.dbs[Reviewer], KeyOf(s, Reviewer);
    var next := Next(s, Reviewer, command);
    CommandMoves(db, command, maxAttempts, key, Reviewer);
    CommittedRows(db, command);
    var rows := Asked(s, Reviewer, command);
    assert rows == Added(db, Outcome(db, command), key) by { SameAdded(db, Outcome(db, command), ToldBy(db, command), key); }
    RequestMoves(StageOfRole(s, Reviewer), StageOfRole(next, Reviewer), rows, key);
    RequestedLabels(s.labels, rows, key);
  }

  lemma SameAdded(db: Db, next: Db, told: Db, key: string)
    requires next.transitions == told.transitions
    ensures Added(db, next, key) == Added(db, told, key)
  {}

  /**
   A request for changes gives the builder its labels back. Nobody takes the issue up again exactly when
   the builder has finished this revision already, as its row stays, or a terminal label is there.
   */
  lemma {:induction false} ChangesRequestedStops(s: System, command: Command, maxAttempts: nat)
    requires DbsHold(s, maxAttempts) && maxAttempts > 0 && MayStep(s, Reviewer, command, maxAttempts) && Token(s)
    requires RequestsChanges(s, command)
    ensures Quiet(Next(s, Reviewer, command)) <==> StageOfRole(s, Builder) == Stage.Finished || s.labels * TERMINAL_LABELS != {}
  {
    hide Inv, Linked, MayStep, AssignmentKey, StageIn, Commits, Has, RequestsChanges, Next, DbsHold;
    AfterChangesRequested(s, command, maxAttempts);
    forall r | r in FOUR && r != Reviewer ensures !Busy(StageOfRole(s, r)) {
      assert Has(s.labels, Reviewer) && OnlyFor(s.labels, Reviewer);
    }
  }

  /** The committed tick saw the issue. */
  predicate SeesIssue(s: System, role: Role, command: Command) {
    command.RunOnce? && command.input.fetched.Some?
    && exists j :: 0 <= j < |command.input.fetched.value| && AssignmentKey(command.input.fetched.value[j], role) == KeyOf(s, role)
  }

  /** Whether a tick that sees the issue opens an absent assignment: the role's labels are there and no terminal one. */
  lemma {:induction false} SeenOpens(s: System, role: Role, command: Command, maxAttempts: nat)
    requires DbsHold(s, maxAttempts) && maxAttempts > 0 && MayStep(s, role, command, maxAttempts)
    requires Commits(s.dbs[role], command) && SeesIssue(s, role, command) && StageOfRole(s, role) == Absent
    ensures var next := Next(s, role, command);
      && next.labels == s.labels
      && (StageOfRole(next, role) == Open <==> Has(s.labels, role) && s.labels * TERMINAL_LABELS == {})
  {
    hide Inv, Linked, Outcome, Permitted, DefaultStatuses, RunsAs, RoleLocal, AssignmentKey, OpenedBy, RowsFor, Moves, ToldBy, Added,
         RelabelledBy, Tick, Prepared, IsSelection, Has;
    StepParts(s, role, command, maxAttempts);
    var db, key := s.dbs[role], KeyOf(s, role);
    ToldMoves(db, command, maxAttempts, key, role);
    NothingAsked(Absent, StageIn(ToldBy(db, command), key), Asked(s, role, command), key, role);
    var next := Next(s, role, command);
    assert next.labels == s.labels by { RelabelledByNone(s.labels); }
    CommittedTick(db, command, maxAttempts);
    TickOpens(db, command.input, command.config, command.picked, key);
    SeenMatches(s, role, command, next.labels);
    hide StageIn;
    assert Outcome(db, command) == Tick(db, command.input, command.config, command.picked).value by { TickOutcome(db, command); }
  }

  lemma CommittedTick(db: Db, command: Command, maxAttempts: nat)
    requires command.RunOnce? && Permitted(db, command, maxAttempts) && Commits(db, command)
    ensures var (input, config) := (command.input, command.config);
      && config.maxAttempts == maxAttempts && Tick(db, input, config, command.picked).Some? && Prepared(db, input, config).Some?
      && IsSelection(Prepared(db, input, config).value, config.role, config.maxStarts, input.now, command.picked)
  {
    TickPrepared(db, command.input, command.config, command.picked);
    hide Tick, Prepared, IsSelection;
  }

  lemma TickOutcome(db: Db, command: Command)
    requires command.RunOnce? && Commits(db, command)
    ensures Outcome(db, command) == Tick(db, command.input, command.config, command.picked).value
  {
    hide Tick;
  }

  lemma RelabelledByNone(labels: set<Label>)
    ensures RelabelledBy(labels, []) == labels
  {}

  lemma SeenMatches(s: System, role: Role, command: Command, labels: set<Label>)
    requires SeesIssue(s, role, command) && DefaultLabels(command.config, role, s.issue)
    requires FetchesIssue(command.input, s.issue, labels, role)
    ensures OpenedBy(command, KeyOf(s, role)) <==> Has(labels, role) && labels * TERMINAL_LABELS == {}
  {
    hide AssignmentKey, DefaultRoleLabels;
    var items := command.input.fetched.value;
    forall i | 0 <= i < |items| && AssignmentKey(items[i], role) == KeyOf(s, role)
      ensures Opens(items[i], command.config, KeyOf(s, role)) <==> Has(labels, role) && labels * TERMINAL_LABELS == {}
    {}
    var j :| 0 <= j < |items| && AssignmentKey(items[j], role) == KeyOf(s, role);
  }

  /**
   The other way round: after the request a committed builder's tick that sees the issue takes it up
   exactly when the builder had no assignment for the revision and no terminal label is there.
   */
  lemma {:induction false} ChangesRequestedRestarts(s: System, command: Command, tick: Command, maxAttempts: nat)
    requires DbsHold(s, maxAttempts) && maxAttempts > 0 && MayStep(s, Reviewer, command, maxAttempts) && Token(s)
    requires RequestsChanges(s, command)
    requires var next := Next(s, Reviewer, command);
      && MayStep(next, Builder, tick, maxAttempts) && Builder in next.dbs && Commits(next.dbs[Builder], tick) && SeesIssue(next, Builder, tick)
    ensures StageOfRole(Next(Next(s, Reviewer, command), Builder, tick), Builder) == Open
      <==> StageOfRole(s, Builder) == Absent && s.labels * TERMINAL_LABELS == {}
  {
    hide Inv, Linked, MayStep, AssignmentKey, StageIn, Commits, Has, RequestsChanges, DbsHold, Asked, Outcome, RelabelledBy, Moves;
    AfterChangesRequested(s, command, maxAttempts);
    DbsKeep(s, Reviewer, command, maxAttempts);
    var next := Next(s, Reviewer, command);
    assert Has(s.labels, Reviewer) && OnlyFor(s.labels, Reviewer);
    assert !Busy(StageOfRole(s, Builder));
    hide Next;
    if StageOfRole(s, Builder) == Absent {
      SeenOpens(next, Builder, tick, maxAttempts);
    } else {
      FinishedStays(next, Builder, tick, maxAttempts);
    }
  }

  lemma FinishedStays(s: System, role: Role, command: Command, maxAttempts: nat)
    requires DbsHold(s, maxAttempts) && maxAttempts > 0 && MayStep(s, role, command, maxAttempts)
    requires role in s.dbs && StageOfRole(s, role) == Stage.Finished
    ensures StageOfRole(Next(s, role, command), role) == Stage.Finished
  {
    hide Inv, Linked, Outcome, Permitted, DefaultStatuses, MayStep, RunsAs, RoleLocal, AssignmentKey, StageIn, Asked, Moves, OpenedBy,
         RelabelledBy;
    StepParts(s, role, command, maxAttempts);
    var db, key := s.dbs[role], KeyOf(s, role);
    CommandMoves(db, command, maxAttempts, key, role);
    StageMoves(StageIn(db, key), StageIn(Outcome(db, command), key), Added(db, Outcome(db, command), key), key, role);
  }

  lemma RequestedLabels(labels: set<Label>, rows: seq<Transition>, key: string)
    requires OnlyFor(labels, Reviewer)
    requires |rows| == 1 && IsCompletion(rows[0], key, Reviewer) && rows[0].mark == Final(RequestChanges) && rows[0].providerApplied
    ensures var next := RelabelledBy(labels, rows);
      Has(next, Builder) && OnlyFor(next, Builder) && next * TERMINAL_LABELS == labels * TERMINAL_LABELS
  {
    assert rows[..0] == [] && RelabelledBy(labels, []) == labels;
    var next := Relabelled(labels, rows[0]);
    assert next == labels + DefaultRoleLabels(Builder) - DefaultRoleLabels(Reviewer);
    assert HermesBuilder in next * DefaultRoleLabels(Builder);
    TerminalApart(Builder);
    TerminalApart(Reviewer);
    hide DefaultRoleLabels, RelabelledBy, Relabelled;
    assert next * TERMINAL_LABELS == labels * TERMINAL_LABELS;
    forall q: Role | q != Builder ensures !Has(next, q) {
      assert q != Reviewer ==> !Has(labels, q);
      RoleLabelsApart(Builder, q);
      StayOut(labels, DefaultRoleLabels(Builder), DefaultRoleLabels(Reviewer), DefaultRoleLabels(q));
    }
  }

  /** No transition takes a terminal label away. */
  lemma TerminalStays(labels: set<Label>, t: Transition, key: string, role: Role)
    requires role in FOUR && (t.mark.Final? ==> IsCompletion(t, key, role))
    ensures labels * TERMINAL_LABELS <= Relabelled(labels, t)
  {
    if t.mark.Final? {
      CompletionLabels(role, t.mark.status);
      TerminalApart(role);
      hide DefaultRoleLabels, ResolveTransition, RoleFinalStatuses;
    }
  }

  lemma MovesKeepTerminal(labels: set<Label>, before: Stage, after: Stage, written: seq<Transition>, key: string, role: Role)
    requires role in FOUR && Moves(before, after, written, key, role)
    ensures labels * TERMINAL_LABELS <= RelabelledBy(labels, written)
  {
    if written != [] {
      assert written[..0] == [] && RelabelledBy(labels, []) == labels;
      TerminalStays(labels, written[0], key, role);
      hide Relabelled;
    }
  }

  /** Once a terminal label is there it stays, and no role takes the issue up. */
  lemma {:induction false} TerminalCloses(s: System, role: Role, command: Command, maxAttempts: nat)
    requires DbsHold(s, maxAttempts) && maxAttempts > 0 && MayStep(s, role, command, maxAttempts)
    ensures var next := Next(s, role, command);
      && s.labels * TERMINAL_LABELS <= next.labels && next.dbs.Keys == FOUR
      && (s.labels * TERMINAL_LABELS != {} ==> forall r :: r in FOUR && StageOfRole(s, r) == Absent ==> StageOfRole(next, r) == Absent)
  {
    hide Inv, Linked, Outcome, Permitted, DefaultStatuses, MayStep, RunsAs, RoleLocal, AssignmentKey, StageIn, Moves, OpenedBy,
         RelabelledBy, ToldBy, Has;
    StepParts(s, role, command, maxAttempts);
    var db, key := s.dbs[role], KeyOf(s, role);
    ToldMoves(db, command, maxAttempts, key, role);
    MovesKeepTerminal(s.labels, StageOfRole(s, role), StageIn(ToldBy(db, command), key), Asked(s, role, command), key, role);
    CommandMoves(db, command, maxAttempts, key, role);
    StageMoves(StageIn(db, key), StageIn(Outcome(db, command), key), Added(db, Outcome(db, command), key), key, role);
    if OpenedBy(command, key) { OpenedWithLabels(s, role, command, maxAttempts); }
    hide Asked;
  }

  lemma {:induction false} TerminalForever(s: System, steps: seq<Step>, maxAttempts: nat)
    requires DbsHold(s, maxAttempts) && maxAttempts > 0 && MayRun(s, steps, maxAttempts) && s.labels * TERMINAL_LABELS != {}
    ensures var end := AfterSteps(s, steps, maxAttempts);
      && end.dbs.Keys == FOUR && s.labels * TERMINAL_LABELS <= end.labels
      && (forall r :: r in FOUR && StageOfRole(s, r) == Absent ==> StageOfRole(end, r) == Absent)
    decreases steps
  {
    if steps != [] {
      hide MayStep, Next, StageOfRole, Inv, Linked, RoleLocal;
      TerminalCloses(s, steps[0].role, steps[0].command, maxAttempts);
      DbsKeep(s, steps[0].role, steps[0].command, maxAttempts);
      TerminalForever(Next(s, steps[0].role, steps[0].command), steps[1..], maxAttempts);
    }
  }
}
