/** What one command does to one assignment, and to the transition rows written for it. */
module RowEffects {
  import opened Statuses
  import opened FinalResponses
  import opened Database
  import opened Reconciler
  import opened Ticks

  /** How far an assignment has come; Open while it waits or runs, Halted when it ended without completing. */
  datatype Stage = Absent | Open | Finished | Halted

  function StageOf(status: AssignmentStatus): Stage {
    match status
    case Pending => Open
    case Started => Open
    case Completed => Stage.Finished
    case _ => Halted
  }

  function StageIn(db: Db, key: string): Stage {
    if key in db.assignments then StageOf(db.assignments[key].status) else Absent
  }

  /** The transition rows of one assignment, in the order they were written. */
  function RowsFor(ts: seq<Transition>, key: string): seq<Transition> {
    if ts == [] then [] else
    RowsFor(ts[..|ts| - 1], key) + if ts[|ts| - 1].assignmentKey == key then [ts[|ts| - 1]] else []
  }

  lemma RowsForOne(ts: seq<Transition>, t: Transition, key: string)
    ensures RowsFor(ts + [t], key) == RowsFor(ts, key) + if t.assignmentKey == key then [t] else []
  {
    assert (ts + [t])[..|ts|] == ts;
  }

  /** The assignment's runs are as they were, but for the active one, which ended if there is an ending. */
  predicate RunsAfter(runs: seq<Run>, next: seq<Run>, key: string, ended: Option<RunStatus>, now: int) {
    |next| == |runs|
    && forall x :: 0 <= x < |runs| && runs[x].assignmentKey == key ==>
         next[x] == if ended.Some? && runs[x].status == Active then runs[x].(status := ended.value, completedAt := Some(now)) else runs[x]
  }

  /** Nothing about the assignment changed. */
  predicate Untouched(db: Db, next: Db, key: string) {
    && RunsAfter(db.runs, next.runs, key, None, 0)
    && (key in next.assignments <==> key in db.assignments)
    && (key in db.assignments ==> next.assignments[key] == db.assignments[key])
    && RowsFor(next.transitions, key) == RowsFor(db.transitions, key)
  }

  /** The rows an ending writes. */
  function Rows(row: ActiveRow, e: Ending, adapterRaises: bool, config: Config): seq<Transition> {
    if e.mark.None? then []
    else [Transition(row.run.assignmentKey, row.role, e.mark.value, e.nextRole,
                     !e.local && config.applyTransitions && config.adapterPresent && !adapterRaises)]
  }

  predicate EndedAs(db: Db, next: Db, row: ActiveRow, n: News, config: Config, now: int) {
    var key := row.run.assignmentKey;
    match Judge(row, n.finding, config, now)
    case Abort => false
    case StillRunning => Untouched(db, next, key)
    case Ended(e) =>
      && key in next.assignments && next.assignments[key].status == e.status && next.assignments[key].nextRetryAt == e.retryAt
      && RunsAfter(db.runs, next.runs, key, Some(e.runStatus), now)
      && RowsFor(next.transitions, key) == RowsFor(db.transitions, key) + Rows(row, e, n.adapterRaises, config)
  }

  lemma ApplyElsewhere(db: Db, row: ActiveRow, e: Ending, adapterRaises: bool, config: Config, now: int, key: string)
    requires row.run.assignmentKey != key
    ensures Untouched(db, Apply(db, row, e, adapterRaises, config, now), key)
  {
    forall t: Transition | t.assignmentKey != key ensures RowsFor(db.transitions + [t], key) == RowsFor(db.transitions, key) {
      RowsForOne(db.transitions, t, key);
    }
  }

  lemma ApplyHere(db: Db, row: ActiveRow, e: Ending, adapterRaises: bool, config: Config, now: int)
    requires row.run.assignmentKey in db.assignments
    ensures var next, key := Apply(db, row, e, adapterRaises, config, now), row.run.assignmentKey;
      && key in next.assignments && next.assignments[key].status == e.status && next.assignments[key].nextRetryAt == e.retryAt
      && RunsAfter(db.runs, next.runs, key, Some(e.runStatus), now)
      && RowsFor(next.transitions, key) == RowsFor(db.transitions, key) + Rows(row, e, adapterRaises, config)
  {
    if e.mark.Some? {
      RowsForOne(db.transitions, Rows(row, e, adapterRaises, config)[0], row.run.assignmentKey);
    }
  }

  /** A turn touches its own row's assignment, as its verdict says, and no other. */
  lemma TurnOnKey(p: Pass, row: ActiveRow, n: News, config: Config, now: int, key: string)
    requires Turn(p, row, n, config, now).Some? && row.run.assignmentKey in p.db.assignments
    ensures var q := Turn(p, row, n, config, now).value;
      if row.run.assignmentKey == key then EndedAs(p.db, q.db, row, n, config, now) else Untouched(p.db, q.db, key)
  {
    hide Judge, Apply, Rows;
    match Judge(row, n.finding, config, now)
    case Abort => {}
    case StillRunning => {}
    case Ended(e) =>
      ApplyHere(p.db, row, e, n.adapterRaises, config, now);
      if row.run.assignmentKey != key { ApplyElsewhere(p.db, row, e, n.adapterRaises, config, now, key); }
  }

  lemma UntouchedThen(a: Db, b: Db, c: Db, row: ActiveRow, n: News, config: Config, now: int)
    requires Untouched(a, b, row.run.assignmentKey) && EndedAs(b, c, row, n, config, now)
    ensures EndedAs(a, c, row, n, config, now)
  {
    hide Judge, Rows, RowsFor;
  }

  lemma ThenUntouched(a: Db, b: Db, c: Db, row: ActiveRow, n: News, config: Config, now: int)
    requires EndedAs(a, b, row, n, config, now) && Untouched(b, c, row.run.assignmentKey)
    ensures EndedAs(a, c, row, n, config, now)
  {
    hide Judge, Rows, RowsFor;
  }

  /** After a pass: untouched unless one of its rows was the assignment's run, and then as that row was judged. */
  lemma {:induction false} PassOnKey(db: Db, rows: seq<ActiveRow>, news: seq<News>, k: nat, config: Config, now: int, key: string)
    requires k <= |rows| == |news| && ReconcileUpTo(db, rows, news, k, config, now).Some? && DistinctKeys(rows, 0)
    requires forall j :: 0 <= j < |rows| ==> rows[j].run.assignmentKey in db.assignments
    ensures var p := ReconcileUpTo(db, rows, news, k, config, now).value;
      && ((forall j :: 0 <= j < k ==> rows[j].run.assignmentKey != key) ==> Untouched(db, p.db, key))
      && (forall j :: 0 <= j < k && rows[j].run.assignmentKey == key ==> EndedAs(db, p.db, rows[j], news[j], config, now))
  {
    hide Turn, EndedAs;
    if k > 0 {
      PassOnKey(db, rows, news, k - 1, config, now, key);
      PassWrites(db, rows, news, k - 1, config, now);
      var p := ReconcileUpTo(db, rows, news, k - 1, config, now).value;
      var q := ReconcileUpTo(db, rows, news, k, config, now).value;
      assert rows[k - 1].run.assignmentKey in p.db.assignments.Keys;
      TurnOnKey(p, rows[k - 1], news[k - 1], config, now, key);
      hide RowsFor;
      if rows[k - 1].run.assignmentKey == key {
        UntouchedThen(db, p.db, q.db, rows[k - 1], news[k - 1], config, now);
      } else {
        forall j | 0 <= j < k - 1 && rows[j].run.assignmentKey == key ensures EndedAs(db, q.db, rows[j], news[j], config, now) {
          ThenUntouched(db, p.db, q.db, rows[j], news[j], config, now);
        }
      }
    }
  }

  // ----- the moves of an assignment ------------------------------------------------------

  const FAILURES: set<Mark> := {Lost, Failed, ConfigBlocked, Timeout, Invalid, Stale}
  const RETRIES: set<Mark> := {LostRequeued, FailedRequeued}

  /** The row of a completion: a status of the role's own, with the successor the table gives it. */
  predicate IsCompletion(t: Transition, key: string, role: Role) {
    && t.assignmentKey == key && t.fromRole == role && t.mark.Final? && t.mark.status in RoleFinalStatuses(role)
    && ResolveTransition(role, t.mark.status).Some?
    && t.nextRole == ResolveTransition(role, t.mark.status).value.nextRole
  }

  /** A completion without a row: the status moves nothing. */
  predicate MaySkip(role: Role) { exists s :: s in RoleFinalStatuses(role) && ResolveTransition(role, s).None? }

  predicate HasMark(written: seq<Transition>, marks: set<Mark>) {
    written == [] || (|written| == 1 && written[0].mark in marks)
  }

  /** What one command may do to an assignment, and the rows it writes for it. */
  predicate Moves(before: Stage, after: Stage, written: seq<Transition>, key: string, role: Role) {
    match before
    case Absent => written == [] && (after == Absent || after == Open)
    case Halted => written == [] && (after == Halted || after == Open)
    case Finished => written == [] && after == Stage.Finished
    case Open =>
      match after
      case Absent => false
      case Open => HasMark(written, RETRIES) && (written != [] ==> !written[0].providerApplied)
      case Halted => HasMark(written, FAILURES)
      case Finished => (|written| == 1 && IsCompletion(written[0], key, role)) || (written == [] && MaySkip(role))
  }

  /** The rows written for the assignment between two states. */
  function Added(db: Db, next: Db, key: string): seq<Transition> {
    var was, now := RowsFor(db.transitions, key), RowsFor(next.transitions, key);
    if |was| <= |now| then now[|was|..] else []
  }

  predicate Moved(db: Db, next: Db, key: string, role: Role) {
    RowsFor(db.transitions, key) <= RowsFor(next.transitions, key)
    && Moves(StageIn(db, key), StageIn(next, key), Added(db, next, key), key, role)
  }

  lemma FoundStatus(row: ActiveRow, answer: Answer, config: Config)
    ensures var f := Find(row, answer, config);
      f.RunDone? && f.status.Some? ==> f.status.value in RoleFinalStatuses(row.role)
  {
    hide ParsedOrRepaired, RoleFinalStatuses;
  }

  predicate StatusFits(row: ActiveRow, n: News) {
    n.finding.RunDone? && n.finding.status.Some? ==> n.finding.status.value in RoleFinalStatuses(row.role)
  }

  /** Every ending is one of the moves out of Open. */
  lemma EndingMoves(row: ActiveRow, n: News, config: Config, now: int)
    requires Judge(row, n.finding, config, now).Ended? && StatusFits(row, n)
    ensures var e := Judge(row, n.finding, config, now).ending;
      Moves(Open, StageOf(e.status), Rows(row, e, n.adapterRaises, config), row.run.assignmentKey, row.role)
  {
    hide ResolveTransition, RoleFinalStatuses, LastField;
  }

  lemma EndedMoves(db: Db, next: Db, row: ActiveRow, n: News, config: Config, now: int)
    requires EndedAs(db, next, row, n, config, now) && StatusFits(row, n)
    requires row.run.assignmentKey in db.assignments && db.assignments[row.run.assignmentKey].status == Started
    ensures Moved(db, next, row.run.assignmentKey, row.role)
  {
    var key := row.run.assignmentKey;
    if Judge(row, n.finding, config, now).Ended? {
      EndingMoves(row, n, config, now);
      hide Judge, Moves, RowsFor, Rows;
      assert Added(db, next, key) == Rows(row, Judge(row, n.finding, config, now).ending, n.adapterRaises, config);
    } else {
      hide Judge, RowsFor, Rows;
      assert Added(db, next, key) == [];
    }
  }

  lemma UntouchedMoves(db: Db, next: Db, key: string, role: Role)
    requires Untouched(db, next, key)
    ensures Moved(db, next, key, role)
  {
    hide RowsFor;
    assert Added(db, next, key) == [];
  }

  lemma RowStarted(db: Db, j: nat)
    requires Linked(db) && j < |ActiveRows(db)|
    ensures var row := ActiveRows(db)[j];
      && row.run.assignmentKey in db.assignments && db.assignments[row.run.assignmentKey].status == Started
      && row.role == db.assignments[row.run.assignmentKey].role
  {
    RowRevision(db, db.runs, j);
    hide ActiveRowsOf;
    var i :| 0 <= i < |db.runs| && db.runs[i] == ActiveRows(db)[j].run;
    assert HasActiveRun(db.runs, db.runs[i].assignmentKey);
  }

  /** What the first k rows of a pass did to the assignment is one of the moves. */
  lemma PassMoves(db: Db, input: Input, config: Config, k: nat, key: string, role: Role)
    requires Inv(db, config.maxAttempts) && Linked(db)
    requires key in db.assignments ==> db.assignments[key].role == role
    requires k <= |ActiveRows(db)|
    requires ReconcileUpTo(db, ActiveRows(db), NewsFor(ActiveRows(db), input.replies, config), k, config, input.now).Some?
    ensures Moved(db, ReconcileUpTo(db, ActiveRows(db), NewsFor(ActiveRows(db), input.replies, config), k, config, input.now).value.db, key, role)
  {
    var rows := ActiveRows(db);
    var news := NewsFor(rows, input.replies, config);
    var next := ReconcileUpTo(db, rows, news, k, config, input.now).value.db;
    hide Inv, Linked, Moved, Untouched, EndedAs, Find, RowsFor, Turn, ActiveRows;
    RowsStartAhead(db, config.maxAttempts);
    PassOnKey(db, rows, news, k, config, input.now, key);
    if j :| 0 <= j < k && rows[j].run.assignmentKey == key {
      RowStarted(db, j);
      FoundStatus(rows[j], ReplyFor(input.replies, rows[j].run).answer, config);
      EndedMoves(db, next, rows[j], news[j], config, input.now);
    } else {
      UntouchedMoves(db, next, key, role);
    }
  }

  lemma ReconcileMoves(db: Db, input: Input, config: Config, key: string, role: Role)
    requires Inv(db, config.maxAttempts) && Linked(db)
    requires key in db.assignments ==> db.assignments[key].role == role
    requires Reconciled(db, NewsFor(ActiveRows(db), input.replies, config), config, input.now).Some?
    ensures Moved(db, Reconciled(db, NewsFor(ActiveRows(db), input.replies, config), config, input.now).value.db, key, role)
  {
    hide Inv, Linked, Moved, ReconcileUpTo, ActiveRows;
    PassMoves(db, input, config, |ActiveRows(db)|, key, role);
  }

  // ----- discovery and starting ----------------------------------------------------------

  /** Discovery opens an assignment that was not there, for an item that matched; it changes no other. */
  predicate Discovered(db: Db, next: Db, key: string, role: Role, newly: bool) {
    && next.transitions == db.transitions
    && (key in db.assignments ==> key in next.assignments && next.assignments[key] == db.assignments[key])
    && (key !in db.assignments ==>
          if newly then key in next.assignments && next.assignments[key].status == Pending && next.assignments[key].role == role
          else key !in next.assignments)
  }

  predicate Opens(item: WorkItem, config: Config, key: string) {
    MatchesRole(item, config) && AssignmentKey(item, config.role) == key
  }

  lemma {:induction false} DiscoveryOnKey(db: Db, items: seq<WorkItem>, k: nat, config: Config, now: int, key: string)
    requires k <= |items|
    ensures Discovered(db, DiscoverUpTo(db, items, k, config, now), key, config.role,
                       exists j :: 0 <= j < k && Opens(items[j], config, key))
  {
    if k > 0 {
      DiscoveryOnKey(db, items, k - 1, config, now, key);
      hide AssignmentKey, MatchesRole;
    }
  }

  lemma {:induction false} StartsOnKey(db: Db, keys: seq<string>, submissions: map<string, string>, k: nat, now: int, key: string)
    requires k <= |keys| && StartUpTo(db, keys, submissions, k, now).Some? && Distinct(keys)
    requires forall i :: 0 <= i < |keys| ==> keys[i] in db.assignments && db.assignments[keys[i]].status == Pending
    ensures var next := StartUpTo(db, keys, submissions, k, now).value;
      && next.transitions == db.transitions && StageIn(next, key) == StageIn(db, key)
      && (key in db.assignments ==> key in next.assignments && next.assignments[key].role == db.assignments[key].role)
  {
    if k > 0 {
      StartsOnKey(db, keys, submissions, k - 1, now, key);
      StartsTouch(db, keys, submissions, k - 1, now);
      assert keys[k - 1] !in keys[..k - 1];
      hide HasActiveRun;
    }
  }

  // ----- one command ---------------------------------------------------------------------

  /** A role's own database: every assignment in it is the role's. */
  ghost predicate RoleLocal(db: Db, role: Role) {
    forall key :: key in db.assignments ==> db.assignments[key].role == role
  }

  predicate RunsAs(command: Command, role: Role) {
    (command.RunOnce? || command.ReconcileOnly?) ==> command.config.role == role
  }

  predicate OpenedBy(command: Command, key: string) {
    command.RunOnce? && command.input.fetched.Some?
    && exists j :: 0 <= j < |command.input.fetched.value| && Opens(command.input.fetched.value[j], command.config, key)
  }

  /** Moved, and opened from nothing only by a fetched item that matched the role. */
  predicate MovedBy(db: Db, next: Db, command: Command, key: string, role: Role) {
    Moved(db, next, key, role)
    && (StageIn(db, key) == Absent && StageIn(next, key) == Open ==> OpenedBy(command, key))
  }

  lemma MovedThen(a: Db, b: Db, c: Db, key: string, role: Role)
    requires Moved(a, b, key, role) && c.transitions == b.transitions
    requires StageIn(c, key) == StageIn(b, key) || (StageIn(b, key) == Absent && StageIn(c, key) == Open)
    ensures Moved(a, c, key, role)
  {
    hide RowsFor, IsCompletion, MaySkip, HasMark;
  }

  lemma DiscoveryLocal(db: Db, items: seq<WorkItem>, k: nat, config: Config, now: int)
    requires RoleLocal(db, config.role) && k <= |items|
    ensures RoleLocal(DiscoverUpTo(db, items, k, config, now), config.role)
  {
    var next := DiscoverUpTo(db, items, k, config, now);
    forall key | key in next.assignments ensures next.assignments[key].role == config.role {
      DiscoveryOnKey(db, items, k, config, now, key);
    }
  }

  lemma TickMoves(db: Db, input: Input, config: Config, picked: seq<string>, key: string)
    requires Inv(db, config.maxAttempts) && Linked(db) && RoleLocal(db, config.role)
    requires Tick(db, input, config, picked).Some?
    requires IsSelection(Prepared(db, input, config).value, config.role, config.maxStarts, input.now, picked)
    ensures MovedBy(db, Tick(db, input, config, picked).value, RunOnce(input, config, picked), key, config.role)
    ensures key in Tick(db, input, config, picked).value.assignments ==>
      Tick(db, input, config, picked).value.assignments[key].role == config.role
  {
    hide Inv, Linked, Reconciled, NewsFor, ActiveRows, DiscoverUpTo, StartUpTo, Moved, AssignmentsKept, SameRequeues, Opens;
    var items, now := input.fetched.value, input.now;
    var p := Reconciled(db, NewsFor(ActiveRows(db), input.replies, config), config, now).value.db;
    ReconcileSame(db, input, config);
    ReconcileMoves(db, input, config, key, config.role);
    KeptRoles(db, p, ActiveRows(db), config, now);
    var d := Prepared(db, input, config).value;
    assert d == DiscoverUpTo(p, items, |items|, config, now);
    DiscoveryOnKey(p, items, |items|, config, now, key);
    DiscoveryLocal(p, items, |items|, config, now);
    MovedThen(db, p, d, key, config.role);
    var next := Tick(db, input, config, picked).value;
    assert next == StartUpTo(d, picked, input.submissions, |picked|, now).value;
    assert forall i :: 0 <= i < |picked| ==> Due(d, picked[i], config.role, now);
    StartsOnKey(d, picked, input.submissions, |picked|, now, key);
    StartsTouch(d, picked, input.submissions, |picked|, now);
    MovedThen(db, d, next, key, config.role);
  }

  lemma KeptRoles(db: Db, next: Db, rows: seq<ActiveRow>, config: Config, now: int)
    requires AssignmentsKept(db, next, rows, config, now)
    ensures next.assignments.Keys == db.assignments.Keys
    ensures forall key :: key in db.assignments ==> next.assignments[key].role == db.assignments[key].role
  {
    forall key | key in db.assignments ensures next.assignments[key].role == db.assignments[key].role {
      assert RowKept(db.assignments[key], next.assignments[key], config, now);
    }
  }

  lemma RequeueMoves(db: Db, keys: set<string>, now: int, key: string, role: Role)
    requires DefaultStatuses(db, RequeueRows(keys, now))
    ensures MovedBy(db, Requeue(db, keys, now), RequeueRows(keys, now), key, role)
  {
    hide RowsFor, IsCompletion, MaySkip;
    assert Added(db, Requeue(db, keys, now), key) == [];
  }

  lemma UnchangedMoves(db: Db, command: Command, key: string, role: Role)
    ensures MovedBy(db, db, command, key, role)
  {
    UntouchedMoves(db, db, key, role);
    hide Moved;
  }

  lemma SameKeysAbsent(db: Db, next: Db, key: string)
    requires next.assignments.Keys == db.assignments.Keys
    ensures StageIn(db, key) == Absent ==> StageIn(next, key) == Absent
  {}

  /** Every command moves every assignment of a role's database by one of the moves, or leaves it. */
  lemma CommandMoves(db: Db, command: Command, maxAttempts: nat, key: string, role: Role)
    requires Inv(db, maxAttempts) && Linked(db) && RoleLocal(db, role) && maxAttempts > 0
    requires Permitted(db, command, maxAttempts) && DefaultStatuses(db, command) && RunsAs(command, role)
    ensures MovedBy(db, Outcome(db, command), command, key, role)
    ensures key in Outcome(db, command).assignments ==> Outcome(db, command).assignments[key].role == role
  {
    hide Inv, Linked, Tick, Prepared, Reconciled, NewsFor, ActiveRows, IsSelection, Moved, StageIn, OpenedBy, AssignmentsKept, SameRequeues;
    if Outcome(db, command) == db {
      UnchangedMoves(db, command, key, role);
    } else {
      match command
      case RunOnce(input, config, picked) =>
        TickPrepared(db, input, config, picked);
        TickMoves(db, input, config, picked, key);
      case ReconcileOnly(input, config) =>
        ReconcileSame(db, input, config);
        ReconcileMoves(db, input, config, key, role);
        KeptRoles(db, Outcome(db, command), ActiveRows(db), config, input.now);
        assert StageIn(db, key) == Absent ==> StageIn(Outcome(db, command), key) == Absent by { SameKeysAbsent(db, Outcome(db, command), key); }
      case RequeueRows(keys, now) =>
        RequeueMoves(db, keys, now, key, role);
    }
  }

  // ----- what the provider is told -------------------------------------------------------

  predicate Reconciles(command: Command) { command.RunOnce? || command.ReconcileOnly? }

  /** The tables at a command's last provider call; a rollback does not take them back to the provider. */
  ghost function ToldBy(db: Db, command: Command): Db {
    if !Reconciles(command) then db
    else Told(db, NewsFor(ActiveRows(db), command.input.replies, command.config), command.config, command.input.now)
  }

  ghost predicate Commits(db: Db, command: Command) {
    match command
    case RunOnce(input, config, picked) => Tick(db, input, config, picked).Some?
    case ReconcileOnly(input, config) => Reconciled(db, NewsFor(ActiveRows(db), input.replies, config), config, input.now).Some?
    case RequeueRows(_, _) => true
  }

  lemma ToldMoves(db: Db, command: Command, maxAttempts: nat, key: string, role: Role)
    requires Inv(db, maxAttempts) && Linked(db) && RoleLocal(db, role)
    requires Permitted(db, command, maxAttempts)
    ensures Moved(db, ToldBy(db, command), key, role)
  {
    hide Inv, Linked, Moved, ReconcileUpTo, ActiveRows, NewsFor, Prepared, IsSelection, Reach;
    if Reconciles(command) {
      var rows := ActiveRows(db);
      var news := NewsFor(rows, command.input.replies, command.config);
      PassMoves(db, command.input, command.config, Reach(db, rows, news, |rows|, command.config, command.input.now), key, role);
    } else {
      UnchangedMoves(db, command, key, role);
    }
  }

  /** Discovery and starting write no transitions, so a committed command has kept every row the provider was told. */
  lemma {:induction false} DiscoveryRows(db: Db, items: seq<WorkItem>, k: nat, config: Config, now: int)
    requires k <= |items|
    ensures DiscoverUpTo(db, items, k, config, now).transitions == db.transitions
  {
    if k > 0 {
      DiscoveryRows(db, items, k - 1, config, now);
      hide AssignmentKey, MatchesRole;
    }
  }

  lemma {:induction false} StartRows(db: Db, keys: seq<string>, submissions: map<string, string>, k: nat, now: int)
    requires k <= |keys| && StartUpTo(db, keys, submissions, k, now).Some?
    ensures StartUpTo(db, keys, submissions, k, now).value.transitions == db.transitions
  {
    if k > 0 {
      StartRows(db, keys, submissions, k - 1, now);
      hide HasActiveRun;
    }
  }

  lemma ToldWhole(db: Db, news: seq<News>, config: Config, now: int)
    requires |news| == |ActiveRows(db)| && Reconciled(db, news, config, now).Some?
    ensures Told(db, news, config, now) == Reconciled(db, news, config, now).value.db
  {
    hide ReconcileUpTo, ActiveRows;
  }

  lemma CommittedRows(db: Db, command: Command)
    requires Commits(db, command)
    ensures Outcome(db, command).transitions == ToldBy(db, command).transitions
  {
    hide Reconciled, Told, ActiveRows, NewsFor, DiscoverUpTo, StartUpTo;
    if Reconciles(command) {
      var input, config := command.input, command.config;
      ToldWhole(db, NewsFor(ActiveRows(db), input.replies, config), config, input.now);
      if command.RunOnce? {
        var p := Reconciled(db, NewsFor(ActiveRows(db), input.replies, config), config, input.now).value.db;
        DiscoveryRows(p, input.fetched.value, |input.fetched.value|, config, input.now);
        var d := Prepared(db, input, config).value;
        StartRows(d, command.picked, input.submissions, |command.picked|, input.now);
      }
    }
  }

  lemma RolledBack(db: Db, command: Command)
    requires !Commits(db, command)
    ensures Outcome(db, command) == db
  {}

  /** In a committed tick an absent assignment opens if and only if a fetched item matched the role under its key. */
  lemma TickOpens(db: Db, input: Input, config: Config, picked: seq<string>, key: string)
    requires Inv(db, config.maxAttempts) && Tick(db, input, config, picked).Some? && key !in db.assignments
    requires IsSelection(Prepared(db, input, config).value, config.role, config.maxStarts, input.now, picked)
    ensures StageIn(Tick(db, input, config, picked).value, key) == Open <==> OpenedBy(RunOnce(input, config, picked), key)
    ensures StageIn(Tick(db, input, config, picked).value, key) == Absent <==> !OpenedBy(RunOnce(input, config, picked), key)
  {
    hide Inv, Reconciled, NewsFor, ActiveRows, DiscoverUpTo, StartUpTo, AssignmentsKept, SameRequeues, Opens;
    var items, now := input.fetched.value, input.now;
    var p := Reconciled(db, NewsFor(ActiveRows(db), input.replies, config), config, now).value.db;
    ReconcileSame(db, input, config);
    KeptRoles(db, p, ActiveRows(db), config, now);
    assert key !in p.assignments.Keys;
    var d := Prepared(db, input, config).value;
    assert d == DiscoverUpTo(p, items, |items|, config, now);
    DiscoveryOnKey(p, items, |items|, config, now, key);
    assert Tick(db, input, config, picked).value == StartUpTo(d, picked, input.submissions, |picked|, now).value;
    assert forall i :: 0 <= i < |picked| ==> Due(d, picked[i], config.role, now);
    StartsOnKey(d, picked, input.submissions, |picked|, now, key);
  }
}
