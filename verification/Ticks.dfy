/**
 Commands over the tables: a tick (reconcile, discover, start), a reconciliation alone, and an
 operator's requeue. Each is one transaction: it commits whole or leaves nothing.
 */
module Ticks {
  import opened Statuses
  import opened Database
  import opened Reconciler

  // ----- discovery -----------------------------------------------------------------------

  /** `matches_role`: terminal labels first. */
  predicate MatchesRole(item: WorkItem, config: Config) {
    item.labels * config.terminalLabels == {}
    && (item.labels * config.roleLabels != {} || item.assignees * config.roleAssignees != {})
  }

  function Discover(db: Db, item: WorkItem, config: Config, now: int): Db {
    if !MatchesRole(item, config) then db
    else EnsureAssignment(UpsertItem(db, item), AssignmentKey(item, config.role), IdOf(item), config.role, now)
  }

  function DiscoverUpTo(db: Db, items: seq<WorkItem>, k: nat, config: Config, now: int): Db
    requires k <= |items|
  {
    if k == 0 then db else Discover(DiscoverUpTo(db, items, k - 1, config, now), items[k - 1], config, now)
  }

  // ----- the queue -----------------------------------------------------------------------

  predicate Due(db: Db, key: string, role: Role, now: int) {
    && key in db.assignments
    && var a := db.assignments[key];
       a.status == Pending && a.role == role && a.itemId in db.items && (a.nextRetryAt.None? || a.nextRetryAt.value <= now)
  }

  /** `COALESCE(next_retry_at, created_at)`. */
  function WaitKey(a: Assignment): int { if a.nextRetryAt.Some? then a.nextRetryAt.value else a.createdAt }

  predicate NotAfter(a: Assignment, b: Assignment) {
    WaitKey(a) < WaitKey(b) || (WaitKey(a) == WaitKey(b) && a.updatedAt <= b.updatedAt)
  }

  predicate AllDue(db: Db, role: Role, now: int, keys: seq<string>) {
    forall i :: 0 <= i < |keys| ==> Due(db, keys[i], role, now)
  }

  predicate Distinct(keys: seq<string>) { forall i, j :: 0 <= i < j < |keys| ==> keys[i] != keys[j] }

  lemma {:induction false} KeysCount(keys: seq<string>)
    requires Distinct(keys)
    ensures |KeySet(keys)| == |keys|
  {
    if keys != [] {
      var n := |keys| - 1;
      KeysCount(keys[..n]);
      assert KeySet(keys) == KeySet(keys[..n]) + {keys[n]};
    }
  }

  /** What `pending_assignments` may return: due rows in queue order, nobody ahead of them left out. */
  ghost predicate IsSelection(db: Db, role: Role, limit: nat, now: int, keys: seq<string>) {
    && |keys| <= limit && Distinct(keys) && AllDue(db, role, now, keys)
    && (forall i, j :: 0 <= i < j < |keys| ==> NotAfter(db.assignments[keys[i]], db.assignments[keys[j]]))
    && (forall k :: Due(db, k, role, now) && k !in keys ==>
          |keys| == limit && forall i :: 0 <= i < |keys| ==> NotAfter(db.assignments[keys[i]], db.assignments[k]))
  }

  // ----- starting ------------------------------------------------------------------------

  /** One submission and its write; None when either raises. */
  function StartRow(db: Db, key: string, submissions: map<string, string>, now: int): Option<Db> {
    if key !in submissions then None else MarkStarted(db, key, submissions[key], now)
  }

  /** The first k picked rows submitted and marked; None when a submission or a write raises. */
  function StartUpTo(db: Db, keys: seq<string>, submissions: map<string, string>, k: nat, now: int): Option<Db>
    requires k <= |keys|
  {
    if k == 0 then Some(db) else
    match StartUpTo(db, keys, submissions, k - 1, now)
    case None => None
    case Some(d) => StartRow(d, keys[k - 1], submissions, now)
  }

  // ----- commands ------------------------------------------------------------------------

  /**
   What the outside world contributes to a command: the clock, the gateway's answers by run id, the
   fetched items (None when fetching raises), and the run id each submission yields (absent when it raises).
   */
  datatype Input = Input(
    now: int, replies: map<string, Reply>, fetched: Option<seq<WorkItem>>, submissions: map<string, string>)

  /** The tables after reconciliation and discovery, just before runs are started. */
  function Prepared(db: Db, input: Input, config: Config): Option<Db> {
    var rows := ActiveRows(db);
    match Reconciled(db, NewsFor(rows, input.replies, config), config, input.now)
    case None => None
    case Some(p) =>
      if input.fetched.None? then None
      else Some(DiscoverUpTo(p.db, input.fetched.value, |input.fetched.value|, config, input.now))
  }

  /** `run_once`, given the rows its query picked; None when it raises. */
  function Tick(db: Db, input: Input, config: Config, picked: seq<string>): Option<Db> {
    match Prepared(db, input, config)
    case None => None
    case Some(d) => StartUpTo(d, picked, input.submissions, |picked|, input.now)
  }

  datatype Command =
    | RunOnce(input: Input, config: Config, picked: seq<string>)
    | ReconcileOnly(input: Input, config: Config)
    | RequeueRows(keys: set<string>, now: int)

  /** A command's effect; a command that raises is rolled back. */
  ghost function Outcome(db: Db, command: Command): Db {
    match command
    case RunOnce(input, config, picked) =>
      var next := Tick(db, input, config, picked);
      if next.None? then db else next.value
    case ReconcileOnly(input, config) =>
      var next := Reconciled(db, NewsFor(ActiveRows(db), input.replies, config), config, input.now);
      if next.None? then db else next.value.db
    case RequeueRows(keys, now) => Requeue(db, keys, now)
  }

  ghost predicate Permitted(db: Db, command: Command, maxAttempts: nat) {
    match command
    case RunOnce(input, config, picked) =>
      config.maxAttempts == maxAttempts
      && var d := Prepared(db, input, config);
         d.Some? ==> IsSelection(d.value, config.role, config.maxStarts, input.now, picked)
    case ReconcileOnly(_, config) => config.maxAttempts == maxAttempts
    case RequeueRows(keys, _) => keys <= db.assignments.Keys
  }

  /** The default requeue asks for BLOCKED_CONFIG, FAILED_FINAL, LOST and FAILED; no row has the last two. */
  ghost predicate DefaultStatuses(db: Db, command: Command) {
    command.RequeueRows? ==>
      forall k :: k in command.keys && k in db.assignments ==> db.assignments[k].status in {BlockedConfig, FailedFinal}
  }

  ghost predicate Permits(db: Db, commands: seq<Command>, maxAttempts: nat)
    decreases commands
  {
    commands != [] ==>
      Permitted(db, commands[0], maxAttempts) && Permits(Outcome(db, commands[0]), commands[1..], maxAttempts)
  }

  ghost predicate AllDefault(db: Db, commands: seq<Command>)
    decreases commands
  {
    commands != [] ==> DefaultStatuses(db, commands[0]) && AllDefault(Outcome(db, commands[0]), commands[1..])
  }

  ghost function After(db: Db, commands: seq<Command>): Db
    decreases commands
  {
    if commands == [] then db else After(Outcome(db, commands[0]), commands[1..])
  }

  // ----- every command keeps the invariants ----------------------------------------------

  lemma UpsertKeeps(db: Db, item: WorkItem, maxAttempts: nat)
    requires Inv(db, maxAttempts)
    ensures Inv(UpsertItem(db, item), maxAttempts) && (Linked(db) ==> Linked(UpsertItem(db, item)))
    ensures IdOf(item) in UpsertItem(db, item).items
  {}

  lemma DiscoverKeeps(db: Db, item: WorkItem, config: Config, now: int)
    requires Inv(db, config.maxAttempts) && config.maxAttempts > 0
    ensures var next := Discover(db, item, config, now);
      Inv(next, config.maxAttempts) && (Linked(db) ==> Linked(next))
  {
    hide Inv, Linked, UpsertItem, EnsureAssignment, AssignmentKey, MatchesRole;
    UpsertKeeps(db, item, config.maxAttempts);
    EnsureKeeps(UpsertItem(db, item), AssignmentKey(item, config.role), IdOf(item), config.role, now, config.maxAttempts);
  }

  lemma {:induction false} DiscoveryKeeps(db: Db, items: seq<WorkItem>, k: nat, config: Config, now: int)
    requires Inv(db, config.maxAttempts) && config.maxAttempts > 0 && k <= |items|
    ensures var next := DiscoverUpTo(db, items, k, config, now);
      Inv(next, config.maxAttempts) && (Linked(db) ==> Linked(next))
  {
    hide Inv, Linked, Discover;
    if k > 0 {
      DiscoveryKeeps(db, items, k - 1, config, now);
      DiscoverKeeps(DiscoverUpTo(db, items, k - 1, config, now), items[k - 1], config, now);
    }
  }

  lemma StartTouches(db: Db, key: string, runId: string, now: int)
    requires MarkStarted(db, key, runId, now).Some?
    ensures var next := MarkStarted(db, key, runId, now).value;
      && next.items == db.items && key in db.assignments && next.assignments.Keys == db.assignments.Keys
      && (forall k :: k in db.assignments && k != key ==> next.assignments[k] == db.assignments[k])
      && next.assignments[key].status == Started
      && next.assignments[key].operatorRequeues == db.assignments[key].operatorRequeues
  {}

  /** Starting changes the rows it starts and no other. */
  lemma {:induction false} StartsTouch(db: Db, keys: seq<string>, submissions: map<string, string>, k: nat, now: int)
    requires k <= |keys| && StartUpTo(db, keys, submissions, k, now).Some?
    ensures var next := StartUpTo(db, keys, submissions, k, now).value;
      && next.items == db.items && next.assignments.Keys == db.assignments.Keys
      && (forall key :: key in db.assignments && key !in keys[..k] ==> next.assignments[key] == db.assignments[key])
  {
    if k > 0 {
      StartsTouch(db, keys, submissions, k - 1, now);
      assert forall key :: key !in keys[..k] ==> key !in keys[..k - 1] && key != keys[k - 1];
      var d := StartUpTo(db, keys, submissions, k - 1, now).value;
      StartTouches(d, keys[k - 1], submissions[keys[k - 1]], now);
      hide MarkStarted;
    }
  }

  lemma {:induction false} StartsStart(db: Db, keys: seq<string>, submissions: map<string, string>, k: nat, now: int, i: nat)
    requires i < k <= |keys| && StartUpTo(db, keys, submissions, k, now).Some?
    ensures var next := StartUpTo(db, keys, submissions, k, now).value;
      keys[i] in next.assignments && next.assignments[keys[i]].status == Started
  {
    var d := StartUpTo(db, keys, submissions, k - 1, now).value;
    StartTouches(d, keys[k - 1], submissions[keys[k - 1]], now);
    hide MarkStarted;
    if i < k - 1 { StartsStart(db, keys, submissions, k - 1, now, i); }
  }

  lemma StartedRun(db: Db, key: string, runId: string, now: int)
    requires MarkStarted(db, key, runId, now).Some?
    ensures |MarkStarted(db, key, runId, now).value.runs| == |db.runs| + 1
  {}

  lemma {:induction false} StartsKeep(db: Db, keys: seq<string>, submissions: map<string, string>, k: nat, now: int, maxAttempts: nat)
    requires k <= |keys| && StartUpTo(db, keys, submissions, k, now).Some?
    requires Inv(db, maxAttempts) && Distinct(keys)
    requires forall i :: 0 <= i < |keys| ==> keys[i] in db.assignments && db.assignments[keys[i]].status == Pending
    ensures var next := StartUpTo(db, keys, submissions, k, now).value;
      Inv(next, maxAttempts) && (Linked(db) ==> Linked(next)) && |next.runs| == |db.runs| + k
  {
    hide Inv, Linked, MarkStarted;
    if k > 0 {
      StartsKeep(db, keys, submissions, k - 1, now, maxAttempts);
      StartsTouch(db, keys, submissions, k - 1, now);
      var d := StartUpTo(db, keys, submissions, k - 1, now).value;
      assert keys[k - 1] !in keys[..k - 1];
      StartKeeps(d, keys[k - 1], submissions[keys[k - 1]], now, maxAttempts);
      StartedRun(d, keys[k - 1], submissions[keys[k - 1]], now);
    }
  }

  lemma PreparedKeeps(db: Db, input: Input, config: Config)
    requires Inv(db, config.maxAttempts) && config.maxAttempts > 0 && Prepared(db, input, config).Some?
    ensures var d := Prepared(db, input, config).value;
      Inv(d, config.maxAttempts) && (Linked(db) ==> Linked(d))
  {
    hide Inv, Linked, Reconciled, NewsFor, ActiveRows, DiscoverUpTo, Balances;
    var news := NewsFor(ActiveRows(db), input.replies, config);
    ReconcileConserves(db, news, config, input.now);
    DiscoveryKeeps(Reconciled(db, news, config, input.now).value.db, input.fetched.value, |input.fetched.value|, config, input.now);
  }

  lemma TickKeeps(db: Db, input: Input, config: Config, picked: seq<string>)
    requires Inv(db, config.maxAttempts) && config.maxAttempts > 0 && Tick(db, input, config, picked).Some?
    requires IsSelection(Prepared(db, input, config).value, config.role, config.maxStarts, input.now, picked)
    ensures var next := Tick(db, input, config, picked).value;
      && Inv(next, config.maxAttempts) && (Linked(db) ==> Linked(next))
      && |next.runs| == |Prepared(db, input, config).value.runs| + |picked|
  {
    hide Inv, Linked, Prepared, StartUpTo;
    PreparedKeeps(db, input, config);
    var d := Prepared(db, input, config).value;
    StartsKeep(d, picked, input.submissions, |picked|, input.now, config.maxAttempts);
  }

  lemma CommandKeeps(db: Db, command: Command, maxAttempts: nat)
    requires Inv(db, maxAttempts) && maxAttempts > 0 && Permitted(db, command, maxAttempts)
    ensures Inv(Outcome(db, command), maxAttempts)
    ensures Linked(db) && DefaultStatuses(db, command) ==> Linked(Outcome(db, command))
  {
    hide Inv, Linked, Tick, Prepared, Reconciled, NewsFor, ActiveRows, Balances, IsSelection, Requeue;
    match command
    case RunOnce(input, config, picked) =>
      if Tick(db, input, config, picked).Some? {
        TickPrepared(db, input, config, picked);
        TickKeeps(db, input, config, picked);
      }
    case ReconcileOnly(input, config) =>
      var news := NewsFor(ActiveRows(db), input.replies, config);
      if Reconciled(db, news, config, input.now).Some? { ReconcileConserves(db, news, config, input.now); }
    case RequeueRows(keys, now) =>
      RequeueKeeps(db, keys, now, maxAttempts);
      if Linked(db) && DefaultStatuses(db, command) { RequeueKeepsLinked(db, keys, now); }
  }

  lemma TickPrepared(db: Db, input: Input, config: Config, picked: seq<string>)
    requires Tick(db, input, config, picked).Some?
    ensures Prepared(db, input, config).Some?
  {}

  lemma {:induction false} HistoryKeeps(db: Db, commands: seq<Command>, maxAttempts: nat)
    requires Inv(db, maxAttempts) && maxAttempts > 0 && Permits(db, commands, maxAttempts)
    ensures Inv(After(db, commands), maxAttempts)
    ensures Linked(db) && AllDefault(db, commands) ==> Linked(After(db, commands))
    decreases commands
  {
    hide Inv, Linked, Outcome, Permitted, DefaultStatuses;
    if commands != [] {
      CommandKeeps(db, commands[0], maxAttempts);
      HistoryKeeps(Outcome(db, commands[0]), commands[1..], maxAttempts);
    }
  }

  predicate SameActive(r: Run, q: Run) { r.status == Active && q.status == Active && r.assignmentKey == q.assignmentKey }

  ghost predicate OneActiveEach(runs: seq<Run>) {
    forall i, j :: 0 <= i < |runs| && 0 <= j < |runs| && SameActive(runs[i], runs[j]) ==> i == j
  }

  lemma EmptyHolds(maxAttempts: nat)
    ensures Inv(EMPTY, maxAttempts) && Linked(EMPTY)
  {}

  /**
   In every state any commands can reach from an empty database: attempt numbers of an assignment are
   1..attempt_count without gap or repeat, at most one run is active and it is the latest, and no
   assignment makes more attempts than the maximum plus the requeues an operator gave it. While requeues
   keep to the default statuses, STARTED holds exactly while a run is active.
   */
  lemma Reachable(commands: seq<Command>, maxAttempts: nat, key: string)
    requires maxAttempts > 0 && Permits(EMPTY, commands, maxAttempts)
    ensures var db := After(EMPTY, commands);
      && Inv(db, maxAttempts)
      && (AllDefault(EMPTY, commands) ==> Linked(db))
      && (key in db.assignments ==>
            db.assignments[key].attemptCount + (if db.assignments[key].status == Pending then 1 else 0)
            <= maxAttempts + db.assignments[key].operatorRequeues)
      && OneActiveEach(db.runs)
  {
    EmptyHolds(maxAttempts);
    HistoryKeeps(EMPTY, commands, maxAttempts);
    hide After, Permits, AllDefault;
    var db := After(EMPTY, commands);
    forall i, j | 0 <= i < |db.runs| && 0 <= j < |db.runs| && SameActive(db.runs[i], db.runs[j]) ensures i == j {
      AtMostOneActive(db, maxAttempts, i, j);
    }
  }

  // ----- runs are bounded ----------------------------------------------------------------

  /** Attempts the rows still have, and operators have given them: what every started run uses up. */
  ghost function Budget(db: Db, maxAttempts: nat): int {
    maxAttempts * |db.assignments| + Sum(db.assignments, Requeues) - |db.runs|
  }

  lemma Distribute(m: int, a: int, b: int)
    ensures m * (a - b) == m * a - m * b
  {}

  lemma {:induction false} AttemptsWithinBudget(m: map<string, Assignment>, maxAttempts: nat)
    requires forall k :: k in m ==> m[k].attemptCount <= maxAttempts + m[k].operatorRequeues
    ensures Sum(m, Attempts) - Sum(m, Requeues) <= maxAttempts * |m|
    decreases |m|
  {
    if m != map[] {
      var k :| k in m;
      var rest := m - {k};
      SumSplit(m, k, Attempts);
      SumSplit(m, k, Requeues);
      assert rest.Keys == m.Keys - {k};
      AttemptsWithinBudget(rest, maxAttempts);
      var n := |rest|;
      assert |m| == n + 1;
      var attempts, requeues := Sum(rest, Attempts), Sum(rest, Requeues);
      assert Sum(m, Attempts) == m[k].attemptCount + attempts && Sum(m, Requeues) == m[k].operatorRequeues + requeues;
      hide Sum;
      Distribute(maxAttempts, n + 1, n);
    }
  }

  lemma BudgetNeverNegative(db: Db, maxAttempts: nat)
    requires Inv(db, maxAttempts)
    ensures Budget(db, maxAttempts) >= 0
  {
    assert forall k :: k in db.assignments ==> WithinBound(db.assignments[k], maxAttempts);
    AttemptsWithinBudget(db.assignments, maxAttempts);
  }

  /** No requeue: the rows there were keep their counts, and new rows start at zero. */
  ghost predicate SameRequeues(db: Db, next: Db) {
    && db.assignments.Keys <= next.assignments.Keys
    && (forall k :: k in db.assignments ==> next.assignments[k].operatorRequeues == db.assignments[k].operatorRequeues)
    && (forall k :: k in next.assignments && k !in db.assignments ==> next.assignments[k].operatorRequeues == 0)
  }

  lemma {:induction false} SumZero(m: map<string, Assignment>)
    requires forall k :: k in m ==> m[k].operatorRequeues == 0
    ensures Sum(m, Requeues) == 0
    decreases |m|
  {
    if m != map[] {
      var k :| k in m;
      SumSplit(m, k, Requeues);
      assert (m - {k}).Keys == m.Keys - {k};
      SumZero(m - {k});
    }
  }

  lemma {:induction false} SumGrows(m: map<string, Assignment>, n: map<string, Assignment>)
    requires m.Keys <= n.Keys && forall k :: k in m ==> m[k].operatorRequeues == n[k].operatorRequeues
    requires forall k :: k in n && k !in m ==> n[k].operatorRequeues == 0
    ensures Sum(n, Requeues) == Sum(m, Requeues)
    decreases |m|
  {
    if m == map[] {
      SumZero(n);
    } else {
      var k :| k in m;
      SumSplit(m, k, Requeues);
      SumSplit(n, k, Requeues);
      assert (m - {k}).Keys == m.Keys - {k} && (n - {k}).Keys == n.Keys - {k};
      SumGrows(m - {k}, n - {k});
    }
  }

  lemma {:induction false} SumRequeued(m: map<string, Assignment>, n: map<string, Assignment>, keys: set<string>)
    requires m.Keys == n.Keys && keys <= m.Keys
    requires forall k :: k in m ==> n[k].operatorRequeues == m[k].operatorRequeues + if k in keys then 1 else 0
    ensures Sum(n, Requeues) == Sum(m, Requeues) + |keys|
    decreases |m|
  {
    if m == map[] {
      assert n == map[] && keys == {};
    } else {
      var k :| k in m;
      SumSplit(m, k, Requeues);
      SumSplit(n, k, Requeues);
      assert (m - {k}).Keys == m.Keys - {k} && (n - {k}).Keys == n.Keys - {k};
      SumRequeued(m - {k}, n - {k}, keys - {k});
      assert k !in keys ==> keys - {k} == keys;
    }
  }

  lemma SameRequeuesChain(a: Db, b: Db, c: Db)
    requires SameRequeues(a, b) && SameRequeues(b, c)
    ensures SameRequeues(a, c)
  {}

  lemma {:induction false} DiscoverySame(db: Db, items: seq<WorkItem>, k: nat, config: Config, now: int)
    requires k <= |items|
    ensures var next := DiscoverUpTo(db, items, k, config, now);
      SameRequeues(db, next) && |next.runs| == |db.runs|
  {
    if k > 0 {
      DiscoverySame(db, items, k - 1, config, now);
      var d := DiscoverUpTo(db, items, k - 1, config, now);
      assert SameRequeues(d, Discover(d, items[k - 1], config, now)) by { hide AssignmentKey, MatchesRole; }
      SameRequeuesChain(db, d, DiscoverUpTo(db, items, k, config, now));
    }
  }

  /** What a reconciliation leaves of the tables' accounts. */
  lemma ReconcileSame(db: Db, input: Input, config: Config)
    requires Inv(db, config.maxAttempts)
    requires Reconciled(db, NewsFor(ActiveRows(db), input.replies, config), config, input.now).Some?
    ensures var next := Reconciled(db, NewsFor(ActiveRows(db), input.replies, config), config, input.now).value.db;
      && SameRequeues(db, next) && |next.runs| == |db.runs| && Inv(next, config.maxAttempts)
      && AssignmentsKept(db, next, ActiveRows(db), config, input.now)
  {
    var rows := ActiveRows(db);
    var news := NewsFor(rows, input.replies, config);
    PassWrites(db, rows, news, |news|, config, input.now);
    ReconcileConserves(db, news, config, input.now);
    var next := Reconciled(db, news, config, input.now).value.db;
    KeptSame(db, next, rows, config, input.now);
    hide Inv, AssignmentsKept, SameRequeues;
  }

  lemma KeptSame(db: Db, next: Db, rows: seq<ActiveRow>, config: Config, now: int)
    requires Inv(db, config.maxAttempts) && Inv(next, config.maxAttempts) && AssignmentsKept(db, next, rows, config, now)
    ensures SameRequeues(db, next) && |next.runs| == |db.runs|
  {
    SumSame(db.assignments, next.assignments, Attempts);
  }

  lemma TickAccounts(db: Db, input: Input, config: Config, picked: seq<string>)
    requires Inv(db, config.maxAttempts) && config.maxAttempts > 0 && Tick(db, input, config, picked).Some?
    requires IsSelection(Prepared(db, input, config).value, config.role, config.maxStarts, input.now, picked)
    ensures var next := Tick(db, input, config, picked).value;
      SameRequeues(db, next) && |next.runs| == |db.runs| + |picked|
  {
    hide Inv, Linked, Reconciled, NewsFor, ActiveRows, DiscoverUpTo, StartUpTo, IsSelection, AssignmentsKept, SameRequeues;
    TickKeeps(db, input, config, picked);
    ReconcileSame(db, input, config);
    var p := Reconciled(db, NewsFor(ActiveRows(db), input.replies, config), config, input.now).value;
    DiscoverySame(p.db, input.fetched.value, |input.fetched.value|, config, input.now);
    var d := Prepared(db, input, config).value;
    SameRequeuesChain(db, p.db, d);
    assert SameRequeues(d, Tick(db, input, config, picked).value) by {
      StartsSame(d, picked, input.submissions, |picked|, input.now);
    }
    SameRequeuesChain(db, d, Tick(db, input, config, picked).value);
  }

  lemma {:induction false} StartsSame(d: Db, keys: seq<string>, submissions: map<string, string>, k: nat, now: int)
    requires k <= |keys| && StartUpTo(d, keys, submissions, k, now).Some?
    ensures SameRequeues(d, StartUpTo(d, keys, submissions, k, now).value)
  {
    if k > 0 {
      StartsSame(d, keys, submissions, k - 1, now);
      var e := StartUpTo(d, keys, submissions, k - 1, now).value;
      StartTouches(e, keys[k - 1], submissions[keys[k - 1]], now);
      hide MarkStarted;
    }
  }

  /** Runs a command starts, and requeues it grants. */
  ghost function StartsBy(db: Db, command: Command): nat {
    if command.RunOnce? && Tick(db, command.input, command.config, command.picked).Some? then |command.picked| else 0
  }

  ghost function RequeuesBy(command: Command): nat { if command.RequeueRows? then |command.keys| else 0 }

  ghost function StartsIn(db: Db, commands: seq<Command>): nat
    decreases commands
  {
    if commands == [] then 0 else StartsBy(db, commands[0]) + StartsIn(Outcome(db, commands[0]), commands[1..])
  }

  ghost function RequeuesIn(commands: seq<Command>): nat {
    if commands == [] then 0 else RequeuesBy(commands[0]) + RequeuesIn(commands[1..])
  }

  /** Every started run takes one from the budget; only new rows and requeues add to it. */
  lemma CommandSpends(db: Db, command: Command, maxAttempts: nat)
    requires Inv(db, maxAttempts) && maxAttempts > 0 && Permitted(db, command, maxAttempts)
    ensures var next := Outcome(db, command);
      && |next.runs| == |db.runs| + StartsBy(db, command)
      && Sum(next.assignments, Requeues) == Sum(db.assignments, Requeues) + RequeuesBy(command)
      && db.assignments.Keys <= next.assignments.Keys
  {
    hide Inv, Tick, Prepared, Reconciled, NewsFor, ActiveRows, AssignmentsKept, IsSelection;
    var next := Outcome(db, command);
    match command
    case RunOnce(input, config, picked) =>
      if Tick(db, input, config, picked).Some? {
        TickPrepared(db, input, config, picked);
        TickAccounts(db, input, config, picked);
        SumGrows(db.assignments, next.assignments);
      }
    case ReconcileOnly(input, config) =>
      if Reconciled(db, NewsFor(ActiveRows(db), input.replies, config), config, input.now).Some? {
        ReconcileSame(db, input, config);
        SumGrows(db.assignments, next.assignments);
      }
    case RequeueRows(keys, now) =>
      SumRequeued(db.assignments, next.assignments, keys);
  }

  lemma {:induction false} HistorySpends(db: Db, commands: seq<Command>, maxAttempts: nat)
    requires Inv(db, maxAttempts) && maxAttempts > 0 && Permits(db, commands, maxAttempts)
    ensures var next := After(db, commands);
      && |next.runs| == |db.runs| + StartsIn(db, commands)
      && Sum(next.assignments, Requeues) == Sum(db.assignments, Requeues) + RequeuesIn(commands)
      && db.assignments.Keys <= next.assignments.Keys
    decreases commands
  {
    hide Inv, Outcome, Permitted, StartsBy, RequeuesBy;
    if commands != [] {
      CommandSpends(db, commands[0], maxAttempts);
      CommandKeeps(db, commands[0], maxAttempts);
      HistorySpends(Outcome(db, commands[0]), commands[1..], maxAttempts);
    }
  }

  /**
   The measure: over any history the runs started are exactly what the budget lost, so with finitely many
   assignments and requeues only finitely many runs are ever started.
   */
  lemma StartsBounded(db: Db, commands: seq<Command>, maxAttempts: nat)
    requires Inv(db, maxAttempts) && maxAttempts > 0 && Permits(db, commands, maxAttempts)
    ensures var next := After(db, commands);
      && Budget(next, maxAttempts) >= 0
      && Budget(next, maxAttempts) == Budget(db, maxAttempts) + maxAttempts * (|next.assignments| - |db.assignments|)
                                      + RequeuesIn(commands) - StartsIn(db, commands)
  {
    HistorySpends(db, commands, maxAttempts);
    HistoryKeeps(db, commands, maxAttempts);
    BudgetNeverNegative(After(db, commands), maxAttempts);
    var next := After(db, commands);
    hide Inv, After, Permits, StartsIn, RequeuesIn, Sum;
    var a, b := |next.assignments|, |db.assignments|;
    Distribute(maxAttempts, a, b);
  }

  lemma RunsBounded(commands: seq<Command>, maxAttempts: nat)
    requires maxAttempts > 0 && Permits(EMPTY, commands, maxAttempts)
    ensures |After(EMPTY, commands).runs| <= maxAttempts * |After(EMPTY, commands).assignments| + RequeuesIn(commands)
  {
    EmptyHolds(maxAttempts);
    HistorySpends(EMPTY, commands, maxAttempts);
    HistoryKeeps(EMPTY, commands, maxAttempts);
    BudgetNeverNegative(After(EMPTY, commands), maxAttempts);
    hide Inv, After, Permits, StartsIn, RequeuesIn;
  }

  // ----- when a tick commits -------------------------------------------------------------

  /** The rows can be started: each submission works, and the UNIQUE run id and ACTIVE guards let it in. */
  ghost predicate Startable(db: Db, keys: seq<string>, submissions: map<string, string>, k: nat)
    requires k <= |keys|
  {
    && (forall i :: 0 <= i < k ==>
         keys[i] in submissions && !HasActiveRun(db.runs, keys[i])
         && forall r :: r in db.runs ==> r.hermesRunId != submissions[keys[i]])
    && (forall i, j :: 0 <= i < j < k ==> submissions[keys[i]] != submissions[keys[j]])
  }

  /** The runs after k starts: the old ones, then one active run for each started row. */
  ghost predicate Appended(before: seq<Run>, after: seq<Run>, keys: seq<string>, submissions: map<string, string>, k: nat)
    requires k <= |keys|
  {
    && |after| == |before| + k && before <= after
    && forall i :: 0 <= i < k ==>
         keys[i] in submissions
         && var r := after[|before| + i]; r.assignmentKey == keys[i] && r.hermesRunId == submissions[keys[i]] && r.status == Active
  }

  lemma {:induction false} StartsAppend(db: Db, keys: seq<string>, submissions: map<string, string>, k: nat, now: int)
    requires k <= |keys| && StartUpTo(db, keys, submissions, k, now).Some?
    ensures Appended(db.runs, StartUpTo(db, keys, submissions, k, now).value.runs, keys, submissions, k)
  {
    if k > 0 {
      StartsAppend(db, keys, submissions, k - 1, now);
      hide HasActiveRun;
    }
  }

  /** Whether the next row can be started after the others have been. */
  lemma NextStarts(db: Db, d: Db, keys: seq<string>, submissions: map<string, string>, k: nat, now: int)
    requires k < |keys| && Distinct(keys) && keys[k] in d.assignments
    requires Appended(db.runs, d.runs, keys, submissions, k) && Startable(db, keys, submissions, k)
    ensures StartRow(d, keys[k], submissions, now).Some? <==> Startable(db, keys, submissions, k + 1)
  {
    var key := keys[k];
    ActiveAppended(db.runs, d.runs, keys, submissions, k, key);
    hide HasActiveRun;
    if key in submissions {
      IdTaken(db.runs, d.runs, keys, submissions, k, submissions[key]);
    }
    hide Appended;
  }

  lemma ActiveAppended(before: seq<Run>, after: seq<Run>, keys: seq<string>, submissions: map<string, string>, k: nat, key: string)
    requires k <= |keys| && Appended(before, after, keys, submissions, k)
    ensures HasActiveRun(after, key) <==> HasActiveRun(before, key) || exists i :: 0 <= i < k && keys[i] == key
  {
    if HasActiveRun(after, key) {
      var i :| 0 <= i < |after| && after[i].assignmentKey == key && after[i].status == Active;
      if i < |before| {
        assert before[i] == after[i];
      } else {
        assert after[|before| + (i - |before|)].assignmentKey == keys[i - |before|];
      }
    }
    if HasActiveRun(before, key) {
      var i :| 0 <= i < |before| && before[i].assignmentKey == key && before[i].status == Active;
      assert after[i] == before[i];
    }
    if i :| 0 <= i < k && keys[i] == key {
      assert after[|before| + i].status == Active;
    }
  }

  lemma IdTaken(before: seq<Run>, after: seq<Run>, keys: seq<string>, submissions: map<string, string>, k: nat, id: string)
    requires k <= |keys| && Appended(before, after, keys, submissions, k)
    ensures (exists r :: r in after && r.hermesRunId == id) <==>
      (exists r :: r in before && r.hermesRunId == id) || exists i :: 0 <= i < k && submissions[keys[i]] == id
  {
    if r :| r in after && r.hermesRunId == id {
      var i :| 0 <= i < |after| && after[i] == r;
      if i < |before| {
        assert before[i] == r;
      } else {
        assert after[|before| + (i - |before|)].hermesRunId == submissions[keys[i - |before|]];
      }
    }
    if r :| r in before && r.hermesRunId == id {
      var i :| 0 <= i < |before| && before[i] == r;
      assert after[i] == r;
    }
    if i :| 0 <= i < k && submissions[keys[i]] == id {
      assert after[|before| + i] in after;
    }
  }

  lemma {:induction false} StartsSucceed(db: Db, keys: seq<string>, submissions: map<string, string>, k: nat, now: int)
    requires k <= |keys| && Distinct(keys) && forall i :: 0 <= i < |keys| ==> keys[i] in db.assignments
    ensures StartUpTo(db, keys, submissions, k, now).Some? <==> Startable(db, keys, submissions, k)
  {
    hide HasActiveRun, StartRow, Appended;
    if k > 0 {
      StartsSucceed(db, keys, submissions, k - 1, now);
      if StartUpTo(db, keys, submissions, k - 1, now).Some? {
        StartsAppend(db, keys, submissions, k - 1, now);
        StartsTouch(db, keys, submissions, k - 1, now);
        NextStarts(db, StartUpTo(db, keys, submissions, k - 1, now).value, keys, submissions, k - 1, now);
      }
    }
  }

  /**
   A tick commits exactly when no lookup and no fetch raised and every picked row could be started. One
   row with an active run, once picked, undoes everything the tick did for all the others.
   */
  lemma TickCommits(db: Db, input: Input, config: Config, picked: seq<string>)
    requires Permitted(db, RunOnce(input, config, picked), config.maxAttempts)
    ensures Tick(db, input, config, picked).Some? <==>
      var d := Prepared(db, input, config);
      d.Some? && Startable(d.value, picked, input.submissions, |picked|)
  {
    hide Prepared, Startable, StartUpTo;
    var d := Prepared(db, input, config);
    if d.Some? {
      assert forall i :: 0 <= i < |picked| ==> Due(d.value, picked[i], config.role, input.now);
      StartsSucceed(d.value, picked, input.submissions, |picked|, input.now);
    }
  }

  /** Asking to requeue STARTED as well parts the row from its run. */
  lemma StartedRequeueUnlinks(db: Db, keys: set<string>, key: string, now: int)
    requires Linked(db) && key in keys && key in db.assignments && db.assignments[key].status == Started
    ensures !Linked(Requeue(db, keys, now))
  {
    assert Requeue(db, keys, now).assignments[key].status == Pending;
  }
}
