/** Bounded waiting: the queue is served in order, so a due row cannot be passed over for long. */
module Waiting {
  import opened Statuses
  import opened Database
  import opened Reconciler
  import opened Ticks

  /** The row waits to be started, and has waited since w. */
  predicate Waits(db: Db, key: string, role: Role, w: int) {
    && key in db.assignments
    && var a := db.assignments[key];
       a.status == Pending && a.role == role && a.itemId in db.items && WaitKey(a) == w
  }

  /** Everyone of the role who waits since w or longer, the row itself included. */
  ghost function Ahead(db: Db, role: Role, w: int): set<string> {
    set k | k in db.assignments && exists v :: v <= w && Waits(db, k, role, v)
  }

  lemma ReconcileAhead(db: Db, next: Db, config: Config, now: int, w: int, k: string)
    requires AssignmentsKept(db, next, ActiveRows(db), config, now) && config.retryDelay >= 1 && w < now
    requires k in Ahead(next, config.role, w)
    ensures k in Ahead(db, config.role, w)
  {
    var a, b := db.assignments[k], next.assignments[k];
    assert RowKept(a, b, config, now);
    assert Waits(next, k, config.role, WaitKey(b));
    assert b == a;
    assert Waits(db, k, config.role, WaitKey(a));
  }

  /** A waiting row has no active run, so a reconciliation does not touch it. */
  lemma ReconcileLeaves(db: Db, next: Db, config: Config, now: int, key: string, w: int)
    requires Linked(db) && AssignmentsKept(db, next, ActiveRows(db), config, now)
    requires Waits(db, key, config.role, w)
    ensures Waits(next, key, config.role, w)
  {
    var rows := ActiveRows(db);
    forall j | 0 <= j < |rows| ensures HasActiveRun(db.runs, rows[j].run.assignmentKey) {
      var i :| 0 <= i < |db.runs| && db.runs[i] == rows[j].run;
    }
  }

  lemma DiscoverAhead(db: Db, item: WorkItem, config: Config, now: int, w: int)
    requires w < now
    requires ItemsKnown(db)
    ensures Ahead(Discover(db, item, config, now), config.role, w) <= Ahead(db, config.role, w)
    ensures forall k :: Waits(db, k, config.role, w) ==> Waits(Discover(db, item, config, now), k, config.role, w)
  {
    hide AssignmentKey, MatchesRole;
    var next := Discover(db, item, config, now);
    forall k | k in Ahead(next, config.role, w) ensures k in Ahead(db, config.role, w) {
      var v :| v <= w && Waits(next, k, config.role, v);
      assert k in db.assignments && next.assignments[k] == db.assignments[k];
      assert Waits(db, k, config.role, v);
    }
  }

  lemma {:induction false} DiscoveryAhead(db: Db, items: seq<WorkItem>, k: nat, config: Config, now: int, w: int)
    requires w < now && k <= |items| && Inv(db, config.maxAttempts) && config.maxAttempts > 0
    ensures var next := DiscoverUpTo(db, items, k, config, now);
      && Ahead(next, config.role, w) <= Ahead(db, config.role, w)
      && (forall key :: Waits(db, key, config.role, w) ==> Waits(next, key, config.role, w))
  {
    hide Ahead, Waits, Discover;
    if k > 0 {
      DiscoveryAhead(db, items, k - 1, config, now, w);
      DiscoveryKeeps(db, items, k - 1, config, now);
      DiscoverAhead(DiscoverUpTo(db, items, k - 1, config, now), items[k - 1], config, now, w);
    }
  }

  lemma PreparedAhead(db: Db, input: Input, config: Config, key: string, w: int)
    requires Inv(db, config.maxAttempts) && Linked(db) && config.maxAttempts > 0 && config.retryDelay >= 1 && w < input.now
    requires Prepared(db, input, config).Some? && Waits(db, key, config.role, w)
    ensures var d := Prepared(db, input, config).value;
      Ahead(d, config.role, w) <= Ahead(db, config.role, w) && Waits(d, key, config.role, w)
  {
    hide Inv, Linked, Reconciled, NewsFor, ActiveRows, DiscoverUpTo, AssignmentsKept, Ahead, Waits, SameRequeues;
    ReconcileSame(db, input, config);
    var p := Reconciled(db, NewsFor(ActiveRows(db), input.replies, config), config, input.now).value.db;
    forall k | k in Ahead(p, config.role, w) ensures k in Ahead(db, config.role, w) {
      ReconcileAhead(db, p, config, input.now, w, k);
    }
    ReconcileLeaves(db, p, config, input.now, key, w);
    DiscoveryAhead(p, input.fetched.value, |input.fetched.value|, config, input.now, w);
  }

  /** A selection that leaves a waiting row out is full, and of rows ahead of it. */
  lemma PassedOver(d: Db, role: Role, limit: nat, now: int, picked: seq<string>, key: string, w: int)
    requires IsSelection(d, role, limit, now, picked) && Waits(d, key, role, w) && w < now && key !in picked
    ensures |picked| == limit && KeySet(picked) <= Ahead(d, role, w)
  {
    assert Due(d, key, role, now);
    forall k | k in picked ensures k in Ahead(d, role, w) {
      var i :| 0 <= i < |picked| && picked[i] == k;
      assert Due(d, k, role, now);
      assert NotAfter(d.assignments[picked[i]], d.assignments[key]);
      assert Waits(d, k, role, WaitKey(d.assignments[k]));
    }
  }

  lemma StartsShrink(d: Db, input: Input, picked: seq<string>, role: Role, key: string, w: int)
    requires StartUpTo(d, picked, input.submissions, |picked|, input.now).Some?
    requires Distinct(picked) && KeySet(picked) <= Ahead(d, role, w) && Waits(d, key, role, w) && key !in picked
    ensures var next := StartUpTo(d, picked, input.submissions, |picked|, input.now).value;
      Waits(next, key, role, w) && |Ahead(next, role, w)| + |picked| <= |Ahead(d, role, w)|
  {
    var next := StartUpTo(d, picked, input.submissions, |picked|, input.now).value;
    StartsTouch(d, picked, input.submissions, |picked|, input.now);
    assert picked[..|picked|] == picked;
    hide StartUpTo;
    var started := KeySet(picked);
    forall k | k in Ahead(next, role, w) ensures k in Ahead(d, role, w) - started {
      var v :| v <= w && Waits(next, k, role, v);
      if k in picked {
        var i :| 0 <= i < |picked| && picked[i] == k;
        StartsStart(d, picked, input.submissions, |picked|, input.now, i);
      } else {
        assert Waits(d, k, role, v);
      }
    }
    KeysCount(picked);
    Fewer(Ahead(next, role, w), Ahead(d, role, w), started);
  }

  lemma Fewer(a: set<string>, b: set<string>, c: set<string>)
    requires a <= b - c && c <= b
    ensures |a| + |c| <= |b|
  {
    assert b == (b - c) + c;
    Subset(a, b - c);
  }

  lemma Subset(a: set<string>, b: set<string>)
    requires a <= b
    ensures |a| <= |b|
  {
    assert b == a + (b - a);
  }

  /** One successful tick either starts the row or serves maxStarts of those ahead of it. */
  lemma TickShrinks(db: Db, input: Input, config: Config, picked: seq<string>, key: string, w: int)
    requires Inv(db, config.maxAttempts) && Linked(db) && config.maxAttempts > 0 && config.retryDelay >= 1 && w < input.now
    requires Tick(db, input, config, picked).Some? && Waits(db, key, config.role, w) && key !in picked
    requires IsSelection(Prepared(db, input, config).value, config.role, config.maxStarts, input.now, picked)
    ensures var next := Tick(db, input, config, picked).value;
      && Waits(next, key, config.role, w)
      && |Ahead(next, config.role, w)| + config.maxStarts <= |Ahead(db, config.role, w)|
  {
    var d := Prepared(db, input, config).value;
    assert StartUpTo(d, picked, input.submissions, |picked|, input.now).Some?;
    hide Inv, Linked, Prepared, StartUpTo, Ahead, Waits;
    PreparedAhead(db, input, config, key, w);
    PassedOver(d, config.role, config.maxStarts, input.now, picked, key, w);
    StartsShrink(d, input, picked, config.role, key, w);
    Subset(Ahead(d, config.role, w), Ahead(db, config.role, w));
  }

  lemma ReconcileOnlyAhead(db: Db, input: Input, config: Config, key: string, w: int)
    requires Inv(db, config.maxAttempts) && Linked(db) && config.retryDelay >= 1 && w < input.now
    requires Waits(db, key, config.role, w)
    ensures var next := Outcome(db, ReconcileOnly(input, config));
      Waits(next, key, config.role, w) && |Ahead(next, config.role, w)| <= |Ahead(db, config.role, w)|
  {
    var next := Outcome(db, ReconcileOnly(input, config));
    hide Inv, Linked, Reconciled, NewsFor, ActiveRows, AssignmentsKept, Ahead, Waits, SameRequeues;
    if Reconciled(db, NewsFor(ActiveRows(db), input.replies, config), config, input.now).Some? {
      ReconcileSame(db, input, config);
      forall k | k in Ahead(next, config.role, w) ensures k in Ahead(db, config.role, w) {
        ReconcileAhead(db, next, config, input.now, w, k);
      }
      ReconcileLeaves(db, next, config, input.now, key, w);
      Subset(Ahead(next, config.role, w), Ahead(db, config.role, w));
    }
  }

  // ----- over a history ------------------------------------------------------------------

  predicate Usual(command: Command, role: Role, m: nat, w: int) {
    match command
    case RunOnce(input, config, _) => config.role == role && config.maxStarts >= m && config.retryDelay >= 1 && w < input.now
    case ReconcileOnly(input, config) => config.role == role && config.retryDelay >= 1 && w < input.now
    case RequeueRows(_, _) => false
  }

  ghost predicate Succeeds(db: Db, command: Command) {
    command.RunOnce? && Tick(db, command.input, command.config, command.picked).Some?
  }

  ghost function TicksDone(db: Db, commands: seq<Command>): nat
    decreases commands
  {
    if commands == [] then 0 else
    (if Succeeds(db, commands[0]) then 1 else 0) + TicksDone(Outcome(db, commands[0]), commands[1..])
  }

  /** Some successful tick of the history starts the row. */
  ghost predicate StartedIn(db: Db, commands: seq<Command>, key: string)
    decreases commands
  {
    commands != [] &&
    ((Succeeds(db, commands[0]) && key in commands[0].picked) || StartedIn(Outcome(db, commands[0]), commands[1..], key))
  }

  lemma CommandShrinks(db: Db, command: Command, maxAttempts: nat, role: Role, m: nat, key: string, w: int)
    requires Inv(db, maxAttempts) && Linked(db) && maxAttempts > 0 && Permitted(db, command, maxAttempts)
    requires Usual(command, role, m, w) && Waits(db, key, role, w)
    requires !(Succeeds(db, command) && key in command.picked)
    ensures var next := Outcome(db, command);
      && Inv(next, maxAttempts) && Linked(next) && Waits(next, key, role, w)
      && |Ahead(next, role, w)| + (if Succeeds(db, command) then m else 0) <= |Ahead(db, role, w)|
  {
    hide Inv, Linked, Tick, Prepared, Reconciled, Ahead, Waits, IsSelection;
    CommandKeeps(db, command, maxAttempts);
    match command
    case RunOnce(input, config, picked) =>
      if Succeeds(db, command) {
        TickPrepared(db, input, config, picked);
        TickShrinks(db, input, config, picked, key, w);
      }
    case ReconcileOnly(input, config) => ReconcileOnlyAhead(db, input, config, key, w);
  }

  lemma WaitsAhead(db: Db, key: string, role: Role, w: int)
    requires Waits(db, key, role, w)
    ensures |Ahead(db, role, w)| > 0
  {
    assert key in Ahead(db, role, w);
  }

  lemma {:induction false} QueueShrinks(db: Db, commands: seq<Command>, maxAttempts: nat, role: Role, m: nat, key: string, w: int)
    requires Inv(db, maxAttempts) && Linked(db) && maxAttempts > 0 && Permits(db, commands, maxAttempts)
    requires (forall i :: 0 <= i < |commands| ==> Usual(commands[i], role, m, w)) && Waits(db, key, role, w)
    requires !StartedIn(db, commands, key)
    ensures |Ahead(After(db, commands), role, w)| + TicksDone(db, commands) * m <= |Ahead(db, role, w)|
    ensures Waits(After(db, commands), key, role, w) && |Ahead(After(db, commands), role, w)| > 0
    decreases commands
  {
    hide Inv, Linked, Outcome, Permitted, Ahead, Waits, Succeeds, Usual;
    if commands == [] {
      WaitsAhead(db, key, role, w);
    } else {
      CommandShrinks(db, commands[0], maxAttempts, role, m, key, w);
      var next := Outcome(db, commands[0]);
      assert forall i :: 0 <= i < |commands[1..]| ==> commands[1..][i] == commands[i + 1];
      QueueShrinks(next, commands[1..], maxAttempts, role, m, key, w);
      var n := TicksDone(next, commands[1..]);
      assert (n + 1) * m == n * m + m;
    }
  }

  /**
   A row that has waited since w is started within |Ahead| / maxStarts successful ticks, rounded up,
   whatever the gateway and the provider answer in between.
   */
  lemma {:induction false} BoundedWaiting(db: Db, commands: seq<Command>, maxAttempts: nat, role: Role, m: nat, key: string, w: int)
    requires Inv(db, maxAttempts) && Linked(db) && maxAttempts > 0 && Permits(db, commands, maxAttempts)
    requires (forall i :: 0 <= i < |commands| ==> Usual(commands[i], role, m, w)) && Waits(db, key, role, w)
    requires TicksDone(db, commands) * m >= |Ahead(db, role, w)|
    ensures StartedIn(db, commands, key)
  {
    hide Inv, Linked, Permits, After, TicksDone, StartedIn, Usual;
    if !StartedIn(db, commands, key) {
      QueueShrinks(db, commands, maxAttempts, role, m, key, w);
    }
  }
}
