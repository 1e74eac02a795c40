/** What is started, and when: never a row before its retry time, so never two runs closer than the delay. */
module Spacing {
  import opened Statuses
  import opened Database
  import opened Reconciler
  import opened Ticks

  // ----- the query, on its columns -------------------------------------------------------

  /** PENDING, of the role, of a known item, and past its retry time if it has one. */
  predicate Ready(db: Db, key: string, role: Role, now: int) {
    && key in db.assignments
    && var a := db.assignments[key];
       a.status == Pending && a.role == role && a.itemId in db.items && (a.nextRetryAt.Some? ==> a.nextRetryAt.value <= now)
  }

  /** Retry time, or creation time where there is none. */
  function Since(a: Assignment): int {
    match a.nextRetryAt
    case Some(t) => t
    case None => a.createdAt
  }

  predicate Before(a: Assignment, b: Assignment) { Since(a) < Since(b) || (Since(a) == Since(b) && a.updatedAt <= b.updatedAt) }

  /** Ready rows, each once, earliest first, up to the limit; nobody is left out but for want of room, and nobody earlier. */
  ghost predicate Chosen(db: Db, role: Role, limit: nat, now: int, keys: seq<string>) {
    && |keys| <= limit && (forall i, j :: 0 <= i < j < |keys| ==> keys[i] != keys[j])
    && (forall i :: 0 <= i < |keys| ==> Ready(db, keys[i], role, now))
    && (forall i, j :: 0 <= i < j < |keys| ==> Before(db.assignments[keys[i]], db.assignments[keys[j]]))
    && (forall k :: Ready(db, k, role, now) && k !in keys ==>
          |keys| == limit && forall i :: 0 <= i < |keys| ==> Before(db.assignments[keys[i]], db.assignments[k]))
  }

  lemma SelectionExactly(db: Db, role: Role, limit: nat, now: int, keys: seq<string>)
    ensures IsSelection(db, role, limit, now, keys) <==> Chosen(db, role, limit, now, keys)
  {
    hide IsSelection, Chosen;
    if IsSelection(db, role, limit, now, keys) { SelectedChosen(db, role, limit, now, keys); }
    if Chosen(db, role, limit, now, keys) { ChosenSelected(db, role, limit, now, keys); }
  }

  lemma SelectedChosen(db: Db, role: Role, limit: nat, now: int, keys: seq<string>)
    requires IsSelection(db, role, limit, now, keys)
    ensures Chosen(db, role, limit, now, keys)
  {
    hide Due, Ready, NotAfter, Before;
    DueExactly(db, role, now);
    OrderExactly();
  }

  lemma ChosenSelected(db: Db, role: Role, limit: nat, now: int, keys: seq<string>)
    requires Chosen(db, role, limit, now, keys)
    ensures IsSelection(db, role, limit, now, keys)
  {
    hide Due, Ready, NotAfter, Before;
    DueExactly(db, role, now);
    OrderExactly();
  }

  lemma DueExactly(db: Db, role: Role, now: int)
    ensures forall k :: Due(db, k, role, now) <==> Ready(db, k, role, now)
    ensures forall k :: Ready(db, k, role, now) ==> k in db.assignments
  {}

  lemma OrderExactly()
    ensures forall a: Assignment, b: Assignment :: NotAfter(a, b) <==> Before(a, b)
  {}

  /** In a committed tick every picked row of the prepared tables is pending, of the role, and due. */
  lemma PickedAreReady(db: Db, input: Input, config: Config, picked: seq<string>, i: nat)
    requires Permitted(db, RunOnce(input, config, picked), config.maxAttempts) && Tick(db, input, config, picked).Some?
    requires i < |picked|
    ensures Prepared(db, input, config).Some?
    ensures var d := Prepared(db, input, config).value;
      && picked[i] in d.assignments && d.assignments[picked[i]].status == Pending && d.assignments[picked[i]].role == config.role
      && (d.assignments[picked[i]].nextRetryAt == None || d.assignments[picked[i]].nextRetryAt.value <= input.now)
  {
    hide Prepared, StartUpTo;
    SelectionExactly(Prepared(db, input, config).value, config.role, config.maxStarts, input.now, picked);
    hide IsSelection;
  }

  // ----- runs and endings ----------------------------------------------------------------

  predicate SameKey(r: Run, q: Run) { r.assignmentKey == q.assignmentKey }

  /** A run follows another of its assignment only once that has ended, and not sooner than the delay. */
  ghost predicate Spaced(runs: seq<Run>, d: nat) {
    forall i, j :: 0 <= i < j < |runs| && SameKey(runs[i], runs[j]) ==>
      runs[i].completedAt.Some? && runs[j].startedAt >= runs[i].completedAt.value + d
  }

  /** Nothing is dated ahead of the clock, and a run has an ending exactly when it is not active. */
  ghost predicate Dated(runs: seq<Run>, clock: int) {
    forall i :: 0 <= i < |runs| ==>
      && runs[i].startedAt <= clock && (runs[i].status == Active <==> runs[i].completedAt.None?)
      && (runs[i].completedAt.Some? ==> runs[i].completedAt.value <= clock)
  }

  /** A pending row's runs have all ended, and it waits out the delay since each. */
  predicate WaitsOut(a: Assignment, r: Run, d: nat) {
    r.completedAt.Some? && (d > 0 ==> a.nextRetryAt.Some? && a.nextRetryAt.value >= r.completedAt.value + d)
  }

  ghost predicate Waiting(db: Db, d: nat) {
    forall i :: 0 <= i < |db.runs| && db.runs[i].assignmentKey in db.assignments
                && db.assignments[db.runs[i].assignmentKey].status == Pending ==>
      WaitsOut(db.assignments[db.runs[i].assignmentKey], db.runs[i], d)
  }

  ghost predicate Timed(db: Db, d: nat, clock: int) { Spaced(db.runs, d) && Dated(db.runs, clock) && Waiting(db, d) }

  lemma LaterTimed(db: Db, d: nat, clock: int, later: int)
    requires Timed(db, d, clock) && clock <= later
    ensures Timed(db, d, later)
  {}

  lemma SameRunsTimed(db: Db, next: Db, d: nat, clock: int)
    requires Timed(db, d, clock) && next.runs == db.runs && next.assignments == db.assignments
    ensures Timed(next, d, clock)
  {}

  lemma FinishDated(runs: seq<Run>, key: string, status: RunStatus, now: int)
    requires Dated(runs, now) && status != Active
    ensures Dated(FinishRuns(runs, key, status, now), now)
  {}

  lemma FinishSpaced(db: Db, key: string, status: RunStatus, now: int, d: nat)
    requires Spaced(db.runs, d) && Dated(db.runs, now)
    ensures Spaced(FinishRuns(db.runs, key, status, now), d)
  {
    var next := FinishRuns(db.runs, key, status, now);
    forall i, j | 0 <= i < j < |next| && SameKey(next[i], next[j])
      ensures next[i].completedAt.Some? && next[j].startedAt >= next[i].completedAt.value + d
    {
      assert SameKey(db.runs[i], db.runs[j]);
      assert db.runs[i].completedAt.Some?;
    }
    hide Spaced;
  }

  lemma FinishWaiting(db: Db, key: string, runStatus: RunStatus, status: AssignmentStatus, retryAt: Option<int>, now: int, d: nat)
    requires Dated(db.runs, now) && Waiting(db, d) && runStatus != Active
    requires status == Pending && d > 0 ==> retryAt.Some? && retryAt.value >= now + d
    ensures Waiting(MarkFinished(db, key, runStatus, status, retryAt, now), d)
  {
    var next := MarkFinished(db, key, runStatus, status, retryAt, now);
    forall i | 0 <= i < |next.runs| && next.runs[i].assignmentKey in next.assignments
               && next.assignments[next.runs[i].assignmentKey].status == Pending
      ensures WaitsOut(next.assignments[next.runs[i].assignmentKey], next.runs[i], d)
    {
      if next.runs[i].assignmentKey == key {
        assert next.runs[i].completedAt.Some? && next.runs[i].completedAt.value <= now;
      } else {
        assert next.runs[i] == db.runs[i] && WaitsOut(db.assignments[db.runs[i].assignmentKey], db.runs[i], d);
      }
    }
  }

  lemma EndTimed(db: Db, row: ActiveRow, e: Ending, adapterRaises: bool, config: Config, now: int, d: nat)
    requires Inv(db, config.maxAttempts) && Timed(db, d, now) && e.runStatus != Active && d <= config.retryDelay
    requires e.status == Pending ==> e.retryAt == RetryTimestamp(config.retryDelay, now)
    ensures Timed(Apply(db, row, e, adapterRaises, config, now), d, now)
  {
    var key := row.run.assignmentKey;
    FinishDated(db.runs, key, e.runStatus, now);
    FinishSpaced(db, key, e.runStatus, now, d);
    FinishWaiting(db, key, e.runStatus, e.status, e.retryAt, now, d);
    var marked := MarkFinished(db, key, e.runStatus, e.status, e.retryAt, now);
    assert marked.runs == FinishRuns(db.runs, key, e.runStatus, now);
    hide Inv, Spaced, Dated, Waiting, MarkFinished, FinishRuns;
    SameRunsTimed(marked, Apply(db, row, e, adapterRaises, config, now), d, now);
  }

  lemma TurnTimed(p: Pass, row: ActiveRow, n: News, config: Config, now: int, d: nat)
    requires Inv(p.db, config.maxAttempts) && Timed(p.db, d, now) && d <= config.retryDelay
    requires Turn(p, row, n, config, now).Some?
    ensures Timed(Turn(p, row, n, config, now).value.db, d, now)
  {
    hide Inv, Timed, Apply, Judge, RetryTimestamp;
    if Judge(row, n.finding, config, now).Ended? {
      EndingShape(row, n.finding, config, now);
      EndTimed(p.db, row, Judge(row, n.finding, config, now).ending, n.adapterRaises, config, now, d);
    }
  }

  lemma {:induction false} PassTimed(db: Db, rows: seq<ActiveRow>, news: seq<News>, k: nat, config: Config, now: int, d: nat)
    requires Sound(Pass(db, Nothing()), rows, 0, config.maxAttempts, false) && Timed(db, d, now) && d <= config.retryDelay
    requires k <= |rows| == |news| && ReconcileUpTo(db, rows, news, k, config, now).Some?
    ensures Timed(ReconcileUpTo(db, rows, news, k, config, now).value.db, d, now)
  {
    hide Inv, Timed, Turn, RowsAhead, Balances, SilentUpTo;
    if k > 0 {
      PassTimed(db, rows, news, k - 1, config, now, d);
      PassKeeps(db, rows, news, k - 1, config, now, false);
      TurnTimed(ReconcileUpTo(db, rows, news, k - 1, config, now).value, rows[k - 1], news[k - 1], config, now, d);
    }
  }

  lemma ReconcileTimed(db: Db, input: Input, config: Config, d: nat)
    requires Inv(db, config.maxAttempts) && Timed(db, d, input.now) && d <= config.retryDelay
    requires Reconciled(db, NewsFor(ActiveRows(db), input.replies, config), config, input.now).Some?
    ensures Timed(Reconciled(db, NewsFor(ActiveRows(db), input.replies, config), config, input.now).value.db, d, input.now)
  {
    hide Inv, Timed, ReconcileUpTo, ActiveRows, RowsAhead, NewsFor;
    RowsStartAhead(db, config.maxAttempts);
    var news := NewsFor(ActiveRows(db), input.replies, config);
    PassTimed(db, ActiveRows(db), news, |news|, config, input.now, d);
  }

  lemma DiscoverTimed(db: Db, item: WorkItem, config: Config, now: int, d: nat)
    requires RunsCounted(db) && Timed(db, d, now)
    ensures Timed(Discover(db, item, config, now), d, now)
  {
    hide AssignmentKey, MatchesRole, Spaced, Dated;
    var next := Discover(db, item, config, now);
    assert forall i :: 0 <= i < |db.runs| ==> db.runs[i].assignmentKey in db.assignments;
    hide RunsCounted;
  }

  lemma {:induction false} DiscoveryTimed(db: Db, items: seq<WorkItem>, k: nat, config: Config, now: int, d: nat)
    requires k <= |items| && Inv(db, config.maxAttempts) && config.maxAttempts > 0 && Timed(db, d, now)
    ensures Timed(DiscoverUpTo(db, items, k, config, now), d, now)
  {
    hide Discover, Timed;
    if k > 0 {
      DiscoveryTimed(db, items, k - 1, config, now, d);
      DiscoveryKeeps(db, items, k - 1, config, now);
      DiscoverTimed(DiscoverUpTo(db, items, k - 1, config, now), items[k - 1], config, now, d);
    }
  }

  /** Starting a due row starts it late enough. */
  lemma StartTimed(db: Db, key: string, runId: string, now: int, d: nat)
    requires Timed(db, d, now) && MarkStarted(db, key, runId, now).Some? && db.assignments[key].status == Pending
    requires db.assignments[key].nextRetryAt.Some? ==> db.assignments[key].nextRetryAt.value <= now
    ensures Timed(MarkStarted(db, key, runId, now).value, d, now)
  {
    var next := MarkStarted(db, key, runId, now).value;
    var n := |db.runs|;
    assert next.runs[..n] == db.runs && next.runs[n] == Run(key, runId, Active, db.assignments[key].attemptCount + 1, now, None);
    forall i | 0 <= i < n && db.runs[i].assignmentKey == key ensures db.runs[i].completedAt.Some? && now >= db.runs[i].completedAt.value + d {
      assert WaitsOut(db.assignments[key], db.runs[i], d);
    }
    assert forall i :: 0 <= i < n ==> next.runs[i] == db.runs[i];
    forall i | 0 <= i < |next.runs| && next.runs[i].assignmentKey in next.assignments
               && next.assignments[next.runs[i].assignmentKey].status == Pending
      ensures WaitsOut(next.assignments[next.runs[i].assignmentKey], next.runs[i], d)
    {
      assert next.runs[i].assignmentKey != key;
    }
  }

  lemma {:induction false} StartsTimed(db: Db, keys: seq<string>, submissions: map<string, string>, k: nat, role: Role, now: int, d: nat)
    requires k <= |keys| && StartUpTo(db, keys, submissions, k, now).Some? && Timed(db, d, now) && Distinct(keys)
    requires forall i :: 0 <= i < |keys| ==> Ready(db, keys[i], role, now)
    ensures Timed(StartUpTo(db, keys, submissions, k, now).value, d, now)
  {
    if k > 0 {
      hide Timed, MarkStarted;
      StartsTimed(db, keys, submissions, k - 1, role, now, d);
      StartsTouch(db, keys, submissions, k - 1, now);
      assert keys[k - 1] !in keys[..k - 1] && Ready(db, keys[k - 1], role, now);
      StartTimed(StartUpTo(db, keys, submissions, k - 1, now).value, keys[k - 1], submissions[keys[k - 1]], now, d);
    }
  }

  lemma TickTimed(db: Db, input: Input, config: Config, picked: seq<string>, d: nat)
    requires Inv(db, config.maxAttempts) && config.maxAttempts > 0 && Timed(db, d, input.now) && d <= config.retryDelay
    requires Tick(db, input, config, picked).Some?
    requires IsSelection(Prepared(db, input, config).value, config.role, config.maxStarts, input.now, picked)
    ensures Timed(Tick(db, input, config, picked).value, d, input.now)
  {
    hide Inv, Timed, Reconciled, NewsFor, ActiveRows, DiscoverUpTo, StartUpTo, Ready, Before, AssignmentsKept, SameRequeues;
    ReconcileTimed(db, input, config, d);
    ReconcileSame(db, input, config);
    var p := Reconciled(db, NewsFor(ActiveRows(db), input.replies, config), config, input.now).value.db;
    DiscoveryTimed(p, input.fetched.value, |input.fetched.value|, config, input.now, d);
    var prepared := Prepared(db, input, config).value;
    SelectionExactly(prepared, config.role, config.maxStarts, input.now, picked);
    hide IsSelection;
    StartsTimed(prepared, picked, input.submissions, |picked|, config.role, input.now, d);
  }

  // ----- over a history ------------------------------------------------------------------

  /** The clock does not run back, the delay is at least d, and no operator requeues. */
  predicate OnClock(commands: seq<Command>, clock: int, d: nat) {
    commands != [] ==>
      && !commands[0].RequeueRows? && commands[0].config.retryDelay >= d && commands[0].input.now >= clock
      && OnClock(commands[1..], commands[0].input.now, d)
  }

  lemma CommandTimed(db: Db, command: Command, maxAttempts: nat, clock: int, d: nat)
    requires Inv(db, maxAttempts) && maxAttempts > 0 && Permitted(db, command, maxAttempts) && Timed(db, d, clock)
    requires !command.RequeueRows? && command.config.retryDelay >= d && command.input.now >= clock
    ensures Timed(Outcome(db, command), d, command.input.now)
  {
    hide Inv, Timed, Tick, Prepared, Reconciled, NewsFor, ActiveRows, IsSelection;
    LaterTimed(db, d, clock, command.input.now);
    match command
    case RunOnce(input, config, picked) =>
      if Tick(db, input, config, picked).Some? {
        TickPrepared(db, input, config, picked);
        TickTimed(db, input, config, picked, d);
      }
    case ReconcileOnly(input, config) =>
      if Reconciled(db, NewsFor(ActiveRows(db), input.replies, config), config, input.now).Some? { ReconcileTimed(db, input, config, d); }
  }

  lemma {:induction false} HistoryTimed(db: Db, commands: seq<Command>, maxAttempts: nat, clock: int, d: nat)
    requires Inv(db, maxAttempts) && maxAttempts > 0 && Permits(db, commands, maxAttempts) && Timed(db, d, clock) && OnClock(commands, clock, d)
    ensures Spaced(After(db, commands).runs, d)
    decreases commands
  {
    hide Inv, Outcome, Permitted, Spaced, Dated, Waiting;
    if commands != [] {
      CommandKeeps(db, commands[0], maxAttempts);
      hide Timed;
      CommandTimed(db, commands[0], maxAttempts, clock, d);
      HistoryTimed(Outcome(db, commands[0]), commands[1..], maxAttempts, commands[0].input.now, d);
    }
  }

  lemma EmptyTimed(d: nat, clock: int)
    ensures Timed(EMPTY, d, clock)
  {}

  /**
   Over any history with a clock that does not run back and no operator requeue, a run of an assignment
   starts only after every earlier one has ended, and at least the retry delay after that ending.
   */
  lemma {:induction false} RunsSpaced(commands: seq<Command>, maxAttempts: nat, clock: int, d: nat, i: nat, j: nat)
    requires maxAttempts > 0 && Permits(EMPTY, commands, maxAttempts) && OnClock(commands, clock, d)
    requires i < j < |After(EMPTY, commands).runs|
    requires After(EMPTY, commands).runs[i].assignmentKey == After(EMPTY, commands).runs[j].assignmentKey
    ensures var runs := After(EMPTY, commands).runs;
      runs[i].completedAt.Some? && runs[j].startedAt >= runs[i].completedAt.value + d
  {
    hide After, Permits, OnClock, Inv, Timed;
    EmptyHolds(maxAttempts);
    EmptyTimed(d, clock);
    HistoryTimed(EMPTY, commands, maxAttempts, clock, d);
    assert SameKey(After(EMPTY, commands).runs[i], After(EMPTY, commands).runs[j]);
  }
}
