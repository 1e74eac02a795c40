/** `reconcile` and the commands of `cli.py` as they run against the store. */
module Commands {
  import opened Statuses
  import opened FinalResponses
  import opened Database
  import opened Reconciler
  import opened Ticks
  import opened Stores

  /** `_parse_or_repair_final_response`, reduced to what the loop uses of it. */
  method Look(row: ActiveRow, answer: Answer, config: Config) returns (finding: Finding)
    ensures finding == Find(row, answer, config)
  {
    match answer
    case NotFound => finding := NoSuchRun;
    case Unreachable => finding := LookupFailed;
    case Reported(word, payload, configError, transientError, modelAnswer) =>
      if word in COMPLETED_WORDS {
        var response, _ := ParseOrRepair(payload, row.role, row.run.assignmentKey, config.repair, modelAnswer);
        hide ParsedOrRepaired;
        finding := RunDone(if response.Some? then Some(response.value.finalStatus) else None);
      } else if word in FAILED_WORDS {
        finding := RunErred(configError, transientError);
      } else if word in CANCELLED_WORDS {
        finding := RunStopped;
      } else if word in TIMEOUT_WORDS {
        finding := RunTimedOut;
      } else {
        finding := StillGoing;
      }
  }

  /** The state in which one ending is written, and no later ending has been. */
  twostate predicate Wrote(store: Store, row: ActiveRow, e: Ending, adapterRaises: bool, config: Config, now: int)
    reads store
  {
    store.State() == Apply(old(store.State()), row, e, adapterRaises, config, now)
  }

  /** `apply_transition` and `apply_failure_transition`: a row whether or not the provider call works. */
  method ApplyTransition(store: Store, row: ActiveRow, mark: Mark, nextRole: Option<Role>, adapterRaises: bool, config: Config)
    modifies store
    ensures store.State() == AddTransition(old(store.State()), Transition(row.run.assignmentKey, row.role, mark, nextRole,
      config.applyTransitions && config.adapterPresent && !adapterRaises))
  {
    var applied := false;
    if config.applyTransitions && config.adapterPresent {
      applied := !adapterRaises;
    }
    store.RecordTransition(Transition(row.run.assignmentKey, row.role, mark, nextRole, applied));
  }

  method EndFor(store: Store, row: ActiveRow, runStatus: RunStatus, status: AssignmentStatus, tally: Tally, mark: Mark,
                adapterRaises: bool, config: Config, now: int)
    modifies store
    ensures Wrote(store, row, Ending(runStatus, status, None, tally, Some(mark), None, false), adapterRaises, config, now)
  {
    store.MarkRunFinished(row.run.assignmentKey, runStatus, status, None, now);
    ApplyTransition(store, row, mark, None, adapterRaises, config);
    hide MarkFinished;
  }

  method EndAgain(store: Store, row: ActiveRow, runStatus: RunStatus, tally: Tally, mark: Mark,
                  adapterRaises: bool, config: Config, now: int)
    modifies store
    ensures Wrote(store, row, Ending(runStatus, Pending, RetryTimestamp(config.retryDelay, now), tally, Some(mark), None, true),
                  adapterRaises, config, now)
  {
    store.MarkRunFinished(row.run.assignmentKey, runStatus, Pending, RetryTimestamp(config.retryDelay, now), now);
    store.RecordTransition(Transition(row.run.assignmentKey, row.role, mark, None, false));
    hide MarkFinished, RetryTimestamp;
  }

  /** The completed branch: unusable output, output for an older revision, or a completion and its handoff. */
  method EndDone(store: Store, row: ActiveRow, status: Option<FinalStatus>, adapterRaises: bool, config: Config, now: int)
    modifies store
    ensures JudgeDone(row, status).Ended? && Wrote(store, row, JudgeDone(row, status).ending, adapterRaises, config, now)
  {
    hide MarkFinished, LastField;
    if status.None? {
      EndFor(store, row, InvalidOutput, FailedFinal, Unusable, Invalid, adapterRaises, config, now);
    } else if LastField(row.run.assignmentKey) != row.revision {
      EndFor(store, row, StaleOutput, FailedFinal, Unusable, Stale, adapterRaises, config, now);
    } else {
      store.MarkRunFinished(row.run.assignmentKey, RunCompleted, Completed, None, now);
      var spec := ResolveTransition(row.role, status.value);
      hide ResolveTransition;
      if spec.Some? {
        ApplyTransition(store, row, Final(status.value), spec.value.nextRole, adapterRaises, config);
      }
    }
  }

  method EndStopped(store: Store, row: ActiveRow, adapterRaises: bool, config: Config, now: int)
    modifies store
    ensures Wrote(store, row, Ending(RunCancelled, Cancelled, None, WasCancelled, None, None, true), adapterRaises, config, now)
  {
    store.MarkRunFinished(row.run.assignmentKey, RunCancelled, Cancelled, None, now);
    hide MarkFinished;
  }

  /** The loop body after the run's own clock has been looked at. */
  method EndFound(store: Store, row: ActiveRow, news: News, config: Config, now: int)
    returns (verdict: Verdict)
    requires now - row.run.startedAt <= config.runTimeout
    modifies store
    ensures verdict == Judge(row, news.finding, config, now)
    ensures verdict.Ended? ==> Wrote(store, row, verdict.ending, news.adapterRaises, config, now)
    ensures !verdict.Ended? ==> store.State() == old(store.State())
  {
    hide Wrote, JudgeDone, RetryTimestamp;
    match news.finding
    case NoSuchRun =>
      if config.retryLostRuns && AttemptsRemain(row.run, config) {
        EndAgain(store, row, RunLost, LostAndRequeued, LostRequeued, news.adapterRaises, config, now);
        verdict := Again(RunLost, LostAndRequeued, LostRequeued, config, now);
      } else {
        EndFor(store, row, RunLost, FailedFinal, LostForGood, Lost, news.adapterRaises, config, now);
        verdict := Over(RunLost, FailedFinal, LostForGood, Lost);
      }
    case LookupFailed => verdict := Abort;
    case RunDone(status) =>
      EndDone(store, row, status, news.adapterRaises, config, now);
      verdict := JudgeDone(row, status);
    case RunErred(configError, transientError) =>
      if configError {
        EndFor(store, row, RunFailed, BlockedConfig, FailedOnConfig, ConfigBlocked, news.adapterRaises, config, now);
        verdict := Over(RunFailed, BlockedConfig, FailedOnConfig, ConfigBlocked);
      } else if config.retryTransientFailures && transientError && AttemptsRemain(row.run, config) {
        EndAgain(store, row, RunFailed, FailedAndRequeued, FailedRequeued, news.adapterRaises, config, now);
        verdict := Again(RunFailed, FailedAndRequeued, FailedRequeued, config, now);
      } else {
        EndFor(store, row, RunFailed, FailedFinal, FailedForGood, Failed, news.adapterRaises, config, now);
        verdict := Over(RunFailed, FailedFinal, FailedForGood, Failed);
      }
    case RunStopped =>
      EndStopped(store, row, news.adapterRaises, config, now);
      verdict := Ended(Ending(RunCancelled, Cancelled, None, WasCancelled, None, None, true));
    case RunTimedOut =>
      EndFor(store, row, RunTimeout, TimedOut, RanOut, Timeout, news.adapterRaises, config, now);
      verdict := Over(RunTimeout, TimedOut, RanOut, Timeout);
    case StillGoing => verdict := StillRunning;
  }

  /** One turn of the loop. */
  method ReconcileRow(store: Store, row: ActiveRow, reply: Reply, summary: Summary, config: Config, now: int)
    returns (next: Option<Summary>)
    modifies store
    ensures var turn := Turn(Pass(old(store.State()), summary), row, News(Find(row, reply.answer, config), reply.adapterRaises), config, now);
      if next.Some? then turn == Some(Pass(store.State(), next.value)) else turn == None
  {
    ghost var news := News(Find(row, reply.answer, config), reply.adapterRaises);
    hide Find;
    var counted := summary.(active := summary.active + 1);
    var verdict;
    if now - row.run.startedAt > config.runTimeout {
      EndFor(store, row, RunTimeout, TimedOut, RanOut, Timeout, reply.adapterRaises, config, now);
      verdict := Over(RunTimeout, TimedOut, RanOut, Timeout);
    } else {
      var finding := Look(row, reply.answer, config);
      verdict := EndFound(store, row, News(finding, reply.adapterRaises), config, now);
    }
    assert verdict == Judge(row, news.finding, config, now);
    hide Judge, Apply, Count;
    match verdict
    case Abort => next := None;
    case StillRunning => next := Some(counted);
    case Ended(ending) => next := Some(Count(counted, ending.tally));
  }

  /**
   `reconcile`: rows in the order read, each asked for only when its turn comes. A lookup that raises
   ends the pass; what it has written by then is for the caller's transaction to undo.
   */
  method Reconcile(store: Store, replies: map<string, Reply>, config: Config, now: int) returns (ok: bool, summary: Summary)
    modifies store
    ensures var db := old(store.State());
      var pass := Reconciled(db, NewsFor(ActiveRows(db), replies, config), config, now);
      ok == pass.Some? && (ok ==> pass == Some(Pass(store.State(), summary)))
  {
    ghost var db := store.State();
    var rows := ActiveRows(store.State());
    ghost var news := NewsFor(rows, replies, config);
    hide Turn, ActiveRows, Find, ReplyFor;
    summary := Nothing();
    var k := 0;
    while k < |rows|
      invariant k <= |rows| && ReconcileUpTo(db, rows, news, k, config, now) == Some(Pass(store.State(), summary))
    {
      var next := ReconcileRow(store, rows[k], ReplyFor(replies, rows[k].run), summary, config, now);
      if next.None? {
        LaterNone(db, rows, news, k + 1, |rows|, config, now);
        return false, summary;
      }
      summary := next.value;
      k := k + 1;
    }
    ok := true;
  }

  /** A pass that has stopped stays stopped. */
  lemma {:induction false} LaterNone(db: Db, rows: seq<ActiveRow>, news: seq<News>, k: nat, n: nat, config: Config, now: int)
    requires k <= n <= |rows| == |news| && ReconcileUpTo(db, rows, news, k, config, now) == None
    ensures ReconcileUpTo(db, rows, news, n, config, now) == None
  {
    hide Turn;
    if k < n { LaterNone(db, rows, news, k, n - 1, config, now); }
  }

  method DiscoverItems(store: Store, items: seq<WorkItem>, config: Config, now: int) returns (matched: nat, created: nat)
    modifies store
    ensures store.State() == DiscoverUpTo(old(store.State()), items, |items|, config, now)
    ensures created <= matched <= |items|
  {
    ghost var db := store.State();
    matched, created := 0, 0;
    var k := 0;
    while k < |items|
      invariant k <= |items| && created <= matched <= k && store.State() == DiscoverUpTo(db, items, k, config, now)
    {
      ghost var before := store.State();
      if MatchesRole(items[k], config) {
        matched := matched + 1;
        store.UpsertWorkItem(items[k]);
        var isNew := store.EnsureAssignment(AssignmentKey(items[k], config.role), IdOf(items[k]), config.role, now);
        created := if isNew then created + 1 else created;
      }
      assert store.State() == Discover(before, items[k], config, now);
      hide Discover, AssignmentKey, MatchesRole;
      k := k + 1;
    }
  }

  method SubmitRow(store: Store, key: string, submissions: map<string, string>, now: int) returns (ok: bool)
    modifies store
    ensures var r := StartRow(old(store.State()), key, submissions, now);
      ok == r.Some? && (ok ==> store.State() == r.value)
  {
    hide MarkStarted;
    if key !in submissions { return false; }
    ok := store.MarkAssignmentStarted(key, submissions[key], now);
  }

  /** `_start_pending`: stops at the first submission or write that raises. */
  method StartPending(store: Store, config: Config, submissions: map<string, string>, now: int)
    returns (ok: bool, picked: seq<string>)
    modifies store
    ensures IsSelection(old(store.State()), config.role, config.maxStarts, now, picked)
    ensures var r := StartUpTo(old(store.State()), picked, submissions, |picked|, now);
      ok == r.Some? && (ok ==> store.State() == r.value)
  {
    ghost var db := store.State();
    picked := store.PendingAssignments(config.role, config.maxStarts, now);
    hide IsSelection, StartRow;
    var k := 0;
    while k < |picked|
      invariant k <= |picked| && StartUpTo(db, picked, submissions, k, now) == Some(store.State())
    {
      var started := SubmitRow(store, picked[k], submissions, now);
      if !started {
        StaysNone(db, picked, submissions, k + 1, |picked|, now);
        return false, picked;
      }
      k := k + 1;
    }
    ok := true;
  }

  lemma {:induction false} StaysNone(db: Db, keys: seq<string>, submissions: map<string, string>, k: nat, n: nat, now: int)
    requires k <= n <= |keys| && StartUpTo(db, keys, submissions, k, now) == None
    ensures StartUpTo(db, keys, submissions, n, now) == None
  {
    hide StartRow;
    if k < n { StaysNone(db, keys, submissions, k, n - 1, now); }
  }

  /**
   `run_once` as one transaction: either the whole tick is in the tables or nothing of it is. What it
   does is a command the histories of the tick model permit.
   */
  method RunTick(store: Store, input: Input, config: Config) returns (ok: bool, ghost command: Command)
    modifies store
    ensures command.RunOnce? && command.input == input && command.config == config
    ensures Permitted(old(store.State()), command, config.maxAttempts)
    ensures store.State() == Outcome(old(store.State()), command)
    ensures ok == Tick(old(store.State()), input, config, command.picked).Some?
  {
    var saved := store.State();
    command := Command.RunOnce(input, config, []);
    var reconciled, _ := Reconcile(store, input.replies, config, input.now);
    hide Reconciled, NewsFor, ActiveRows, DiscoverUpTo, IsSelection, StartUpTo;
    if !reconciled || input.fetched.None? {
      store.Restore(saved);
      return false, command;
    }
    var _, _ := DiscoverItems(store, input.fetched.value, config, input.now);
    assert Prepared(saved, input, config) == Some(store.State());
    hide Prepared;
    var started, picked := StartPending(store, config, input.submissions, input.now);
    command := Command.RunOnce(input, config, picked);
    if !started {
      store.Restore(saved);
      return false, command;
    }
    ok := true;
  }

  /** `reconcile_only`, the same reconciliation in its own transaction. */
  method ReconcileTables(store: Store, input: Input, config: Config) returns (ok: bool, summary: Summary)
    modifies store
    ensures store.State() == Outcome(old(store.State()), Command.ReconcileOnly(input, config))
  {
    var saved := store.State();
    ok, summary := Reconcile(store, input.replies, config, input.now);
    hide Reconciled, NewsFor, ActiveRows;
    if !ok { store.Restore(saved); }
  }

  const SAFE_STATUSES: set<AssignmentStatus> := {BlockedConfig, FailedFinal}

  /** `requeue`; None for the default statuses. A dry run only counts. */
  method RequeueTables(store: Store, role: Role, statuses: Option<set<AssignmentStatus>>, only: Option<string>,
                       limit: Option<int>, dryRun: bool, now: int)
    returns (matched: nat, requeued: nat, ghost rows: seq<string>)
    modifies store
    ensures IsOldest(old(store.assignments),
                     old(store.Matching(role, if statuses.Some? then statuses.value else SAFE_STATUSES, only)), limit, rows)
    ensures store.State() == if dryRun then old(store.State()) else Requeue(old(store.State()), KeySet(rows), now)
    ensures matched == |rows| && requeued == (if dryRun then 0 else matched)
    ensures statuses.None? ==> DefaultStatuses(old(store.State()), Command.RequeueRows(KeySet(rows), now))
    ensures statuses.None? ==> IsOldest(old(store.assignments), old(store.Matching(role, {BlockedConfig, FailedFinal}, only)), limit, rows)
  {
    var selected := if statuses.Some? then statuses.value else SAFE_STATUSES;
    var keys;
    if dryRun {
      keys := store.MatchingRequeueAssignments(role, selected, only, limit);
      requeued := 0;
    } else {
      keys := store.RequeueAssignments(role, selected, only, limit, now);
      requeued := |keys|;
    }
    matched := |keys|;
    rows := keys;
  }
}
