/**
 `reconcile`: one pass over the runs in progress, each judged from what the gateway answers and
 written back as an ending, a retry, or nothing.
 */
module Reconciler {
  import opened Statuses
  import opened Json
  import opened FinalResponses
  import opened Database

  datatype Config = Config(
    role: Role,
    maxAttempts: nat,
    retryDelay: int,
    retryLostRuns: bool,
    retryTransientFailures: bool,
    runTimeout: int,
    applyTransitions: bool,
    adapterPresent: bool,
    maxStarts: nat,
    roleLabels: set<Label>,
    terminalLabels: set<Label>,
    roleAssignees: set<string>,
    repair: RepairConfig)

  /**
   What `client.get_run` does: finds no such run, raises, or returns a payload. The status word is the
   payload's, lower-cased; the two error classes are what the text searches on the payload say; the
   model's answer is what asking it for a repair would give (None when that raises).
   */
  datatype Answer =
    | NotFound
    | Unreachable
    | Reported(word: string, payload: Dict, configError: bool, transientError: bool, modelAnswer: Option<Dict>)

  /** An answer together with whether the provider call that may follow raises. */
  datatype Reply = Reply(answer: Answer, adapterRaises: bool)

  /** A row of `active_runs`: the run joined with its assignment's role and work item. */
  datatype ActiveRow = ActiveRow(run: Run, role: Role, revision: string)

  const COMPLETED_WORDS := {"completed", "succeeded", "success", "done"}
  const FAILED_WORDS := {"failed", "error"}
  const CANCELLED_WORDS := {"cancelled", "canceled"}
  const TIMEOUT_WORDS := {"timeout", "timed_out"}

  /** What an answer amounts to; `status` is the one its final response gives, if it has a usable one. */
  datatype Finding =
    | NoSuchRun
    | LookupFailed
    | RunDone(status: Option<FinalStatus>)
    | RunErred(configError: bool, transientError: bool)
    | RunStopped
    | RunTimedOut
    | StillGoing

  function Find(row: ActiveRow, answer: Answer, config: Config): Finding {
    match answer
    case NotFound => NoSuchRun
    case Unreachable => LookupFailed
    case Reported(word, payload, configError, transientError, modelAnswer) =>
      if word in COMPLETED_WORDS then
        var response := ParsedOrRepaired(payload, row.role, row.run.assignmentKey, config.repair, modelAnswer);
        RunDone(if response.Some? then Some(response.value.finalStatus) else None)
      else if word in FAILED_WORDS then RunErred(configError, transientError)
      else if word in CANCELLED_WORDS then RunStopped
      else if word in TIMEOUT_WORDS then RunTimedOut
      else StillGoing
  }

  /** Which of the summary's counters an ending goes to. */
  datatype Tally =
    | Finished | FailedForGood | FailedAndRequeued | FailedOnConfig | WasCancelled | RanOut | Unusable
    | LostAndRequeued | LostForGood

  /** `local`: the transition row is written without asking the provider. */
  datatype Ending = Ending(
    runStatus: RunStatus, status: AssignmentStatus, retryAt: Option<int>,
    tally: Tally, mark: Option<Mark>, nextRole: Option<Role>, local: bool)

  datatype Verdict = Abort | StillRunning | Ended(ending: Ending)

  function RetryTimestamp(delay: int, now: int): Option<int> {
    if delay <= 0 then None else Some(now + delay)
  }

  function AttemptsRemain(run: Run, config: Config): bool { run.attemptNumber < config.maxAttempts }

  function Over(runStatus: RunStatus, status: AssignmentStatus, tally: Tally, mark: Mark): Verdict {
    Ended(Ending(runStatus, status, None, tally, Some(mark), None, false))
  }

  function Again(runStatus: RunStatus, tally: Tally, mark: Mark, config: Config, now: int): Verdict {
    Ended(Ending(runStatus, Pending, RetryTimestamp(config.retryDelay, now), tally, Some(mark), None, true))
  }

  function JudgeDone(row: ActiveRow, status: Option<FinalStatus>): Verdict {
    if status.None? then Over(InvalidOutput, FailedFinal, Unusable, Invalid)
    else if LastField(row.run.assignmentKey) != row.revision then Over(StaleOutput, FailedFinal, Unusable, Stale)
    else
      var spec := ResolveTransition(row.role, status.value);
      Ended(Ending(RunCompleted, Completed, None, Finished,
                   if spec.Some? then Some(Final(status.value)) else None,
                   if spec.Some? then spec.value.nextRole else None, spec.None?))
  }

  /** The branches of the loop body, in their order. */
  function Judge(row: ActiveRow, finding: Finding, config: Config, now: int): Verdict {
    if now - row.run.startedAt > config.runTimeout then Over(RunTimeout, TimedOut, RanOut, Timeout)
    else
      match finding
      case NoSuchRun =>
        if config.retryLostRuns && AttemptsRemain(row.run, config) then Again(RunLost, LostAndRequeued, LostRequeued, config, now)
        else Over(RunLost, FailedFinal, LostForGood, Lost)
      case LookupFailed => Abort
      case RunDone(status) => JudgeDone(row, status)
      case RunErred(configError, transientError) =>
        if configError then Over(RunFailed, BlockedConfig, FailedOnConfig, ConfigBlocked)
        else if config.retryTransientFailures && transientError && AttemptsRemain(row.run, config) then
          Again(RunFailed, FailedAndRequeued, FailedRequeued, config, now)
        else Over(RunFailed, FailedFinal, FailedForGood, Failed)
      case RunStopped => Ended(Ending(RunCancelled, Cancelled, None, WasCancelled, None, None, true))
      case RunTimedOut => Over(RunTimeout, TimedOut, RanOut, Timeout)
      case StillGoing => StillRunning
  }

  /** What the loop body writes for an ending. */
  function Apply(db: Db, row: ActiveRow, ending: Ending, adapterRaises: bool, config: Config, now: int): Db {
    var key := row.run.assignmentKey;
    var marked := MarkFinished(db, key, ending.runStatus, ending.status, ending.retryAt, now);
    if ending.mark.None? then marked
    else
      var applied := !ending.local && config.applyTransitions && config.adapterPresent && !adapterRaises;
      AddTransition(marked, Transition(key, row.role, ending.mark.value, ending.nextRole, applied))
  }

  datatype Summary = Summary(
    active: nat, completed: nat, failed: nat, cancelled: nat, timeout: nat, invalidOutput: nat,
    lost: nat, requeued: nat, blockedConfig: nat, failedFinal: nat)

  function Nothing(): Summary { Summary(0, 0, 0, 0, 0, 0, 0, 0, 0, 0) }

  function Count(s: Summary, tally: Tally): Summary {
    match tally
    case Finished => s.(completed := s.completed + 1)
    case FailedForGood => s.(failed := s.failed + 1, failedFinal := s.failedFinal + 1)
    case FailedAndRequeued => s.(failed := s.failed + 1, requeued := s.requeued + 1)
    case FailedOnConfig => s.(failed := s.failed + 1, blockedConfig := s.blockedConfig + 1)
    case WasCancelled => s.(cancelled := s.cancelled + 1)
    case RanOut => s.(timeout := s.timeout + 1)
    case Unusable => s.(invalidOutput := s.invalidOutput + 1)
    case LostAndRequeued => s.(lost := s.lost + 1, requeued := s.requeued + 1)
    case LostForGood => s.(lost := s.lost + 1, failedFinal := s.failedFinal + 1)
  }

  function ActiveRowsOf(db: Db, runs: seq<Run>): (rows: seq<ActiveRow>)
    ensures forall j :: 0 <= j < |rows| ==> rows[j].run in runs && rows[j].run.status == Active
                                            && rows[j].run.assignmentKey in db.assignments
  {
    if runs == [] then [] else
    var r := runs[|runs| - 1];
    var rest := ActiveRowsOf(db, runs[..|runs| - 1]);
    if r.status == Active && r.assignmentKey in db.assignments && db.assignments[r.assignmentKey].itemId in db.items then
      var a := db.assignments[r.assignmentKey];
      rest + [ActiveRow(r, a.role, db.items[a.itemId].revision)]
    else rest
  }

  /** `active_runs`; insertion order is an order by `started_at` while the clock does not run back. */
  function ActiveRows(db: Db): seq<ActiveRow> { ActiveRowsOf(db, db.runs) }

  /** The gateway's reply for a run; a run the map does not know is one whose lookup raises. */
  function ReplyFor(replies: map<string, Reply>, run: Run): Reply {
    if run.hermesRunId in replies then replies[run.hermesRunId] else Reply(Unreachable, false)
  }

  /** A finding, and whether the provider call that may follow raises. */
  datatype News = News(finding: Finding, adapterRaises: bool)

  function NewsFor(rows: seq<ActiveRow>, replies: map<string, Reply>, config: Config): (news: seq<News>)
    ensures |news| == |rows|
    ensures forall j :: 0 <= j < |rows| ==>
      news[j] == News(Find(rows[j], ReplyFor(replies, rows[j].run).answer, config), ReplyFor(replies, rows[j].run).adapterRaises)
  {
    seq(|rows|, j requires 0 <= j < |rows| =>
      var reply := ReplyFor(replies, rows[j].run); News(Find(rows[j], reply.answer, config), reply.adapterRaises))
  }

  /** A pass in progress: the tables as they stand and the summary so far. */
  datatype Pass = Pass(db: Db, summary: Summary)

  /** One turn of the loop; None when the lookup raises. */
  function Turn(p: Pass, row: ActiveRow, news: News, config: Config, now: int): Option<Pass> {
    var counted := p.summary.(active := p.summary.active + 1);
    match Judge(row, news.finding, config, now)
    case Abort => None
    case StillRunning => Some(Pass(p.db, counted))
    case Ended(e) => Some(Pass(Apply(p.db, row, e, news.adapterRaises, config, now), Count(counted, e.tally)))
  }

  /** The pass after the first k rows. */
  function ReconcileUpTo(db: Db, rows: seq<ActiveRow>, news: seq<News>, k: nat, config: Config, now: int): Option<Pass>
    requires k <= |rows| == |news|
  {
    if k == 0 then Some(Pass(db, Nothing())) else
    match ReconcileUpTo(db, rows, news, k - 1, config, now)
    case None => None
    case Some(p) => Turn(p, rows[k - 1], news[k - 1], config, now)
  }

  /** `reconcile`, given what is found for each row of `active_runs`. */
  function Reconciled(db: Db, news: seq<News>, config: Config, now: int): Option<Pass>
    requires |news| == |ActiveRows(db)|
  {
    ReconcileUpTo(db, ActiveRows(db), news, |news|, config, now)
  }

  /** How many of the first k rows a pass gets through before a lookup raises. */
  function Reach(db: Db, rows: seq<ActiveRow>, news: seq<News>, k: nat, config: Config, now: int): (n: nat)
    requires k <= |rows| == |news|
    ensures n <= k && ReconcileUpTo(db, rows, news, n, config, now).Some?
    ensures ReconcileUpTo(db, rows, news, k, config, now).Some? <==> n == k
  {
    if ReconcileUpTo(db, rows, news, k, config, now).Some? then k else Reach(db, rows, news, k - 1, config, now)
  }

  /** The tables as a pass leaves them when it ends, or when a lookup raises: what the provider has been told of. */
  function Told(db: Db, news: seq<News>, config: Config, now: int): Db
    requires |news| == |ActiveRows(db)|
  {
    var rows := ActiveRows(db);
    ReconcileUpTo(db, rows, news, Reach(db, rows, news, |rows|, config, now), config, now).value.db
  }

  /** None of the first k lookups raises. */
  predicate Undisturbed(rows: seq<ActiveRow>, news: seq<News>, k: nat, config: Config, now: int)
    requires k <= |rows| == |news|
  {
    forall i :: 0 <= i < k ==> !Judge(rows[i], news[i].finding, config, now).Abort?
  }

  /** A pass stops at the first row whose lookup raises. */
  lemma {:induction false} StopsExactly(db: Db, rows: seq<ActiveRow>, news: seq<News>, k: nat, config: Config, now: int)
    requires k <= |rows| == |news|
    ensures ReconcileUpTo(db, rows, news, k, config, now).Some? <==> Undisturbed(rows, news, k, config, now)
  {
    hide Judge, Apply;
    if k > 0 { StopsExactly(db, rows, news, k - 1, config, now); }
  }

  lemma {:induction false} ReachExactly(db: Db, rows: seq<ActiveRow>, news: seq<News>, k: nat, j: nat, config: Config, now: int)
    requires j <= k <= |rows| == |news|
    ensures Undisturbed(rows, news, j, config, now) <==> j <= Reach(db, rows, news, k, config, now)
  {
    hide Judge, ReconcileUpTo;
    StopsExactly(db, rows, news, k, config, now);
    if Undisturbed(rows, news, k, config, now) {
      assert Undisturbed(rows, news, j, config, now);
    } else if j < k {
      ReachExactly(db, rows, news, k - 1, j, config, now);
    }
  }

  // ----- conservation --------------------------------------------------------------------

  function CountActive(runs: seq<Run>): nat {
    if runs == [] then 0 else CountActive(runs[..|runs| - 1]) + if runs[|runs| - 1].status == Active then 1 else 0
  }

  lemma {:induction false} FinishNone(runs: seq<Run>, key: string, status: RunStatus, now: int)
    requires forall i :: 0 <= i < |runs| ==> !(runs[i].assignmentKey == key && runs[i].status == Active)
    ensures FinishRuns(runs, key, status, now) == runs
  {
    if runs != [] { FinishNone(runs[..|runs| - 1], key, status, now); }
  }

  predicate IsActive(r: Run) { r.status == Active }

  lemma CountLast(runs: seq<Run>)
    requires runs != []
    ensures CountActive(runs) == CountActive(runs[..|runs| - 1]) + if IsActive(runs[|runs| - 1]) then 1 else 0
  {}

  lemma FinishLast(runs: seq<Run>, key: string, status: RunStatus, now: int)
    requires runs != []
    ensures var n, next := |runs| - 1, FinishRuns(runs, key, status, now);
      |next| == n + 1 && next[..n] == FinishRuns(runs[..n], key, status, now) && next[n] == FinishRun(runs[n], key, status, now)
  {}

  /** Finishing an assignment's one active run leaves one active run fewer. */
  lemma {:induction false} FinishOne(runs: seq<Run>, at: nat, status: RunStatus, now: int)
    requires at < |runs| && runs[at].status == Active && status != Active
    requires forall j :: 0 <= j < |runs| && j != at && runs[j].assignmentKey == runs[at].assignmentKey ==> runs[j].status != Active
    ensures CountActive(FinishRuns(runs, runs[at].assignmentKey, status, now)) == CountActive(runs) - 1
  {
    hide CountActive, FinishRuns;
    var key, n := runs[at].assignmentKey, |runs| - 1;
    var init, next := runs[..n], FinishRuns(runs, key, status, now);
    FinishLast(runs, key, status, now);
    CountLast(runs);
    CountLast(next);
    if at == n {
      FinishNone(init, key, status, now);
    } else {
      assert init[at] == runs[at];
      FinishOne(init, at, status, now);
    }
  }

  /** The rows still to come are untouched: still running, each the only active run of its key. */
  ghost predicate RowsAhead(db: Db, rows: seq<ActiveRow>, k: nat) {
    && (forall j :: k <= j < |rows| ==> rows[j].run in db.runs && rows[j].run.status == Active
                                        && rows[j].run.assignmentKey in db.assignments)
    && DistinctKeys(rows, k)
  }

  ghost predicate DistinctKeys(rows: seq<ActiveRow>, from: nat) {
    forall i, j :: from <= i < j < |rows| ==> rows[i].run.assignmentKey != rows[j].run.assignmentKey
  }

  lemma LastRowDistinct(db: Db, n: nat, rest: seq<ActiveRow>)
    requires AttemptsRise(db.runs) && ActiveIsLatest(db) && n < |db.runs|
    requires forall i :: 0 <= i < |rest| ==> rest[i].run in db.runs[..n] && rest[i].run.status == Active
    requires db.runs[n].status == Active && db.runs[n].assignmentKey in db.assignments
    ensures forall i :: 0 <= i < |rest| ==> rest[i].run.assignmentKey != db.runs[n].assignmentKey
  {
    forall i | 0 <= i < |rest| ensures rest[i].run.assignmentKey != db.runs[n].assignmentKey {
      var x :| 0 <= x < n && db.runs[x] == rest[i].run;
    }
  }

  lemma {:induction false} RowsDistinct(db: Db, n: nat)
    requires AttemptsRise(db.runs) && ActiveIsLatest(db) && n <= |db.runs|
    ensures DistinctKeys(ActiveRowsOf(db, db.runs[..n]), 0)
  {
    if n > 0 {
      RowsDistinct(db, n - 1);
      assert db.runs[..n][..n - 1] == db.runs[..n - 1];
      var rest := ActiveRowsOf(db, db.runs[..n - 1]);
      var rows := ActiveRowsOf(db, db.runs[..n]);
      assert rows == rest || (|rows| == |rest| + 1 && rows[..|rest|] == rest && rows[|rest|].run == db.runs[n - 1]);
      hide ActiveRowsOf, AttemptsRise, ActiveIsLatest;
      if rows != rest {
        assert forall i :: 0 <= i < |rest| ==> rows[i] == rest[i];
        LastRowDistinct(db, n - 1, rest);
      }
    }
  }

  lemma {:induction false} RowsCount(db: Db, runs: seq<Run>)
    requires RunsCounted(db) && ItemsKnown(db) && runs <= db.runs
    ensures |ActiveRowsOf(db, runs)| == CountActive(runs)
  {
    if runs != [] {
      var n := |runs| - 1;
      RowsCount(db, runs[..n]);
      assert db.runs[n] == runs[n];
    }
  }

  lemma RowsStartAhead(db: Db, maxAttempts: nat)
    requires Inv(db, maxAttempts)
    ensures RowsAhead(db, ActiveRows(db), 0) && |ActiveRows(db)| == CountActive(db.runs)
  {
    RowsDistinct(db, |db.runs|);
    assert db.runs[..|db.runs|] == db.runs;
    RowsCount(db, db.runs);
    hide RunsCounted, AttemptsRise, ActiveIsLatest, CountActive;
  }

  /** What the branches have in common. */
  lemma EndingShape(row: ActiveRow, finding: Finding, config: Config, now: int)
    requires Judge(row, finding, config, now).Ended?
    ensures var e := Judge(row, finding, config, now).ending;
      && e.runStatus != Active && e.status != Started
      && (e.status == Pending <==> e.tally == LostAndRequeued || e.tally == FailedAndRequeued)
      && (e.status == Pending ==> AttemptsRemain(row.run, config) && e.retryAt == RetryTimestamp(config.retryDelay, now))
      && (e.mark.None? ==> e.tally == Finished || e.tally == WasCancelled)
      && (e.tally == WasCancelled ==> e.mark.None?)
      && (e.nextRole.Some? ==> e.tally == Finished && LastField(row.run.assignmentKey) == row.revision)
  {}

  lemma SameTables(db: Db, next: Db, maxAttempts: nat)
    requires Inv(db, maxAttempts) && next.runs == db.runs && next.assignments == db.assignments && next.items == db.items
    ensures Inv(next, maxAttempts) && (Linked(db) ==> Linked(next))
  {}

  lemma OneActive(db: Db, run: Run, status: RunStatus, now: int, maxAttempts: nat)
    requires Inv(db, maxAttempts) && run in db.runs && run.status == Active && status != Active
    ensures CountActive(FinishRuns(db.runs, run.assignmentKey, status, now)) == CountActive(db.runs) - 1
  {
    var at :| 0 <= at < |db.runs| && db.runs[at] == run;
    FinishOne(db.runs, at, status, now);
  }

  lemma StillAhead(db: Db, next: Db, rows: seq<ActiveRow>, k: nat, status: RunStatus, now: int)
    requires k < |rows| && RowsAhead(db, rows, k)
    requires next.runs == FinishRuns(db.runs, rows[k].run.assignmentKey, status, now) && next.assignments.Keys == db.assignments.Keys
    ensures RowsAhead(next, rows, k + 1)
  {
    forall j | k + 1 <= j < |rows| ensures rows[j].run in next.runs && rows[j].run.assignmentKey in next.assignments {
      var x :| 0 <= x < |db.runs| && db.runs[x] == rows[j].run;
      assert rows[j].run.assignmentKey in db.assignments.Keys;
      assert next.runs[x] == db.runs[x];
    }
  }

  lemma FinishRow(db: Db, rows: seq<ActiveRow>, k: nat, e: Ending, config: Config, now: int)
    requires Inv(db, config.maxAttempts) && k < |rows| && RowsAhead(db, rows, k)
    requires e.runStatus != Active && e.status != Started && (e.status == Pending ==> AttemptsRemain(rows[k].run, config))
    ensures var next := MarkFinished(db, rows[k].run.assignmentKey, e.runStatus, e.status, e.retryAt, now);
      Inv(next, config.maxAttempts) && (Linked(db) ==> Linked(next)) && CountActive(next.runs) == CountActive(db.runs) - 1
  {
    FinishKeeps(db, rows[k].run, e.runStatus, e.status, e.retryAt, now, config.maxAttempts);
    OneActive(db, rows[k].run, e.runStatus, now, config.maxAttempts);
    hide Inv, Linked, CountActive, FinishRuns;
  }

  lemma FinishAhead(db: Db, rows: seq<ActiveRow>, k: nat, e: Ending, now: int)
    requires k < |rows| && RowsAhead(db, rows, k)
    ensures RowsAhead(MarkFinished(db, rows[k].run.assignmentKey, e.runStatus, e.status, e.retryAt, now), rows, k + 1)
  {
    var marked := MarkFinished(db, rows[k].run.assignmentKey, e.runStatus, e.status, e.retryAt, now);
    assert rows[k].run.assignmentKey in db.assignments;
    hide FinishRuns, RowsAhead;
    assert marked.assignments.Keys == db.assignments.Keys;
    StillAhead(db, marked, rows, k, e.runStatus, now);
  }

  /** One ended row: the invariants stay, one run fewer is active, the other rows are as they were. */
  lemma EndRow(db: Db, rows: seq<ActiveRow>, k: nat, e: Ending, adapterRaises: bool, config: Config, now: int)
    requires Inv(db, config.maxAttempts) && k < |rows| && RowsAhead(db, rows, k)
    requires e.runStatus != Active && e.status != Started && (e.status == Pending ==> AttemptsRemain(rows[k].run, config))
    ensures var next := Apply(db, rows[k], e, adapterRaises, config, now);
      && Inv(next, config.maxAttempts) && RowsAhead(next, rows, k + 1) && (Linked(db) ==> Linked(next))
      && CountActive(next.runs) == CountActive(db.runs) - 1
  {
    hide Inv, Linked, MarkFinished, CountActive, FinishRuns, DistinctKeys;
    FinishRow(db, rows, k, e, config, now);
    FinishAhead(db, rows, k, e, now);
    var marked := MarkFinished(db, rows[k].run.assignmentKey, e.runStatus, e.status, e.retryAt, now);
    SameTables(marked, Apply(db, rows[k], e, adapterRaises, config, now), config.maxAttempts);
  }

  function EndedRuns(s: Summary): nat { s.completed + s.failed + s.cancelled + s.timeout + s.invalidOutput + s.lost }

  /** A completion whose status has no transition: nothing is written for it. */
  predicate IsSilent(row: ActiveRow, n: News, config: Config, now: int) {
    var v := Judge(row, n.finding, config, now);
    v.Ended? && v.ending.tally == Finished && v.ending.mark.None?
  }

  function SilentUpTo(rows: seq<ActiveRow>, news: seq<News>, k: nat, config: Config, now: int): nat
    requires k <= |rows| == |news|
  {
    if k == 0 then 0 else
    SilentUpTo(rows, news, k - 1, config, now)
    + if IsSilent(rows[k - 1], news[k - 1], config, now) then 1 else 0
  }

  /** What a pass keeps, with k rows done. */
  ghost predicate Sound(p: Pass, rows: seq<ActiveRow>, k: nat, maxAttempts: nat, linked: bool) {
    Inv(p.db, maxAttempts) && RowsAhead(p.db, rows, k) && (linked ==> Linked(p.db))
  }

  lemma TurnSound(p: Pass, rows: seq<ActiveRow>, k: nat, n: News, config: Config, now: int, linked: bool)
    requires k < |rows| && Sound(p, rows, k, config.maxAttempts, linked) && Turn(p, rows[k], n, config, now).Some?
    ensures var q := Turn(p, rows[k], n, config, now).value;
      && Sound(q, rows, k + 1, config.maxAttempts, linked)
      && CountActive(p.db.runs) - CountActive(q.db.runs) == (if Judge(rows[k], n.finding, config, now).Ended? then 1 else 0)
  {
    hide Inv, Linked, Judge, CountActive, Apply, RowsAhead;
    var v := Judge(rows[k], n.finding, config, now);
    if v.Ended? {
      EndingShape(rows[k], n.finding, config, now);
      EndRow(p.db, rows, k, v.ending, n.adapterRaises, config, now);
    } else {
      SkipRow(p.db, rows, k);
    }
  }

  /** One ending is one count among the endings, and a transition row unless cancelled or silent. */
  lemma EndCounts(db: Db, row: ActiveRow, n: News, config: Config, now: int, s: Summary)
    requires Judge(row, n.finding, config, now).Ended?
    ensures var e := Judge(row, n.finding, config, now).ending;
      var t := Count(s, e.tally);
      && EndedRuns(t) == EndedRuns(s) + 1 && t.active == s.active
      && t.lost + t.failed - s.lost - s.failed == t.requeued + t.failedFinal + t.blockedConfig - s.requeued - s.failedFinal - s.blockedConfig
      && |Apply(db, row, e, n.adapterRaises, config, now).transitions| + t.cancelled
         + (if IsSilent(row, n, config, now) then 1 else 0) == |db.transitions| + s.cancelled + 1
  {
    EndingShape(row, n.finding, config, now);
    var e := Judge(row, n.finding, config, now).ending;
    SameTransitions(db, row.run.assignmentKey, e, now);
    hide Judge, MarkFinished;
  }

  lemma SameTransitions(d: Db, key: string, e: Ending, now: int)
    ensures MarkFinished(d, key, e.runStatus, e.status, e.retryAt, now).transitions == d.transitions
  {}

  lemma SkipRow(db: Db, rows: seq<ActiveRow>, k: nat)
    requires k < |rows| && RowsAhead(db, rows, k)
    ensures RowsAhead(db, rows, k + 1)
  {}

  /** The balance of a pass after k rows. */
  ghost predicate Balances(db: Db, p: Pass, k: nat, silent: nat) {
    var s := p.summary;
    && s.active == k
    && CountActive(db.runs) - CountActive(p.db.runs) == EndedRuns(s)
    && s.lost + s.failed == s.requeued + s.failedFinal + s.blockedConfig
    && |p.db.transitions| + s.cancelled + silent == |db.transitions| + EndedRuns(s)
  }

  lemma TurnBalances(db: Db, p: Pass, rows: seq<ActiveRow>, k: nat, n: News, config: Config, now: int, linked: bool, silent: nat)
    requires k < |rows| && Sound(p, rows, k, config.maxAttempts, linked) && Turn(p, rows[k], n, config, now).Some?
    requires Balances(db, p, k, silent)
    ensures Balances(db, Turn(p, rows[k], n, config, now).value, k + 1,
                     silent + if IsSilent(rows[k], n, config, now) then 1 else 0)
  {
    hide Sound, Judge, Apply, CountActive, Count;
    TurnSound(p, rows, k, n, config, now, linked);
    if Judge(rows[k], n.finding, config, now).Ended? {
      EndCounts(p.db, rows[k], n, config, now, p.summary.(active := p.summary.active + 1));
    }
  }

  lemma StartBalances(db: Db)
    ensures Balances(db, Pass(db, Nothing()), 0, 0)
  {
    hide CountActive, EndedRuns, Nothing;
    NothingCounted();
  }

  lemma NothingCounted()
    ensures var s := Nothing();
      s.active == 0 && s.cancelled == 0 && s.lost + s.failed == s.requeued + s.failedFinal + s.blockedConfig && EndedRuns(s) == 0
  {}

  lemma {:induction false} PassKeeps(db: Db, rows: seq<ActiveRow>, news: seq<News>, k: nat, config: Config, now: int, linked: bool)
    requires Sound(Pass(db, Nothing()), rows, 0, config.maxAttempts, linked)
    requires k <= |rows| == |news| && ReconcileUpTo(db, rows, news, k, config, now).Some?
    ensures var p := ReconcileUpTo(db, rows, news, k, config, now).value;
      Sound(p, rows, k, config.maxAttempts, linked) && Balances(db, p, k, SilentUpTo(rows, news, k, config, now))
  {
    hide Sound, Turn, CountActive, IsSilent, Balances, EndedRuns;
    if k == 0 {
      StartBalances(db);
    } else {
      PassKeeps(db, rows, news, k - 1, config, now, linked);
      var p := ReconcileUpTo(db, rows, news, k - 1, config, now).value;
      TurnSound(p, rows, k - 1, news[k - 1], config, now, linked);
      TurnBalances(db, p, rows, k - 1, news[k - 1], config, now, linked, SilentUpTo(rows, news, k - 1, config, now));
    }
  }

  /**
   Conservation over a whole reconciliation: the runs that stopped being active are exactly the ones the
   summary says ended, every loss and failure was requeued, made final or blocked, and a transition row
   was written for every ending but cancellations and completions without a transition.
   */
  lemma ReconcileConserves(db: Db, news: seq<News>, config: Config, now: int)
    requires |news| == |ActiveRows(db)| && Inv(db, config.maxAttempts) && Reconciled(db, news, config, now).Some?
    ensures var p := Reconciled(db, news, config, now).value;
      && Inv(p.db, config.maxAttempts) && (Linked(db) ==> Linked(p.db))
      && p.summary.active == CountActive(db.runs)
      && Balances(db, p, CountActive(db.runs), SilentUpTo(ActiveRows(db), news, |news|, config, now))
  {
    RowsStartAhead(db, config.maxAttempts);
    hide Inv, Linked, ReconcileUpTo, Turn, CountActive, ActiveRowsOf, SilentUpTo, RowsAhead;
    PassKeeps(db, ActiveRows(db), news, |news|, config, now, Linked(db));
  }

  // ----- what the pass writes ------------------------------------------------------------

  /** A handoff names the next role only for a run whose key carries the item's present revision. */
  ghost predicate Current(t: Transition, rows: seq<ActiveRow>) {
    t.nextRole.Some? ==>
      exists j :: 0 <= j < |rows| && rows[j].run.assignmentKey == t.assignmentKey && LastField(t.assignmentKey) == rows[j].revision
  }

  ghost predicate Written(db: Db, next: Db, rows: seq<ActiveRow>) {
    && db.transitions <= next.transitions
    && forall i :: |db.transitions| <= i < |next.transitions| ==> Current(next.transitions[i], rows)
  }

  /** An assignment the pass left pending was so before, untouched, or now waits out the retry delay. */
  predicate RowKept(a: Assignment, b: Assignment, config: Config, now: int) {
    && b.role == a.role && b.createdAt == a.createdAt && b.itemId == a.itemId
    && b.attemptCount == a.attemptCount && b.operatorRequeues == a.operatorRequeues
    && (b != a && b.status == Pending ==> b.nextRetryAt == RetryTimestamp(config.retryDelay, now))
  }

  ghost predicate AssignmentsKept(db: Db, next: Db, rows: seq<ActiveRow>, config: Config, now: int) {
    && next.assignments.Keys == db.assignments.Keys && next.items == db.items
    && forall key :: key in db.assignments ==>
         && RowKept(db.assignments[key], next.assignments[key], config, now)
         && (next.assignments[key] == db.assignments[key]
             || exists j :: 0 <= j < |rows| && rows[j].run.assignmentKey == key)
  }

  lemma TurnWrites(db: Db, p: Pass, rows: seq<ActiveRow>, k: nat, n: News, config: Config, now: int)
    requires k < |rows| && Turn(p, rows[k], n, config, now).Some?
    requires Written(db, p.db, rows) && AssignmentsKept(db, p.db, rows, config, now)
    ensures var q := Turn(p, rows[k], n, config, now).value;
      Written(db, q.db, rows) && AssignmentsKept(db, q.db, rows, config, now)
  {
    var v := Judge(rows[k], n.finding, config, now);
    if v.Ended? {
      EndingShape(rows[k], n.finding, config, now);
      EndWrites(db, p.db, rows, k, v.ending, n.adapterRaises, config, now);
      EndKeepsRows(db, p.db, rows, k, v.ending, n.adapterRaises, config, now);
    }
    hide Judge, Apply, Written, AssignmentsKept;
  }

  lemma EndWrites(db: Db, d: Db, rows: seq<ActiveRow>, k: nat, e: Ending, adapterRaises: bool, config: Config, now: int)
    requires k < |rows| && Written(db, d, rows)
    requires e.nextRole.Some? ==> LastField(rows[k].run.assignmentKey) == rows[k].revision
    ensures Written(db, Apply(d, rows[k], e, adapterRaises, config, now), rows)
  {
    hide LastField, MarkFinished;
    var key := rows[k].run.assignmentKey;
    assert MarkFinished(d, key, e.runStatus, e.status, e.retryAt, now).transitions == d.transitions by { SameTransitions(d, key, e, now); }
  }

  lemma EndKeepsRows(db: Db, d: Db, rows: seq<ActiveRow>, k: nat, e: Ending, adapterRaises: bool, config: Config, now: int)
    requires k < |rows| && AssignmentsKept(db, d, rows, config, now)
    requires e.status == Pending ==> e.retryAt == RetryTimestamp(config.retryDelay, now)
    ensures AssignmentsKept(db, Apply(d, rows[k], e, adapterRaises, config, now), rows, config, now)
  {
    hide FinishRuns, RetryTimestamp;
  }

  lemma NothingWritten(db: Db, rows: seq<ActiveRow>, config: Config, now: int)
    ensures Written(db, db, rows) && AssignmentsKept(db, db, rows, config, now)
  {}

  lemma {:induction false} PassWrites(db: Db, rows: seq<ActiveRow>, news: seq<News>, k: nat, config: Config, now: int)
    requires k <= |rows| == |news| && ReconcileUpTo(db, rows, news, k, config, now).Some?
    ensures var p := ReconcileUpTo(db, rows, news, k, config, now).value;
      Written(db, p.db, rows) && AssignmentsKept(db, p.db, rows, config, now)
  {
    hide Written, AssignmentsKept, Turn;
    if k == 0 {
      NothingWritten(db, rows, config, now);
    } else {
      PassWrites(db, rows, news, k - 1, config, now);
      TurnWrites(db, ReconcileUpTo(db, rows, news, k - 1, config, now).value, rows, k - 1, news[k - 1], config, now);
    }
  }

  lemma RowRevision(db: Db, runs: seq<Run>, j: nat)
    requires j < |ActiveRowsOf(db, runs)|
    ensures var row := ActiveRowsOf(db, runs)[j];
      && row.run.assignmentKey in db.assignments && db.assignments[row.run.assignmentKey].itemId in db.items
      && row.role == db.assignments[row.run.assignmentKey].role
      && row.revision == db.items[db.assignments[row.run.assignmentKey].itemId].revision
  {
    if j < |ActiveRowsOf(db, runs[..|runs| - 1])| { RowRevision(db, runs[..|runs| - 1], j); }
  }

  /** Every handoff a reconciliation writes is for an assignment whose key still names its item's stored revision. */
  lemma HandoffsAreCurrent(db: Db, news: seq<News>, config: Config, now: int, i: nat)
    requires |news| == |ActiveRows(db)| && Reconciled(db, news, config, now).Some?
    requires var next := Reconciled(db, news, config, now).value.db;
      |db.transitions| <= i < |next.transitions| && next.transitions[i].nextRole.Some?
    ensures var key := Reconciled(db, news, config, now).value.db.transitions[i].assignmentKey;
      && key in db.assignments && db.assignments[key].itemId in db.items
      && LastField(key) == db.items[db.assignments[key].itemId].revision
  {
    var rows := ActiveRows(db);
    hide ReconcileUpTo, LastField, AssignmentsKept, ActiveRowsOf;
    PassWrites(db, rows, news, |news|, config, now);
    var t := Reconciled(db, news, config, now).value.db.transitions[i];
    assert Current(t, rows);
    var j :| 0 <= j < |rows| && rows[j].run.assignmentKey == t.assignmentKey && LastField(t.assignmentKey) == rows[j].revision;
    RowRevision(db, db.runs, j);
  }
}
