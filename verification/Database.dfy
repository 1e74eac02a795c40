/**
 The role-local tables `role_assignments`, `agent_runs` and `transitions`: what each write does to
 them, and what every write keeps.
 */
module Database {
  import opened Statuses

  datatype AssignmentStatus = Pending | Started | Completed | FailedFinal | BlockedConfig | Cancelled | TimedOut

  datatype RunStatus =
    | Active | RunCompleted | RunFailed | RunCancelled | RunTimeout | RunLost | InvalidOutput | StaleOutput

  /** The UNIQUE columns of `work_items`, which its numeric id stands for. */
  datatype ItemId = ItemId(provider: string, repositoryId: string, externalId: string)

  /** `operatorRequeues` is not a column: it counts the requeue commands that hit the row. */
  datatype Assignment = Assignment(
    itemId: ItemId,
    role: Role,
    status: AssignmentStatus,
    attemptCount: nat,
    nextRetryAt: Option<int>,
    createdAt: int,
    updatedAt: int,
    operatorRequeues: nat)

  datatype Run = Run(
    assignmentKey: string, hermesRunId: string, status: RunStatus, attemptNumber: nat, startedAt: int, completedAt: Option<int>)

  /** The status word of a transition row: a role's final status or one of the failure words. */
  datatype Mark =
    | Final(status: FinalStatus)
    | LostRequeued | Lost | FailedRequeued | Failed | ConfigBlocked | Timeout | Invalid | Stale

  datatype Transition = Transition(
    assignmentKey: string, fromRole: Role, mark: Mark, nextRole: Option<Role>, providerApplied: bool)

  datatype WorkItem = WorkItem(
    provider: string, repositoryId: string, kind: string, externalId: string,
    revision: string, labels: set<Label>, assignees: set<string>)

  datatype Db = Db(
    items: map<ItemId, WorkItem>,
    assignments: map<string, Assignment>,
    runs: seq<Run>,
    transitions: seq<Transition>)

  // ----- keys ----------------------------------------------------------------------------

  function IdOf(item: WorkItem): ItemId { ItemId(item.provider, item.repositoryId, item.externalId) }

  /** `WorkItem.assignment_key`. */
  function AssignmentKey(item: WorkItem, role: Role): string {
    item.provider + ":" + item.repositoryId + ":" + item.kind + ":" + item.externalId + ":" + RoleName(role) + ":v2:"
    + item.revision
  }

  /** `key.rsplit(":", 1)[-1]`. */
  function LastField(key: string): string {
    if key == "" || key[|key| - 1] == ':' then "" else LastField(key[..|key| - 1]) + [key[|key| - 1]]
  }

  lemma {:induction false} LastFieldOf(prefix: string, field: string)
    requires ':' !in field
    ensures LastField(prefix + ":" + field) == field
  {
    var key := prefix + ":" + field;
    if field != "" {
      var n := |field| - 1;
      assert key[..|key| - 1] == prefix + ":" + field[..n];
      LastFieldOf(prefix, field[..n]);
      assert field == field[..n] + [field[n]];
    }
  }

  /** The key's last field is the revision it was made for: revisions are hexadecimal. */
  lemma KeyEndsWithRevision(item: WorkItem, role: Role)
    requires ':' !in item.revision
    ensures LastField(AssignmentKey(item, role)) == item.revision
  {
    var prefix := item.provider + ":" + item.repositoryId + ":" + item.kind + ":" + item.externalId + ":" + RoleName(role) + ":v2";
    assert AssignmentKey(item, role) == prefix + ":" + item.revision;
    LastFieldOf(prefix, item.revision);
  }

  // ----- writes --------------------------------------------------------------------------

  /** `upsert_work_item`: a row already there keeps its kind. */
  function UpsertItem(db: Db, item: WorkItem): Db {
    var id := IdOf(item);
    db.(items := db.items[id := if id in db.items then item.(kind := db.items[id].kind) else item])
  }

  /** `INSERT OR IGNORE`: an existing key keeps its row, whatever its status. */
  function EnsureAssignment(db: Db, key: string, itemId: ItemId, role: Role, now: int): Db {
    if key in db.assignments then db
    else db.(assignments := db.assignments[key := Assignment(itemId, role, Pending, 0, None, now, now, 0)])
  }

  predicate HasActiveRun(runs: seq<Run>, key: string) {
    exists i :: 0 <= i < |runs| && runs[i].assignmentKey == key && runs[i].status == Active
  }

  /** `mark_assignment_started`; None where it raises, the UNIQUE run id included. */
  function MarkStarted(db: Db, key: string, runId: string, now: int): Option<Db> {
    if HasActiveRun(db.runs, key) || key !in db.assignments || (exists r :: r in db.runs && r.hermesRunId == runId) then None
    else
      var a := db.assignments[key];
      var n := a.attemptCount + 1;
      Some(db.(assignments := db.assignments[key := a.(status := Started, attemptCount := n, nextRetryAt := None, updatedAt := now)],
               runs := db.runs + [Run(key, runId, Active, n, now, None)]))
  }

  function FinishRun(r: Run, key: string, status: RunStatus, now: int): Run {
    if r.assignmentKey == key && r.status == Active then r.(status := status, completedAt := Some(now)) else r
  }

  function FinishRuns(runs: seq<Run>, key: string, status: RunStatus, now: int): (r: seq<Run>)
    ensures |r| == |runs| && forall i :: 0 <= i < |runs| ==> r[i] == FinishRun(runs[i], key, status, now)
  {
    if runs == [] then [] else FinishRuns(runs[..|runs| - 1], key, status, now) + [FinishRun(runs[|runs| - 1], key, status, now)]
  }

  /** `mark_run_finished`. */
  function MarkFinished(db: Db, key: string, runStatus: RunStatus, status: AssignmentStatus, retryAt: Option<int>, now: int): Db {
    db.(runs := FinishRuns(db.runs, key, runStatus, now),
        assignments := if key in db.assignments
                       then db.assignments[key := db.assignments[key].(status := status, nextRetryAt := retryAt, updatedAt := now)]
                       else db.assignments)
  }

  function Requeued(a: Assignment, now: int): Assignment {
    a.(status := Pending, nextRetryAt := None, updatedAt := now, operatorRequeues := a.operatorRequeues + 1)
  }

  function KeySet(keys: seq<string>): set<string> { set k | k in keys }

  /** `requeue_assignments` on the rows its query matched. */
  function Requeue(db: Db, keys: set<string>, now: int): Db {
    db.(assignments := map k | k in db.assignments ::
          if k in keys then Requeued(db.assignments[k], now) else db.assignments[k])
  }

  function AddTransition(db: Db, t: Transition): Db { db.(transitions := db.transitions + [t]) }

  // ----- what every write keeps ----------------------------------------------------------

  /** Every run belongs to an assignment and carries an attempt number that was counted there. */
  ghost predicate RunsCounted(db: Db) {
    forall i :: 0 <= i < |db.runs| ==>
      db.runs[i].assignmentKey in db.assignments
      && 1 <= db.runs[i].attemptNumber <= db.assignments[db.runs[i].assignmentKey].attemptCount
  }

  /** Attempts of one assignment rise with the runs; none repeats. */
  ghost predicate AttemptsRise(runs: seq<Run>) {
    forall i, j :: 0 <= i < j < |runs| && runs[i].assignmentKey == runs[j].assignmentKey ==>
      runs[i].attemptNumber < runs[j].attemptNumber
  }

  ghost predicate AttemptRan(runs: seq<Run>, key: string, n: nat) {
    exists i :: 0 <= i < |runs| && runs[i].assignmentKey == key && runs[i].attemptNumber == n
  }

  /** No attempt number was skipped. */
  ghost predicate AttemptsComplete(db: Db) {
    forall key, n: nat :: key in db.assignments && 1 <= n <= db.assignments[key].attemptCount ==> AttemptRan(db.runs, key, n)
  }

  /** A run in progress is its assignment's latest attempt. */
  ghost predicate ActiveIsLatest(db: Db) {
    forall i :: 0 <= i < |db.runs| && db.runs[i].status == Active && db.runs[i].assignmentKey in db.assignments ==>
      db.runs[i].attemptNumber == db.assignments[db.runs[i].assignmentKey].attemptCount
  }

  /** The retry bound: attempts made, plus the one a pending row will make. */
  predicate WithinBound(a: Assignment, maxAttempts: nat) {
    a.attemptCount + (if a.status == Pending then 1 else 0) <= maxAttempts + a.operatorRequeues
  }

  ghost predicate Bounded(db: Db, maxAttempts: nat) {
    forall key :: key in db.assignments ==> WithinBound(db.assignments[key], maxAttempts)
  }

  ghost predicate ItemsKnown(db: Db) {
    forall key :: key in db.assignments ==> db.assignments[key].itemId in db.items
  }

  ghost predicate Inv(db: Db, maxAttempts: nat) {
    && RunsCounted(db) && AttemptsRise(db.runs) && AttemptsComplete(db) && ActiveIsLatest(db)
    && Bounded(db, maxAttempts) && ItemsKnown(db) && Sum(db.assignments, Attempts) == |db.runs|
  }

  /** STARTED says a run is in progress, and only STARTED says so. */
  ghost predicate Linked(db: Db) {
    forall key :: key in db.assignments ==> (db.assignments[key].status == Started <==> HasActiveRun(db.runs, key))
  }

  const EMPTY := Db(map[], map[], [], [])

  // ----- sums over the table -------------------------------------------------------------

  function Attempts(a: Assignment): int { a.attemptCount }

  function Requeues(a: Assignment): int { a.operatorRequeues }

  ghost function Sum(m: map<string, Assignment>, f: Assignment -> int): int {
    if m == map[] then 0 else
      var k :| k in m;
      f(m[k]) + Sum(m - {k}, f)
  }

  lemma {:induction false} SumSplit(m: map<string, Assignment>, k: string, f: Assignment -> int)
    requires k in m
    ensures Sum(m, f) == f(m[k]) + Sum(m - {k}, f)
    decreases |m|
  {
    var c :| c in m && Sum(m, f) == f(m[c]) + Sum(m - {c}, f);
    if c != k {
      var rest := m - {c};
      assert |rest| < |m| by { assert rest.Keys == m.Keys - {c}; }
      SumSplit(rest, k, f);
      SumSplit(m - {k}, c, f) by { assert (m - {k}).Keys == m.Keys - {k}; }
      assert rest - {k} == m - {k} - {c};
    }
  }

  lemma SumUpdate(m: map<string, Assignment>, k: string, a: Assignment, f: Assignment -> int)
    ensures Sum(m[k := a], f) == Sum(m - {k}, f) + f(a)
    ensures k in m ==> Sum(m[k := a], f) == Sum(m, f) - f(m[k]) + f(a)
    ensures k !in m ==> Sum(m[k := a], f) == Sum(m, f) + f(a)
  {
    SumSplit(m[k := a], k, f);
    assert m[k := a] - {k} == m - {k};
    if k in m { SumSplit(m, k, f); } else { assert m - {k} == m; }
  }

  lemma {:induction false} SumSame(m: map<string, Assignment>, n: map<string, Assignment>, f: Assignment -> int)
    requires m.Keys == n.Keys && forall k :: k in m ==> f(m[k]) == f(n[k])
    ensures Sum(m, f) == Sum(n, f)
    decreases |m|
  {
    if m == map[] {
      assert n == map[];
    } else {
      var k :| k in m;
      SumSplit(m, k, f);
      SumSplit(n, k, f);
      assert (m - {k}).Keys == m.Keys - {k} && (n - {k}).Keys == n.Keys - {k};
      SumSame(m - {k}, n - {k}, f);
    }
  }

  // ----- preservation --------------------------------------------------------------------

  lemma EnsureKeeps(db: Db, key: string, itemId: ItemId, role: Role, now: int, maxAttempts: nat)
    requires Inv(db, maxAttempts) && maxAttempts > 0 && itemId in db.items
    ensures Inv(EnsureAssignment(db, key, itemId, role, now), maxAttempts)
    ensures Linked(db) ==> Linked(EnsureAssignment(db, key, itemId, role, now))
  {
    if key !in db.assignments {
      var next := EnsureAssignment(db, key, itemId, role, now);
      SumUpdate(db.assignments, key, next.assignments[key], Attempts);
      assert !HasActiveRun(db.runs, key);
    }
  }

  lemma StartKeepsNumbers(db: Db, key: string, runId: string, now: int, maxAttempts: nat)
    requires RunsCounted(db) && AttemptsRise(db.runs) && ActiveIsLatest(db) && Bounded(db, maxAttempts)
    requires MarkStarted(db, key, runId, now).Some? && db.assignments[key].status == Pending
    ensures var next := MarkStarted(db, key, runId, now).value;
      RunsCounted(next) && AttemptsRise(next.runs) && ActiveIsLatest(next) && Bounded(next, maxAttempts)
  {}

  lemma StartKeepsComplete(db: Db, key: string, runId: string, now: int)
    requires AttemptsComplete(db) && MarkStarted(db, key, runId, now).Some?
    ensures AttemptsComplete(MarkStarted(db, key, runId, now).value)
  {
    var next := MarkStarted(db, key, runId, now).value;
    forall k, n: nat | k in next.assignments && 1 <= n <= next.assignments[k].attemptCount ensures AttemptRan(next.runs, k, n) {
      if k == key && n == next.assignments[key].attemptCount {
        assert next.runs[|db.runs|].assignmentKey == k;
      } else {
        assert AttemptRan(db.runs, k, n);
        var i :| 0 <= i < |db.runs| && db.runs[i].assignmentKey == k && db.runs[i].attemptNumber == n;
        assert next.runs[i] == db.runs[i];
      }
    }
  }

  lemma StartedIsActive(db: Db, key: string, runId: string, now: int, k: string)
    requires MarkStarted(db, key, runId, now).Some?
    ensures HasActiveRun(MarkStarted(db, key, runId, now).value.runs, k) <==> k == key || HasActiveRun(db.runs, k)
  {
    var next := MarkStarted(db, key, runId, now).value;
    assert next.runs[|db.runs|].status == Active && next.runs[|db.runs|].assignmentKey == key;
    if HasActiveRun(db.runs, k) {
      var i :| 0 <= i < |db.runs| && db.runs[i].assignmentKey == k && db.runs[i].status == Active;
      assert next.runs[i] == db.runs[i];
    }
  }

  lemma StartKeeps(db: Db, key: string, runId: string, now: int, maxAttempts: nat)
    requires Inv(db, maxAttempts) && MarkStarted(db, key, runId, now).Some? && db.assignments[key].status == Pending
    ensures Inv(MarkStarted(db, key, runId, now).value, maxAttempts)
    ensures Linked(db) ==> Linked(MarkStarted(db, key, runId, now).value)
  {
    var next := MarkStarted(db, key, runId, now).value;
    StartKeepsNumbers(db, key, runId, now, maxAttempts);
    StartKeepsComplete(db, key, runId, now);
    SumUpdate(db.assignments, key, next.assignments[key], Attempts);
    hide RunsCounted, AttemptsRise, AttemptsComplete, ActiveIsLatest, Bounded, HasActiveRun;
    forall k | k in next.assignments ensures HasActiveRun(next.runs, k) <==> k == key || HasActiveRun(db.runs, k) {
      StartedIsActive(db, key, runId, now, k);
    }
  }

  lemma FinishKeepsRise(runs: seq<Run>, key: string, runStatus: RunStatus, now: int)
    requires AttemptsRise(runs)
    ensures AttemptsRise(FinishRuns(runs, key, runStatus, now))
  {}

  lemma FinishKeepsLatest(db: Db, key: string, runStatus: RunStatus, status: AssignmentStatus, retryAt: Option<int>, now: int)
    requires RunsCounted(db) && ActiveIsLatest(db) && runStatus != Active
    ensures var next := MarkFinished(db, key, runStatus, status, retryAt, now);
      RunsCounted(next) && ActiveIsLatest(next)
  {}

  lemma FinishKeepsNumbers(db: Db, run: Run, runStatus: RunStatus, status: AssignmentStatus, retryAt: Option<int>, now: int, maxAttempts: nat)
    requires RunsCounted(db) && AttemptsRise(db.runs) && ActiveIsLatest(db) && Bounded(db, maxAttempts)
    requires run in db.runs && run.status == Active
    requires runStatus != Active && (status == Pending ==> run.attemptNumber < maxAttempts)
    ensures var next := MarkFinished(db, run.assignmentKey, runStatus, status, retryAt, now);
      RunsCounted(next) && AttemptsRise(next.runs) && ActiveIsLatest(next) && Bounded(next, maxAttempts)
  {
    var r :| 0 <= r < |db.runs| && db.runs[r] == run;
    assert db.assignments[run.assignmentKey].attemptCount == run.attemptNumber;
    FinishKeepsRise(db.runs, run.assignmentKey, runStatus, now);
    FinishKeepsLatest(db, run.assignmentKey, runStatus, status, retryAt, now);
    hide AttemptsRise, RunsCounted, ActiveIsLatest;
  }

  lemma FinishKeepsComplete(db: Db, key: string, runStatus: RunStatus, status: AssignmentStatus, retryAt: Option<int>, now: int)
    requires AttemptsComplete(db)
    ensures AttemptsComplete(MarkFinished(db, key, runStatus, status, retryAt, now))
  {
    var next := MarkFinished(db, key, runStatus, status, retryAt, now);
    forall k, n: nat | k in next.assignments && 1 <= n <= next.assignments[k].attemptCount ensures AttemptRan(next.runs, k, n) {
      assert AttemptRan(db.runs, k, n);
      var i :| 0 <= i < |db.runs| && db.runs[i].assignmentKey == k && db.runs[i].attemptNumber == n;
      assert next.runs[i].attemptNumber == n;
    }
  }

  lemma FinishedIsNotActive(runs: seq<Run>, key: string, runStatus: RunStatus, now: int, k: string)
    requires runStatus != Active
    ensures HasActiveRun(FinishRuns(runs, key, runStatus, now), k) <==> k != key && HasActiveRun(runs, k)
  {
    var next := FinishRuns(runs, key, runStatus, now);
    if k != key && HasActiveRun(runs, k) {
      var i :| 0 <= i < |runs| && runs[i].assignmentKey == k && runs[i].status == Active;
      assert next[i] == runs[i];
    }
  }

  /** Back to PENDING only below the bound, which the active run's own number shows. */
  lemma FinishKeeps(db: Db, run: Run, runStatus: RunStatus, status: AssignmentStatus, retryAt: Option<int>, now: int, maxAttempts: nat)
    requires Inv(db, maxAttempts) && run in db.runs && run.status == Active
    requires runStatus != Active && status != Started && (status == Pending ==> run.attemptNumber < maxAttempts)
    ensures Inv(MarkFinished(db, run.assignmentKey, runStatus, status, retryAt, now), maxAttempts)
    ensures Linked(db) ==> Linked(MarkFinished(db, run.assignmentKey, runStatus, status, retryAt, now))
  {
    var key := run.assignmentKey;
    var next := MarkFinished(db, key, runStatus, status, retryAt, now);
    FinishKeepsNumbers(db, run, runStatus, status, retryAt, now, maxAttempts);
    FinishKeepsComplete(db, key, runStatus, status, retryAt, now);
    assert key in db.assignments;
    SumUpdate(db.assignments, key, next.assignments[key], Attempts);
    hide RunsCounted, AttemptsRise, AttemptsComplete, ActiveIsLatest, Bounded, HasActiveRun, FinishRuns;
    forall k | k in next.assignments ensures HasActiveRun(next.runs, k) <==> k != key && HasActiveRun(db.runs, k) {
      FinishedIsNotActive(db.runs, key, runStatus, now, k);
    }
  }

  lemma RequeueKeeps(db: Db, keys: set<string>, now: int, maxAttempts: nat)
    requires Inv(db, maxAttempts)
    ensures Inv(Requeue(db, keys, now), maxAttempts)
  {
    SumSame(db.assignments, Requeue(db, keys, now).assignments, Attempts);
  }

  /** With the default statuses a requeue never touches a started row, so STARTED keeps its meaning. */
  lemma RequeueKeepsLinked(db: Db, keys: set<string>, now: int)
    requires Linked(db) && forall k :: k in keys && k in db.assignments ==> db.assignments[k].status != Started
    ensures Linked(Requeue(db, keys, now))
  {}

  lemma AtMostOneActive(db: Db, maxAttempts: nat, i: nat, j: nat)
    requires Inv(db, maxAttempts) && i < |db.runs| && j < |db.runs|
    requires db.runs[i].status == Active && db.runs[j].status == Active && db.runs[i].assignmentKey == db.runs[j].assignmentKey
    ensures i == j
  {}
}
