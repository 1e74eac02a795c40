/**
 What a reconciliation makes of a run, said of the tables before and after it, the gateway's answer and the
 configuration: one exact condition for each outcome.
 */
module Outcomes {
  import opened Statuses
  import opened FinalResponses
  import opened Database
  import opened Reconciler
  import opened Ticks
  import opened RowEffects

  // ----- the answer ----------------------------------------------------------------------

  predicate SaysDone(a: Answer) {
    a.Reported? && (a.word == "completed" || a.word == "succeeded" || a.word == "success" || a.word == "done")
  }

  predicate SaysFailed(a: Answer) { a.Reported? && (a.word == "failed" || a.word == "error") }

  predicate SaysCancelled(a: Answer) { a.Reported? && (a.word == "cancelled" || a.word == "canceled") }

  predicate SaysTimedOut(a: Answer) { a.Reported? && (a.word == "timeout" || a.word == "timed_out") }

  predicate SaysNothing(a: Answer) { a.Reported? && !SaysDone(a) && !SaysFailed(a) && !SaysCancelled(a) && !SaysTimedOut(a) }

  /** The gateway's answer for a run; a lookup of a run it does not answer for raises. */
  function AnswerFor(replies: map<string, Reply>, run: Run): Answer {
    if run.hermesRunId in replies then replies[run.hermesRunId].answer else Unreachable
  }

  function Raises(replies: map<string, Reply>, run: Run): bool {
    run.hermesRunId in replies && replies[run.hermesRunId].adapterRaises
  }

  predicate Late(run: Run, config: Config, now: int) { now > run.startedAt + config.runTimeout }

  predicate HasAttempts(run: Run, config: Config) { run.attemptNumber + 1 <= config.maxAttempts }

  /** The one answer that sends a run back to the queue. */
  predicate Retried(run: Run, a: Answer, config: Config, now: int) {
    && !Late(run, config, now) && HasAttempts(run, config)
    && ((a.NotFound? && config.retryLostRuns)
        || (SaysFailed(a) && !a.configError && a.transientError && config.retryTransientFailures))
  }

  /** The usable status of a run that says it is done. */
  function Usable(row: ActiveRow, a: Answer, config: Config): Option<FinalStatus> {
    if !SaysDone(a) then None else
    var r := ParsedOrRepaired(a.payload, row.role, row.run.assignmentKey, config.repair, a.modelAnswer);
    if r.Some? then Some(r.value.finalStatus) else None
  }

  predicate IsCurrent(row: ActiveRow) { LastField(row.run.assignmentKey) == row.revision }

  /** Done for the revision the item still has. */
  predicate Completes(row: ActiveRow, a: Answer, config: Config, now: int) {
    !Late(row.run, config, now) && SaysDone(a) && Usable(row, a, config).Some? && IsCurrent(row)
  }

  // ----- the verdict ---------------------------------------------------------------------

  predicate Is(v: Verdict, status: AssignmentStatus) { v.Ended? && v.ending.status == status }

  lemma WordsApart(a: Answer)
    ensures !(SaysDone(a) && SaysFailed(a)) && !(SaysDone(a) && SaysCancelled(a)) && !(SaysDone(a) && SaysTimedOut(a))
    ensures !(SaysFailed(a) && SaysCancelled(a)) && !(SaysFailed(a) && SaysTimedOut(a)) && !(SaysCancelled(a) && SaysTimedOut(a))
  {}

  lemma FoundLaw(row: ActiveRow, a: Answer, config: Config)
    ensures var f := Find(row, a, config);
      && (f.NoSuchRun? <==> a.NotFound?) && (f.LookupFailed? <==> a.Unreachable?) && (f.RunDone? <==> SaysDone(a))
      && (f.RunErred? <==> SaysFailed(a)) && (f.RunStopped? <==> SaysCancelled(a)) && (f.RunTimedOut? <==> SaysTimedOut(a))
      && (f.StillGoing? <==> SaysNothing(a))
      && (f.RunDone? ==> f.status == Usable(row, a, config))
      && (f.RunErred? ==> f.configError == a.configError && f.transientError == a.transientError)
  {
    WordsApart(a);
    hide ParsedOrRepaired;
  }

  /** What becomes of the assignment. */
  lemma VerdictStatus(row: ActiveRow, a: Answer, config: Config, now: int)
    ensures var v := Judge(row, Find(row, a, config), config, now);
      && (v.Abort? <==> a.Unreachable? && !Late(row.run, config, now))
      && (v.StillRunning? <==> SaysNothing(a) && !Late(row.run, config, now))
      && (Is(v, Pending) <==> Retried(row.run, a, config, now))
      && (Is(v, BlockedConfig) <==> !Late(row.run, config, now) && SaysFailed(a) && a.configError)
      && (Is(v, Completed) <==> Completes(row, a, config, now))
      && (Is(v, Cancelled) <==> !Late(row.run, config, now) && SaysCancelled(a))
      && (Is(v, TimedOut) <==> Late(row.run, config, now) || SaysTimedOut(a))
      && (v.Ended? ==> v.ending.status in {Pending, BlockedConfig, Completed, Cancelled, TimedOut, FailedFinal})
  {
    FoundLaw(row, a, config);
    WordsApart(a);
    hide Find, Usable, SaysDone, SaysFailed, SaysCancelled, SaysTimedOut, LastField, ResolveTransition, RetryTimestamp;
  }

  predicate Ran(v: Verdict, status: RunStatus) { v.Ended? && v.ending.runStatus == status }

  /** What becomes of the run. */
  lemma VerdictRun(row: ActiveRow, a: Answer, config: Config, now: int)
    ensures var v, late := Judge(row, Find(row, a, config), config, now), Late(row.run, config, now);
      && (Ran(v, RunLost) <==> !late && a.NotFound?)
      && (Ran(v, RunFailed) <==> !late && SaysFailed(a))
      && (Ran(v, RunCancelled) <==> !late && SaysCancelled(a))
      && (Ran(v, RunTimeout) <==> late || SaysTimedOut(a))
      && (Ran(v, RunCompleted) <==> Completes(row, a, config, now))
      && (Ran(v, InvalidOutput) <==> !late && SaysDone(a) && Usable(row, a, config).None?)
      && (Ran(v, StaleOutput) <==> !late && SaysDone(a) && Usable(row, a, config).Some? && !IsCurrent(row))
  {
    FoundLaw(row, a, config);
    WordsApart(a);
    hide Find, Usable, SaysDone, SaysFailed, SaysCancelled, SaysTimedOut, LastField, ResolveTransition, RetryTimestamp;
  }

  /** What the transition row says, if one is written. */
  function MarkFor(row: ActiveRow, a: Answer, config: Config, now: int): Option<Mark> {
    if Late(row.run, config, now) || SaysTimedOut(a) then Some(Timeout)
    else if a.NotFound? then Some(if Retried(row.run, a, config, now) then LostRequeued else Lost)
    else if SaysFailed(a) then
      Some(if a.configError then ConfigBlocked else if Retried(row.run, a, config, now) then FailedRequeued else Failed)
    else if SaysDone(a) then
      var status := Usable(row, a, config);
      if status.None? then Some(Invalid)
      else if !IsCurrent(row) then Some(Stale)
      else if ResolveTransition(row.role, status.value).Some? then Some(Final(status.value))
      else None
    else None
  }

  /** The transition rows an answer brings: who follows only on a completion, applied unless it is a retry. */
  function RowsFrom(row: ActiveRow, a: Answer, adapterRaises: bool, config: Config, now: int): seq<Transition> {
    var mark := MarkFor(row, a, config, now);
    if mark.None? then []
    else
      var next := if mark.value.Final? then ResolveTransition(row.role, mark.value.status).value.nextRole else None;
      var applied := !Retried(row.run, a, config, now) && config.applyTransitions && config.adapterPresent && !adapterRaises;
      [Transition(row.run.assignmentKey, row.role, mark.value, next, applied)]
  }

  lemma VerdictRows(row: ActiveRow, a: Answer, adapterRaises: bool, config: Config, now: int)
    requires Judge(row, Find(row, a, config), config, now).Ended?
    ensures Rows(row, Judge(row, Find(row, a, config), config, now).ending, adapterRaises, config)
      == RowsFrom(row, a, adapterRaises, config, now)
  {
    FoundLaw(row, a, config);
    WordsApart(a);
    hide Find, Usable, SaysDone, SaysFailed, SaysCancelled, SaysTimedOut, LastField, ResolveTransition, RetryTimestamp;
  }

  /** A retry waits out the delay, if there is one; nobody else has a retry time. */
  lemma VerdictRetry(row: ActiveRow, a: Answer, config: Config, now: int)
    requires Judge(row, Find(row, a, config), config, now).Ended?
    ensures Judge(row, Find(row, a, config), config, now).ending.retryAt
      == if Retried(row.run, a, config, now) && config.retryDelay > 0 then Some(now + config.retryDelay) else None
  {
    FoundLaw(row, a, config);
    WordsApart(a);
    hide Find, Usable, SaysDone, SaysFailed, SaysCancelled, SaysTimedOut, LastField, ResolveTransition;
  }

  // ----- the tables ----------------------------------------------------------------------

  /** The assignment after the pass, against the answer. */
  predicate StatusAsAnswered(b: Assignment, row: ActiveRow, a: Answer, config: Config, now: int) {
    var late := Late(row.run, config, now);
    && (b.status == Pending <==> Retried(row.run, a, config, now))
    && (b.status == BlockedConfig <==> !late && SaysFailed(a) && a.configError)
    && (b.status == Completed <==> Completes(row, a, config, now))
    && (b.status == Cancelled <==> !late && SaysCancelled(a))
    && (b.status == TimedOut <==> late || SaysTimedOut(a))
    && (b.status == Started <==> !late && SaysNothing(a))
    && (b.status == FailedFinal <==>
          && !late && !Retried(row.run, a, config, now)
          && (a.NotFound? || (SaysFailed(a) && !a.configError) || (SaysDone(a) && !Completes(row, a, config, now))))
    && (b.status == Pending ==> b.nextRetryAt == if config.retryDelay > 0 then Some(now + config.retryDelay) else None)
  }

  /** The run after the pass, against the answer. */
  predicate RunAsAnswered(r: Run, row: ActiveRow, a: Answer, config: Config, now: int) {
    var late := Late(row.run, config, now);
    && (r.status == Active <==> !late && SaysNothing(a))
    && (r.status == RunLost <==> !late && a.NotFound?)
    && (r.status == RunFailed <==> !late && SaysFailed(a))
    && (r.status == RunCancelled <==> !late && SaysCancelled(a))
    && (r.status == RunTimeout <==> late || SaysTimedOut(a))
    && (r.status == RunCompleted <==> Completes(row, a, config, now))
    && (r.status == InvalidOutput <==> !late && SaysDone(a) && Usable(row, a, config).None?)
    && (r.status == StaleOutput <==> !late && SaysDone(a) && Usable(row, a, config).Some? && !IsCurrent(row))
    && r == row.run.(status := r.status, completedAt := if r.status == Active then row.run.completedAt else Some(now))
  }

  lemma EndedStatus(db: Db, next: Db, row: ActiveRow, a: Answer, adapterRaises: bool, config: Config, now: int)
    requires EndedAs(db, next, row, News(Find(row, a, config), adapterRaises), config, now)
    requires row.run.assignmentKey in db.assignments && db.assignments[row.run.assignmentKey].status == Started
    ensures row.run.assignmentKey in next.assignments
      && StatusAsAnswered(next.assignments[row.run.assignmentKey], row, a, config, now)
  {
    VerdictStatus(row, a, config, now);
    var v := Judge(row, Find(row, a, config), config, now);
    if v.Ended? { VerdictRetry(row, a, config, now); }
    WordsApart(a);
    hide Find, Judge, Usable, Retried, Late, SaysDone, SaysFailed, SaysCancelled, SaysTimedOut, IsCurrent, RowsFor, Rows, RunsAfter;
    AnswerSorts(a);
  }

  lemma AnswerSorts(a: Answer)
    ensures a.NotFound? || a.Unreachable? || SaysDone(a) || SaysFailed(a) || SaysCancelled(a) || SaysTimedOut(a) || SaysNothing(a)
    ensures SaysDone(a) || SaysFailed(a) || SaysCancelled(a) || SaysTimedOut(a) || SaysNothing(a) ==> a.Reported?
  {}

  lemma EndedRun(db: Db, next: Db, row: ActiveRow, a: Answer, adapterRaises: bool, config: Config, now: int, x: nat)
    requires EndedAs(db, next, row, News(Find(row, a, config), adapterRaises), config, now)
    requires x < |db.runs| && db.runs[x] == row.run && row.run.status == Active
    ensures x < |next.runs| && RunAsAnswered(next.runs[x], row, a, config, now)
  {
    VerdictStatus(row, a, config, now);
    VerdictRun(row, a, config, now);
    WordsApart(a);
    AnswerSorts(a);
    hide Find, Judge, Usable, Retried, Late, SaysDone, SaysFailed, SaysCancelled, SaysTimedOut, IsCurrent, RowsFor, Rows;
  }

  lemma EndedRows(db: Db, next: Db, row: ActiveRow, a: Answer, adapterRaises: bool, config: Config, now: int)
    requires EndedAs(db, next, row, News(Find(row, a, config), adapterRaises), config, now)
    ensures RowsFor(next.transitions, row.run.assignmentKey)
      == RowsFor(db.transitions, row.run.assignmentKey) + RowsFrom(row, a, adapterRaises, config, now)
  {
    VerdictStatus(row, a, config, now);
    var v := Judge(row, Find(row, a, config), config, now);
    if v.Ended? {
      VerdictRows(row, a, adapterRaises, config, now);
    } else {
      NothingMarked(row, a, config, now);
    }
    hide Find, Judge, Usable, Retried, Late, SaysDone, SaysFailed, SaysCancelled, SaysTimedOut, IsCurrent, RowsFor, Rows, MarkFor;
  }

  lemma GoingStays(db: Db, next: Db, row: ActiveRow, a: Answer, adapterRaises: bool, config: Config, now: int)
    requires EndedAs(db, next, row, News(Find(row, a, config), adapterRaises), config, now)
    requires SaysNothing(a) && !Late(row.run, config, now) && row.run.assignmentKey in db.assignments
    ensures row.run.assignmentKey in next.assignments && next.assignments[row.run.assignmentKey] == db.assignments[row.run.assignmentKey]
  {
    VerdictStatus(row, a, config, now);
    hide Find, Judge, RowsFor, SaysNothing, Late;
  }

  lemma NothingMarked(row: ActiveRow, a: Answer, config: Config, now: int)
    requires SaysNothing(a) && !Late(row.run, config, now)
    ensures MarkFor(row, a, config, now) == None
  {
    hide Usable, Retried, Late;
  }

  /**
   One pass, for each of its runs: the assignment's status, the run's status and the transition rows after it
   are each as the answer and the configuration say, exactly.
   */
  lemma {:induction false} OutcomesExactly(db: Db, input: Input, config: Config, j: nat, x: nat)
    requires Inv(db, config.maxAttempts) && Linked(db) && j < |ActiveRows(db)|
    requires Reconciled(db, NewsFor(ActiveRows(db), input.replies, config), config, input.now).Some?
    requires x < |db.runs| && db.runs[x] == ActiveRows(db)[j].run
    ensures var next := Reconciled(db, NewsFor(ActiveRows(db), input.replies, config), config, input.now).value.db;
      var row := ActiveRows(db)[j];
      var key, a := row.run.assignmentKey, AnswerFor(input.replies, row.run);
      && key in next.assignments && StatusAsAnswered(next.assignments[key], row, a, config, input.now)
      && x < |next.runs| && RunAsAnswered(next.runs[x], row, a, config, input.now)
      && RowsFor(next.transitions, key)
         == RowsFor(db.transitions, key) + RowsFrom(row, a, Raises(input.replies, row.run), config, input.now)
      && (SaysNothing(a) && !Late(row.run, config, input.now) ==> key in db.assignments && next.assignments[key] == db.assignments[key])
  {
    hide Inv, Linked, EndedAs, Untouched, Find, RowsFor, ReconcileUpTo, ActiveRows, StatusAsAnswered, RunAsAnswered, RowsFrom;
    var rows := ActiveRows(db);
    var news := NewsFor(rows, input.replies, config);
    var row := rows[j];
    var next := Reconciled(db, news, config, input.now).value.db;
    RowsStartAhead(db, config.maxAttempts);
    PassOnKey(db, rows, news, |news|, config, input.now, row.run.assignmentKey);
    RowStarted(db, j);
    var a, raises := AnswerFor(input.replies, row.run), Raises(input.replies, row.run);
    assert news[j] == News(Find(row, a, config), raises);
    EndedStatus(db, next, row, a, raises, config, input.now);
    if SaysNothing(a) && !Late(row.run, config, input.now) { GoingStays(db, next, row, a, raises, config, input.now); }
    assert row.run.status == Active;
    EndedRun(db, next, row, a, raises, config, input.now, x);
    EndedRows(db, next, row, a, raises, config, input.now);
  }

  /** A pass goes through exactly when every run that is not late was answered for. */
  lemma {:induction false} PassGoesThrough(db: Db, input: Input, config: Config)
    ensures Reconciled(db, NewsFor(ActiveRows(db), input.replies, config), config, input.now).Some? <==>
      forall j :: 0 <= j < |ActiveRows(db)| ==>
        Late(ActiveRows(db)[j].run, config, input.now) || !AnswerFor(input.replies, ActiveRows(db)[j].run).Unreachable?
  {
    var rows := ActiveRows(db);
    var news := NewsFor(rows, input.replies, config);
    hide ReconcileUpTo, ActiveRows, Find, Judge;
    StopsExactly(db, rows, news, |news|, config, input.now);
    forall j | 0 <= j < |rows|
      ensures Judge(rows[j], news[j].finding, config, input.now).Abort? <==>
        AnswerFor(input.replies, rows[j].run).Unreachable? && !Late(rows[j].run, config, input.now)
    {
      VerdictStatus(rows[j], AnswerFor(input.replies, rows[j].run), config, input.now);
    }
  }

  // ----- the summary ---------------------------------------------------------------------

  function One(b: bool): nat { if b then 1 else 0 }

  /** One turn counts its run under what became of it. */
  lemma TurnCounts(p: Pass, row: ActiveRow, a: Answer, adapterRaises: bool, config: Config, now: int)
    requires Turn(p, row, News(Find(row, a, config), adapterRaises), config, now).Some?
    ensures var s, t := p.summary, Turn(p, row, News(Find(row, a, config), adapterRaises), config, now).value.summary;
      var late, retried := Late(row.run, config, now), Retried(row.run, a, config, now);
      && t.active == s.active + 1
      && t.completed == s.completed + One(Completes(row, a, config, now))
      && t.failed == s.failed + One(!late && SaysFailed(a))
      && t.cancelled == s.cancelled + One(!late && SaysCancelled(a))
      && t.timeout == s.timeout + One(late || SaysTimedOut(a))
      && t.invalidOutput == s.invalidOutput + One(!late && SaysDone(a) && !Completes(row, a, config, now))
      && t.lost == s.lost + One(!late && a.NotFound?)
      && t.requeued == s.requeued + One(retried)
      && t.blockedConfig == s.blockedConfig + One(!late && SaysFailed(a) && a.configError)
      && t.failedFinal == s.failedFinal + One(!late && !retried && (a.NotFound? || (SaysFailed(a) && !a.configError)))
  {
    FoundLaw(row, a, config);
    WordsApart(a);
    hide Find, Usable, SaysDone, SaysFailed, SaysCancelled, SaysTimedOut, LastField, ResolveTransition, RetryTimestamp, Apply;
  }
}
