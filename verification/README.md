# A verified model of the orchestrator and the capability gateway

This project models, in Dafny, the three parts of the system that have to be right for everything else
to be: the scheduler that starts and retries role runs, the protocol by which a human's authority is
spent on one exact invocation, and the reader of final responses. `dafny verify dfyconfig.toml` checks
all of it.

**Runs.** Each role container keeps work items, assignments, runs and transitions in its own database.
A command (a tick, a reconciliation, an operator's requeue) is one transaction, so it is one step of a
state machine whose state is the four tables (`Database.dfy`, `Reconciler.dfy`, `Ticks.dfy`). What the
gateway and the provider answer, which rows a query returns among equals, and the clock are inputs. The
imperative side (`Store.dfy`, `Commands.dfy`) has the tables as fields of a class and the loops of the
code, and is proved to do what the steps say, the rollback included. Over all histories the project
proves the run and assignment invariants, the retry bound with a decreasing measure, when exactly a tick
commits, and bounded waiting (`Waiting.dfy`). `RowEffects.dfy` and `LabelRouting.dfy` put four such
databases around one issue, whose labels the provider keeps when a database is rolled back, and prove
exactly when they pass a single token; `RoutingRuns.dfy` gives the runs that show both sides.
`Outcomes.dfy` says, run by run and with an exact condition for each status, what a reconciliation makes of
the gateway's answers; `Spacing.dfy` says which rows a tick may start and that runs keep the retry delay;
`RoutingLaws.dfy` says who goes next, and `TableLaws.dfy` what each write does to each column.

**Authority.** `Authority.dfy` decides what a builder may invoke and what makes two invocations the
same. `Governance.dfy` is the store. `Permits.dfy` runs any number of `permit` calls as program counters
over it, interleaved with administrators and the clock, and `PermitRuns.dfy` proves what holds over every
such run. `Resolver.dfy` and `OneShot.dfy` do the same for the resolver and its one-shot allowances,
`Expiry.dfy` for lifetimes and timestamps, `TokenCache.dfy` for reused provider tokens. What each decision
answers is said of the store's rows, the candidates and the arguments alone, with both directions, in
`PermitLaws.dfy`, `AuthorityLaws.dfy`, `ResolverLaws.dfy`, `OneShotLaws.dfy` and `CacheLaws.dfy`.

**Final responses.** `Json.dfy` reads and prints JSON (sections 2 to 8 of RFC 8259, with Python's NaN
and Infinity); `JsonRoundTrip.dfy` proves the round trip. `Scanner.dfy` is the brace scanner against a
definition of balanced blocks, `FinalResponse.dfy` relates repair to the strict parser, `ParserLaws.dfy`
says exactly what either accepts, and `CompletionRecord.dfy` says what is stored.

Where the code does less than one might expect, the model keeps the code and says exactly when the
property holds:

- The labels pass a single token exactly when no command is rolled back after it took labels off the
  issue (`LabelRouting.SingleToken`, `LabelRouting.TickTokenExactly`): the adapter is called while
  reconciling, and a fetch, submission or write that raises later rolls back the database only. A run that
  splits the token is `RoutingRuns.SplitReachable`.
- A reviewer's request for changes on an unchanged revision restarts the builder exactly when the builder
  had no assignment for that revision and no terminal label is there; otherwise nobody acts again
  (`LabelRouting.ChangesRequestedRestarts`, `LabelRouting.ChangesRequestedStops`).
- The payload stored for a completion parses to its response exactly when no reasoning field occurs in
  the response's evidence or handoff (`CompletionRecords.RecordReparses`). The response's own column
  keeps the whole of it.
- A live human grant and a pending request for the same invocation exclude each other as long as no
  approval falls between one call's finding no grant and its recording the request, which holds when
  calls are serialised (`PermitRuns.LiveExcludesPending`); an approval inside that window makes a second
  live grant possible (`PermitRuns.UntimelyApprovalDoubles`, `PermitRuns.TwoLiveReachable`).
- A human grant is unexpired at the instant a call reads before it takes the store's lock. It may have
  expired by the time it is spent, unless no second passes in between
  (`PermitRuns.LateSpendReachable`, `PermitRuns.PromptIsUnexpired`).
- A requeue that also asks for STARTED parts a row from its run (`Ticks.StartedRequeueUnlinks`), and one
  picked row with an active run undoes the whole tick (`Ticks.TickCommits`).
- A second repair of a payload changes nothing and still says repaired exactly when the evidence is an
  empty list (`FinalResponses.RepairedTwice`).

## Model

| member | source | states |
|---|---|---|
| `Ticks.Reachable` | orchestrator/sdlc_orchestrator/cli.py:47-137 | In every state any permitted commands reach from an empty database: attempt numbers of an assignment are 1..attempt_count without gap or repeat, at most one run is active and carries the latest number, attempt_count plus one while PENDING never exceeds the maximum plus the requeues given to that row, and, while requeues keep to the default statuses, STARTED holds exactly while a run is active. |
| `Ticks.CommandKeeps` | orchestrator/sdlc_orchestrator/cli.py:47-137 | One command, a tick, a reconciliation or a requeue, committed or rolled back, keeps all of these. |
| `Ticks.HistoryKeeps` | orchestrator/sdlc_orchestrator/cli.py:47-137 | The same over any history from any state that has them. |
| `Ticks.StartsBounded` | orchestrator/sdlc_orchestrator/db.py:243-269 | The termination measure: over any history the budget (attempts the rows still have, plus requeues) falls by exactly one for every run started, grows only by new assignments and requeues, and never goes below zero. |
| `Ticks.CommandSpends` | orchestrator/sdlc_orchestrator/cli.py:47-137 | A committed tick adds as many runs as it picked rows, every other command adds none; only a requeue adds to the requeue total, one for each row. |
| `Ticks.RunsBounded` | orchestrator/sdlc_orchestrator/reconciler.py:436-437 | From an empty database at most maximum times assignments plus requeues runs are ever started. |
| `Ticks.TickCommits` | orchestrator/sdlc_orchestrator/cli.py:159-174 | A tick commits if and only if no lookup and no fetch raised and every picked row can be started: its submission worked, its run id is new and distinct from the others', and it has no active run. |
| `Ticks.StartedRequeueUnlinks` | orchestrator/sdlc_orchestrator/cli.py:112-137 | A requeue that also asks for STARTED parts such a row from its run: the STARTED-iff-active invariant is then false. |
| `Waiting.BoundedWaiting` | orchestrator/sdlc_orchestrator/db.py:225-240 | A row PENDING since w, with A rows of its role waiting as long, is started within A / max_starts successful ticks rounded up, whatever the gateway and provider answer, for retry delays of at least one second and no operator requeue. |
| `Waiting.TickShrinks` | orchestrator/sdlc_orchestrator/cli.py:159-174 | A successful tick that passes the row over starts max_starts of the rows ahead of it, and nobody new gets ahead. |
| `Waiting.PassedOver` | orchestrator/sdlc_orchestrator/db.py:225-240 | A selection that leaves a due row out is full, and of rows that have waited at least as long. |
| `Waiting.ReconcileAhead` | orchestrator/sdlc_orchestrator/reconciler.py:440-443 | A row the reconciliation sends back to PENDING joins the queue behind everybody who already waits. |
| `Spacing.SelectionExactly` | orchestrator/sdlc_orchestrator/db.py:225-240 | A selection holds PENDING rows of the role past their retry time, by retry or creation time and then by update, and leaves one out only when full of rows no later. |
| `Spacing.PickedAreReady` | orchestrator/sdlc_orchestrator/db.py:225-240 | In every permitted committed tick each picked row is, in the prepared tables, PENDING, of the role, and without a retry time or past it. |
| `Spacing.RunsSpaced` | orchestrator/sdlc_orchestrator/reconciler.py:440-443 | Over any history from empty databases with a clock that does not run back and no operator requeue, a run starts only after every earlier run of its assignment has ended, and at least the retry delay after that ending. |
| `Reconciler.ReconcileConserves` | orchestrator/sdlc_orchestrator/reconciler.py:38-299 | Over a whole reconciliation: runs that stopped being active are exactly completed + failed + cancelled + timeout + invalid + lost; lost + failed = requeued + final + blocked; a transition row is added for every ending except cancellations and completions without a transition; the invariants stay. |
| `Reconciler.HandoffsAreCurrent` | orchestrator/sdlc_orchestrator/reconciler.py:386-387 | A transition row that names a next role is written only for an assignment whose key ends in the stored item's present revision. |
| `Reconciler.FinishOne` | orchestrator/sdlc_orchestrator/db.py:305-338 | Finishing an assignment's single active run leaves exactly one active run fewer. |
| `Reconciler.PassWrites` | orchestrator/sdlc_orchestrator/reconciler.py:53-299 | A pass appends transition rows only, keeps every row's role, age, item, attempts and requeues, touches no assignment without an active run, and gives a row it sends back to PENDING exactly the retry time. |
| `Outcomes.OutcomesExactly` | orchestrator/sdlc_orchestrator/reconciler.py:53-299 | One pass, for each of its runs, an exact condition on the answer and the configuration for every assignment status and every run status afterwards, for the retry time and for the transition rows: back to PENDING only for a lost run with retries of lost runs on, or a transient failure with those on, in time and with attempts left; untouched exactly while still going. |
| `Outcomes.PassGoesThrough` | orchestrator/sdlc_orchestrator/reconciler.py:53-75 | A pass goes through if and only if every run that is not late was answered for. |
| `Outcomes.TurnCounts` | orchestrator/sdlc_orchestrator/reconciler.py:53-299 | Each counter of the summary goes up by one exactly when the answer and the configuration call for it. |
| `Outcomes.VerdictRetry` | orchestrator/sdlc_orchestrator/reconciler.py:440-443 | A retried row waits the configured delay, none if there is none; no other row has a retry time. |
| `Database.EnsureKeeps` | orchestrator/sdlc_orchestrator/db.py:214-222 | Inserting or ignoring an assignment keeps the run and assignment invariants. |
| `Database.StartKeeps` | orchestrator/sdlc_orchestrator/db.py:243-269 | Starting a pending row keeps them: the new attempt number is fresh, latest and within the bound. |
| `Database.FinishKeeps` | orchestrator/sdlc_orchestrator/db.py:305-338 | Finishing an active run keeps them when a return to PENDING happens only below the maximum. |
| `Database.RequeueKeeps` | orchestrator/sdlc_orchestrator/db.py:445-464 | An operator's requeue of any rows keeps them, the bound included. |
| `Database.KeyEndsWithRevision` | orchestrator/sdlc_orchestrator/provider_base.py:21-26 | The text after the last colon of an assignment key is the revision the key was made for. |
| `TableLaws.UpsertExactly` | orchestrator/sdlc_orchestrator/db.py:178-211 | A stored item takes every column of the new one but its kind, and every other item is kept. |
| `TableLaws.StartExactly` | orchestrator/sdlc_orchestrator/db.py:243-269 | A run starts if and only if its assignment is known and has no active run and the run id is new; the columns written are the status, the attempt count, the retry time and the update time. |
| `TableLaws.FinishExactly` | orchestrator/sdlc_orchestrator/db.py:305-338 | Exactly the assignment's active runs end, dated; the columns of the assignment written are the status, the retry time and the update time. |
| `TableLaws.RequeueExactly` | orchestrator/sdlc_orchestrator/db.py:445-464 | A requeued row is pending at once with its attempts kept, and everything else stays. |
| `TableLaws.RequeueTakes` | orchestrator/sdlc_orchestrator/db.py:424-442 | The rows a requeue takes are of the role, of an asked status and the asked key, longest ago updated first, all of them without a limit. |
| `TableLaws.KeysExactly` | orchestrator/sdlc_orchestrator/provider_base.py:21-26 | For items without colons in their fields, two assignment keys are equal exactly when item, kind, revision and role are. |
| `Stores.Store.UpsertWorkItem` | orchestrator/sdlc_orchestrator/db.py:178-211 | Replaces the row of the same provider, repository and external id but for its kind; nothing else changes. |
| `Stores.Store.EnsureAssignment` | orchestrator/sdlc_orchestrator/db.py:214-222 | Adds a PENDING row with no attempts if and only if the key is new, and reports it. |
| `Stores.Store.PendingAssignments` | orchestrator/sdlc_orchestrator/db.py:225-240 | Returns distinct PENDING rows of the role whose retry time has passed, in queue order, at most the limit; such a row is left out only when the list is full and nobody in it is later. |
| `Stores.Store.MarkAssignmentStarted` | orchestrator/sdlc_orchestrator/db.py:243-269 | Refuses, changing nothing, on an active run, a missing assignment or a run id already stored; otherwise one more attempt and one active run carrying its number. |
| `Stores.Store.MarkRunFinished` | orchestrator/sdlc_orchestrator/db.py:305-338 | Ends exactly the assignment's active runs and sets the assignment's status and retry time; every other row is as it was. |
| `Stores.SomeoneFirst` | orchestrator/sdlc_orchestrator/db.py:236-237 | The queue order always has somebody nobody is ahead of. |
| `Stores.Store.MatchingRequeueAssignments` | orchestrator/sdlc_orchestrator/db.py:424-442 | Returns distinct matching rows up to the limit, a negative limit being none, and leaves one out only when the limit is reached and every row taken was updated no later. |
| `Stores.Store.RequeueAssignments` | orchestrator/sdlc_orchestrator/db.py:445-464 | The rows so selected, and they alone, go back to PENDING. |
| `Commands.RunTick` | orchestrator/sdlc_orchestrator/cli.py:47-79 | The imperative tick refines the command model: its picks are a legal selection, and the store ends as the committed tick or, when anything raised, exactly as it began. |
| `Commands.Reconcile` | orchestrator/sdlc_orchestrator/reconciler.py:32-299 | The loop over active runs, asking for each only at its turn, computes the specified pass and summary, or reports that a lookup raised. |
| `Commands.ReconcileRow` | orchestrator/sdlc_orchestrator/reconciler.py:53-298 | One turn of that loop: what is written, counted or aborted is what the row's verdict says. |
| `Commands.EndFound` | orchestrator/sdlc_orchestrator/reconciler.py:76-298 | The branches of the loop body write what the judged ending specifies and nothing when there is none; which ending that is, Outcomes.OutcomesExactly says in terms of the answer and the configuration. |
| `Commands.EndDone` | orchestrator/sdlc_orchestrator/reconciler.py:137-216 | The completed branch: invalid output, stale output, or completion with its handoff. |
| `Commands.ApplyTransition` | orchestrator/sdlc_orchestrator/transitions.py:48-175 | A transition row is written whether or not the provider call is disabled, unavailable or raises; it says applied only when the call went through. |
| `Commands.DiscoverItems` | orchestrator/sdlc_orchestrator/cli.py:55-64 | The discovery loop upserts and ensures exactly the matching items, in order. |
| `Commands.StartPending` | orchestrator/sdlc_orchestrator/cli.py:159-174 | Submits a legal selection row by row and stops at the first submission or write that raises. |
| `Commands.ReconcileTables` | orchestrator/sdlc_orchestrator/cli.py:82-85 | The stand-alone reconciliation as one all-or-nothing transaction. |
| `Commands.RequeueTables` | orchestrator/sdlc_orchestrator/cli.py:104-138 | Selects in the same way among the asked or default statuses and counts them; a dry run changes nothing, otherwise the selected rows and they alone go back to PENDING. |
| `RowEffects.CommandMoves` | orchestrator/sdlc_orchestrator/reconciler.py:53-299 | A command moves any assignment only from absent to open, within open, from open to finished or halted, or from halted back to open; a finished one never moves; and it writes at most one transition row for it, matching the move. |
| `RowEffects.PassOnKey` | orchestrator/sdlc_orchestrator/reconciler.py:53-299 | A pass leaves an assignment and its transition rows alone unless one of its rows was the assignment's run, and then does to them just what that row was judged to. |
| `RowEffects.DiscoveryOnKey` | orchestrator/sdlc_orchestrator/cli.py:55-64 | Discovery opens an absent assignment if and only if a fetched item matched the role under that key, and changes no existing one. |
| `LabelRouting.OnceKept` | orchestrator/sdlc_orchestrator/db.py:214-222 | One command never gives a role a second completion row or release a handoff. |
| `LabelRouting.OpenedWithLabels` | orchestrator/sdlc_orchestrator/assignment.py:7-12 | A role takes the issue up only while one of its own labels and no terminal label is there. |
| `LabelRouting.SingleToken` | orchestrator/sdlc_orchestrator/transitions.py:34-111 | For any interleaving of the four containers' commands from empty databases, rolled back or not: each role completes at most once for the revision and exactly once when finished, and there are at most three handoffs; throughout, the role labels on the issue are one role's and unfinished work belongs to that role, exactly when no command is rolled back after it took labels off the issue. |
| `LabelRouting.TokenExactly` | orchestrator/sdlc_orchestrator/cli.py:47-79 | A rollback leaves the labels as the provider has them: the token survives a command if and only if the command commits or had applied no completion that takes labels off the issue. |
| `LabelRouting.TickTokenExactly` | orchestrator/sdlc_orchestrator/cli.py:47-79 | The same in terms of what a tick is given: no lookup and no fetch raises and every picked row can be started, or no run of the issue is found done with a status whose transition, applied, takes labels off before a lookup raises. |
| `LabelRouting.TakesLabelsExactly` | orchestrator/sdlc_orchestrator/reconciler.py:53-216 | Which labels a pass takes off the issue, however it ends, can be read off the gateway's answers: a run of the issue that hands over, with no raising lookup before it. |
| `LabelRouting.AlwaysTokenExactly` | orchestrator/sdlc_orchestrator/transitions.py:48-111 | Over a whole history the token holds in every state if and only if every step is of that kind. |
| `LabelRouting.TokenKept` | orchestrator/sdlc_orchestrator/statuses.py:97-134 | A committed command of one container never splits the token. |
| `LabelRouting.RolledBackStep` | orchestrator/sdlc_orchestrator/db.py:82-94 | A rolled-back command leaves every database as it was; if it had taken labels off, its role has an open assignment and none of its labels. |
| `LabelRouting.QuietStays` | orchestrator/sdlc_orchestrator/db.py:214-222 | Once nobody works on the issue and whoever has its labels has finished, or a terminal label is there, no command, rolled back or not, changes the labels or takes the issue up again. |
| `LabelRouting.TerminalForever` | orchestrator/sdlc_orchestrator/assignment.py:7-12 | Over any history a terminal label stays on the issue, and no role that had not taken the issue up by then ever does. |
| `LabelRouting.ChangesRequestedStops` | orchestrator/sdlc_orchestrator/statuses.py:116-121 | After an applied request for changes nobody ever takes the issue up again if and only if the builder has finished this revision or a terminal label is there. |
| `LabelRouting.ChangesRequestedRestarts` | orchestrator/sdlc_orchestrator/db.py:214-222 | After an applied request for changes, a committed builder's tick that sees the issue opens the builder's assignment if and only if it had none and no terminal label is there. |
| `RoutingLaws.MatchesExactly` | orchestrator/sdlc_orchestrator/assignment.py:7-12 | A role takes an item up exactly when it shares a label or an assignee with it and none of the item's labels is terminal. |
| `RoutingLaws.WhoGoesNext` | orchestrator/sdlc_orchestrator/statuses.py:97-134 | After an applied completion of the one role the labels call, exactly the role the work goes to would take the issue up, and nobody when it ends; done, manual-only and blocked are each set exactly by their status. |
| `RoutingLaws.CompletionExactly` | orchestrator/sdlc_orchestrator/transitions.py:34-111 | A label is there afterwards exactly when the completion adds it, or it was there and is not taken off. |
| `RoutingLaws.FailureExactly` | orchestrator/sdlc_orchestrator/transitions.py:113-175 | A failure for good adds the blocked label alone; a requeue, or a change that was not applied, none. |
| `RoutingLaws.NextRoleExactly` | orchestrator/sdlc_orchestrator/statuses.py:97-134 | The role a transition row names is the one the work goes to. |
| `RoutingLaws.NoRowExactly` | orchestrator/sdlc_orchestrator/transitions.py:34-45 | A status a role may finish with gets no row exactly when it is one of the project manager's that neither hand on nor end the work. |
| `RoutingRuns.SplitReachable` | orchestrator/sdlc_orchestrator/cli.py:56-57 | From any issue the planner starts on there is a run, with one fetch that raises after a handoff was applied, that ends with the labels of two roles on the issue. |
| `RoutingRuns.RestartReachable` | orchestrator/sdlc_orchestrator/db.py:214-222 | A run from empty databases in which a request for changes does start the builder: the issue came to the reviewer first. |
| `RoutingRuns.StopReachable` | orchestrator/sdlc_orchestrator/db.py:214-222 | A run from empty databases in which a request for changes stops everything, with the builder's labels on the issue: the builder had built this revision. |
| `RoutingRuns.FinishedRun` | orchestrator/sdlc_orchestrator/cli.py:56-57 | A tick whose run is found completed tells the provider of the handoff either way and keeps it exactly when the fetch that follows works. |
| `Scanner.ScanObjectSpans` | orchestrator/sdlc_orchestrator/final_response_repair.py:107-138 | The four-variable scanner fails exactly when the final depth is nonzero, and otherwise returns, in order and disjoint, exactly the maximal string-aware balanced blocks. |
| `Scanner.SpansAreBlocks` | orchestrator/sdlc_orchestrator/final_response_repair.py:107-138 | The spans closed within any prefix are ordered, disjoint, in bounds, and are exactly the blocks with positive depth strictly inside that end there. |
| `Scanner.BlockBraces` | orchestrator/sdlc_orchestrator/final_response_repair.py:119-134 | A span begins with an opening and ends with a closing brace, both outside strings. |
| `Scanner.LevelOverString` | orchestrator/sdlc_orchestrator/final_response_repair.py:114-126 | Whatever string the JSON grammar reads, the scanner leaves at the same place and depth. |
| `Scanner.LevelOverValue` | orchestrator/sdlc_orchestrator/final_response_repair.py:112-134 | Whatever value the JSON grammar reads, the scanner leaves at the same depth, never having been lower. |
| `Scanner.OneSpanInProse` | orchestrator/sdlc_orchestrator/final_response_repair.py:107-138 | Any text that reads as an object, between prose with no quote and no opening brace, is found as exactly that one span. |
| `FinalResponses.ExtractSingleJsonObject` | orchestrator/sdlc_orchestrator/final_response_repair.py:89-104 | The extraction loop computes its specification: the object of the one span that loads as an object, or the reason there is none or more than one; which texts those are is ParserLaws.ExtractedExactly. |
| `FinalResponses.SpansHoldObjects` | orchestrator/sdlc_orchestrator/final_response_repair.py:94-100 | What loads from a span is always an object. |
| `FinalResponses.ExtractsWhatLoads` | orchestrator/sdlc_orchestrator/final_response_repair.py:89-104 | Text the strict parser can read as an object is extracted as that same object. |
| `FinalResponses.RepairConservative` | orchestrator/sdlc_orchestrator/final_response_repair.py:16-104 | Whenever the strict parser accepts a payload, it gives the identical response for the repaired payload. |
| `FinalResponses.RepairKeepsOutcome` | orchestrator/sdlc_orchestrator/final_response_repair.py:63-86 | For every payload repair changes one key only, and in the object it finds there no field but evidence and the list fields: assignment key, role, status and summary stay. |
| `FinalResponses.RepairIdempotent` | orchestrator/sdlc_orchestrator/final_response_repair.py:16-33 | Repairing a repaired payload changes nothing. |
| `FinalResponses.NormalizeTwice` | orchestrator/sdlc_orchestrator/final_response_repair.py:63-86 | Normalising a normalised object changes nothing. |
| `FinalResponses.RepairReadsProse` | orchestrator/sdlc_orchestrator/final_response_repair.py:16-33 | An object inside prose in the first usable field, within the size limit, is parsed after repair exactly as its normalised fields. |
| `FinalResponses.DeterministicRepair` | orchestrator/sdlc_orchestrator/final_response_repair.py:16-33 | The repair loop yields the specified payload, says repaired only when it found a candidate, and leaves the payload alone otherwise. |
| `FinalResponses.NormalizePayload` | orchestrator/sdlc_orchestrator/final_response_repair.py:63-86 | Puts the normalised object under the key, keeps the diagnostics there were, and says whether anything had to change. |
| `FinalResponses.ParseNormalized` | orchestrator/sdlc_orchestrator/final_response.py:46-85 | Normalising an object the field checks accept does not change the response they build. |
| `FinalResponses.ParseFinalResponse` | orchestrator/sdlc_orchestrator/final_response.py:46-85 | An accepted response is for the expected role and assignment, with a status of that role. |
| `FinalResponses.ParsedOrRepaired` | orchestrator/sdlc_orchestrator/reconciler.py:302-341 | So is every response, strict, repaired or the model's. |
| `FinalResponses.ParseOrRepair` | orchestrator/sdlc_orchestrator/reconciler.py:302-341 | The three sources are tried in order, and the model only when the strict parser refused and both repairs are enabled. |
| `FinalResponses.ToJsonReparses` | orchestrator/sdlc_orchestrator/final_response.py:27-43 | The canonical text of an accepted response loads back and parses to the same response. |
| `FinalResponses.CanonicalReparses` | orchestrator/sdlc_orchestrator/reconciler.py:353-363 | The canonical payload, before it is scrubbed for storing, parses to the same response, whatever the payload held before. |
| `FinalResponses.RepairedTwice` | orchestrator/sdlc_orchestrator/final_response_repair.py:70-76 | A second repair changes nothing and says repaired if and only if the normalised evidence is the empty list. |
| `FinalResponses.MissingEvidenceRepairedTwice` | orchestrator/sdlc_orchestrator/final_response_repair.py:63-86 | A response without evidence is reported repaired again. |
| `ParserLaws.FieldsExactly` | orchestrator/sdlc_orchestrator/final_response.py:46-85 | The field checks accept exactly the objects that are a response to this role and assignment, evidence being a list of objects, the other lists of strings, and build just that response. |
| `ParserLaws.StrictExactly` | orchestrator/sdlc_orchestrator/final_response.py:88-118 | The strict parser accepts exactly when the first of the five fields that is not blank holds such an object, as it is or as its whole text. |
| `ParserLaws.StrictNothing` | orchestrator/sdlc_orchestrator/final_response.py:88-118 | With all five blank it refuses. |
| `ParserLaws.ExtractedExactly` | orchestrator/sdlc_orchestrator/final_response_repair.py:89-104 | Extraction succeeds exactly when the text's braces balance and one maximal block of it, and no other, reads as an object. |
| `ParserLaws.RepairedExactly` | orchestrator/sdlc_orchestrator/final_response_repair.py:16-33 | The first of the five fields that holds an object, or a text neither blank nor too long with one object in it, holds that object normalised after repair; every other field stays. |
| `ParserLaws.NothingRepaired` | orchestrator/sdlc_orchestrator/final_response_repair.py:16-33 | With no such field the payload is left as it was. |
| `ParserLaws.RepairableExactly` | orchestrator/sdlc_orchestrator/final_response_repair.py:19-32 | Repair works with an object, or with the one object in a text that is neither blank nor too long. |
| `ParserLaws.NormalizedExactly` | orchestrator/sdlc_orchestrator/final_response_repair.py:63-86 | Missing lists become empty, evidence texts become objects that keep them as their source, and every other field stays. |
| `ParserLaws.CanonicalExactly` | orchestrator/sdlc_orchestrator/reconciler.py:353-363 | A completion is stored under the first of the five fields that is there, or else as final_response, and every other field stays. |
| `ParserLaws.SourcesExactly` | orchestrator/sdlc_orchestrator/reconciler.py:302-341 | The strict reading is used whenever there is one; else the repaired one when repair is on; else the model's repaired answer when that is on too. |
| `CompletionRecords.RecordReparses` | orchestrator/sdlc_orchestrator/reconciler.py:344-363 | The payload stored for a completion parses to the response without its reasoning fields, so to the response itself if and only if no reasoning field occurs at any depth in its evidence or its handoff. |
| `CompletionRecords.ScrubExactly` | orchestrator/sdlc_orchestrator/reconciler.py:366-375 | Scrubbing leaves no reasoning field at any depth, and changes a value exactly when it has one. |
| `CompletionRecords.RecordLoads` | orchestrator/sdlc_orchestrator/reconciler.py:344-350 | The stored text loads back to the stored payload. |
| `CompletionRecords.EvidenceLosesReasoning` | orchestrator/sdlc_orchestrator/reconciler.py:344-363 | An accepted response with a reasoning field in one evidence item, stored without it. |
| `CompletionRecords.ScrubKeeps` | orchestrator/sdlc_orchestrator/reconciler.py:366-375 | Whatever place in a value is reached without passing a reasoning field is still there after scrubbing, with the same text or number or an array as long, and no other place is. |
| `Statuses.ValidateFinalStatus` | orchestrator/sdlc_orchestrator/statuses.py:145-153 | A name is accepted exactly when it names a status the role may finish with, and then that status. |
| `JsonRoundTrip.LoadsDumps` | capability_gateway/authority.py:101-112 | Reading what was printed gives the value back, in both print styles. |
| `JsonRoundTrip.ParseDumped` | capability_gateway/authority.py:101-112 | A printed value is read back exactly also in the middle of a longer text. |
| `JsonRoundTrip.DumpsInjective` | capability_gateway/authority.py:101-112 | The sorted-key encoding is equal exactly for equal values, whatever order the keys came in. |
| `Text.SortedKeys` | capability_gateway/authority.py:235-242 | The keys of an object, each of them, strictly ascending by code point. |
| `Text.StripSplits` | capability_gateway/authority.py:245-248 | Stripping takes white space off both ends and nothing else. |
| `Authority.ApprovalIdentity` | capability_gateway/authority.py:35-48 | Two allowed invocations share a request id exactly when a grant for one matches the other, and exactly when run, tool and arguments are the same up to key order. |
| `Authority.MaterialDecodable` | capability_gateway/authority.py:36-47 | The NUL-joined material is equal exactly when all seven fields are, even if the branch holds NULs itself. |
| `Authority.CanonicalArgsInjective` | capability_gateway/authority.py:101-112 | The hashed text is equal exactly for the same tool and arguments. |
| `Authority.InvokeNulFree` | capability_gateway/authority.py:115-172 | The six fields around the branch hold no NUL, given that the run id, the configured repository and the digests do not. |
| `Authority.RunId` | capability_gateway/mcp_proxy.py:149-151 | A run id taken from the headers holds no NUL. |
| `Authority.BoundedHeader` | capability_gateway/mcp_proxy.py:312-320 | An accepted header value holds no NUL. |
| `Authority.DecideContext` | capability_gateway/authority.py:115-172 | The checks in the code's order, path by path, decide as specified. |
| `Authority.Paths` | capability_gateway/authority.py:205-217 | Lists every path the arguments name, the own one and each file's, exactly once. |
| `Authority.AnyProtected` | capability_gateway/authority.py:149-152 | Finds a protected path exactly when the arguments name one. |
| `Authority.ToolNamed` | capability_gateway/authority.py:51-85 | Finds a tool exactly for the names in the map. |
| `Authority.MutationsConfined` | capability_gateway/authority.py:134-152 | Every mutation let through is bound to an agent/ branch of the configured repository and names no protected path. |
| `Authority.BatchesNeverExecute` | capability_gateway/mcp_proxy.py:294-309 | Any body that reads as an array is refused exactly when one of its entries would call a tool, and otherwise only discovers. |
| `AuthorityLaws.AllowedExactly` | capability_gateway/authority.py:115-172 | An invocation is allowed, bound to a branch, if and only if its tool is in the map, its own owner and repo, stripped, name the configured repository, the branch is one its tool may work on, and, if the tool changes anything, no path it names is protected. |
| `AuthorityLaws.ForeignDenied` | capability_gateway/authority.py:126-131 | Whatever the tool, reading ones included, an owner or repo that is missing, empty or of another repository is denied, each with its own reason. |
| `AuthorityLaws.TargetsExactly` | capability_gateway/authority.py:133-160 | Which branch each tool may work on, read off its arguments: the agent's own prefix for everything that changes something, the default branch as a pull request's base. |
| `AuthorityLaws.TouchesExactly` | capability_gateway/authority.py:205-217 | A path is named exactly when the arguments or an object among their files give it, stripped and without leading slashes. |
| `AuthorityLaws.DropSlashesExactly` | capability_gateway/authority.py:205-217 | A path loses its leading slashes and nothing else. |
| `AuthorityLaws.WhatNeedsAHuman` | capability_gateway/authority.py:51-85 | The workflow trigger alone is HIGH, the other three that change something are MEDIUM, and every reading tool is LOW. |
| `AuthorityLaws.RuledByCapability` | capability_gateway/authority.py:51-85 | Each capability that changes something belongs to exactly one tool, so an override of it rules that tool and no other. |
| `AuthorityLaws.MessagesExactly` | capability_gateway/mcp_proxy.py:294-309 | A message executes exactly the tool and arguments a tools/call names, and discovers exactly when it is no tools/call. |
| `AuthorityLaws.BodiesExactly` | capability_gateway/mcp_proxy.py:294-309 | A body is taken for a message exactly when it reads as an object. |
| `AuthorityLaws.HeadersExactly` | capability_gateway/mcp_proxy.py:312-320 | A header is accepted exactly when it is not blank, not too long and free of control characters, and then stripped. |
| `Governance.GovernanceStore.RecordExecutionApproval` | capability_gateway/governance.py:248-285 | The upsert puts the invocation's row to PENDING, whatever it said before; nothing else changes. |
| `Governance.GovernanceStore.RecordPendingApproval` | capability_gateway/governance.py:213-246 | The same for a resolver request. |
| `Governance.GovernanceStore.AddToolException` | capability_gateway/governance.py:294-305 | Adds the exception and decides exactly the pending rows of that tool. |
| `Governance.GovernanceStore.SetCapabilityOverride` | capability_gateway/governance.py:311-326 | Sets the override and decides exactly the pending rows of that capability. |
| `Governance.GovernanceStore.GrantOnce` | capability_gateway/governance.py:332-371 | Makes one unspent human grant for exactly the pending row's invocation, with the clamped lifetime, or changes nothing. |
| `Governance.GovernanceStore.GrantOnceForIntent` | capability_gateway/governance.py:373-388 | Makes or resets one unconsumed allowance for a pending resolver request, or changes nothing. |
| `Governance.GovernanceStore.HasExecutionGrant` | capability_gateway/governance.py:390-409 | True exactly when an unspent, unexpired row matches the invocation. |
| `Governance.GovernanceStore.RecordAutoExecution` | capability_gateway/governance.py:441-464 | Adds one row that is born spent, or nothing when its id is taken. |
| `Governance.GovernanceStore.ConsumeOnceFor` | capability_gateway/governance.py:466-474 | Uses an unconsumed allowance of that request and tool up, if there is one. |
| `Governance.GovernanceStore.ConsumeExecutionGrant` | capability_gateway/governance.py:411-439 | Spends exactly one row that matches at the instant read before the lock, an oldest one, if and only if there is one; otherwise changes nothing. |
| `Permits.ProceedKeeps` | capability_gateway/mcp_proxy.py:119-216 | One atomic step of one call keeps this. |
| `Permits.Permit` | capability_gateway/mcp_proxy.py:119-216 | The sequential call always returns, and leaves the store as its atomic steps, run in a row, do; PermitLaws says what that is for each kind of call. |
| `Permits.RunKeeps` | capability_gateway/mcp_proxy.py:164-216 | Over every interleaving, the clock being read before the store's lock is taken: grant ids are unique, rows not made by a human are born spent, every permit is backed by its own spent row for its whole invocation and source, unexpired at the instant read if a human gave it, and every spent row backs a permit. |
| `PermitLaws.SnapshotLaw` | capability_gateway/mcp_proxy.py:145-176 | The step that takes the snapshot: a stop bars, discovery needs nothing, and otherwise the call goes to ask for a grant if and only if its tool is not excepted and its category, or the override of its capability, is over the ceiling; else its source is the exception, the override or automatic, each exactly in its case. |
| `PermitLaws.AskLaw` | capability_gateway/governance.py:390-409 | A call that asks goes on exactly when an unspent row for that agent, run, tool, capability, repository, branch and argument hash has time left; otherwise its request is recorded. |
| `PermitLaws.UncheckedLaw` | capability_gateway/mcp_proxy.py:145-163 | An undisturbed call under a stop is barred, and one for discovery passes on a token alone; neither writes anything. |
| `PermitLaws.AutomaticLaw` | capability_gateway/mcp_proxy.py:164-216 | An undisturbed call that needs no human mints and adds one spent row of its own under the right source, or fails and writes nothing. |
| `PermitLaws.HumanLaw` | capability_gateway/mcp_proxy.py:168-204 | An undisturbed call that needs a human: with no matching row its request becomes pending and it is barred; with one it spends an oldest matching row, that alone, after the token is there. |
| `PermitLaws.ApprovalLaw` | capability_gateway/governance.py:332-371 | An approval is given if and only if the request is pending, the tool is its own and the id is new; the grant is unspent and lives the requested seconds clamped to 10..900. |
| `PermitLaws.ExceptionLaw` | capability_gateway/governance.py:294-305 | An exception is in force from then on and decides exactly the pending requests of its tool. |
| `PermitLaws.OverrideLaw` | capability_gateway/governance.py:311-326 | An override replaces the one before it and decides exactly the pending requests of its capability. |
| `PermitLaws.EveryWarrantTraced` | capability_gateway/mcp_proxy.py:145-216 | Over every interleaving, every call let through, and every permit, has an earlier state, the one its snapshot was taken in, in which the stop was off and the rows of the store allowed exactly this source. |
| `PermitLaws.AutomaticPermits` | capability_gateway/mcp_proxy.py:164-176 | In particular each permit no human gave comes from a state without a stop in which it was discovery, or its tool was excepted, or its overridden or own category was within the ceiling. |
| `PermitRuns.RunLater` | capability_gateway/governance.py:411-464 | Over any run a spent row stays spent, nothing else about a row changes, and human rows are added by approvals alone. |
| `PermitRuns.RunConserves` | capability_gateway/mcp_proxy.py:194-216 | Human permits issued plus unspent human grants equal the approvals given, at every point of every interleaving: a failed mint spends nothing. |
| `PermitRuns.EmergencyStopWindow` | capability_gateway/mcp_proxy.py:119-123 | While the stop is on, permits returned and tokens minted are each at most the calls that had taken their snapshot and not returned when it was set. |
| `PermitRuns.LiveExcludesPending` | capability_gateway/governance.py:248-285 | While no approval of an invocation falls between a call's finding no grant and its recording the request, a live grant excludes a pending row, and a second live grant. |
| `PermitRuns.SerialisedIsTimely` | capability_gateway/mcp_proxy.py:168-175 | With calls serialised, no approval falls in that window. |
| `PermitRuns.HumanPermitsInject` | capability_gateway/governance.py:332-464 | Two permits a human gave stand on two different grant rows, each for exactly that invocation and unexpired at the instant the call read before spending it. |
| `PermitRuns.PromptIsUnexpired` | capability_gateway/governance.py:413-416 | A human permit's row is unexpired also when it is spent, as long as no second passes while a call waits between reading the clock and spending. |
| `PermitRuns.LateSpendReachable` | capability_gateway/governance.py:413-436 | Otherwise it need not be: a run in which a call reads the clock in time, waits, and spends its grant after the grant's end. |
| `PermitRuns.UntimelyApprovalDoubles` | capability_gateway/governance.py:272-276 | From any state, an approval inside the window lets the row be reset to PENDING beside the live grant and a second live grant be made. |
| `PermitRuns.WindowReachable` | capability_gateway/mcp_proxy.py:168-175 | Such a state is reached from the start by two requests for one invocation. |
| `PermitRuns.TwoLiveReachable` | capability_gateway/governance.py:341-371 | A run from the start with two live grants for one invocation. |
| `Resolver.DominatedHasStandIn` | capability_gateway/core.py:90-125 | Every dominated candidate has an undominated one in the list with lower score, no more privilege, and fit lower by at most the tolerance for each point of score. |
| `Resolver.SomeoneUndominated` | capability_gateway/core.py:103-125 | A nonempty list keeps an undominated member. |
| `Resolver.MarkLoop` | capability_gateway/core.py:103-125 | The marking loop flags exactly the candidates another tool's candidate dominates. |
| `Resolver.ResolveLoop` | capability_gateway/core.py:132-215 | The loops of the resolver, mark, split, sort and look the request up, give the specified resolution; ResolverLaws says which candidate that is. |
| `Resolver.ResolveSplits` | capability_gateway/core.py:154-215 | Without a stop visible and filtered are together a permutation of the marked input, visible is sorted by fit, score and id, and what is selected is visible. |
| `Resolver.VisibleMembers` | capability_gateway/core.py:162-176 | A candidate is visible exactly when it is eligible. |
| `Resolver.SelectedIsAllowed` | capability_gateway/core.py:162-206 | Nothing over the ceiling is selected without an exception or an allowance of its own, and nothing under a stop. |
| `Resolver.CriticalAlwaysSelects` | capability_gateway/core.py:154-206 | At ceiling CRITICAL without a stop a nonempty list always yields a selection. |
| `Resolver.CeilingMonotone` | capability_gateway/core.py:154-206 | Raising the ceiling only adds visible candidates and never introduces an approval request. |
| `Resolver.SecondPassSelectsRequested` | capability_gateway/core.py:184-206 | After an approval request, allowing that tool once selects exactly that tool. |
| `Resolver.OrderIrrelevant` | capability_gateway/core.py:178-206 | With one candidate a tool, selection, visible list and approval do not depend on the input order. |
| `Resolver.SortedOrdered` | capability_gateway/core.py:178-178 | Sorting yields the (-fit, score, id) order. |
| `Resolver.FlagsOnlyRaise` | capability_gateway/core.py:49-75 | More privilege flags never lower the score or its category, whatever the tool's own annotations say. |
| `ResolverLaws.SingleScores` | capability_gateway/core.py:41-75 | What each trait of a tool adds to its risk score on its own. |
| `ResolverLaws.ScoresAdd` | capability_gateway/core.py:41-75 | The score of two sets of traits together is the sum less what they share: every trait counts once. |
| `ResolverLaws.CategoryFloors` | capability_gateway/core.py:41-75 | The scores from which a category is reached, exactly. |
| `ResolverLaws.MarkedExactly` | capability_gateway/core.py:90-151 | A candidate is marked exactly when one of another tool is at most 0.08 less fit, strictly less risky, and has no privilege this one lacks. |
| `ResolverLaws.VisibleExactly` | capability_gateway/core.py:154-176 | Exactly those are shown that nobody beats and that are within the ceiling or excepted, and the requested tool when it is excepted or allowed once. |
| `ResolverLaws.VisibleRanked` | capability_gateway/core.py:154-178 | They are shown fittest first, then least risky, then by id. |
| `ResolverLaws.UnrequestedChoice` | capability_gateway/core.py:177-206 | Without a request for one of the candidates nothing is asked for, and the selection is one of those shown that nobody shown is ahead of; there is none exactly when nothing is shown. |
| `ResolverLaws.RequestedChoice` | capability_gateway/core.py:184-206 | With one, an approval is asked for if and only if it is over the ceiling and neither excepted nor allowed once; excepted or allowed once it is selected itself; otherwise the best shown is. |
| `ResolverLaws.StoppedChoice` | capability_gateway/core.py:132-156 | Under a stop nothing is shown, selected or asked for. |
| `OneShot.ResolveIntent` | capability_gateway/service.py:79-137 | The undisturbed request always answers, and leaves the store as its three atomic steps do. |
| `OneShot.OneShotAccounting` | capability_gateway/service.py:89-137 | Over every interleaving, for each request id: selections of an over-ceiling tool no exception covers, plus the allowance still standing, never exceed the approvals given. |
| `OneShot.StepAccounts` | capability_gateway/service.py:89-137 | No step gains such a selection without using an allowance up. |
| `OneShotLaws.OverCeilingExactly` | capability_gateway/service.py:89-137 | An undisturbed request for a tool over the ceiling that no exception covers: with a standing allowance of that intent and tool it is selected and that allowance alone consumed; without one nothing is selected and the request is pending under the tool's capability. |
| `OneShotLaws.OtherwiseExactly` | capability_gateway/service.py:89-137 | Every other undisturbed request leaves the store alone: nothing under a stop, the requested tool when excepted, else the best of those shown. |
| `OneShotLaws.AllowanceExactly` | capability_gateway/governance.py:332-381 | An allowance is given if and only if the request is pending and the tool its own, and stands from then on. |
| `OneShotLaws.DecidedExactly` | capability_gateway/governance.py:294-326 | An exception decides exactly the pending resolver requests of its tool, an override those of its capability. |
| `Expiry.LifetimeBounds` | capability_gateway/governance.py:340-349 | For every requested lifetime, clamped to 10..900 seconds, a grant is seen live up to one second before its end and never from its end on. |
| `Expiry.LiveExactly` | capability_gateway/governance.py:391-432 | With both instants truncated, a grant is seen live exactly until the whole second of its making plus its lifetime. |
| `Expiry.StampOrder` | capability_gateway/governance.py:485-486 | Comparing two stored timestamps as strings compares the instants, for all dates of years 0 to 9999. |
| `Expiry.CalendarOrder` | capability_gateway/governance.py:485-486 | Comparing the calendar fields in order compares the seconds they stand for, leap years included. |
| `TokenCache.ReuseAgreesWithMinting` | capability_gateway/github_app.py:84-145 | Over every interleaving of requests and answers: a reused token came from a request for exactly that repository and those permissions, and is reused only before its expiry less 60 s and before that request's time plus the cache seconds, at most 900. |
| `TokenCache.KeysCoincide` | capability_gateway/github_app.py:89-89 | Cache keys are equal exactly when repository and normalised permissions are. |
| `TokenCache.NormalizePermissions` | capability_gateway/github_app.py:182-194 | Lower-cases every level, or refuses an empty map, an empty name or another level. |
| `TokenCache.TokenBroker.Mint` | capability_gateway/github_app.py:84-145 | Returns a cached token while it may be reused, else the provider's, and stores that only if it may be reused at all; a failure caches nothing. |
| `CacheLaws.PermissionsExactly` | capability_gateway/github_app.py:182-194 | Permissions are accepted exactly when there is one, each is named, and each level spells read or write in some case, and then stand for that level. |
| `CacheLaws.RepositoryExactly` | capability_gateway/github_app.py:84-87 | A repository is accepted exactly when it is an owner and a name, neither empty, with the one slash between them. |
| `CacheLaws.AnsweredThenAsked` | capability_gateway/github_app.py:84-145 | Asked again, a token just answered is handed out exactly while the clock is below both its expiry less a minute and its request's time plus the cache seconds. |
| `CacheLaws.AnswerElsewhere` | capability_gateway/github_app.py:84-145 | An answer changes nothing for any other repository or set of permissions. |

## Left out

- JsonRoundTrip.LoadsDumps: a number is kept as its spelling, so two spellings of one number are two values; the round trip is for values whose numbers are spelled as the reader accepts them. Arbitrarily deep nesting and the size limit on integers are not modelled.
- Authority.ApprovalIdentity: arguments are JSON values; the conversion of other Python values by `str` is not modelled. The digests are parameters assumed injective, the truncated request id included, and the configured repository is assumed to hold no NUL.
- Authority.MutationsConfined: which paths the patterns protect is a parameter; pattern matching is library code.
- Ticks.Reachable: the history starts from an empty database; schema migration is not modelled. The maximum number of attempts is the same throughout. A tick reads the clock once.
- Ticks.RunsBounded: a command list is finite and a run id the store has already is refused, as the UNIQUE index does.
- Reconciler.ReconcileConserves: the counters of repairs (repaired_output, repair_failed, model_repair_attempted), error texts, raw payloads and the artifact hook, which may raise, are not part of the model. Active runs come in the order they were inserted, which is their order by start time while the clock does not run back.
- Reconciler.Judge: a run's age is compared in whole seconds, where the code keeps the fraction of the second, so the model may see a run time out up to a second later.
- Reconciler.Find: the status word and the two error classes are inputs; the searches in error texts that give them are not modelled.
- FinalResponses.DeterministicRepair: diagnostics are kept as what they report, not as their text; a lone surrogate escape reads as U+FFFD.
- LabelRouting.SingleToken: labels are changed, not only commented on; commands of different containers do not overlap, and one provider call changes the labels whole or not at all; the issue is not edited by others meanwhile, and no role is found by assignee. Comments and their markers are not modelled.
- Permits.Permit: authentication, header and body checks come before the steps modelled here and touch no state; of a permit the model keeps its source and grant row. Forwarding to the upstream server is not modelled.
- PermitRuns.EmergencyStopWindow: a token counts when the broker returns it, freshly minted or reused.
- Governance.GovernanceStore.GrantOnce: request ids are identified with what they are made from; the two kinds of request cannot coincide, so the method is given twice, once for each. The length and control-character checks on identifiers and the texts of requests are not modelled.
- OneShot.ResolveIntent: the model judge, catalogs and the parsing of tools give the ranked candidates, which are inputs.
- Resolver.ResolveLoop: fit is a real number; the text of a dominance reason, which does depend on the input order, is not modelled.
- Expiry.Stamp: years are padded to four digits, which the platform's `%Y` need not do below the year 1000.
- TokenCache.TokenBroker.Mint: signing, the request itself and the permissions the provider returns are not modelled.
- SQLite itself, locks, HTTP handlers, the GitLab provider, the OpenHands runner, the dashboard, the status server and the intent plugin: plumbing, or branching that would add only easy members.
