/** The writes of the orchestrator's tables, column by column. */
module TableLaws {
  import opened Statuses
  import opened Database
  import opened Reconciler
  import opened Ticks
  import opened Stores

  /** An item is stored as it comes; only its kind, once stored, is never changed. Every other item is kept. */
  lemma UpsertExactly(db: Db, item: WorkItem, id: ItemId)
    ensures var next := UpsertItem(db, item);
      && next.assignments == db.assignments && next.runs == db.runs && next.transitions == db.transitions
      && (id in next.items <==> id in db.items || id == IdOf(item))
      && (id == IdOf(item) && id !in db.items ==> next.items[id] == item)
      && (id == IdOf(item) && id in db.items ==> next.items[id] == item.(kind := db.items[id].kind))
      && (id in db.items && id != IdOf(item) ==> next.items[id] == db.items[id])
  {}

  /** A run starts for a known assignment without an active one, under a run id nobody has, as its next attempt. */
  lemma StartExactly(db: Db, key: string, runId: string, now: int)
    ensures var r := MarkStarted(db, key, runId, now);
      && (r.Some? <==>
            && key in db.assignments
            && (forall i :: 0 <= i < |db.runs| ==> db.runs[i].hermesRunId != runId)
            && (forall i :: 0 <= i < |db.runs| && db.runs[i].assignmentKey == key ==> db.runs[i].status != Active))
      && (r.Some? ==>
            var a, b := db.assignments[key], r.value.assignments[key];
            && r.value.assignments == db.assignments[key := b]
            && b.status == Started && b.attemptCount == a.attemptCount + 1 && b.nextRetryAt == None && b.updatedAt == now
            && b.role == a.role && b.itemId == a.itemId && b.createdAt == a.createdAt && b.operatorRequeues == a.operatorRequeues
            && r.value.runs == db.runs + [Run(key, runId, Active, b.attemptCount, now, None)]
            && r.value.items == db.items && r.value.transitions == db.transitions)
  {
    if forall i :: 0 <= i < |db.runs| ==> db.runs[i].hermesRunId != runId {
      assert forall r :: r in db.runs ==> r.hermesRunId != runId;
    }
    if exists r :: r in db.runs && r.hermesRunId == runId {
      var r :| r in db.runs && r.hermesRunId == runId;
      var i :| 0 <= i < |db.runs| && db.runs[i] == r;
    }
  }

  /** Finishing ends the assignment's active runs, dates them, and leaves every other run and assignment as it was. */
  lemma FinishExactly(db: Db, key: string, runStatus: RunStatus, status: AssignmentStatus, retryAt: Option<int>, now: int)
    ensures var next := MarkFinished(db, key, runStatus, status, retryAt, now);
      && next.items == db.items && next.transitions == db.transitions
      && |next.runs| == |db.runs|
      && (forall i :: 0 <= i < |db.runs| ==>
            var was, r := db.runs[i], next.runs[i];
            && r.assignmentKey == was.assignmentKey && r.hermesRunId == was.hermesRunId
            && r.attemptNumber == was.attemptNumber && r.startedAt == was.startedAt
            && (was.assignmentKey == key && was.status == Active ==> r.status == runStatus && r.completedAt == Some(now))
            && (was.assignmentKey != key || was.status != Active ==> r == was))
      && (key !in db.assignments ==> next.assignments == db.assignments)
      && (key in db.assignments ==>
            var a, b := db.assignments[key], next.assignments[key];
            && next.assignments == db.assignments[key := b]
            && b.status == status && b.nextRetryAt == retryAt && b.updatedAt == now
            && b.role == a.role && b.itemId == a.itemId && b.createdAt == a.createdAt
            && b.attemptCount == a.attemptCount && b.operatorRequeues == a.operatorRequeues)
  {}

  /** A requeued assignment is pending at once and keeps its attempts; all the rest stays. */
  lemma RequeueExactly(db: Db, keys: set<string>, now: int)
    ensures var next := Requeue(db, keys, now);
      && next.items == db.items && next.runs == db.runs && next.transitions == db.transitions
      && next.assignments.Keys == db.assignments.Keys
      && forall key :: key in db.assignments ==>
           var a, b := db.assignments[key], next.assignments[key];
           && (key !in keys ==> b == a)
           && (key in keys ==>
                && b.status == Pending && b.nextRetryAt == None && b.updatedAt == now
                && b.role == a.role && b.itemId == a.itemId && b.createdAt == a.createdAt
                && b.attemptCount == a.attemptCount && b.operatorRequeues == a.operatorRequeues + 1)
  {}

  // ----- keys ----------------------------------------------------------------------------

  predicate NoColon(s: string) { forall i :: 0 <= i < |s| ==> s[i] != ':' }

  lemma FirstColon(a: string, b: string, c: string, d: string)
    requires NoColon(a) && NoColon(c) && a + ":" + b == c + ":" + d
    ensures a == c && b == d
  {
    var s, t := a + ":" + b, c + ":" + d;
    assert s[|a|] == ':' && t[|c|] == ':';
    assert forall i :: 0 <= i < |a| ==> s[i] != ':';
    assert forall i :: 0 <= i < |c| ==> t[i] != ':';
    assert |a| == |c|;
    assert s[..|a|] == a && t[..|c|] == c && s[|a| + 1..] == b && t[|c| + 1..] == d;
  }

  lemma RoleNamesDistinct(p: Role, q: Role)
    ensures RoleName(p) == RoleName(q) <==> p == q
    ensures NoColon(RoleName(p))
  {}

  predicate Plain(item: WorkItem) {
    NoColon(item.provider) && NoColon(item.repositoryId) && NoColon(item.kind) && NoColon(item.externalId)
  }

  lemma KeyParts(item: WorkItem, role: Role)
    ensures AssignmentKey(item, role)
      == item.provider + ":" + (item.repositoryId + ":" + (item.kind + ":" + (item.externalId + ":"
         + (RoleName(role) + ":" + ("v2" + ":" + item.revision)))))
  {
    hide RoleName;
  }

  /** Two assignment keys are equal exactly when they are for the same item, revision and role. */
  lemma KeysExactly(a: WorkItem, p: Role, b: WorkItem, q: Role)
    requires Plain(a) && Plain(b)
    ensures AssignmentKey(a, p) == AssignmentKey(b, q) <==>
      IdOf(a) == IdOf(b) && a.kind == b.kind && a.revision == b.revision && p == q
  {
    hide AssignmentKey, RoleName, NoColon;
    KeyParts(a, p);
    KeyParts(b, q);
    RoleNamesDistinct(p, q);
    RoleNamesDistinct(q, p);
    if AssignmentKey(a, p) == AssignmentKey(b, q) {
      var a5, b5 := "v2" + ":" + a.revision, "v2" + ":" + b.revision;
      var a4, b4 := RoleName(p) + ":" + a5, RoleName(q) + ":" + b5;
      var a3, b3 := a.externalId + ":" + a4, b.externalId + ":" + b4;
      var a2, b2 := a.kind + ":" + a3, b.kind + ":" + b3;
      var a1, b1 := a.repositoryId + ":" + a2, b.repositoryId + ":" + b2;
      FirstColon(a.provider, a1, b.provider, b1);
      FirstColon(a.repositoryId, a2, b.repositoryId, b2);
      FirstColon(a.kind, a3, b.kind, b3);
      FirstColon(a.externalId, a4, b.externalId, b4);
      FirstColon(RoleName(p), a5, RoleName(q), b5);
      PlainVersion();
      FirstColon("v2", a.revision, "v2", b.revision);
    }
  }

  lemma PlainVersion()
    ensures NoColon("v2")
  {}

  // ----- which rows a requeue takes ------------------------------------------------------

  /** Of the role, of one of the statuses, and the one asked for if one is. */
  predicate Wanted(m: map<string, Assignment>, k: string, role: Role, statuses: set<AssignmentStatus>, only: Option<string>) {
    k in m && m[k].role == role && m[k].status in statuses && (only.Some? ==> k == only.value)
  }

  /** Among the wanted rows, those last updated longest ago: all of them when no limit or a negative one is given. */
  ghost predicate Taken(m: map<string, Assignment>, role: Role, statuses: set<AssignmentStatus>, only: Option<string>,
                        limit: Option<int>, rows: seq<string>) {
    && (forall i, j :: 0 <= i < j < |rows| ==> rows[i] != rows[j])
    && (forall k :: k in rows ==> Wanted(m, k, role, statuses, only))
    && (limit.Some? && limit.value >= 0 ==> |rows| <= limit.value)
    && forall k :: Wanted(m, k, role, statuses, only) && k !in rows ==>
         && limit.Some? && 0 <= limit.value == |rows|
         && forall r :: r in rows ==> m[r].updatedAt <= m[k].updatedAt
  }

  /** A requeue takes exactly such rows. */
  lemma RequeueTakes(store: Store, role: Role, statuses: set<AssignmentStatus>, only: Option<string>, limit: Option<int>, rows: seq<string>)
    requires IsOldest(store.assignments, store.Matching(role, statuses, only), limit, rows)
    ensures Taken(store.assignments, role, statuses, only, limit, rows)
  {
    forall k ensures k in store.Matching(role, statuses, only) <==> Wanted(store.assignments, k, role, statuses, only) {}
    hide Wanted;
  }
}
