/** `db.py`: the tables held by a connection, and the statements that read and write them. */
module Stores {
  import opened Statuses
  import opened Database
  import opened Ticks
  import opened Spacing

  /** Somebody of a non-empty group is not after anyone in it. */
  lemma {:induction false} SomeoneFirst(m: map<string, Assignment>, keys: set<string>)
    requires keys != {} && keys <= m.Keys
    ensures exists k :: k in keys && forall o :: o in keys ==> NotAfter(m[k], m[o])
  {
    var c :| c in keys;
    var rest := keys - {c};
    assert forall o :: o in keys ==> o == c || o in rest;
    if rest != {} {
      SomeoneFirst(m, rest);
      var k :| k in rest && forall o :: o in rest ==> NotAfter(m[k], m[o]);
      var first := if NotAfter(m[c], m[k]) then c else k;
      assert forall o :: o in keys ==> NotAfter(m[first], m[o]);
    }
  }

  /** The due rows split into those listed, in order, and those still left, none of them earlier. */
  ghost predicate Queued(db: Db, role: Role, now: int, keys: seq<string>, left: set<string>) {
    && Distinct(keys) && AllDue(db, role, now, keys)
    && (forall k :: k in left <==> Due(db, k, role, now) && k !in keys)
    && (forall i, j :: 0 <= i < j < |keys| ==> NotAfter(db.assignments[keys[i]], db.assignments[keys[j]]))
    && (forall i, k :: 0 <= i < |keys| && k in left ==> NotAfter(db.assignments[keys[i]], db.assignments[k]))
  }

  lemma NextQueued(db: Db, role: Role, now: int, keys: seq<string>, left: set<string>, k: string)
    requires Queued(db, role, now, keys, left) && k in left
    requires forall o :: o in left ==> NotAfter(db.assignments[k], db.assignments[o])
    ensures Queued(db, role, now, keys + [k], left - {k})
  {
    hide NotAfter;
    assert Due(db, k, role, now);
    hide Due;
  }

  /** A negative limit is none. */
  predicate Full(limit: Option<int>, n: nat) { limit.Some? && limit.value >= 0 && n >= limit.value }

  /** Rows of the set, each once, up to the limit; one is left out only for want of room, by rows updated no later. */
  ghost predicate IsOldest(m: map<string, Assignment>, all: set<string>, limit: Option<int>, keys: seq<string>) {
    && Distinct(keys) && (forall i :: 0 <= i < |keys| ==> keys[i] in all && keys[i] in m)
    && (limit.Some? && limit.value >= 0 ==> |keys| <= limit.value)
    && forall k :: k in all && k !in keys ==>
         && Full(limit, |keys|) && k in m
         && forall i :: 0 <= i < |keys| ==> m[keys[i]].updatedAt <= m[k].updatedAt
  }

  ghost predicate Listed(m: map<string, Assignment>, all: set<string>, keys: seq<string>, left: set<string>) {
    && Distinct(keys) && all <= m.Keys && (forall i :: 0 <= i < |keys| ==> keys[i] in all)
    && (forall k :: k in left <==> k in all && k !in keys)
    && forall i, k :: 0 <= i < |keys| && k in left ==> m[keys[i]].updatedAt <= m[k].updatedAt
  }

  lemma NextListed(m: map<string, Assignment>, all: set<string>, keys: seq<string>, left: set<string>, k: string)
    requires Listed(m, all, keys, left) && k in left && forall o :: o in left ==> m[k].updatedAt <= m[o].updatedAt
    ensures Listed(m, all, keys + [k], left - {k})
  {}

  class Store {
    var items: map<ItemId, WorkItem>
    var assignments: map<string, Assignment>
    var runs: seq<Run>
    var transitions: seq<Transition>

    function State(): Db reads this { Db(items, assignments, runs, transitions) }

    constructor ()
      ensures State() == EMPTY
    {
      items, assignments, runs, transitions := map[], map[], [], [];
    }

    /** The rollback of a transaction that raised. */
    method Restore(db: Db)
      modifies this
      ensures State() == db
    {
      items, assignments, runs, transitions := db.items, db.assignments, db.runs, db.transitions;
    }

    method UpsertWorkItem(item: WorkItem)
      modifies this
      ensures State() == UpsertItem(old(State()), item)
    {
      var id := IdOf(item);
      if id in items {
        items := items[id := item.(kind := items[id].kind)];
      } else {
        items := items[id := item];
      }
    }

    method EnsureAssignment(key: string, itemId: ItemId, role: Role, now: int) returns (created: bool)
      modifies this
      ensures State() == Database.EnsureAssignment(old(State()), key, itemId, role, now)
      ensures created == (key !in old(assignments))
    {
      created := key !in assignments;
      if created {
        assignments := assignments[key := Assignment(itemId, role, Pending, 0, None, now, now, 0)];
      }
    }

    method PendingAssignments(role: Role, limit: nat, now: int) returns (keys: seq<string>)
      ensures IsSelection(State(), role, limit, now, keys)
      ensures Chosen(State(), role, limit, now, keys)
    {
      keys := [];
      var db := State();
      var left := set k | k in assignments && Due(db, k, role, now);
      while |keys| < limit && left != {}
        invariant |keys| <= limit && Queued(db, role, now, keys, left)
      {
        SomeoneFirst(db.assignments, left);
        var k :| k in left && forall o :: o in left ==> NotAfter(db.assignments[k], db.assignments[o]);
        NextQueued(db, role, now, keys, left, k);
        hide Queued, NotAfter;
        keys, left := keys + [k], left - {k};
      }
      SelectionExactly(db, role, limit, now, keys);
      hide Chosen;
    }

    method MarkAssignmentStarted(key: string, runId: string, now: int) returns (ok: bool)
      modifies this
      ensures ok == MarkStarted(old(State()), key, runId, now).Some?
      ensures State() == if ok then MarkStarted(old(State()), key, runId, now).value else old(State())
    {
      if HasActiveRun(runs, key) || key !in assignments || exists r :: r in runs && r.hermesRunId == runId {
        return false;
      }
      var n := assignments[key].attemptCount + 1;
      assignments := assignments[key := assignments[key].(status := Started, attemptCount := n, nextRetryAt := None, updatedAt := now)];
      runs := runs + [Run(key, runId, Active, n, now, None)];
      ok := true;
    }

    method MarkRunFinished(key: string, runStatus: RunStatus, status: AssignmentStatus, retryAt: Option<int>, now: int)
      modifies this
      ensures State() == MarkFinished(old(State()), key, runStatus, status, retryAt, now)
    {
      runs := FinishRuns(runs, key, runStatus, now);
      if key in assignments {
        assignments := assignments[key := assignments[key].(status := status, nextRetryAt := retryAt, updatedAt := now)];
      }
    }

    method RecordTransition(t: Transition)
      modifies this
      ensures State() == AddTransition(old(State()), t)
    {
      transitions := transitions + [t];
    }

    /** What the requeue query matches before its limit. */
    function Matching(role: Role, statuses: set<AssignmentStatus>, only: Option<string>): set<string>
      reads this
    {
      set k | k in assignments && assignments[k].role == role && assignments[k].status in statuses
              && (only.None? || k == only.value)
    }

    /** `matching_requeue_assignments`: the rows last updated longest ago come first. */
    method MatchingRequeueAssignments(role: Role, statuses: set<AssignmentStatus>, only: Option<string>, limit: Option<int>)
      returns (keys: seq<string>)
      ensures IsOldest(assignments, Matching(role, statuses, only), limit, keys)
    {
      keys := [];
      var all := Matching(role, statuses, only);
      var left := all;
      while !Full(limit, |keys|) && left != {}
        invariant Listed(assignments, all, keys, left) && (limit.Some? && limit.value >= 0 ==> |keys| <= limit.value)
        decreases left
      {
        OldestExists(assignments, left);
        var k :| k in left && forall o :: o in left ==> assignments[k].updatedAt <= assignments[o].updatedAt;
        NextListed(assignments, all, keys, left, k);
        hide Listed;
        keys, left := keys + [k], left - {k};
      }
    }

    /** `requeue_assignments`: exactly the matched rows go back to PENDING. */
    method RequeueAssignments(role: Role, statuses: set<AssignmentStatus>, only: Option<string>, limit: Option<int>, now: int)
      returns (keys: seq<string>)
      modifies this
      ensures IsOldest(old(assignments), old(Matching(role, statuses, only)), limit, keys)
      ensures State() == Requeue(old(State()), KeySet(keys), now)
    {
      keys := MatchingRequeueAssignments(role, statuses, only, limit);
      ghost var before := State();
      var i := 0;
      while i < |keys|
        invariant i <= |keys| && State() == Requeue(before, KeySet(keys[..i]), now)
      {
        RequeueOne(before, keys, i, now);
        assignments := assignments[keys[i] := Requeued(assignments[keys[i]], now)];
        i := i + 1;
      }
      assert keys[..|keys|] == keys;
    }
  }

  lemma RequeueOne(before: Db, keys: seq<string>, i: nat, now: int)
    requires i < |keys| && Distinct(keys) && keys[i] in before.assignments
    ensures var d := Requeue(before, KeySet(keys[..i]), now);
      && keys[i] in d.assignments && d.assignments[keys[i]] == before.assignments[keys[i]]
      && Requeue(before, KeySet(keys[..i + 1]), now)
         == d.(assignments := d.assignments[keys[i] := Requeued(before.assignments[keys[i]], now)])
  {
    assert keys[i] !in keys[..i];
    assert keys[..i + 1] == keys[..i] + [keys[i]];
    var d := Requeue(before, KeySet(keys[..i]), now);
    assert Requeue(before, KeySet(keys[..i + 1]), now).assignments
        == d.assignments[keys[i] := Requeued(before.assignments[keys[i]], now)];
  }

  lemma {:induction false} OldestExists(m: map<string, Assignment>, keys: set<string>)
    requires keys != {} && keys <= m.Keys
    ensures exists k :: k in keys && forall o :: o in keys ==> m[k].updatedAt <= m[o].updatedAt
  {
    var c :| c in keys;
    var rest := keys - {c};
    assert forall o :: o in keys ==> o == c || o in rest;
    if rest != {} {
      OldestExists(m, rest);
      var k :| k in rest && forall o :: o in rest ==> m[k].updatedAt <= m[o].updatedAt;
      var first := if m[c].updatedAt <= m[k].updatedAt then c else k;
      assert forall o :: o in keys ==> m[first].updatedAt <= m[o].updatedAt;
    }
  }
}
