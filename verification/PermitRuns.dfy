/** What holds over every run of the permit protocol. */
module PermitRuns {
  import opened Statuses
  import opened Authority
  import opened Governance
  import opened Permits

  // ----- one row, one permit -------------------------------------------------------------

  predicate IsHumanPermit(call: Call) { call.pc.Permitted? && call.pc.warrant == On(Human) }

  /**
   In every run, two permits a human gave stand on two different rows, and each row is the human's, for
   exactly that invocation, spent, and was unexpired when it was spent.
   */
  lemma HumanPermitsInject(now: int, acts: seq<Act>, maxAuto: Category, c: nat, d: nat) returns (i: nat, j: nat)
    requires var s := Run(Initial(now), acts, maxAuto);
      c < d < |s.calls| && IsHumanPermit(s.calls[c]) && IsHumanPermit(s.calls[d])
    ensures var s := Run(Initial(now), acts, maxAuto);
      && i < |s.gov.grants| && j < |s.gov.grants| && i != j
      && Backs(s.gov.grants[i], s.calls[c]) && Backs(s.gov.grants[j], s.calls[d])
  {
    var s := Run(Initial(now), acts, maxAuto);
    RunKeeps(now, acts, maxAuto);
    hide Run;
    i :| 0 <= i < |s.gov.grants| && Backs(s.gov.grants[i], s.calls[c]);
    j :| 0 <= j < |s.gov.grants| && Backs(s.gov.grants[j], s.calls[d]);
  }

  /** A row later: spent rows stay spent, and nothing else about a row ever changes. */
  predicate LaterRow(r: Grant, q: Grant) {
    && q.id == r.id && q.source == r.source && q.key == r.key && q.createdAt == r.createdAt && q.expiresAt == r.expiresAt
    && (r.consumed ==> q == r)
  }

  ghost predicate Later(before: seq<Grant>, after: seq<Grant>) {
    |before| <= |after| && forall i :: 0 <= i < |before| ==> LaterRow(before[i], after[i])
  }

  lemma AdvanceLater(g: Gov, call: Call, w: World, maxAuto: Category)
    ensures var next := Advance(g, call, w, maxAuto).gov.grants;
      Later(g.grants, next) && forall i :: |g.grants| <= i < |next| ==> next[i].source != Human
  {
    if !AtRow(call.pc) && !Returned(call.pc) {
      NotYetOnRow(g, call, w, maxAuto);
      hide Advance;
    }
    hide Decide, HasGrant;
  }

  lemma DoLater(s: System, act: Act, maxAuto: Category)
    ensures Later(s.gov.grants, Do(s, act, maxAuto).gov.grants)
    ensures !act.GrantOnce? ==> forall i :: |s.gov.grants| <= i < |Do(s, act, maxAuto).gov.grants| ==>
      Do(s, act, maxAuto).gov.grants[i].source != Human
  {
    if act.Proceed? && act.c < |s.calls| {
      AdvanceLater(s.gov, s.calls[act.c], World(s.now, act.mintOk, act.id, act.pick), maxAuto);
      hide Advance;
    }
  }

  /** Consumption never reverts, and human rows are made by approvals alone. */
  lemma {:induction false} RunLater(s: System, acts: seq<Act>, maxAuto: Category)
    ensures Later(s.gov.grants, Run(s, acts, maxAuto).gov.grants)
    ensures (forall k :: 0 <= k < |acts| ==> !acts[k].GrantOnce?) ==>
      forall i :: |s.gov.grants| <= i < |Run(s, acts, maxAuto).gov.grants| ==> Run(s, acts, maxAuto).gov.grants[i].source != Human
  {
    if acts != [] {
      var init := acts[..|acts| - 1];
      RunLater(s, init, maxAuto);
      DoLater(Run(s, init, maxAuto), acts[|acts| - 1], maxAuto);
      hide Do;
    }
  }

  // ----- conservation --------------------------------------------------------------------

  function HumanPermits(calls: seq<Call>): nat {
    if calls == [] then 0 else HumanPermits(calls[..|calls| - 1]) + if IsHumanPermit(calls[|calls| - 1]) then 1 else 0
  }

  predicate Unspent(r: Grant) { r.source == Human && !r.consumed }

  function UnspentRows(grants: seq<Grant>): nat {
    if grants == [] then 0 else UnspentRows(grants[..|grants| - 1]) + if Unspent(grants[|grants| - 1]) then 1 else 0
  }

  lemma {:induction false} PermitsAfter(calls: seq<Call>, c: nat, next: Call)
    requires c < |calls|
    ensures HumanPermits(calls[c := next])
      == HumanPermits(calls) + (if IsHumanPermit(next) then 1 else 0) - if IsHumanPermit(calls[c]) then 1 else 0
  {
    var n := |calls| - 1;
    if c == n {
      assert calls[c := next][..n] == calls[..n];
    } else {
      PermitsAfter(calls[..n], c, next);
      assert calls[c := next][..n] == calls[..n][c := next];
    }
  }

  lemma {:induction false} UnspentAfter(grants: seq<Grant>, i: nat, r: Grant)
    requires i < |grants|
    ensures UnspentRows(grants[i := r])
      == UnspentRows(grants) + (if Unspent(r) then 1 else 0) - if Unspent(grants[i]) then 1 else 0
  {
    var n := |grants| - 1;
    if i == n {
      assert grants[i := r][..n] == grants[..n];
    } else {
      UnspentAfter(grants[..n], i, r);
      assert grants[i := r][..n] == grants[..n][i := r];
    }
  }

  lemma OneMorePermit(calls: seq<Call>, call: Call)
    ensures HumanPermits(calls + [call]) == HumanPermits(calls) + if IsHumanPermit(call) then 1 else 0
  {
    assert (calls + [call])[..|calls|] == calls;
  }

  lemma OneMoreRow(grants: seq<Grant>, r: Grant)
    ensures UnspentRows(grants + [r]) == UnspentRows(grants) + if Unspent(r) then 1 else 0
  {
    assert (grants + [r])[..|grants|] == grants;
  }

  /** Approvals are either unspent rows or permits; a failed mint spends nothing. */
  ghost predicate Conserved(s: System) { HumanPermits(s.calls) + UnspentRows(s.gov.grants) == s.counted }

  lemma ConsumeSpends(g: Gov, i: nat, at: int, now: int)
    requires i < |g.grants| && Unspent(g.grants[i])
    ensures UnspentRows(Consume(g, i, at, now).grants) == UnspentRows(g.grants) - 1
  {
    UnspentAfter(g.grants, i, g.grants[i].(consumed := true, checkedAt := at, spentAt := now));
  }

  lemma RecordSpends(g: Gov, key: Key, source: Source, id: string, now: int)
    requires source != Human && RecordAuto(g, key, source, id, now).Some?
    ensures UnspentRows(RecordAuto(g, key, source, id, now).value.grants) == UnspentRows(g.grants)
  {
    OneMoreRow(g.grants, Grant(id, source, key, now, now + 60, true, now, now));
  }

  lemma SpendsOne(g: Gov, call: Call, w: World, maxAuto: Category)
    requires AtRow(call.pc) && BornSpent(g.grants)
    ensures var next := Advance(g, call, w, maxAuto);
      UnspentRows(g.grants) - UnspentRows(next.gov.grants) == if IsHumanPermit(next.call) then 1 else 0
  {
    hide UnspentRows, HasGrant;
    if call.pc.Spending? {
      if IsEarliest(g, call.key, call.pc.at, w.pick) {
        assert Unspent(g.grants[w.pick]);
        hide BornSpent, IsEarliest;
        ConsumeSpends(g, w.pick, call.pc.at, w.now);
        hide Consume;
      }
    } else if call.pc.source != Human && RecordAuto(g, call.key, call.pc.source, w.id, w.now).Some? {
      hide BornSpent, RecordAuto;
      RecordSpends(g, call.key, call.pc.source, w.id, w.now);
    }
  }

  lemma AdvanceConserves(g: Gov, call: Call, w: World, maxAuto: Category)
    requires BornSpent(g.grants)
    ensures var next := Advance(g, call, w, maxAuto);
      UnspentRows(g.grants) - UnspentRows(next.gov.grants)
      == (if IsHumanPermit(next.call) then 1 else 0) - (if IsHumanPermit(call) then 1 else 0)
  {
    if AtRow(call.pc) {
      SpendsOne(g, call, w, maxAuto);
      hide Advance, UnspentRows;
    } else if Returned(call.pc) {
      hide UnspentRows;
    } else {
      NotYetOnRow(g, call, w, maxAuto);
      hide Advance, UnspentRows;
    }
  }

  lemma DoConserves(s: System, act: Act, maxAuto: Category)
    requires BornSpent(s.gov.grants) && Conserved(s)
    ensures Conserved(Do(s, act, maxAuto))
  {
    hide HumanPermits, UnspentRows;
    match act
    case Proceed(c, mintOk, id, pick) =>
      if c < |s.calls| {
        var w := World(s.now, mintOk, id, pick);
        AdvanceConserves(s.gov, s.calls[c], w, maxAuto);
        PermitsAfter(s.calls, c, Advance(s.gov, s.calls[c], w, maxAuto).call);
        hide Advance;
      }
    case GrantOnce(key, toolId, ttl, id) =>
      OneMoreRow(s.gov.grants, Grant(id, Human, key, s.now, s.now + Ttl(ttl), false, 0, 0));
    case Arrive(key, category, discovery) => OneMorePermit(s.calls, NewCall(key, category, discovery));
    case _ =>
  }

  /** Over every interleaving: human permits issued, plus approvals still unspent, are the approvals given. */
  lemma {:induction false} RunConserves(now: int, acts: seq<Act>, maxAuto: Category)
    ensures Conserved(Run(Initial(now), acts, maxAuto))
  {
    if acts != [] {
      var init := acts[..|acts| - 1];
      RunConserves(now, init, maxAuto);
      RunKeeps(now, init, maxAuto);
      DoConserves(Run(Initial(now), init, maxAuto), acts[|acts| - 1], maxAuto);
      hide Do, Conserved;
    }
  }

  // ----- the emergency stop --------------------------------------------------------------

  /** Past its snapshot and not yet back. */
  predicate InFlight(call: Call) { !call.pc.Begun? && !Returned(call.pc) }

  predicate HasPermit(call: Call) { call.pc.Permitted? }

  /** What may have become, under the stop, of a call that was not in flight when it was set. */
  predicate Halted(before: Call, after: Call) {
    if before.pc.Begun? then after.minted == before.minted && (after.pc.Begun? || after.pc.Barred?) else after == before
  }

  ghost predicate Stopped(start: System, s: System) {
    && s.gov.stop && |start.calls| <= |s.calls|
    && (forall c :: 0 <= c < |start.calls| && !InFlight(start.calls[c]) ==> Halted(start.calls[c], s.calls[c]))
    && (forall c :: |start.calls| <= c < |s.calls| ==> !s.calls[c].minted && (s.calls[c].pc.Begun? || s.calls[c].pc.Barred?))
  }

  lemma AdvanceStopped(g: Gov, call: Call, w: World, maxAuto: Category)
    requires g.stop
    ensures var next := Advance(g, call, w, maxAuto);
      && next.gov.stop
      && (!InFlight(call) && !call.pc.Begun? ==> next.call == call)
      && (call.pc.Begun? ==> next.call == call.(pc := Barred))
  {
    hide HasGrant;
  }

  lemma DoStopped(start: System, s: System, act: Act, maxAuto: Category)
    requires Stopped(start, s) && act != Stop(false)
    ensures Stopped(start, Do(s, act, maxAuto))
  {
    if act.Proceed? && act.c < |s.calls| {
      AdvanceStopped(s.gov, s.calls[act.c], World(s.now, act.mintOk, act.id, act.pick), maxAuto);
      hide Advance;
    }
  }

  lemma {:induction false} RunStopped(start: System, acts: seq<Act>, maxAuto: Category)
    requires start.gov.stop && forall k :: 0 <= k < |acts| ==> acts[k] != Stop(false)
    ensures Stopped(start, Run(start, acts, maxAuto))
  {
    if acts != [] {
      var init := acts[..|acts| - 1];
      RunStopped(start, init, maxAuto);
      DoStopped(start, Run(start, init, maxAuto), acts[|acts| - 1], maxAuto);
      hide Do, Stopped;
    }
  }

  function Count(calls: seq<Call>, p: Call -> bool): nat {
    if calls == [] then 0 else Count(calls[..|calls| - 1], p) + if p(calls[|calls| - 1]) then 1 else 0
  }

  function Minted(call: Call): bool { call.minted }

  lemma {:induction false} CountNew(before: seq<Call>, after: seq<Call>, p: Call -> bool)
    requires |before| <= |after|
    requires forall c :: 0 <= c < |before| && !InFlight(before[c]) ==> (p(after[c]) ==> p(before[c]))
    requires forall c :: |before| <= c < |after| ==> !p(after[c])
    ensures Count(after, p) <= Count(before, p) + Count(before, InFlight)
    decreases |after|
  {
    if after != [] {
      var n := |after| - 1;
      if |before| == |after| {
        CountNew(before[..n], after[..n], p);
      } else {
        CountNew(before, after[..n], p);
      }
    }
  }

  /**
   While the emergency stop is on, the permits returned and the tokens minted are at most as many as the
   calls that had taken their snapshot before it and were not back: nobody who starts later gets through.
   */
  lemma EmergencyStopWindow(start: System, acts: seq<Act>, maxAuto: Category)
    requires start.gov.stop && forall k :: 0 <= k < |acts| ==> acts[k] != Stop(false)
    ensures var end := Run(start, acts, maxAuto);
      && Count(end.calls, HasPermit) <= Count(start.calls, HasPermit) + Count(start.calls, InFlight)
      && Count(end.calls, Minted) <= Count(start.calls, Minted) + Count(start.calls, InFlight)
  {
    RunStopped(start, acts, maxAuto);
    hide Run, Count;
    var end := Run(start, acts, maxAuto);
    CountNew(start.calls, end.calls, HasPermit);
    CountNew(start.calls, end.calls, Minted);
  }

  // ----- approvals and live grants -------------------------------------------------------

  predicate IsPending(g: Gov, key: Key) { key in g.executions && g.executions[key] == PendingApproval }

  ghost predicate AtMostOneLive(grants: seq<Grant>, key: Key, now: int) {
    forall i, j :: 0 <= i < j < |grants| ==> !(Usable(grants[i], key, now) && Usable(grants[j], key, now))
  }

  /** Nobody is between finding no grant for the invocation and putting its row back to PENDING. */
  predicate NobodyRecords(s: System, key: Key) {
    forall c :: 0 <= c < |s.calls| && s.calls[c].key == key ==> !s.calls[c].pc.Recording?
  }

  /** A live grant excludes a pending row, and a second live grant. */
  ghost predicate Exclusive(s: System, key: Key) {
    && (IsPending(s.gov, key) ==> !HasGrant(s.gov, key, s.now))
    && (!NobodyRecords(s, key) ==> !HasGrant(s.gov, key, s.now))
    && AtMostOneLive(s.gov.grants, key, s.now)
  }

  /** Approvals of the invocation fall outside that window. */
  ghost predicate Timely(s: System, act: Act, key: Key) { act.GrantOnce? && act.key == key ==> NobodyRecords(s, key) }

  ghost predicate AllTimely(now: int, acts: seq<Act>, maxAuto: Category, key: Key) {
    forall k :: 0 <= k < |acts| ==> Timely(Run(Initial(now), acts[..k], maxAuto), acts[k], key)
  }

  /** No live grant appears but by an approval. */
  lemma NoNewLive(before: seq<Grant>, after: seq<Grant>, key: Key, now: int, later: int)
    requires Later(before, after) && now <= later
    requires forall i :: |before| <= i < |after| ==> after[i].consumed
    ensures AtMostOneLive(before, key, now) ==> AtMostOneLive(after, key, later)
    ensures forall i :: 0 <= i < |after| && Usable(after[i], key, later) ==> i < |before| && Usable(before[i], key, now)
  {}

  lemma AdvanceSpent(g: Gov, call: Call, w: World, maxAuto: Category)
    ensures var next := Advance(g, call, w, maxAuto);
      next.call.key == call.key && forall i :: |g.grants| <= i < |next.gov.grants| ==> next.gov.grants[i].consumed
  {
    hide Decide, HasGrant;
  }

  lemma AdvanceRecording(g: Gov, call: Call, w: World, maxAuto: Category)
    ensures var next := Advance(g, call, w, maxAuto);
      next.call.pc.Recording? ==> call.pc.Asking? && next.gov == g && !HasGrant(g, call.key, call.pc.at)
  {
    Decisions(g, call, maxAuto);
    hide Decide, HasGrant, IsEarliest;
  }

  /** Who finds no grant at an earlier instant finds none now. */
  lemma NoneLater(g: Gov, key: Key, at: int, now: int)
    requires at <= now && !HasGrant(g, key, at)
    ensures !HasGrant(g, key, now)
  {}

  lemma AdvancePending(g: Gov, call: Call, w: World, maxAuto: Category, key: Key)
    ensures IsPending(Advance(g, call, w, maxAuto).gov, key) ==> IsPending(g, key) || (call.pc.Recording? && key == call.key)
  {
    hide Decide, HasGrant, IsEarliest;
  }

  lemma ProceedExclusive(s: System, act: Act, maxAuto: Category, key: Key)
    requires Exclusive(s, key) && act.Proceed? && ClocksRead(s)
    ensures Exclusive(Do(s, act, maxAuto), key)
  {
    var next := Do(s, act, maxAuto);
    if act.c < |s.calls| {
      var call, w := s.calls[act.c], World(s.now, act.mintOk, act.id, act.pick);
      AdvanceLater(s.gov, call, w, maxAuto);
      AdvanceSpent(s.gov, call, w, maxAuto);
      AdvanceRecording(s.gov, call, w, maxAuto);
      AdvancePending(s.gov, call, w, maxAuto, key);
      if call.pc.Asking? && !HasGrant(s.gov, call.key, call.pc.at) {
        assert ReadBefore(call, s.now);
        NoneLater(s.gov, call.key, call.pc.at, s.now);
      }
      NoNewLive(s.gov.grants, next.gov.grants, key, s.now, s.now);
      hide Advance, AtMostOneLive, Usable;
      assert HasGrant(next.gov, key, s.now) ==> HasGrant(s.gov, key, s.now);
      if !NobodyRecords(next, key) {
        var c :| 0 <= c < |next.calls| && next.calls[c].key == key && next.calls[c].pc.Recording?;
        assert c != act.c ==> next.calls[c] == s.calls[c];
      }
    }
  }

  lemma ApproveExclusive(s: System, act: Act, maxAuto: Category, key: Key)
    requires Exclusive(s, key) && act.GrantOnce? && Timely(s, act, key)
    ensures Exclusive(Do(s, act, maxAuto), key)
  {
    var r := GrantExecution(s.gov, act.key, act.toolId, act.ttl, act.id, s.now);
    if r.Some? {
      var n := |s.gov.grants|;
      assert forall i :: 0 <= i < n ==> r.value.grants[i] == s.gov.grants[i];
      assert forall k :: k != act.key && HasGrant(r.value, k, s.now) ==> HasGrant(s.gov, k, s.now);
    }
  }

  lemma QuietExclusive(s: System, act: Act, maxAuto: Category, key: Key)
    requires Exclusive(s, key) && !act.Proceed? && !act.GrantOnce?
    ensures Exclusive(Do(s, act, maxAuto), key)
  {
    var next := Do(s, act, maxAuto);
    assert next.gov.grants == s.gov.grants && next.now >= s.now;
    NoNewLive(s.gov.grants, next.gov.grants, key, s.now, next.now);
    assert IsPending(next.gov, key) ==> IsPending(s.gov, key);
    hide AtMostOneLive, Usable;
    if !NobodyRecords(next, key) {
      var c :| 0 <= c < |next.calls| && next.calls[c].key == key && next.calls[c].pc.Recording?;
      assert s.calls[c] == next.calls[c];
    }
  }

  /**
   While no approval of an invocation falls between a call's finding no grant and its asking for one, a
   live grant and a pending row exclude each other, so there is never a second live grant. Calls that
   run one at a time, with administrators waiting for them, are the simplest case.
   */
  lemma {:induction false} LiveExcludesPending(now: int, acts: seq<Act>, maxAuto: Category, key: Key)
    requires AllTimely(now, acts, maxAuto, key)
    ensures Exclusive(Run(Initial(now), acts, maxAuto), key)
  {
    if acts != [] {
      var init, act := acts[..|acts| - 1], acts[|acts| - 1];
      assert forall k :: 0 <= k < |init| ==> init[..k] == acts[..k] && init[k] == acts[k];
      LiveExcludesPending(now, init, maxAuto, key);
      var s := Run(Initial(now), init, maxAuto);
      hide Exclusive, Run, Do;
      assert Timely(s, act, key);
      if act.Proceed? {
        RunKeeps(now, init, maxAuto);
        ProceedExclusive(s, act, maxAuto, key);
      }
      else if act.GrantOnce? { ApproveExclusive(s, act, maxAuto, key); }
      else { QuietExclusive(s, act, maxAuto, key); }
    }
  }

  /** Calls one at a time, administrators between them: every approval is timely. */
  lemma SerialisedIsTimely(now: int, acts: seq<Act>, maxAuto: Category, key: Key)
    requires forall k :: 0 <= k < |acts| && acts[k].GrantOnce? ==>
      Count(Run(Initial(now), acts[..k], maxAuto).calls, InFlight) == 0
    ensures AllTimely(now, acts, maxAuto, key)
  {
    hide Run;
    forall k | 0 <= k < |acts| && acts[k].GrantOnce? ensures NobodyRecords(Run(Initial(now), acts[..k], maxAuto), key) {
      var calls := Run(Initial(now), acts[..k], maxAuto).calls;
      forall c | 0 <= c < |calls| ensures !InFlight(calls[c]) { CountsNone(calls, c); }
    }
  }

  lemma {:induction false} CountsNone(calls: seq<Call>, c: nat)
    requires c < |calls| && Count(calls, InFlight) == 0
    ensures !InFlight(calls[c])
  {
    if c < |calls| - 1 { CountsNone(calls[..|calls| - 1], c); }
  }

  /**
   And exactly then: an approval inside the window, from any state, lets the call put the row back to
   PENDING beside the live grant, and a second approval makes a second live grant.
   */
  lemma UntimelyApprovalDoubles(s: System, c: nat, id1: string, id2: string, ttl: int, maxAuto: Category)
    requires c < |s.calls| && s.calls[c].pc.Recording? && IsPending(s.gov, s.calls[c].key)
    requires id1 != id2 && !HasId(s.gov.grants, id1) && !HasId(s.gov.grants, id2)
    ensures var key := s.calls[c].key;
      var approved := Do(s, GrantOnce(key, key.toolId, ttl, id1), maxAuto);
      var recorded := Do(approved, Proceed(c, true, "", 0), maxAuto);
      var again := Do(recorded, GrantOnce(key, key.toolId, ttl, id2), maxAuto);
      && IsPending(recorded.gov, key) && HasGrant(recorded.gov, key, s.now)
      && !AtMostOneLive(again.gov.grants, key, s.now)
  {
    var key, n := s.calls[c].key, |s.gov.grants|;
    var approved := Do(s, GrantOnce(key, key.toolId, ttl, id1), maxAuto);
    assert approved.gov.grants[n] == Grant(id1, Human, key, s.now, s.now + Ttl(ttl), false, 0, 0);
    var recorded := Do(approved, Proceed(c, true, "", 0), maxAuto);
    assert recorded.gov.grants == approved.gov.grants;
    assert Usable(recorded.gov.grants[n], key, s.now);
    var again := Do(recorded, GrantOnce(key, key.toolId, ttl, id2), maxAuto);
    assert forall i :: 0 <= i <= n ==> again.gov.grants[i] == recorded.gov.grants[i];
    assert Usable(again.gov.grants[n + 1], key, s.now) && Usable(again.gov.grants[n], key, s.now);
  }

  // ----- the clock and the lock ----------------------------------------------------------

  /** No second passes between a call's reading the clock and its spending a grant. */
  ghost predicate Prompt(s: System, act: Act) {
    act.Wait? && act.seconds > 0 ==> forall c :: 0 <= c < |s.calls| ==> !s.calls[c].pc.Spending?
  }

  ghost predicate AllPrompt(now: int, acts: seq<Act>, maxAuto: Category) {
    forall k :: 0 <= k < |acts| ==> Prompt(Run(Initial(now), acts[..k], maxAuto), acts[k])
  }

  ghost predicate OnTime(s: System) {
    && (forall i :: 0 <= i < |s.gov.grants| && s.gov.grants[i].consumed ==> s.gov.grants[i].checkedAt == s.gov.grants[i].spentAt)
    && (forall c :: 0 <= c < |s.calls| && s.calls[c].pc.Spending? ==> s.calls[c].pc.at == s.now)
  }

  lemma AdvanceOnTime(g: Gov, call: Call, w: World, maxAuto: Category)
    requires call.pc.Spending? ==> call.pc.at == w.now
    requires forall i :: 0 <= i < |g.grants| && g.grants[i].consumed ==> g.grants[i].checkedAt == g.grants[i].spentAt
    ensures var next := Advance(g, call, w, maxAuto);
      && (next.call.pc.Spending? ==> next.call.pc.at == w.now)
      && forall i :: 0 <= i < |next.gov.grants| && next.gov.grants[i].consumed ==> next.gov.grants[i].checkedAt == next.gov.grants[i].spentAt
  {
    Decisions(g, call, maxAuto);
    hide Decide, HasGrant;
  }

  lemma DoOnTime(s: System, act: Act, maxAuto: Category)
    requires OnTime(s) && Prompt(s, act)
    ensures OnTime(Do(s, act, maxAuto))
  {
    if act.Proceed? && act.c < |s.calls| {
      AdvanceOnTime(s.gov, s.calls[act.c], World(s.now, act.mintOk, act.id, act.pick), maxAuto);
      hide Advance;
    }
  }

  lemma {:induction false} RunOnTime(now: int, acts: seq<Act>, maxAuto: Category)
    requires AllPrompt(now, acts, maxAuto)
    ensures OnTime(Run(Initial(now), acts, maxAuto))
  {
    if acts != [] {
      var init := acts[..|acts| - 1];
      assert forall k :: 0 <= k < |init| ==> init[..k] == acts[..k] && init[k] == acts[k];
      RunOnTime(now, init, maxAuto);
      assert Prompt(Run(Initial(now), init, maxAuto), acts[|acts| - 1]);
      hide OnTime, Do;
      DoOnTime(Run(Initial(now), init, maxAuto), acts[|acts| - 1], maxAuto);
    }
  }

  /** While nobody is kept waiting for the lock into another second, a human permit's row is unexpired when it is spent. */
  lemma {:induction false} PromptIsUnexpired(now: int, acts: seq<Act>, maxAuto: Category, c: nat) returns (i: nat)
    requires AllPrompt(now, acts, maxAuto)
    requires var s := Run(Initial(now), acts, maxAuto); c < |s.calls| && IsHumanPermit(s.calls[c])
    ensures var s := Run(Initial(now), acts, maxAuto);
      i < |s.gov.grants| && Backs(s.gov.grants[i], s.calls[c]) && s.gov.grants[i].spentAt < s.gov.grants[i].expiresAt
  {
    var s := Run(Initial(now), acts, maxAuto);
    RunKeeps(now, acts, maxAuto);
    RunOnTime(now, acts, maxAuto);
    hide Run;
    i :| 0 <= i < |s.gov.grants| && Backs(s.gov.grants[i], s.calls[c]);
  }

  // ----- runs ----------------------------------------------------------------------------

  /** A run act by act from the front. */
  lemma {:induction false} RunFirst(s: System, act: Act, rest: seq<Act>, maxAuto: Category)
    ensures Run(s, [act] + rest, maxAuto) == Run(Do(s, act, maxAuto), rest, maxAuto)
    decreases rest
  {
    if rest == [] {
      assert ([act] + rest)[..0] == [] && Run(s, [], maxAuto) == s;
    } else {
      var n := |rest| - 1;
      RunFirst(s, act, rest[..n], maxAuto);
      assert ([act] + rest)[..n + 1] == [act] + rest[..n];
    }
  }

  lemma {:induction false} RunConcat(s: System, first: seq<Act>, rest: seq<Act>, maxAuto: Category)
    ensures Run(s, first + rest, maxAuto) == Run(Run(s, first, maxAuto), rest, maxAuto)
    decreases rest
  {
    if rest == [] {
      assert first + rest == first;
    } else {
      var n := |rest| - 1;
      RunConcat(s, first, rest[..n], maxAuto);
      assert (first + rest)[..|first| + n] == first + rest[..n];
    }
  }

  /** A call takes n steps. */
  function Steps(c: nat, n: nat): seq<Act> { if n == 0 then [] else [Proceed(c, true, "", 0)] + Steps(c, n - 1) }

  function After(s: System, c: nat, n: nat, maxAuto: Category): System
    decreases n
  {
    if n == 0 then s else After(Do(s, Proceed(c, true, "", 0), maxAuto), c, n - 1, maxAuto)
  }

  lemma {:induction false} RunSteps(s: System, c: nat, n: nat, maxAuto: Category)
    ensures Run(s, Steps(c, n), maxAuto) == After(s, c, n, maxAuto)
    decreases n
  {
    if n == 0 {
      assert Run(s, [], maxAuto) == s;
    } else {
      hide Do, Run;
      RunFirst(s, Proceed(c, true, "", 0), Steps(c, n - 1), maxAuto);
      RunSteps(Do(s, Proceed(c, true, "", 0), maxAuto), c, n - 1, maxAuto);
    }
  }

  /** Another call of the invocation arrives and takes n steps. */
  lemma ArriveRun(s: System, key: Key, category: Category, n: nat, maxAuto: Category)
    ensures Run(s, [Arrive(key, category, false)] + Steps(|s.calls|, n), maxAuto)
      == After(s.(calls := s.calls + [NewCall(key, category, false)]), |s.calls|, n, maxAuto)
  {
    RunFirst(s, Arrive(key, category, false), Steps(|s.calls|, n), maxAuto);
    RunSteps(Do(s, Arrive(key, category, false), maxAuto), |s.calls|, n, maxAuto);
    hide Run, After, Steps;
  }

  /** Three steps on, a call that needs a human and has no grant is about to record its request. */
  lemma NoGrantSteps(s: System, c: nat, maxAuto: Category)
    requires c < |s.calls| && s.calls[c].pc.Begun? && Decide(s.gov, s.calls[c], maxAuto).Checking? && !HasGrant(s.gov, s.calls[c].key, s.now)
    ensures After(s, c, 3, maxAuto) == s.(calls := s.calls[c := s.calls[c].(pc := Recording)])
  {
    hide Decide, HasGrant;
    var call := s.calls[c];
    var s1 := s.(calls := s.calls[c := call.(pc := Checking)]);
    assert Do(s, Proceed(c, true, "", 0), maxAuto) == s1;
    var s2 := s.(calls := s.calls[c := call.(pc := Asking(s.now))]);
    assert Do(s1, Proceed(c, true, "", 0), maxAuto).calls == s2.calls;
    var s3 := s.(calls := s.calls[c := call.(pc := Recording)]);
    assert Do(s2, Proceed(c, true, "", 0), maxAuto).calls == s3.calls;
    hide Do;
    assert After(s3, c, 0, maxAuto) == s3 && After(s2, c, 1, maxAuto) == s3 && After(s1, c, 2, maxAuto) == s3;
  }

  /** The invocation asked for once, its request recorded and pending. */
  function Requested(now: int, key: Key, category: Category): System {
    System(FRESH.(executions := map[key := PendingApproval]), now, [Call(key, category, false, Barred, false)], 0)
  }

  function FirstRequest(key: Key, category: Category): seq<Act> {
    ([Arrive(key, category, false)] + Steps(0, 3)) + [Proceed(0, true, "", 0)]
  }

  lemma FirstRequested(now: int, key: Key, category: Category, maxAuto: Category)
    requires Rank(category) > Rank(maxAuto)
    ensures Run(Initial(now), FirstRequest(key, category), maxAuto) == Requested(now, key, category)
  {
    var s, call, last := Initial(now), NewCall(key, category, false), Proceed(0, true, "", 0);
    var arrived := s.(calls := [call]);
    assert s.calls + [call] == [call];
    ArriveRun(s, key, category, 3, maxAuto);
    NoGrantSteps(arrived, 0, maxAuto);
    hide After, Steps;
    var first := [Arrive(key, category, false)] + Steps(0, 3);
    RunConcat(s, first, [last], maxAuto);
    var recording := arrived.(calls := [call.(pc := Recording)]);
    assert arrived.calls[0 := call.(pc := Recording)] == [call.(pc := Recording)];
    RunFirst(recording, last, [], maxAuto);
    assert [last] + [] == [last];
    assert Do(recording, last, maxAuto).calls == [call.(pc := Barred)];
    assert Do(recording, last, maxAuto).gov.executions == map[key := PendingApproval];
  }

  /**
   The window is there: from the start, two requests for the same invocation, and the second is about to
   put back to PENDING the row that is pending of the first.
   */
  lemma {:induction false} WindowReachable(now: int, key: Key, category: Category, maxAuto: Category) returns (acts: seq<Act>)
    requires Rank(category) > Rank(maxAuto)
    ensures var s := Run(Initial(now), acts, maxAuto);
      && |s.calls| == 2 && s.calls[1].key == key && s.calls[1].pc.Recording? && IsPending(s.gov, key) && s.gov.grants == []
  {
    var s, call := Requested(now, key, category), NewCall(key, category, false);
    FirstRequested(now, key, category, maxAuto);
    ArriveRun(s, key, category, 3, maxAuto);
    NoGrantSteps(s.(calls := s.calls + [call]), 1, maxAuto);
    hide After, Steps, Run, FirstRequest;
    RunConcat(Initial(now), FirstRequest(key, category), [Arrive(key, category, false)] + Steps(1, 3), maxAuto);
    acts := FirstRequest(key, category) + ([Arrive(key, category, false)] + Steps(1, 3));
  }

  /** So two live grants for one invocation are reachable. */
  lemma {:induction false} TwoLiveReachable(now: int, key: Key, category: Category, maxAuto: Category) returns (acts: seq<Act>)
    requires Rank(category) > Rank(maxAuto)
    ensures !AtMostOneLive(Run(Initial(now), acts, maxAuto).gov.grants, key, Run(Initial(now), acts, maxAuto).now)
  {
    var window := WindowReachable(now, key, category, maxAuto);
    var s := Run(Initial(now), window, maxAuto);
    hide Run, AtMostOneLive, Rank;
    UntimelyApprovalDoubles(s, 1, "a", "b", 60, maxAuto);
    var a, b, c := GrantOnce(key, key.toolId, 60, "a"), Proceed(1, true, "", 0), GrantOnce(key, key.toolId, 60, "b");
    RunThen(Initial(now), window, a, maxAuto);
    RunThen(Initial(now), window + [a], b, maxAuto);
    RunThen(Initial(now), window + [a] + [b], c, maxAuto);
    acts := window + [a] + [b] + [c];
    assert Run(Initial(now), acts, maxAuto).now == s.now by { hide Advance, GrantExecution; }
  }

  lemma RunThen(s: System, acts: seq<Act>, act: Act, maxAuto: Category)
    ensures Run(s, acts + [act], maxAuto) == Do(Run(s, acts, maxAuto), act, maxAuto)
  {
    assert (acts + [act])[..|acts|] == acts;
  }

  /** Five steps on, a call with a grant has its token and has read the clock. */
  lemma GrantSteps(s: System, c: nat, maxAuto: Category)
    requires c < |s.calls| && s.calls[c].pc.Begun? && Decide(s.gov, s.calls[c], maxAuto).Checking? && HasGrant(s.gov, s.calls[c].key, s.now)
    ensures After(s, c, 5, maxAuto) == s.(calls := s.calls[c := s.calls[c].(pc := Spending(s.now), minted := true)])
  {
    hide Decide, HasGrant;
    var call, act := s.calls[c], Proceed(c, true, "", 0);
    var s1 := s.(calls := s.calls[c := call.(pc := Checking)]);
    assert Do(s, act, maxAuto) == s1;
    var s2 := s.(calls := s.calls[c := call.(pc := Asking(s.now))]);
    assert Do(s1, act, maxAuto).calls == s2.calls;
    var s3 := s.(calls := s.calls[c := call.(pc := Minting(On(Human)))]);
    assert Do(s2, act, maxAuto).calls == s3.calls;
    var s4 := s.(calls := s.calls[c := call.(pc := Claiming, minted := true)]);
    assert Do(s3, act, maxAuto).calls == s4.calls;
    var s5 := s.(calls := s.calls[c := call.(pc := Spending(s.now), minted := true)]);
    assert Do(s4, act, maxAuto).calls == s5.calls;
    hide Do;
    assert After(s5, c, 0, maxAuto) == s5 && After(s4, c, 1, maxAuto) == s5 && After(s3, c, 2, maxAuto) == s5;
    assert After(s2, c, 3, maxAuto) == s5 && After(s1, c, 4, maxAuto) == s5;
  }

  /**
   And a grant can be spent after it expired, by a call that read the clock in time and then waited for the
   lock past the grant's end.
   */
  lemma {:induction false} LateSpendReachable(now: int, key: Key, category: Category, maxAuto: Category) returns (acts: seq<Act>)
    requires Rank(category) > Rank(maxAuto)
    ensures var s := Run(Initial(now), acts, maxAuto);
      && |s.calls| == 2 && IsHumanPermit(s.calls[1]) && |s.gov.grants| == 1 && Backs(s.gov.grants[0], s.calls[1])
      && s.gov.grants[0].spentAt > s.gov.grants[0].expiresAt
  {
    hide After, Steps, Run, FirstRequest, Rank, Decide, Advance, Backs;
    var grant, wait, spend := GrantOnce(key, key.toolId, 60, "a"), Wait(100), Proceed(1, true, "", 0);
    FirstRequested(now, key, category, maxAuto);
    SpendingReached(now, key, category, maxAuto);
    var tail := [Arrive(key, category, false)] + Steps(1, 5);
    var first := FirstRequest(key, category);
    RunThen(Initial(now), first, grant, maxAuto);
    RunConcat(Initial(now), first + [grant], tail, maxAuto);
    RunThen(Initial(now), first + [grant] + tail, wait, maxAuto);
    RunThen(Initial(now), first + [grant] + tail + [wait], spend, maxAuto);
    acts := first + [grant] + tail + [wait] + [spend];
    LateSpend(Do(SpendingAt(now, key, category), wait, maxAuto), maxAuto);
  }

  /** The second call has found its grant, minted, and read the clock. */
  function SpendingAt(now: int, key: Key, category: Category): System {
    System(FRESH.(executions := map[key := ApprovedOnce], grants := [Grant("a", Human, key, now, now + 60, false, 0, 0)]), now,
           [Call(key, category, false, Barred, false), Call(key, category, false, Spending(now), true)], 1)
  }

  lemma SpendingReached(now: int, key: Key, category: Category, maxAuto: Category)
    requires Rank(category) > Rank(maxAuto)
    ensures Run(Do(Requested(now, key, category), GrantOnce(key, key.toolId, 60, "a"), maxAuto),
                [Arrive(key, category, false)] + Steps(1, 5), maxAuto)
      == SpendingAt(now, key, category)
  {
    var s, call := Requested(now, key, category), NewCall(key, category, false);
    var granted := Do(s, GrantOnce(key, key.toolId, 60, "a"), maxAuto);
    assert granted.gov == SpendingAt(now, key, category).gov && granted.calls == s.calls && granted.now == now && granted.counted == 1;
    assert Usable(granted.gov.grants[0], key, now);
    var arrived := granted.(calls := s.calls + [call]);
    assert Decide(arrived.gov, call, maxAuto).Checking?;
    hide Decide, Usable, Rank, Do, After, Steps, Run;
    ArriveRun(granted, key, category, 5, maxAuto);
    GrantSteps(arrived, 1, maxAuto);
    assert arrived.calls[1 := call.(pc := Spending(now), minted := true)] == SpendingAt(now, key, category).calls;
  }

  lemma LateSpend(s: System, maxAuto: Category)
    requires |s.calls| == 2 && s.calls[1].pc.Spending? && |s.gov.grants| == 1
    requires Usable(s.gov.grants[0], s.calls[1].key, s.calls[1].pc.at) && s.gov.grants[0].source == Human
    requires s.calls[1].pc.at < s.gov.grants[0].expiresAt < s.now
    ensures var end := Do(s, Proceed(1, true, "", 0), maxAuto);
      && |end.calls| == 2 && IsHumanPermit(end.calls[1]) && |end.gov.grants| == 1 && Backs(end.gov.grants[0], end.calls[1])
      && end.gov.grants[0].spentAt > end.gov.grants[0].expiresAt
  {
    assert HasGrant(s.gov, s.calls[1].key, s.calls[1].pc.at);
    assert IsEarliest(s.gov, s.calls[1].key, s.calls[1].pc.at, 0);
  }
}
