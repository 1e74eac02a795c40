/**
 `DynamicAuthorityProxy.permit`, run by many threads against one governance store. Each call is a
 program counter; its store accesses, the administrator's actions and the clock interleave freely.
 */
module Permits {
  import opened Statuses
  import opened Authority
  import opened Governance

  function Rank(c: Category): nat {
    match c
    case Safe => 0
    case Low => 1
    case Medium => 2
    case High => 3
    case Critical => 4
  }

  /** What a permit stands on: discovery traffic, or a row of the grants table. */
  datatype Warrant = ToDiscover | On(source: Source)

  /** Where a call is. The store's lock is taken after the clock is read, so a query carries the instant it read. */
  datatype Pc =
    | Begun | Checking | Asking(at: int) | Recording
    | Minting(warrant: Warrant) | Claiming | Spending(at: int) | Finishing(source: Source)
    | Barred | Failed | Permitted(warrant: Warrant, grantId: string)

  datatype Call = Call(key: Key, category: Category, discovery: bool, pc: Pc, minted: bool)

  function NewCall(key: Key, category: Category, discovery: bool): Call { Call(key, category, discovery, Begun, false) }

  /** From the snapshot: stop first, then whether a human must have said so, and otherwise on what authority. */
  function Decide(g: Gov, call: Call, maxAuto: Category): Pc {
    var key := call.key;
    var effective := if key.capability in g.overrides then g.overrides[key.capability] else call.category;
    if g.stop then Barred
    else if call.discovery then Minting(ToDiscover)
    else if key.toolId in g.exceptions then Minting(On(Exception))
    else if Rank(effective) > Rank(maxAuto) then Checking
    else if key.capability in g.overrides then Minting(On(Override))
    else Minting(On(Auto))
  }

  /** What the world contributes to a step: the clock, whether minting works, a random id, the row a query returns first. */
  datatype World = World(now: int, mintOk: bool, id: string, pick: nat)

  datatype Stepped = Stepped(gov: Gov, call: Call)

  function AfterMint(warrant: Warrant): Pc {
    match warrant
    case ToDiscover => Permitted(warrant, "")
    case On(source) => if source == Human then Claiming else Finishing(source)
  }

  /** A call's next atomic step. A pick that is no answer to the query leaves the call where it is. */
  function Advance(g: Gov, call: Call, w: World, maxAuto: Category): Stepped {
    match call.pc
    case Begun => Stepped(g, call.(pc := Decide(g, call, maxAuto)))
    case Checking => Stepped(g, call.(pc := Asking(w.now)))
    case Asking(at) => Stepped(g, call.(pc := if HasGrant(g, call.key, at) then Minting(On(Human)) else Recording))
    case Recording => Stepped(RecordExecution(g, call.key), call.(pc := Barred))
    case Minting(warrant) => Stepped(g, if w.mintOk then call.(minted := true, pc := AfterMint(warrant)) else call.(pc := Failed))
    case Claiming => Stepped(g, call.(pc := Spending(w.now)))
    case Spending(at) =>
      if !HasGrant(g, call.key, at) then Stepped(g, call.(pc := Barred))
      else if !IsEarliest(g, call.key, at, w.pick) then Stepped(g, call)
      else Stepped(Consume(g, w.pick, at, w.now), call.(pc := Permitted(On(Human), g.grants[w.pick].id)))
    case Finishing(source) =>
      if source == Human then Stepped(g, call) else
      var r := RecordAuto(g, call.key, source, w.id, w.now);
      if r.None? then Stepped(g, call.(pc := Failed)) else Stepped(r.value, call.(pc := Permitted(On(source), w.id)))
    case _ => Stepped(g, call)
  }

  predicate Returned(pc: Pc) { pc.Barred? || pc.Failed? || pc.Permitted? }

  // ----- one call on its own -------------------------------------------------------------

  function Alone(g: Gov, call: Call, w: World, maxAuto: Category, n: nat): Stepped
    decreases n
  {
    if n == 0 then Stepped(g, call) else
    var s := Advance(g, call, w, maxAuto);
    Alone(s.gov, s.call, w, maxAuto, n - 1)
  }

  lemma {:induction false} AloneReturned(g: Gov, call: Call, w: World, maxAuto: Category, n: nat)
    requires Returned(call.pc)
    ensures Alone(g, call, w, maxAuto, n) == Stepped(g, call)
    decreases n
  {
    if n > 0 { AloneReturned(g, call, w, maxAuto, n - 1); }
  }

  lemma AloneStep(g: Gov, call: Call, w: World, maxAuto: Category, n: nat)
    requires n > 0
    ensures var s := Advance(g, call, w, maxAuto);
      Alone(g, call, w, maxAuto, n) == if Returned(s.call.pc) then s else Alone(s.gov, s.call, w, maxAuto, n - 1)
  {
    var s := Advance(g, call, w, maxAuto);
    hide Advance;
    if Returned(s.call.pc) { AloneReturned(s.gov, s.call, w, maxAuto, n - 1); }
  }

  lemma NoGrantPath(g: Gov, call: Call, w: World, maxAuto: Category)
    requires call.pc.Begun? && Decide(g, call, maxAuto).Checking? && !HasGrant(g, call.key, w.now)
    ensures Alone(g, call, w, maxAuto, 6) == Stepped(RecordExecution(g, call.key), call.(pc := Barred))
  {
    hide Decide, Alone, HasGrant;
    AloneStep(g, call, w, maxAuto, 6);
    AloneStep(g, call.(pc := Checking), w, maxAuto, 5);
    AloneStep(g, call.(pc := Asking(w.now)), w, maxAuto, 4);
    AloneStep(g, call.(pc := Recording), w, maxAuto, 3);
  }

  /** The steps of a call that may mint, from wherever it is on n steps. */
  lemma MintSteps(g: Gov, call: Call, warrant: Warrant, w: World, maxAuto: Category, n: nat)
    requires call.pc == Minting(warrant) && n >= 3 && warrant != On(Human)
    ensures Alone(g, call, w, maxAuto, n)
      == if !w.mintOk then Stepped(g, call.(pc := Failed))
         else if warrant.ToDiscover? then Stepped(g, call.(minted := true, pc := Permitted(warrant, "")))
         else Advance(g, call.(minted := true, pc := Finishing(warrant.source)), w, maxAuto)
  {
    hide Alone, RecordAuto;
    AloneStep(g, call, w, maxAuto, n);
    if warrant.On? {
      AloneStep(g, call.(minted := true, pc := Finishing(warrant.source)), w, maxAuto, n - 1);
    }
  }

  lemma HumanSteps(g: Gov, call: Call, w: World, maxAuto: Category)
    requires call.pc == Minting(On(Human)) && (w.mintOk && HasGrant(g, call.key, w.now) ==> IsEarliest(g, call.key, w.now, w.pick))
    ensures Alone(g, call, w, maxAuto, 3)
      == if !w.mintOk then Stepped(g, call.(pc := Failed))
         else Advance(g, call.(minted := true, pc := Spending(w.now)), w, maxAuto)
  {
    hide Alone, HasGrant, IsEarliest, Consume;
    AloneStep(g, call, w, maxAuto, 3);
    AloneStep(g, call.(minted := true, pc := Claiming), w, maxAuto, 2);
    AloneStep(g, call.(minted := true, pc := Spending(w.now)), w, maxAuto, 1);
  }

  lemma HumanPath(g: Gov, call: Call, w: World, maxAuto: Category)
    requires call.pc.Begun? && Decide(g, call, maxAuto).Checking? && HasGrant(g, call.key, w.now)
    requires w.mintOk ==> IsEarliest(g, call.key, w.now, w.pick)
    ensures Alone(g, call, w, maxAuto, 6)
      == if !w.mintOk then Stepped(g, call.(pc := Failed))
         else Advance(g, call.(minted := true, pc := Spending(w.now)), w, maxAuto)
  {
    hide Decide, Alone, HasGrant, IsEarliest, Consume;
    AloneStep(g, call, w, maxAuto, 6);
    AloneStep(g, call.(pc := Checking), w, maxAuto, 5);
    AloneStep(g, call.(pc := Asking(w.now)), w, maxAuto, 4);
    HumanSteps(g, call.(pc := Minting(On(Human))), w, maxAuto);
  }

  lemma OtherPath(g: Gov, call: Call, warrant: Warrant, w: World, maxAuto: Category)
    requires call.pc.Begun? && Decide(g, call, maxAuto) == Minting(warrant)
    ensures Alone(g, call, w, maxAuto, 6)
      == if !w.mintOk then Stepped(g, call.(pc := Failed))
         else if warrant.ToDiscover? then Stepped(g, call.(minted := true, pc := Permitted(warrant, "")))
         else Advance(g, call.(minted := true, pc := Finishing(warrant.source)), w, maxAuto)
  {
    OtherWarrant(g, call, maxAuto);
    hide Decide, Alone, RecordAuto;
    AloneStep(g, call, w, maxAuto, 6);
    MintSteps(g, call.(pc := Minting(warrant)), warrant, w, maxAuto, 5);
  }

  /** Nobody decides on a human's authority without asking for a grant. */
  lemma OtherWarrant(g: Gov, call: Call, maxAuto: Category)
    ensures Decide(g, call, maxAuto) != Minting(On(Human))
  {}

  /**
   `permit`, undisturbed, is its atomic steps in a row: it returns, and what it leaves in the store is what
   those steps leave.
   */
  method Permit(store: GovernanceStore, key: Key, category: Category, discovery: bool, maxAuto: Category,
                now: int, mintOk: bool, id: string)
    returns (pc: Pc, ghost pick: nat)
    modifies store
    ensures Returned(pc)
    ensures var end := Alone(old(store.State()), NewCall(key, category, discovery), World(now, mintOk, id, pick), maxAuto, 6);
      store.State() == end.gov && pc == end.call.pc
  {
    hide Decide, Alone, HasGrant;
    pick := 0;
    var decided := Decide(store.State(), NewCall(key, category, discovery), maxAuto);
    ghost var g, call := store.State(), NewCall(key, category, discovery);
    Decisions(g, call, maxAuto);
    if decided.Barred? {
      AloneStep(g, call, World(now, mintOk, id, 0), maxAuto, 6);
      return Barred, 0;
    }
    if decided.Checking? {
      pc, pick := PermitByHuman(store, key, category, discovery, maxAuto, now, mintOk, id);
      return;
    }
    OtherWarrant(g, call, maxAuto);
    var warrant := decided.warrant;
    OtherPath(g, call, warrant, World(now, mintOk, id, 0), maxAuto);
    if !mintOk { return Failed, 0; }
    if warrant.ToDiscover? { return Permitted(warrant, ""), 0; }
    var ok := store.RecordAutoExecution(key, warrant.source, id, now);
    hide RecordAuto;
    pc := if ok then Permitted(warrant, id) else Failed;
  }

  lemma Decisions(g: Gov, call: Call, maxAuto: Category)
    ensures var pc := Decide(g, call, maxAuto); pc.Barred? || pc.Checking? || pc.Minting?
  {}

  /** The branch that needs a human: ask for a grant, mint, and only then spend it. */
  method PermitByHuman(store: GovernanceStore, key: Key, category: Category, discovery: bool, maxAuto: Category,
                       now: int, mintOk: bool, id: string)
    returns (pc: Pc, ghost pick: nat)
    requires Decide(store.State(), NewCall(key, category, discovery), maxAuto).Checking?
    modifies store
    ensures Returned(pc)
    ensures var end := Alone(old(store.State()), NewCall(key, category, discovery), World(now, mintOk, id, pick), maxAuto, 6);
      store.State() == end.gov && pc == end.call.pc
  {
    hide Decide, Alone, HasGrant;
    ghost var g, call := store.State(), NewCall(key, category, discovery);
    pick := 0;
    var found := store.HasExecutionGrant(key, now);
    if !found {
      store.RecordExecutionApproval(key);
      NoGrantPath(g, call, World(now, mintOk, id, 0), maxAuto);
      return Barred, 0;
    }
    if !mintOk {
      HumanPath(g, call, World(now, mintOk, id, 0), maxAuto);
      return Failed, 0;
    }
    var grantId: Option<string>;
    grantId, pick := store.ConsumeExecutionGrant(key, now, now);
    HumanPath(g, call, World(now, mintOk, id, pick), maxAuto);
    hide IsEarliest;
    pc := Permitted(On(Human), grantId.value);
  }

  // ----- the system ----------------------------------------------------------------------

  /** Counted is how many grants `grant_once` has made. */
  datatype System = System(gov: Gov, now: int, calls: seq<Call>, counted: nat)

  datatype Act =
    | Arrive(key: Key, category: Category, discovery: bool)
    | Proceed(c: nat, mintOk: bool, id: string, pick: nat)
    | Stop(enabled: bool)
    | Except(toolId: string) | Unexcept(toolId: string)
    | Overrule(capability: string, to: Category) | Unoverrule(capability: string)
    | GrantOnce(key: Key, toolId: string, ttl: int, id: string)
    | Wait(seconds: nat)

  function Do(s: System, act: Act, maxAuto: Category): System {
    match act
    case Arrive(key, category, discovery) => s.(calls := s.calls + [NewCall(key, category, discovery)])
    case Proceed(c, mintOk, id, pick) =>
      if c >= |s.calls| then s else
      var next := Advance(s.gov, s.calls[c], World(s.now, mintOk, id, pick), maxAuto);
      s.(gov := next.gov, calls := s.calls[c := next.call])
    case Stop(enabled) => s.(gov := SetStop(s.gov, enabled))
    case Except(toolId) => s.(gov := AddException(s.gov, toolId))
    case Unexcept(toolId) => s.(gov := RemoveException(s.gov, toolId))
    case Overrule(capability, category) => s.(gov := SetOverride(s.gov, capability, category))
    case Unoverrule(capability) => s.(gov := RemoveOverride(s.gov, capability))
    case GrantOnce(key, toolId, ttl, id) =>
      var r := GrantExecution(s.gov, key, toolId, ttl, id, s.now);
      if r.None? then s else s.(gov := r.value, counted := s.counted + 1)
    case Wait(seconds) => s.(now := s.now + seconds)
  }

  function Run(s: System, acts: seq<Act>, maxAuto: Category): System {
    if acts == [] then s else Do(Run(s, acts[..|acts| - 1], maxAuto), acts[|acts| - 1], maxAuto)
  }

  function Initial(now: int): System { System(FRESH, now, [], 0) }

  // ----- permits and rows ----------------------------------------------------------------

  predicate OnRow(call: Call) { call.pc.Permitted? && call.pc.warrant.On? }

  /**
   The row a permit stands on: its id, its source, its whole invocation, spent, and if a human gave it,
   unexpired at an instant read before it was spent.
   */
  predicate Backs(r: Grant, call: Call) {
    && OnRow(call) && r.id == call.pc.grantId && r.source == call.pc.warrant.source && r.key == call.key && r.consumed
    && (r.source == Human ==> r.checkedAt < r.expiresAt && r.checkedAt <= r.spentAt)
  }

  ghost predicate UniqueIds(grants: seq<Grant>) { forall i, j :: 0 <= i < j < |grants| ==> grants[i].id != grants[j].id }

  ghost predicate BornSpent(grants: seq<Grant>) { forall i :: 0 <= i < |grants| && grants[i].source != Human ==> grants[i].consumed }

  ghost predicate Backed(grants: seq<Grant>, calls: seq<Call>) {
    forall c :: 0 <= c < |calls| && OnRow(calls[c]) ==> exists i :: 0 <= i < |grants| && Backs(grants[i], calls[c])
  }

  ghost predicate Covered(grants: seq<Grant>, calls: seq<Call>) {
    forall i :: 0 <= i < |grants| && grants[i].consumed ==> exists c :: 0 <= c < |calls| && Backs(grants[i], calls[c])
  }

  /** No row backs two permits. */
  ghost predicate OneEach(calls: seq<Call>) {
    forall c, d :: 0 <= c < d < |calls| && OnRow(calls[c]) && OnRow(calls[d]) ==> calls[c].pc.grantId != calls[d].pc.grantId
  }

  /** An instant a call carries is not ahead of the clock. */
  predicate ReadBefore(call: Call, now: int) { (call.pc.Asking? || call.pc.Spending?) ==> call.pc.at <= now }

  ghost predicate ClocksRead(s: System) { forall c :: 0 <= c < |s.calls| ==> ReadBefore(s.calls[c], s.now) }

  ghost predicate Accounted(s: System) {
    && UniqueIds(s.gov.grants) && BornSpent(s.gov.grants)
    && Backed(s.gov.grants, s.calls) && Covered(s.gov.grants, s.calls) && OneEach(s.calls) && ClocksRead(s)
  }

  lemma StillBacked(grants: seq<Grant>, calls: seq<Call>, after: seq<Call>)
    requires Backed(grants, calls)
    requires forall c :: 0 <= c < |after| && OnRow(after[c]) ==> c < |calls| && after[c] == calls[c]
    ensures Backed(grants, after)
  {}

  lemma StillCovered(grants: seq<Grant>, calls: seq<Call>, after: seq<Call>)
    requires Covered(grants, calls)
    requires |calls| <= |after| && forall c :: 0 <= c < |calls| && OnRow(calls[c]) ==> after[c] == calls[c]
    ensures Covered(grants, after)
  {
    forall i | 0 <= i < |grants| && grants[i].consumed ensures exists c :: 0 <= c < |after| && Backs(grants[i], after[c]) {
      var c :| 0 <= c < |calls| && Backs(grants[i], calls[c]);
      assert after[c] == calls[c];
    }
  }

  lemma StillOneEach(calls: seq<Call>, after: seq<Call>)
    requires OneEach(calls)
    requires forall c :: 0 <= c < |after| && OnRow(after[c]) ==> c < |calls| && after[c] == calls[c]
    ensures OneEach(after)
  {}

  /** A call without a permit that moves on without getting one. */
  lemma QuietStep(grants: seq<Grant>, calls: seq<Call>, c: nat, next: Call)
    requires c < |calls| && !OnRow(calls[c]) && !OnRow(next)
    requires Backed(grants, calls) && Covered(grants, calls) && OneEach(calls)
    ensures Backed(grants, calls[c := next]) && Covered(grants, calls[c := next]) && OneEach(calls[c := next])
  {
    StillBacked(grants, calls, calls[c := next]);
    StillCovered(grants, calls, calls[c := next]);
    StillOneEach(calls, calls[c := next]);
  }

  /** One row, new or so far unspent, becomes the spent row of a call that had none. */
  ghost predicate Spends(before: seq<Grant>, after: seq<Grant>, i: nat, next: Call) {
    && i < |after| && Backs(after[i], next) && |before| <= |after|
    && (forall j :: 0 <= j < |after| && j != i ==> j < |before| && after[j] == before[j])
    && (i < |before| ==> !before[i].consumed && before[i].id == after[i].id)
  }

  lemma SpentBacked(before: seq<Grant>, after: seq<Grant>, calls: seq<Call>, c: nat, next: Call, i: nat)
    requires c < |calls| && Spends(before, after, i, next) && Backed(before, calls)
    ensures Backed(after, calls[c := next])
  {
    var all := calls[c := next];
    forall d | 0 <= d < |all| && OnRow(all[d]) ensures exists j :: 0 <= j < |after| && Backs(after[j], all[d]) {
      if d == c {
        assert Backs(after[i], all[d]);
      } else {
        assert all[d] == calls[d];
        var j :| 0 <= j < |before| && Backs(before[j], calls[d]);
        assert after[j] == before[j];
      }
    }
  }

  lemma SpentCovered(before: seq<Grant>, after: seq<Grant>, calls: seq<Call>, c: nat, next: Call, i: nat)
    requires c < |calls| && !OnRow(calls[c]) && Spends(before, after, i, next) && Covered(before, calls)
    ensures Covered(after, calls[c := next])
  {
    var all := calls[c := next];
    forall j | 0 <= j < |after| && after[j].consumed ensures exists d :: 0 <= d < |all| && Backs(after[j], all[d]) {
      if j == i {
        assert Backs(after[j], all[c]);
      } else {
        assert after[j] == before[j];
        var d :| 0 <= d < |calls| && Backs(before[j], calls[d]);
        assert all[d] == calls[d];
      }
    }
  }

  lemma SpentOneEach(before: seq<Grant>, after: seq<Grant>, calls: seq<Call>, c: nat, next: Call, i: nat)
    requires c < |calls| && Spends(before, after, i, next) && Backed(before, calls) && OneEach(calls) && UniqueIds(after)
    ensures OneEach(calls[c := next])
  {
    var all := calls[c := next];
    forall d | 0 <= d < |calls| && d != c && OnRow(calls[d]) ensures calls[d].pc.grantId != next.pc.grantId {
      var j :| 0 <= j < |before| && Backs(before[j], calls[d]);
      assert j != i && after[j] == before[j];
    }
    hide Backed, Spends;
  }

  lemma SpendStep(before: seq<Grant>, after: seq<Grant>, calls: seq<Call>, c: nat, next: Call, i: nat)
    requires c < |calls| && !OnRow(calls[c]) && Spends(before, after, i, next) && UniqueIds(after)
    requires Backed(before, calls) && Covered(before, calls) && OneEach(calls)
    ensures Backed(after, calls[c := next]) && Covered(after, calls[c := next]) && OneEach(calls[c := next])
  {
    hide *;
    SpentBacked(before, after, calls, c, next, i);
    SpentCovered(before, after, calls, c, next, i);
    SpentOneEach(before, after, calls, c, next, i);
  }

  /** An unspent row backs nobody yet. */
  lemma NewRowStep(grants: seq<Grant>, calls: seq<Call>, r: Grant)
    requires !HasId(grants, r.id) && r.source == Human && !r.consumed
    requires UniqueIds(grants) && BornSpent(grants) && Backed(grants, calls) && Covered(grants, calls)
    ensures UniqueIds(grants + [r]) && BornSpent(grants + [r]) && Backed(grants + [r], calls) && Covered(grants + [r], calls)
  {
    NewRowBacks(grants, calls, r);
    hide Backed;
  }

  lemma NewRowBacks(grants: seq<Grant>, calls: seq<Call>, r: Grant)
    requires Backed(grants, calls)
    ensures Backed(grants + [r], calls)
  {
    forall c | 0 <= c < |calls| && OnRow(calls[c]) ensures exists i :: 0 <= i < |grants + [r]| && Backs((grants + [r])[i], calls[c]) {
      var i :| 0 <= i < |grants| && Backs(grants[i], calls[c]);
      assert (grants + [r])[i] == grants[i];
    }
  }

  predicate AtRow(pc: Pc) { pc.Spending? || pc.Finishing? }

  lemma ProceedKeeps(s: System, c: nat, w: World, maxAuto: Category)
    requires Accounted(s) && c < |s.calls| && w.now == s.now
    ensures var next := Advance(s.gov, s.calls[c], w, maxAuto);
      Accounted(s.(gov := next.gov, calls := s.calls[c := next.call]))
  {
    hide UniqueIds, BornSpent, Backed, Covered, OneEach, Decide, HasGrant, Spends;
    var call, g := s.calls[c], s.gov;
    var next := Advance(g, call, w, maxAuto);
    Decisions(g, call, maxAuto);
    assert ReadBefore(call, w.now);
    assert ClocksRead(s.(gov := next.gov, calls := s.calls[c := next.call]));
    hide ClocksRead;
    if Returned(call.pc) || next.call == call {
      assert s.calls[c := next.call] == s.calls;
    } else if call.pc.Spending? && OnRow(next.call) {
      HumanSpends(g, call, w, maxAuto);
      ConsumedIds(g, w.pick, call.pc.at, w.now);
      SpendStep(g.grants, next.gov.grants, s.calls, c, next.call, w.pick);
    } else if call.pc.Finishing? && OnRow(next.call) {
      AutoSpends(g, call, w, maxAuto);
      RecordedIds(g, call, w);
      SpendStep(g.grants, next.gov.grants, s.calls, c, next.call, |g.grants|);
    } else {
      if !AtRow(call.pc) { NotYetOnRow(g, call, w, maxAuto); }
      QuietStep(g.grants, s.calls, c, next.call);
    }
  }

  lemma HumanSpends(g: Gov, call: Call, w: World, maxAuto: Category)
    requires call.pc.Spending? && ReadBefore(call, w.now) && BornSpent(g.grants) && OnRow(Advance(g, call, w, maxAuto).call)
    ensures var next := Advance(g, call, w, maxAuto);
      w.pick < |g.grants| && next.gov == Consume(g, w.pick, call.pc.at, w.now) && Spends(g.grants, next.gov.grants, w.pick, next.call)
  {
    hide HasGrant;
  }

  lemma AutoSpends(g: Gov, call: Call, w: World, maxAuto: Category)
    requires call.pc.Finishing? && OnRow(Advance(g, call, w, maxAuto).call)
    ensures var next := Advance(g, call, w, maxAuto);
      Spends(g.grants, next.gov.grants, |g.grants|, next.call) && RecordAuto(g, call.key, call.pc.source, w.id, w.now) == Some(next.gov)
  {}

  lemma NotYetOnRow(g: Gov, call: Call, w: World, maxAuto: Category)
    requires !AtRow(call.pc) && !Returned(call.pc)
    ensures !OnRow(Advance(g, call, w, maxAuto).call) && Advance(g, call, w, maxAuto).gov.grants == g.grants
  {
    hide HasGrant;
  }

  lemma ConsumedIds(g: Gov, i: nat, at: int, now: int)
    requires i < |g.grants| && UniqueIds(g.grants) && BornSpent(g.grants)
    ensures UniqueIds(Consume(g, i, at, now).grants) && BornSpent(Consume(g, i, at, now).grants)
  {}

  lemma RecordedIds(g: Gov, call: Call, w: World)
    requires call.pc.Finishing? && UniqueIds(g.grants) && BornSpent(g.grants)
    requires RecordAuto(g, call.key, call.pc.source, w.id, w.now).Some?
    ensures var r := RecordAuto(g, call.key, call.pc.source, w.id, w.now).value;
      UniqueIds(r.grants) && BornSpent(r.grants)
  {}

  lemma DoKeeps(s: System, act: Act, maxAuto: Category)
    requires Accounted(s)
    ensures Accounted(Do(s, act, maxAuto))
  {
    var next := Do(s, act, maxAuto);
    match act
    case Proceed(c, mintOk, id, pick) =>
      if c < |s.calls| { ProceedKeeps(s, c, World(s.now, mintOk, id, pick), maxAuto); }
    case GrantOnce(key, toolId, ttl, id) =>
      var r := GrantExecution(s.gov, key, toolId, ttl, id, s.now);
      if r.Some? { NewRowStep(s.gov.grants, s.calls, r.value.grants[|s.gov.grants|]); }
    case Arrive(key, category, discovery) =>
      ArriveKeeps(s.gov.grants, s.calls, NewCall(key, category, discovery));
    case _ => assert next.gov.grants == s.gov.grants && next.calls == s.calls;
  }

  lemma ArriveKeeps(grants: seq<Grant>, calls: seq<Call>, call: Call)
    requires !OnRow(call) && Backed(grants, calls) && Covered(grants, calls) && OneEach(calls)
    ensures Backed(grants, calls + [call]) && Covered(grants, calls + [call]) && OneEach(calls + [call])
  {
    StillBacked(grants, calls, calls + [call]);
    StillCovered(grants, calls, calls + [call]);
    StillOneEach(calls, calls + [call]);
  }

  lemma {:induction false} RunKeeps(now: int, acts: seq<Act>, maxAuto: Category)
    ensures Accounted(Run(Initial(now), acts, maxAuto))
  {
    if acts != [] {
      RunKeeps(now, acts[..|acts| - 1], maxAuto);
      DoKeeps(Run(Initial(now), acts[..|acts| - 1], maxAuto), acts[|acts| - 1], maxAuto);
      hide Do;
    }
  }
}
