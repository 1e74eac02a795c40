/**
 The governance store: approvals, grants, exceptions, overrides and the emergency stop. Each method is
 one transaction. Instants are whole seconds, as the stored timestamps are.
 */
module Governance {
  import opened Statuses
  import opened Authority

  /** An invocation with its branch coalesced; a request id stands for exactly this. */
  datatype Key = Key(
    agentId: string, runId: string, toolId: string, capability: string,
    repository: string, branch: string, argsHash: string)

  function KeyOf(i: Invocation): Key {
    Key(i.agentId, i.runId, i.toolId, i.capability, i.repository, Coalesced(i.branch), i.argsHash)
  }

  lemma KeyIsIdentity(a: Invocation, b: Invocation)
    ensures KeyOf(a) == KeyOf(b) <==> SameInvocation(a, b)
  {}

  /** What the resolver's own request id is made from. */
  datatype IntentId = IntentId(intent: string, toolId: string)

  datatype Approval = PendingApproval | ApprovedOnce | ByException | ByOverride

  datatype Source = Auto | Human | Exception | Override

  /**
   A row of `execution_grants`. `spentAt` is its consumed_at; `checkedAt`, no column, is the instant its
   expiry was compared with, which was read before the store's lock was taken.
   */
  datatype Grant = Grant(
    id: string, source: Source, key: Key, createdAt: int, expiresAt: int, consumed: bool, checkedAt: int, spentAt: int)

  /** A row of `allow_once`. */
  datatype Once = Once(toolId: string, consumed: bool)

  /** A row of `pending_approvals`. */
  datatype IntentApproval = IntentApproval(toolId: string, capability: string, status: Approval)

  datatype Gov = Gov(
    stop: bool,
    exceptions: set<string>,
    overrides: map<string, Category>,
    executions: map<Key, Approval>,
    intents: map<IntentId, IntentApproval>,
    once: map<IntentId, Once>,
    grants: seq<Grant>)

  const FRESH := Gov(false, {}, map[], map[], map[], map[], [])

  // ----- transactions --------------------------------------------------------------------

  /** `record_execution_approval`: the upsert resets whatever the row said. */
  function RecordExecution(g: Gov, key: Key): Gov { g.(executions := g.executions[key := PendingApproval]) }

  function RecordIntent(g: Gov, id: IntentId, capability: string): Gov {
    g.(intents := g.intents[id := IntentApproval(id.toolId, capability, PendingApproval)])
  }

  function SetStop(g: Gov, enabled: bool): Gov { g.(stop := enabled) }

  function Decided(a: Approval, becomes: Approval): Approval { if a == PendingApproval then becomes else a }

  function AddException(g: Gov, toolId: string): Gov {
    g.(exceptions := g.exceptions + {toolId},
       executions := map k | k in g.executions ::
         if k.toolId == toolId then Decided(g.executions[k], ByException) else g.executions[k],
       intents := map k | k in g.intents ::
         if g.intents[k].toolId == toolId then g.intents[k].(status := Decided(g.intents[k].status, ByException)) else g.intents[k])
  }

  function RemoveException(g: Gov, toolId: string): Gov { g.(exceptions := g.exceptions - {toolId}) }

  function SetOverride(g: Gov, capability: string, category: Category): Gov {
    g.(overrides := g.overrides[capability := category],
       executions := map k | k in g.executions ::
         if k.capability == capability then Decided(g.executions[k], ByOverride) else g.executions[k],
       intents := map k | k in g.intents ::
         if g.intents[k].capability == capability then g.intents[k].(status := Decided(g.intents[k].status, ByOverride)) else g.intents[k])
  }

  function RemoveOverride(g: Gov, capability: string): Gov { g.(overrides := g.overrides - {capability}) }

  function HasId(grants: seq<Grant>, id: string): bool { exists i :: 0 <= i < |grants| && grants[i].id == id }

  function Ttl(seconds: int): (r: int)
    ensures 10 <= r <= 900 && (10 <= seconds <= 900 ==> r == seconds)
  {
    if seconds < 10 then 10 else if seconds > 900 then 900 else seconds
  }

  /** `grant_once` for an execution; None when the row is not pending or the grant id is taken. */
  function GrantExecution(g: Gov, key: Key, toolId: string, seconds: int, id: string, now: int): Option<Gov> {
    if key !in g.executions || key.toolId != toolId || g.executions[key] != PendingApproval || HasId(g.grants, id) then None
    else Some(g.(grants := g.grants + [Grant(id, Human, key, now, now + Ttl(seconds), false, 0, 0)],
                 executions := g.executions[key := ApprovedOnce]))
  }

  /** `grant_once` for a resolver request: the row is overwritten, consumed or not. */
  function GrantIntent(g: Gov, id: IntentId, toolId: string): Option<Gov> {
    if id !in g.intents || g.intents[id].toolId != toolId || g.intents[id].status != PendingApproval then None
    else Some(g.(once := g.once[id := Once(toolId, false)],
                 intents := g.intents[id := g.intents[id].(status := ApprovedOnce)]))
  }

  /** The row filter both execution queries share; string order of timestamps is instant order. */
  predicate Usable(r: Grant, key: Key, now: int) { r.key == key && !r.consumed && r.expiresAt > now }

  predicate HasGrant(g: Gov, key: Key, now: int) {
    exists i :: 0 <= i < |g.grants| && Usable(g.grants[i], key, now)
  }

  /** A row `ORDER BY created_at LIMIT 1` may return. */
  predicate IsEarliest(g: Gov, key: Key, now: int, i: nat) {
    && i < |g.grants| && Usable(g.grants[i], key, now)
    && forall j :: 0 <= j < |g.grants| && Usable(g.grants[j], key, now) ==> g.grants[i].createdAt <= g.grants[j].createdAt
  }

  function Consume(g: Gov, i: nat, at: int, now: int): Gov
    requires i < |g.grants|
  {
    g.(grants := g.grants[i := g.grants[i].(consumed := true, checkedAt := at, spentAt := now)])
  }

  /** `record_auto_execution`: the row is born consumed; None when its id is taken. */
  function RecordAuto(g: Gov, key: Key, source: Source, id: string, now: int): Option<Gov> {
    if HasId(g.grants, id) then None
    else Some(g.(grants := g.grants + [Grant(id, source, key, now, now + 60, true, now, now)]))
  }

  predicate HasOnce(g: Gov, id: IntentId, toolId: string) {
    id in g.once && g.once[id].toolId == toolId && !g.once[id].consumed
  }

  /** `consume_once`. */
  function ConsumeOnce(g: Gov, id: IntentId, toolId: string): Option<Gov> {
    if HasOnce(g, id, toolId) then Some(g.(once := g.once[id := g.once[id].(consumed := true)])) else None
  }

  // ----- the store -----------------------------------------------------------------------

  class GovernanceStore {
    var stop: bool
    var exceptions: set<string>
    var overrides: map<string, Category>
    var executions: map<Key, Approval>
    var intents: map<IntentId, IntentApproval>
    var once: map<IntentId, Once>
    var grants: seq<Grant>

    function State(): Gov reads this { Gov(stop, exceptions, overrides, executions, intents, once, grants) }

    constructor ()
      ensures State() == FRESH
    {
      stop, exceptions, overrides, executions, intents, once, grants := false, {}, map[], map[], map[], map[], [];
    }

    method RecordExecutionApproval(key: Key)
      modifies this
      ensures State() == RecordExecution(old(State()), key)
    {
      executions := executions[key := PendingApproval];
    }

    method RecordPendingApproval(id: IntentId, capability: string)
      modifies this
      ensures State() == RecordIntent(old(State()), id, capability)
    {
      intents := intents[id := IntentApproval(id.toolId, capability, PendingApproval)];
    }

    method SetEmergencyStop(enabled: bool)
      modifies this
      ensures State() == SetStop(old(State()), enabled)
    {
      stop := enabled;
    }

    method AddToolException(toolId: string)
      modifies this
      ensures State() == AddException(old(State()), toolId)
    {
      exceptions := exceptions + {toolId};
      intents := map k | k in intents ::
        if intents[k].toolId == toolId then intents[k].(status := Decided(intents[k].status, ByException)) else intents[k];
      executions := map k | k in executions :: if k.toolId == toolId then Decided(executions[k], ByException) else executions[k];
    }

    method RemoveToolException(toolId: string)
      modifies this
      ensures State() == RemoveException(old(State()), toolId)
    {
      exceptions := exceptions - {toolId};
    }

    method SetCapabilityOverride(capability: string, category: Category)
      modifies this
      ensures State() == SetOverride(old(State()), capability, category)
    {
      overrides := overrides[capability := category];
      intents := map k | k in intents ::
        if intents[k].capability == capability then intents[k].(status := Decided(intents[k].status, ByOverride)) else intents[k];
      executions := map k | k in executions :: if k.capability == capability then Decided(executions[k], ByOverride) else executions[k];
    }

    method RemoveCapabilityOverride(capability: string)
      modifies this
      ensures State() == RemoveOverride(old(State()), capability)
    {
      overrides := overrides - {capability};
    }

    /** `grant_once` on an execution request; nothing changes when it raises. */
    method GrantOnce(key: Key, toolId: string, seconds: int, id: string, now: int) returns (ok: bool)
      modifies this
      ensures var r := GrantExecution(old(State()), key, toolId, seconds, id, now);
        ok == r.Some? && State() == if ok then r.value else old(State())
    {
      if key !in executions || key.toolId != toolId || executions[key] != PendingApproval || HasId(grants, id) {
        return false;
      }
      grants := grants + [Grant(id, Human, key, now, now + Ttl(seconds), false, 0, 0)];
      executions := executions[key := ApprovedOnce];
      ok := true;
    }

    method GrantOnceForIntent(id: IntentId, toolId: string) returns (ok: bool)
      modifies this
      ensures var r := GrantIntent(old(State()), id, toolId);
        ok == r.Some? && State() == if ok then r.value else old(State())
    {
      if id !in intents || intents[id].toolId != toolId || intents[id].status != PendingApproval { return false; }
      once := once[id := Once(toolId, false)];
      intents := intents[id := intents[id].(status := ApprovedOnce)];
      ok := true;
    }

    method HasExecutionGrant(key: Key, now: int) returns (found: bool)
      ensures found == HasGrant(State(), key, now)
    {
      found := exists i :: 0 <= i < |grants| && Usable(grants[i], key, now);
    }

    /** `consume_execution_grant`: one row that matches at the instant read before, an oldest one, or nothing. */
    method ConsumeExecutionGrant(key: Key, at: int, now: int) returns (id: Option<string>, ghost pick: nat)
      modifies this
      ensures id.Some? <==> HasGrant(old(State()), key, at)
      ensures id.None? ==> State() == old(State())
      ensures id.Some? ==> IsEarliest(old(State()), key, at, pick)
      ensures id.Some? ==> id.value == old(grants)[pick].id && State() == Consume(old(State()), pick, at, now)
    {
      var best: Option<nat> := None;
      var k := 0;
      while k < |grants|
        invariant k <= |grants|
        invariant best.None? ==> forall j :: 0 <= j < k ==> !Usable(grants[j], key, at)
        invariant best.Some? ==> best.value < k && Usable(grants[best.value], key, at)
        invariant best.Some? ==>
          forall j :: 0 <= j < k && Usable(grants[j], key, at) ==> grants[best.value].createdAt <= grants[j].createdAt
      {
        if Usable(grants[k], key, at) && (best.None? || grants[k].createdAt < grants[best.value].createdAt) {
          best := Some(k);
        }
        k := k + 1;
      }
      pick := 0;
      if best.None? { return None, pick; }
      pick := best.value;
      id := Some(grants[best.value].id);
      grants := grants[best.value := grants[best.value].(consumed := true, checkedAt := at, spentAt := now)];
    }

    method RecordAutoExecution(key: Key, source: Source, id: string, now: int) returns (ok: bool)
      modifies this
      ensures var r := RecordAuto(old(State()), key, source, id, now);
        ok == r.Some? && State() == if ok then r.value else old(State())
    {
      if HasId(grants, id) { return false; }
      grants := grants + [Grant(id, source, key, now, now + 60, true, now, now)];
      ok := true;
    }

    method ConsumeOnceFor(id: IntentId, toolId: string) returns (ok: bool)
      modifies this
      ensures var r := ConsumeOnce(old(State()), id, toolId);
        ok == r.Some? && State() == if ok then r.value else old(State())
    {
      ok := HasOnce(State(), id, toolId);
      if ok { once := once[id := once[id].(consumed := true)]; }
    }
  }
}
