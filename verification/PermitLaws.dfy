/**
 What `permit` answers, said of the store's rows and the call alone: who may pass without a human, what is
 asked for, what is spent, and what is written.
 */
module PermitLaws {
  import opened Statuses
  import opened Authority
  import opened Governance
  import opened Permits

  /** The risk categories are ordered as they are named. */
  lemma RiskOrder()
    ensures Rank(Safe) < Rank(Low) < Rank(Medium) < Rank(High) < Rank(Critical)
  {}

  /**
   The step that takes the snapshot. A stop bars; discovery needs nothing; and otherwise a human is needed
   exactly for a tool that is not excepted and whose category, the override of its capability if there is
   one, is over the ceiling.
   */
  lemma SnapshotLaw(g: Gov, call: Call, w: World, maxAuto: Category, e: Category)
    requires call.pc.Begun?
    requires e == if call.key.capability in g.overrides then g.overrides[call.key.capability] else call.category
    ensures var next := Advance(g, call, w, maxAuto);
      var tool, capability := call.key.toolId, call.key.capability;
      && next.gov == g && next.call == call.(pc := next.call.pc)
      && (next.call.pc == Barred <==> g.stop)
      && (!g.stop && call.discovery ==> next.call.pc == Minting(ToDiscover))
      && (!g.stop && !call.discovery ==>
            && (next.call.pc == Checking <==> tool !in g.exceptions && Rank(e) > Rank(maxAuto))
            && (next.call.pc == Minting(On(Exception)) <==> tool in g.exceptions)
            && (next.call.pc == Minting(On(Override)) <==>
                  tool !in g.exceptions && Rank(e) <= Rank(maxAuto) && capability in g.overrides)
            && (next.call.pc == Minting(On(Auto)) <==>
                  tool !in g.exceptions && Rank(e) <= Rank(maxAuto) && capability !in g.overrides))
  {
    hide Rank;
  }

  /** A row that stands for the invocation and has time left. */
  predicate Matches(r: Grant, key: Key, at: int) {
    r.key.agentId == key.agentId && r.key.runId == key.runId && r.key.toolId == key.toolId && r.key.capability == key.capability
    && r.key.repository == key.repository && r.key.branch == key.branch && r.key.argsHash == key.argsHash
    && !r.consumed && at < r.expiresAt
  }

  lemma MatchesUsable(r: Grant, key: Key, at: int)
    ensures Matches(r, key, at) <==> Usable(r, key, at)
  {}

  /** A call that asks goes on to mint exactly when some row matches, and otherwise records its request. */
  lemma AskLaw(g: Gov, call: Call, w: World, maxAuto: Category)
    requires call.pc.Asking?
    ensures var next := Advance(g, call, w, maxAuto);
      && next.gov == g
      && (next.call.pc == Minting(On(Human)) <==> exists i :: 0 <= i < |g.grants| && Matches(g.grants[i], call.key, call.pc.at))
      && (next.call.pc == Recording <==> !exists i :: 0 <= i < |g.grants| && Matches(g.grants[i], call.key, call.pc.at))
  {
    forall i | 0 <= i < |g.grants| ensures Matches(g.grants[i], call.key, call.pc.at) <==> Usable(g.grants[i], call.key, call.pc.at) {
      MatchesUsable(g.grants[i], call.key, call.pc.at);
    }
    hide Matches, Usable;
  }

  /** A recorded request is pending afterwards, whatever it was, and nothing else of the store changes. */
  lemma RecordLaw(g: Gov, call: Call, w: World, maxAuto: Category)
    requires call.pc.Recording?
    ensures var next := Advance(g, call, w, maxAuto);
      && next.call.pc == Barred
      && call.key in next.gov.executions && next.gov.executions[call.key] == PendingApproval
      && (forall k :: k in g.executions && k != call.key ==>
            k in next.gov.executions && next.gov.executions[k] == g.executions[k])
      && next.gov.executions.Keys == g.executions.Keys + {call.key}
      && next.gov == g.(executions := next.gov.executions)
  {}

  // ----- a whole call --------------------------------------------------------------------

  /** The category that counts: the override of the capability, if there is one. */
  predicate Counts(g: Gov, key: Key, category: Category, e: Category) {
    e == if key.capability in g.overrides then g.overrides[key.capability] else category
  }

  /** An undisturbed call under a stop, or for discovery, writes nothing. */
  lemma UncheckedLaw(g: Gov, key: Key, category: Category, discovery: bool, w: World, maxAuto: Category)
    requires g.stop || discovery
    ensures var end := Alone(g, NewCall(key, category, discovery), w, maxAuto, 6);
      && end.gov == g
      && end.call.pc == if g.stop then Barred else if w.mintOk then Permitted(ToDiscover, "") else Failed
  {
    var call := NewCall(key, category, discovery);
    hide Alone, Rank;
    if g.stop {
      AloneStep(g, call, w, maxAuto, 6);
    } else {
      OtherPath(g, call, ToDiscover, w, maxAuto);
    }
  }

  /** One that needs no human mints, and writes one spent row of its own, or fails and writes nothing. */
  lemma AutomaticLaw(g: Gov, key: Key, category: Category, e: Category, w: World, maxAuto: Category)
    requires !g.stop && Counts(g, key, category, e) && (key.toolId in g.exceptions || Rank(e) <= Rank(maxAuto))
    ensures var end := Alone(g, NewCall(key, category, false), w, maxAuto, 6);
      var source := if key.toolId in g.exceptions then Exception else if key.capability in g.overrides then Override else Auto;
      if w.mintOk && forall i :: 0 <= i < |g.grants| ==> g.grants[i].id != w.id then
        && end.call.pc == Permitted(On(source), w.id)
        && end.gov == g.(grants := g.grants + [Grant(w.id, source, key, w.now, w.now + 60, true, w.now, w.now)])
      else end.gov == g && end.call.pc == Failed
  {
    var call := NewCall(key, category, false);
    var source := if key.toolId in g.exceptions then Exception else if key.capability in g.overrides then Override else Auto;
    hide Alone, Rank;
    OtherPath(g, call, On(source), w, maxAuto);
  }

  /** The oldest of the matching rows. */
  predicate Oldest(grants: seq<Grant>, key: Key, at: int, i: nat) {
    i < |grants| && Matches(grants[i], key, at)
    && forall j :: 0 <= j < |grants| && Matches(grants[j], key, at) ==> grants[i].createdAt <= grants[j].createdAt
  }

  /**
   One that needs a human: without a matching row its request becomes pending and it is barred; with one, it
   mints first, and only then spends an oldest matching row, that row alone.
   */
  lemma HumanLaw(g: Gov, key: Key, category: Category, e: Category, w: World, maxAuto: Category)
    requires !g.stop && Counts(g, key, category, e) && key.toolId !in g.exceptions && Rank(e) > Rank(maxAuto)
    requires Returned(Alone(g, NewCall(key, category, false), w, maxAuto, 6).call.pc)
    ensures var end := Alone(g, NewCall(key, category, false), w, maxAuto, 6);
      if forall i :: 0 <= i < |g.grants| ==> !Matches(g.grants[i], key, w.now) then
        end.call.pc == Barred && end.gov == g.(executions := g.executions[key := PendingApproval])
      else if !w.mintOk then end.call.pc == Failed && end.gov == g
      else
        && Oldest(g.grants, key, w.now, w.pick) && end.call.pc == Permitted(On(Human), g.grants[w.pick].id)
        && end.gov == g.(grants := g.grants[w.pick := g.grants[w.pick].(consumed := true, checkedAt := w.now, spentAt := w.now)])
  {
    var call := NewCall(key, category, false);
    forall i | 0 <= i < |g.grants| ensures Matches(g.grants[i], key, w.now) <==> Usable(g.grants[i], key, w.now) {
      MatchesUsable(g.grants[i], key, w.now);
    }
    assert Decide(g, call, maxAuto).Checking?;
    hide Alone, Rank, Matches, Usable, Decide;
    if HasGrant(g, key, w.now) {
      if !w.mintOk || IsEarliest(g, key, w.now, w.pick) {
        HumanPath(g, call, w, maxAuto);
      } else {
        HumanWaits(g, call, w, maxAuto);
      }
    } else {
      NoGrantPath(g, call, w, maxAuto);
    }
  }

  /** With a pick that answers no query a call does not return. */
  lemma HumanWaits(g: Gov, call: Call, w: World, maxAuto: Category)
    requires call.pc.Begun? && Decide(g, call, maxAuto).Checking? && HasGrant(g, call.key, w.now) && w.mintOk
    requires !IsEarliest(g, call.key, w.now, w.pick)
    ensures !Returned(Alone(g, call, w, maxAuto, 6).call.pc)
  {
    hide Decide, Alone, HasGrant, IsEarliest, Consume;
    var minting := call.(pc := Minting(On(Human)));
    AloneStep(g, call, w, maxAuto, 6);
    AloneStep(g, call.(pc := Checking), w, maxAuto, 5);
    AloneStep(g, call.(pc := Asking(w.now)), w, maxAuto, 4);
    AloneStep(g, minting, w, maxAuto, 3);
    AloneStep(g, minting.(minted := true, pc := Claiming), w, maxAuto, 2);
    AloneStep(g, minting.(minted := true, pc := Spending(w.now)), w, maxAuto, 1);
    assert Alone(g, minting.(minted := true, pc := Spending(w.now)), w, maxAuto, 0).call.pc == Spending(w.now) by { AloneNone(g, minting.(minted := true, pc := Spending(w.now)), w, maxAuto); }
  }

  lemma AloneNone(g: Gov, call: Call, w: World, maxAuto: Category)
    ensures Alone(g, call, w, maxAuto, 0) == Stepped(g, call)
  {}

  // ----- approvals -----------------------------------------------------------------------

  /** An approval is granted exactly for a pending request, asked for by its own tool, under an id nobody has. */
  lemma ApprovalLaw(g: Gov, key: Key, toolId: string, seconds: int, id: string, now: int)
    ensures var r := GrantExecution(g, key, toolId, seconds, id, now);
      && (r.Some? <==> key in g.executions && g.executions[key] == PendingApproval && toolId == key.toolId
                       && forall i :: 0 <= i < |g.grants| ==> g.grants[i].id != id)
      && (r.Some? ==> var lifetime := if seconds < 10 then 10 else if seconds > 900 then 900 else seconds;
            && r.value == g.(grants := r.value.grants, executions := g.executions[key := ApprovedOnce])
            && r.value.grants == g.grants + [Grant(id, Human, key, now, now + lifetime, false, 0, 0)])
  {}

  /** An exception is in force from then on, and decides exactly the pending requests of its tool. */
  lemma ExceptionLaw(g: Gov, toolId: string)
    ensures var next := AddException(g, toolId);
      && next.exceptions == g.exceptions + {toolId} && next.executions.Keys == g.executions.Keys
      && (forall k :: k in g.executions && k.toolId == toolId && g.executions[k] == PendingApproval ==> next.executions[k] == ByException)
      && (forall k :: k in g.executions && !(k.toolId == toolId && g.executions[k] == PendingApproval) ==>
            next.executions[k] == g.executions[k])
      && next.stop == g.stop && next.overrides == g.overrides && next.grants == g.grants && next.once == g.once
  {}

  /** So does an override, of its capability. */
  lemma OverrideLaw(g: Gov, capability: string, category: Category)
    ensures var next := SetOverride(g, capability, category);
      && next.overrides == g.overrides[capability := category] && next.executions.Keys == g.executions.Keys
      && (forall k :: k in g.executions && k.capability == capability && g.executions[k] == PendingApproval ==>
            next.executions[k] == ByOverride)
      && (forall k :: k in g.executions && !(k.capability == capability && g.executions[k] == PendingApproval) ==>
            next.executions[k] == g.executions[k])
      && next.stop == g.stop && next.exceptions == g.exceptions && next.grants == g.grants && next.once == g.once
  {}

  // ----- over a run ----------------------------------------------------------------------

  /** What a call has been let through on, from the snapshot on. */
  function WarrantOf(pc: Pc): Option<Warrant> {
    match pc
    case Checking => Some(On(Human))
    case Asking(_) => Some(On(Human))
    case Recording => Some(On(Human))
    case Claiming => Some(On(Human))
    case Spending(_) => Some(On(Human))
    case Minting(warrant) => Some(warrant)
    case Finishing(source) => Some(On(source))
    case Permitted(warrant, _) => Some(warrant)
    case _ => None
  }

  /** In this state the call takes its snapshot, and the store's rows let it through on this warrant. */
  predicate LetThrough(s: System, c: nat, call: Call, warrant: Warrant, maxAuto: Category) {
    && c < |s.calls| && s.calls[c] == call.(pc := Begun, minted := false) && !s.gov.stop
    && var tool, capability := call.key.toolId, call.key.capability;
       var e := if capability in s.gov.overrides then s.gov.overrides[capability] else call.category;
       match warrant
       case ToDiscover => call.discovery
       case On(source) =>
         && !call.discovery
         && (source == Human <==> tool !in s.gov.exceptions && Rank(e) > Rank(maxAuto))
         && (source == Exception <==> tool in s.gov.exceptions)
         && (source == Override <==> tool !in s.gov.exceptions && Rank(e) <= Rank(maxAuto) && capability in s.gov.overrides)
  }

  ghost predicate Traced(now: int, acts: seq<Act>, maxAuto: Category, c: nat, call: Call, warrant: Warrant) {
    exists k :: 0 <= k < |acts| && acts[k].Proceed? && acts[k].c == c
                && LetThrough(Run(Initial(now), acts[..k], maxAuto), c, call, warrant, maxAuto)
  }

  /** A step out of the snapshot is as the rows say; any later one keeps the warrant. */
  lemma StepWarrant(s: System, c: nat, w: World, maxAuto: Category)
    requires c < |s.calls| && WarrantOf(Advance(s.gov, s.calls[c], w, maxAuto).call.pc).Some?
    requires s.calls[c].pc.Begun? ==> !s.calls[c].minted
    ensures var next := Advance(s.gov, s.calls[c], w, maxAuto).call;
      var warrant := WarrantOf(next.pc).value;
      if s.calls[c].pc.Begun? then LetThrough(s, c, next, warrant, maxAuto)
      else WarrantOf(s.calls[c].pc) == Some(warrant)
           && next.key == s.calls[c].key && next.category == s.calls[c].category && next.discovery == s.calls[c].discovery
  {
    var call := s.calls[c];
    if call.pc.Begun? {
      var e := if call.key.capability in s.gov.overrides then s.gov.overrides[call.key.capability] else call.category;
      SnapshotLaw(s.gov, call, w, maxAuto, e);
      Decisions(s.gov, call, maxAuto);
      hide Advance, Rank;
      var next := Advance(s.gov, call, w, maxAuto).call;
      assert next.(pc := Begun, minted := false) == call;
    } else {
      hide HasGrant, IsEarliest, RecordAuto, Consume;
    }
  }

  lemma {:induction false} FreshUnminted(now: int, acts: seq<Act>, maxAuto: Category, c: nat)
    requires c < |Run(Initial(now), acts, maxAuto).calls| && Run(Initial(now), acts, maxAuto).calls[c].pc.Begun?
    ensures !Run(Initial(now), acts, maxAuto).calls[c].minted
  {
    if acts != [] {
      var init, act := acts[..|acts| - 1], acts[|acts| - 1];
      var s := Run(Initial(now), init, maxAuto);
      if act.Proceed? && act.c < |s.calls| { NeverAgainBegun(s.gov, s.calls[act.c], World(s.now, act.mintOk, act.id, act.pick), maxAuto); }
      hide Advance;
      if c < |s.calls| && s.calls[c].pc.Begun? { FreshUnminted(now, init, maxAuto, c); }
    }
  }

  lemma NeverAgainBegun(g: Gov, call: Call, w: World, maxAuto: Category)
    ensures !Advance(g, call, w, maxAuto).call.pc.Begun?
  {
    Decisions(g, call, maxAuto);
    hide Decide, HasGrant, IsEarliest, RecordAuto;
  }

  lemma TracedLonger(now: int, acts: seq<Act>, maxAuto: Category, c: nat, before: Call, call: Call, warrant: Warrant)
    requires acts != [] && Traced(now, acts[..|acts| - 1], maxAuto, c, before, warrant)
    requires call.key == before.key && call.category == before.category && call.discovery == before.discovery
    ensures Traced(now, acts, maxAuto, c, call, warrant)
  {
    var init := acts[..|acts| - 1];
    var k :| 0 <= k < |init| && init[k].Proceed? && init[k].c == c
             && LetThrough(Run(Initial(now), init[..k], maxAuto), c, before, warrant, maxAuto);
    assert init[..k] == acts[..k] && init[k] == acts[k];
    assert call.(pc := Begun, minted := false) == before.(pc := Begun, minted := false);
    hide Run, Rank;
  }

  /**
   Over every interleaving, whoever is let through, and every permit, has an earlier state, the one its call
   took its snapshot in, in which the stop was off and the rows allowed it: for any permit no human gave, it
   was discovery, or the tool was excepted, or its category was within the ceiling.
   */
  lemma {:induction false} EveryWarrantTraced(now: int, acts: seq<Act>, maxAuto: Category, c: nat)
    requires c < |Run(Initial(now), acts, maxAuto).calls|
    requires WarrantOf(Run(Initial(now), acts, maxAuto).calls[c].pc).Some?
    ensures var call := Run(Initial(now), acts, maxAuto).calls[c];
      Traced(now, acts, maxAuto, c, call, WarrantOf(call.pc).value)
  {
    if acts != [] {
      var n := |acts| - 1;
      var init, act := acts[..n], acts[n];
      var s, end := Run(Initial(now), init, maxAuto), Run(Initial(now), acts, maxAuto);
      var call := end.calls[c];
      if act.Proceed? && act.c == c && c < |s.calls| {
        var w := World(s.now, act.mintOk, act.id, act.pick);
        assert call == Advance(s.gov, s.calls[c], w, maxAuto).call;
        if s.calls[c].pc.Begun? { FreshUnminted(now, init, maxAuto, c); }
        StepWarrant(s, c, w, maxAuto);
        hide Advance, Run, LetThrough;
        if s.calls[c].pc.Begun? {
          assert acts[..n] == init;
        } else {
          EveryWarrantTraced(now, init, maxAuto, c);
          TracedLonger(now, acts, maxAuto, c, s.calls[c], call, WarrantOf(call.pc).value);
        }
      } else {
        hide Advance;
        assert c < |s.calls| && s.calls[c] == call;
        EveryWarrantTraced(now, init, maxAuto, c);
        hide Run, LetThrough;
        TracedLonger(now, acts, maxAuto, c, call, call, WarrantOf(call.pc).value);
      }
    }
  }

  /** In particular a permit that no human gave. */
  lemma {:induction false} AutomaticPermits(now: int, acts: seq<Act>, maxAuto: Category, c: nat) returns (k: nat)
    requires var s := Run(Initial(now), acts, maxAuto);
      c < |s.calls| && s.calls[c].pc.Permitted? && s.calls[c].pc.warrant != On(Human)
    ensures k < |acts| && acts[k].Proceed? && acts[k].c == c
    ensures var call, s := Run(Initial(now), acts, maxAuto).calls[c], Run(Initial(now), acts[..k], maxAuto);
      && c < |s.calls| && s.calls[c].pc.Begun? && !s.gov.stop
      && (call.discovery || call.key.toolId in s.gov.exceptions
          || Rank(if call.key.capability in s.gov.overrides then s.gov.overrides[call.key.capability] else call.category) <= Rank(maxAuto))
  {
    EveryWarrantTraced(now, acts, maxAuto, c);
    hide Run, Rank;
    var call := Run(Initial(now), acts, maxAuto).calls[c];
    k :| 0 <= k < |acts| && acts[k].Proceed? && acts[k].c == c
         && LetThrough(Run(Initial(now), acts[..k], maxAuto), c, call, WarrantOf(call.pc).value, maxAuto);
  }
}
