/** What the resolver marks, shows, selects and asks for, said of the candidates' own fields. */
module ResolverLaws {
  import opened Statuses
  import opened Text
  import opened Authority
  import opened Permits
  import opened Resolver

  // ----- risk ----------------------------------------------------------------------------

  const NONE := Semantics(false, false, false, false, false, false, false)

  const UNHINTED := Hints(false, false)

  /** Either of two sets of privileges. */
  function Both(a: Semantics, b: Semantics): Semantics {
    Semantics(a.read || b.read, a.write || b.write, a.destructive || b.destructive, a.egress || b.egress,
              a.credentialAccess || b.credentialAccess, a.arbitraryExecution || b.arbitraryExecution, a.openWorld || b.openWorld)
  }

  predicate Apart(a: Semantics, b: Semantics) {
    !(a.read && b.read) && !(a.write && b.write) && !(a.destructive && b.destructive) && !(a.egress && b.egress)
    && !(a.credentialAccess && b.credentialAccess) && !(a.arbitraryExecution && b.arbitraryExecution) && !(a.openWorld && b.openWorld)
  }

  /** What each privilege alone scores. */
  lemma SingleScores()
    ensures Score(NONE, UNHINTED) == 0
    ensures Score(NONE.(read := true), UNHINTED) == 5 && Score(NONE.(write := true), UNHINTED) == 22
    ensures Score(NONE.(destructive := true), UNHINTED) == 35 && Score(NONE.(egress := true), UNHINTED) == 24
    ensures Score(NONE.(credentialAccess := true), UNHINTED) == 32 && Score(NONE.(arbitraryExecution := true), UNHINTED) == 45
    ensures Score(NONE.(openWorld := true), UNHINTED) == 18
  {}

  /** Scores of different privileges add up, to at most 100. */
  lemma ScoresAdd(a: Semantics, b: Semantics)
    requires Apart(a, b)
    ensures Score(Both(a, b), UNHINTED)
      == if Score(a, UNHINTED) + Score(b, UNHINTED) > 100 then 100 else Score(a, UNHINTED) + Score(b, UNHINTED)
  {
    SumsAdd(a, b);
    hide Weights, Both;
  }

  lemma SumsAdd(a: Semantics, b: Semantics)
    requires Apart(a, b)
    ensures Weights(Both(a, b)) == Weights(a) + Weights(b)
  {
    var c := Both(a, b);
    EachAdds(a, b);
    hide Weight, Weights, Both, Apart;
    Expand(a);
    Expand(b);
    Expand(c);
  }

  lemma Expand(s: Semantics)
    ensures Weights(s) == Weight(s.read, 5) + Weight(s.write, 22) + Weight(s.destructive, 35) + Weight(s.egress, 24)
                          + Weight(s.credentialAccess, 32) + Weight(s.arbitraryExecution, 45) + Weight(s.openWorld, 18)
  {
    hide Weight;
  }

  lemma EachAdds(a: Semantics, b: Semantics)
    requires Apart(a, b)
    ensures var c := Both(a, b);
      && Weight(c.read, 5) == Weight(a.read, 5) + Weight(b.read, 5)
      && Weight(c.write, 22) == Weight(a.write, 22) + Weight(b.write, 22)
      && Weight(c.destructive, 35) == Weight(a.destructive, 35) + Weight(b.destructive, 35)
      && Weight(c.egress, 24) == Weight(a.egress, 24) + Weight(b.egress, 24)
      && Weight(c.credentialAccess, 32) == Weight(a.credentialAccess, 32) + Weight(b.credentialAccess, 32)
      && Weight(c.arbitraryExecution, 45) == Weight(a.arbitraryExecution, 45) + Weight(b.arbitraryExecution, 45)
      && Weight(c.openWorld, 18) == Weight(a.openWorld, 18) + Weight(b.openWorld, 18)
  {
    var c := Both(a, b);
    WeightAdds(a.read, b.read, c.read, 5);
    WeightAdds(a.write, b.write, c.write, 22);
    WeightAdds(a.destructive, b.destructive, c.destructive, 35);
    WeightAdds(a.egress, b.egress, c.egress, 24);
    WeightAdds(a.credentialAccess, b.credentialAccess, c.credentialAccess, 32);
    WeightAdds(a.arbitraryExecution, b.arbitraryExecution, c.arbitraryExecution, 45);
    WeightAdds(a.openWorld, b.openWorld, c.openWorld, 18);
    hide Weight;
  }

  lemma WeightAdds(a: bool, b: bool, either: bool, weight: nat)
    requires !(a && b) && either == (a || b)
    ensures Weight(either, weight) == Weight(a, weight) + Weight(b, weight)
  {}

  /** A hint adds its own weight, unless the privilege it hints at is there. */
  lemma HintsAdd(s: Semantics, h: Hints)
    ensures var extra := (if h.destructive && !s.destructive then 20 else 0) + if h.notReadOnly && !s.write then 8 else 0;
      Score(s, h) == if Score(s, UNHINTED) + extra > 100 then 100 else Score(s, UNHINTED) + extra
  {}

  /** The category is the highest whose floor the score reaches. */
  lemma CategoryFloors(score: int)
    ensures CategoryForScore(score) == Critical <==> score >= 80
    ensures CategoryForScore(score) in {High, Critical} <==> score >= 60
    ensures CategoryForScore(score) in {Medium, High, Critical} <==> score >= 35
    ensures CategoryForScore(score) != Safe <==> score >= 15
  {}

  // ----- dominance -----------------------------------------------------------------------

  /** The other is of another tool, nearly as fit, strictly less risky, and has no privilege this one lacks. */
  predicate Beats(o: Candidate, c: Candidate) {
    && o.id != c.id && c.fit - o.fit <= 0.08 && o.score < c.score
    && (o.semantics.read ==> c.semantics.read) && (o.semantics.write ==> c.semantics.write)
    && (o.semantics.destructive ==> c.semantics.destructive) && (o.semantics.egress ==> c.semantics.egress)
    && (o.semantics.credentialAccess ==> c.semantics.credentialAccess)
    && (o.semantics.arbitraryExecution ==> c.semantics.arbitraryExecution)
    && (o.semantics.openWorld ==> c.semantics.openWorld)
  }

  /** A candidate is marked exactly when another one beats it, and nothing else of it changes. */
  lemma MarkedExactly(all: seq<Candidate>, i: nat)
    requires i < |all|
    ensures |Marked(all)| == |all|
    ensures Marked(all)[i] == all[i].(dominated := Marked(all)[i].dominated)
    ensures Marked(all)[i].dominated <==> exists j :: 0 <= j < |all| && Beats(all[j], all[i])
  {
    forall o, c: Candidate ensures Beats(o, c) <==> o.id != c.id && Dominates(o, c) {}
    hide Beats, Dominates;
  }

  // ----- what is shown -------------------------------------------------------------------

  /** Undominated and within the ceiling or excepted, or else the requested tool, excepted or allowed once. */
  predicate Shown(c: Candidate, p: Policy) {
    var e := if c.capability in p.overrides then p.overrides[c.capability] else c.category;
    || (!c.dominated && (Rank(e) <= Rank(p.ceiling) || c.id in p.exceptions))
    || (p.requested == Some(c.id) && (c.id in p.exceptions || c.id in p.once))
  }

  lemma ShownExactly(c: Candidate, p: Policy)
    ensures Eligible(c, p) <==> Shown(c, p)
  {
    hide Rank;
  }

  lemma VisibleExactly(all: seq<Candidate>, p: Policy)
    ensures forall c :: c in Resolve(all, p, false).visible <==> c in Marked(all) && Shown(c, p)
  {
    VisibleMembers(all, p);
    forall c ensures Eligible(c, p) <==> Shown(c, p) { ShownExactly(c, p); }
    hide Eligible, Shown, Resolve, Marked;
  }

  /** Nobody behind is fitter, or as fit and less risky, or as fit and risky and earlier by id. */
  predicate Ranked(s: seq<Candidate>) {
    forall i, j :: 0 <= i < j < |s| ==> AtLeast(s[i], s[j])
  }

  predicate AtLeast(a: Candidate, b: Candidate) {
    a.fit >= b.fit && (a.fit == b.fit ==> a.score <= b.score && (a.score == b.score ==> !Less(b.id, a.id)))
  }

  lemma RankedExactly(s: seq<Candidate>)
    ensures Ordered(s) <==> Ranked(s)
  {
    forall i, j | 0 <= i < j < |s| ensures !Ahead(s[j], s[i]) <==> AtLeast(s[i], s[j]) {}
    hide Ahead, AtLeast;
  }

  lemma VisibleRanked(all: seq<Candidate>, p: Policy)
    ensures Ranked(Resolve(all, p, false).visible)
  {
    ResolveSplits(all, p);
    RankedExactly(Resolve(all, p, false).visible);
    hide Ranked, Ordered, Resolve;
  }

  // ----- what is chosen ------------------------------------------------------------------

  /** The first candidate of the requested tool. */
  predicate IsRequested(all: seq<Candidate>, p: Policy, i: nat) {
    i < |all| && p.requested == Some(all[i].id) && forall j :: 0 <= j < i ==> all[j].id != all[i].id
  }

  predicate Granted(c: Candidate, p: Policy) { c.id in p.exceptions || c.id in p.once }

  /** The override of the capability, if there is one. */
  function Applied(c: Candidate, p: Policy): Category {
    if c.capability in p.overrides then p.overrides[c.capability] else c.category
  }

  predicate Over(c: Candidate, p: Policy) { Rank(Applied(c, p)) > Rank(p.ceiling) }

  lemma {:induction false} NamedFirst(all: seq<Candidate>, id: Option<string>) returns (i: nat)
    ensures Named(all, id).Some? ==>
      i < |all| && all[i] == Named(all, id).value && id == Some(all[i].id) && forall j :: 0 <= j < i ==> all[j].id != all[i].id
    ensures Named(all, id).None? ==> forall j :: 0 <= j < |all| ==> id != Some(all[j].id)
  {
    i := 0;
    if all != [] && Some(all[0].id) != id {
      i := NamedFirst(all[1..], id);
      assert forall j :: 0 < j < |all| ==> all[j] == all[1..][j - 1];
      i := i + 1;
    }
  }

  lemma RequestFound(all: seq<Candidate>, p: Policy, i: nat)
    requires IsRequested(all, p, i)
    ensures Named(Marked(all), p.requested) == Some(Marked(all)[i])
  {
    var k := NamedFirst(Marked(all), p.requested);
    assert Marked(all)[i].id == all[i].id && forall j :: 0 <= j < |all| ==> Marked(all)[j].id == all[j].id;
    hide Marked, Named;
  }

  lemma NobodyRequested(all: seq<Candidate>, p: Policy)
    requires forall i :: 0 <= i < |all| ==> p.requested != Some(all[i].id)
    ensures Named(Marked(all), p.requested) == None
  {
    var k := NamedFirst(Marked(all), p.requested);
    assert forall j :: 0 <= j < |all| ==> Marked(all)[j].id == all[j].id;
    hide Marked, Named;
  }

  lemma BestFirst(s: seq<Candidate>)
    requires Ranked(s)
    ensures s != [] ==> s[0] in s && forall c :: c in s ==> AtLeast(s[0], c)
  {
    LessTotalSelf(s);
    hide AtLeast;
  }

  lemma LessTotalSelf(s: seq<Candidate>)
    ensures s != [] ==> AtLeast(s[0], s[0])
  {
    if s != [] { LessTotal(s[0].id, s[0].id); }
  }

  /** Without a request for one of the candidates, the best of those shown is selected, and nothing is asked for. */
  lemma UnrequestedChoice(all: seq<Candidate>, p: Policy)
    requires forall i :: 0 <= i < |all| ==> p.requested != Some(all[i].id)
    ensures var r := Resolve(all, p, false);
      && r.approval.None? && (r.selected.None? <==> r.visible == [])
      && (r.selected.Some? ==> r.selected.value in r.visible && forall c :: c in r.visible ==> AtLeast(r.selected.value, c))
  {
    NobodyRequested(all, p);
    VisibleRanked(all, p);
    BestFirst(Resolve(all, p, false).visible);
    hide Marked, Named, Ranked, AtLeast, Sorted, Keep;
  }

  /**
   With one: it is itself selected when excepted or allowed once; an approval of it is asked for, and nothing
   selected, exactly when it is over the ceiling and neither; otherwise again the best of those shown.
   */
  lemma RequestedChoice(all: seq<Candidate>, p: Policy, i: nat)
    requires IsRequested(all, p, i)
    ensures var r, c := Resolve(all, p, false), all[i];
      && (r.approval.Some? <==> Over(c, p) && !Granted(c, p))
      && (r.approval.Some? ==> r.selected.None? && r.approval.value == Approval(c.id, Applied(c, p)))
      && (Granted(c, p) ==> r.selected == Some(Marked(all)[i]))
      && (!Granted(c, p) && r.approval.None? ==>
            && (r.selected.None? <==> r.visible == [])
            && (r.selected.Some? ==> r.selected.value in r.visible && forall o :: o in r.visible ==> AtLeast(r.selected.value, o)))
  {
    RequestFound(all, p, i);
    VisibleRanked(all, p);
    BestFirst(Resolve(all, p, false).visible);
    assert Marked(all)[i] == all[i].(dominated := Marked(all)[i].dominated);
    hide Marked, Named, Ranked, AtLeast, Sorted, Keep, Rank;
  }

  /** Under a stop nothing is shown, selected or asked for, and every candidate comes back. */
  lemma StoppedChoice(all: seq<Candidate>, p: Policy)
    ensures var r := Resolve(all, p, true);
      r.stopped && r.selected.None? && r.approval.None? && r.visible == [] && r.filtered == all
    ensures !Resolve(all, p, false).stopped
  {
    hide Marked, Sorted, Keep, Named;
  }
}
