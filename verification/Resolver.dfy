/** The resolver: risk floors, dominance among candidates, and the choice under a ceiling. */
module Resolver {
  import opened Statuses
  import opened Text
  import opened Authority
  import opened Permits

  // ----- risk ----------------------------------------------------------------------------

  datatype Semantics = Semantics(
    read: bool, write: bool, destructive: bool, egress: bool,
    credentialAccess: bool, arbitraryExecution: bool, openWorld: bool)

  /** What the tool's own annotations say; anything but the telling value is false. */
  datatype Hints = Hints(destructive: bool, notReadOnly: bool)

  function Weight(flag: bool, weight: nat): nat { if flag then weight else 0 }

  function Weights(s: Semantics): nat {
    Weight(s.read, 5) + Weight(s.write, 22) + Weight(s.destructive, 35) + Weight(s.egress, 24)
    + Weight(s.credentialAccess, 32) + Weight(s.arbitraryExecution, 45) + Weight(s.openWorld, 18)
  }

  /** `assess_risk`. */
  function Score(s: Semantics, h: Hints): (score: nat)
    ensures score <= 100
  {
    var sum := Weights(s) + Weight(h.destructive && !s.destructive, 20) + Weight(h.notReadOnly && !s.write, 8);
    if sum > 100 then 100 else sum
  }

  function CategoryForScore(score: int): Category {
    if score >= 80 then Critical else if score >= 60 then High else if score >= 35 then Medium else if score >= 15 then Low else Safe
  }

  /** The privilege vector, component by component. */
  predicate NoMorePrivilege(a: Semantics, b: Semantics) {
    && (a.arbitraryExecution ==> b.arbitraryExecution) && (a.destructive ==> b.destructive)
    && (a.credentialAccess ==> b.credentialAccess) && (a.egress ==> b.egress) && (a.write ==> b.write)
    && (a.openWorld ==> b.openWorld) && (a.read ==> b.read)
  }

  /** The judge may add flags but not suppress risk: more flags never score or rank lower, whatever the hints. */
  lemma FlagsOnlyRaise(a: Semantics, b: Semantics, h: Hints)
    requires NoMorePrivilege(a, b)
    ensures Score(a, h) <= Score(b, h) && Rank(CategoryForScore(Score(a, h))) <= Rank(CategoryForScore(Score(b, h)))
  {}

  // ----- dominance -----------------------------------------------------------------------

  datatype Candidate = Candidate(
    id: string, capability: string, score: nat, category: Category, semantics: Semantics, fit: real, dominated: bool)

  const TOLERANCE: real := 0.08

  predicate Dominates(safer: Candidate, other: Candidate) {
    safer.fit + TOLERANCE >= other.fit && safer.score < other.score && NoMorePrivilege(safer.semantics, other.semantics)
  }

  predicate IsDominated(all: seq<Candidate>, c: Candidate) {
    exists i :: 0 <= i < |all| && all[i].id != c.id && Dominates(all[i], c)
  }

  /** `mark_dominated`. */
  function Marked(all: seq<Candidate>): (r: seq<Candidate>)
    ensures |r| == |all| && forall i :: 0 <= i < |all| ==> r[i] == all[i].(dominated := IsDominated(all, all[i]))
  {
    seq(|all|, i requires 0 <= i < |all| => all[i].(dominated := IsDominated(all, all[i])))
  }

  /** The fit given up along a chain of dominators is at most the tolerance for each point of score. */
  predicate Stands(u: Candidate, c: Candidate) {
    && u.score < c.score && NoMorePrivilege(u.semantics, c.semantics)
    && u.fit >= c.fit - TOLERANCE * (c.score - u.score) as real
  }

  /**
   Dominance is not transitive, yet every dominated candidate has an undominated one in the list that
   is strictly less risky, no more privileged, and nearly as fit.
   */
  lemma {:induction false} DominatedHasStandIn(all: seq<Candidate>, c: Candidate) returns (i: nat)
    requires IsDominated(all, c)
    ensures i < |all| && !IsDominated(all, all[i]) && Stands(all[i], c)
    decreases c.score
  {
    var d :| 0 <= d < |all| && all[d].id != c.id && Dominates(all[d], c);
    i := d;
    var gap := (c.score - all[d].score) as real;
    assert TOLERANCE * gap >= TOLERANCE;
    if IsDominated(all, all[d]) {
      i := DominatedHasStandIn(all, all[d]);
      Chained(all[i], all[d], c);
    }
  }

  lemma Chained(u: Candidate, d: Candidate, c: Candidate)
    requires Stands(u, d) && Dominates(d, c)
    ensures Stands(u, c)
  {
    var near, far := (d.score - u.score) as real, (c.score - d.score) as real;
    assert (c.score - u.score) as real == near + far && far >= 1.0;
    assert TOLERANCE * (near + far) == TOLERANCE * near + TOLERANCE * far;
  }

  lemma SomeoneUndominated(all: seq<Candidate>) returns (i: nat)
    requires all != []
    ensures i < |all| && !IsDominated(all, all[i])
  {
    i := 0;
    if IsDominated(all, all[0]) { i := DominatedHasStandIn(all, all[0]); }
  }

  // ----- resolving -----------------------------------------------------------------------

  datatype Policy = Policy(
    ceiling: Category, requested: Option<string>, once: set<string>, exceptions: set<string>, overrides: map<string, Category>)

  function Effective(c: Candidate, p: Policy): Category {
    if c.capability in p.overrides then p.overrides[c.capability] else c.category
  }

  predicate WithinCeiling(c: Candidate, p: Policy) { Rank(Effective(c, p)) <= Rank(p.ceiling) }

  predicate ByRequest(c: Candidate, p: Policy) { p.requested == Some(c.id) && (c.id in p.exceptions || c.id in p.once) }

  predicate Eligible(c: Candidate, p: Policy) {
    (!c.dominated && (WithinCeiling(c, p) || c.id in p.exceptions)) || ByRequest(c, p)
  }

  function Keep(all: seq<Candidate>, p: Policy, wanted: bool): (r: seq<Candidate>)
    ensures forall c :: c in r <==> c in all && Eligible(c, p) == wanted
  {
    if all == [] then [] else
    Keep(all[..|all| - 1], p, wanted)
    + if Eligible(all[|all| - 1], p) == wanted then [all[|all| - 1]] else []
  }

  /** The sort key: fitter, then less risky, then the smaller id. */
  predicate Ahead(a: Candidate, b: Candidate) {
    a.fit > b.fit || (a.fit == b.fit && (a.score < b.score || (a.score == b.score && Less(a.id, b.id))))
  }

  predicate Ordered(s: seq<Candidate>) { forall i, j :: 0 <= i < j < |s| ==> !Ahead(s[j], s[i]) }

  /** Stable: in front of everyone it is not behind. */
  function Insert(c: Candidate, s: seq<Candidate>): (r: seq<Candidate>)
    ensures multiset(r) == multiset(s) + multiset{c}
  {
    if s == [] || !Ahead(s[0], c) then
      assert [c] + s == [c] + s;
      [c] + s
    else
      assert s == [s[0]] + s[1..];
      [s[0]] + Insert(c, s[1..])
  }

  function Sorted(s: seq<Candidate>): (r: seq<Candidate>)
    ensures multiset(r) == multiset(s)
  {
    if s == [] then [] else
      assert s == [s[0]] + s[1..];
      Insert(s[0], Sorted(s[1..]))
  }

  lemma AheadTotal(a: Candidate, b: Candidate)
    ensures !(Ahead(a, b) && Ahead(b, a))
    ensures a.id != b.id ==> Ahead(a, b) || Ahead(b, a)
  {
    LessTotal(a.id, b.id);
  }

  lemma AheadTransitive(a: Candidate, b: Candidate, c: Candidate)
    requires !Ahead(b, a) && !Ahead(c, b)
    ensures !Ahead(c, a)
  {
    LessTotal(a.id, b.id);
    LessTotal(b.id, c.id);
    LessTotal(a.id, c.id);
    if Less(c.id, a.id) && Less(a.id, b.id) { LessTransitive(c.id, a.id, b.id); }
    if Less(b.id, c.id) && Less(c.id, a.id) { LessTransitive(b.id, c.id, a.id); }
  }

  lemma OrderedCons(c: Candidate, s: seq<Candidate>)
    requires Ordered(s) && forall x :: x in s ==> !Ahead(x, c)
    ensures Ordered([c] + s)
  {
    forall i, j | 0 <= i < j < |[c] + s| ensures !Ahead(([c] + s)[j], ([c] + s)[i]) {
      assert ([c] + s)[j] == s[j - 1] && (i > 0 ==> ([c] + s)[i] == s[i - 1]);
    }
  }

  lemma InsertMembers(c: Candidate, s: seq<Candidate>)
    ensures forall x :: x in Insert(c, s) ==> x == c || x in s
  {
    assert forall x :: x in Insert(c, s) ==> x in multiset(Insert(c, s));
  }

  lemma {:induction false} InsertOrdered(c: Candidate, s: seq<Candidate>)
    requires Ordered(s)
    ensures Ordered(Insert(c, s))
  {
    if s != [] {
      var h, t := s[0], s[1..];
      assert forall x :: x in t ==> !Ahead(x, h);
      if Ahead(h, c) {
        InsertOrdered(c, t);
        InsertMembers(c, t);
        AheadTotal(h, c);
        hide Ahead;
        OrderedCons(h, Insert(c, t));
      } else {
        forall x | x in s ensures !Ahead(x, c) { if x != h { AheadTransitive(c, h, x); } }
        hide Ahead;
        OrderedCons(c, s);
      }
    }
  }

  lemma {:induction false} SortedOrdered(s: seq<Candidate>)
    ensures Ordered(Sorted(s))
  {
    if s != [] {
      SortedOrdered(s[1..]);
      InsertOrdered(s[0], Sorted(s[1..]));
    }
  }

  datatype Approval = Approval(id: string, category: Category)

  datatype Resolution = Resolution(
    stopped: bool, selected: Option<Candidate>, visible: seq<Candidate>, filtered: seq<Candidate>, approval: Option<Approval>)

  /** The first candidate of that id. */
  function Named(all: seq<Candidate>, id: Option<string>): (r: Option<Candidate>)
    ensures r.Some? ==> r.value in all && Some(r.value.id) == id
    ensures r.None? ==> forall c :: c in all ==> Some(c.id) != id
  {
    if all == [] then None
    else if Some(all[0].id) == id then Some(all[0])
    else Named(all[1..], id)
  }

  function First(s: seq<Candidate>): Option<Candidate> { if s == [] then None else Some(s[0]) }

  /** `resolve`. */
  function Resolve(all: seq<Candidate>, p: Policy, stop: bool): Resolution {
    if stop then Resolution(true, None, [], all, None) else
    var marked := Marked(all);
    var visible := Sorted(Keep(marked, p, true));
    var requested := Named(marked, p.requested);
    var allowed := requested.Some? && (requested.value.id in p.once || requested.value.id in p.exceptions);
    if requested.Some? && !WithinCeiling(requested.value, p) && !allowed then
      Resolution(false, None, visible, Keep(marked, p, false), Some(Approval(requested.value.id, Effective(requested.value, p))))
    else
      Resolution(false, if allowed then requested else First(visible), visible, Keep(marked, p, false), None)
  }

  /** The same with the loops of the code: mark, split, sort, look the request up. */
  method ResolveLoop(all: seq<Candidate>, p: Policy, stop: bool) returns (r: Resolution)
    ensures r == Resolve(all, p, stop)
  {
    if stop { return Resolution(true, None, [], all, None); }
    var marked := MarkLoop(all);
    var eligible: seq<Candidate>, filtered: seq<Candidate> := [], [];
    var k := 0;
    while k < |marked|
      invariant k <= |marked| && eligible == Keep(marked[..k], p, true) && filtered == Keep(marked[..k], p, false)
    {
      assert marked[..k + 1][..k] == marked[..k];
      if Eligible(marked[k], p) { eligible := eligible + [marked[k]]; } else { filtered := filtered + [marked[k]]; }
      k := k + 1;
    }
    assert marked[..|marked|] == marked;
    hide Keep, Sorted, Marked;
    eligible := Sorted(eligible);
    var selected := First(eligible);
    var approval: Option<Approval> := None;
    var requested := Named(marked, p.requested);
    hide Named;
    if requested.Some? {
      var overLimit := !WithinCeiling(requested.value, p);
      var allowed := requested.value.id in p.once || requested.value.id in p.exceptions;
      if overLimit && !allowed {
        approval := Some(Approval(requested.value.id, Effective(requested.value, p)));
        selected := None;
      } else if allowed {
        selected := requested;
      }
    }
    r := Resolution(false, selected, eligible, filtered, approval);
  }

  method MarkLoop(all: seq<Candidate>) returns (marked: seq<Candidate>)
    ensures marked == Marked(all)
  {
    marked := [];
    var k := 0;
    while k < |all|
      invariant k <= |all| && marked == Marked(all)[..k]
    {
      var dominated := false;
      var i := 0;
      while i < |all| && !dominated
        invariant i <= |all| && (dominated ==> IsDominated(all, all[k]))
        invariant !dominated ==> forall j :: 0 <= j < i ==> !(all[j].id != all[k].id && Dominates(all[j], all[k]))
      {
        dominated := all[i].id != all[k].id && Dominates(all[i], all[k]);
        i := i + 1;
      }
      assert dominated == IsDominated(all, all[k]);
      marked := marked + [all[k].(dominated := dominated)];
      k := k + 1;
    }
  }

  // ----- what resolving guarantees -------------------------------------------------------

  lemma KeepLast(all: seq<Candidate>, p: Policy, wanted: bool)
    requires all != []
    ensures var n := |all| - 1;
      multiset(Keep(all, p, wanted))
      == multiset(Keep(all[..n], p, wanted)) + if Eligible(all[n], p) == wanted then multiset{all[n]} else multiset{}
  {
    hide Eligible;
  }

  lemma AllLast(all: seq<Candidate>)
    requires all != []
    ensures multiset(all) == multiset(all[..|all| - 1]) + multiset{all[|all| - 1]}
  {
    assert all == all[..|all| - 1] + [all[|all| - 1]];
  }

  lemma {:induction false} KeepSplits(all: seq<Candidate>, p: Policy)
    ensures multiset(Keep(all, p, true)) + multiset(Keep(all, p, false)) == multiset(all)
  {
    hide Eligible;
    if all != [] {
      var n := |all| - 1;
      var init, last := all[..n], all[n];
      KeepSplits(init, p);
      KeepLast(all, p, true);
      KeepLast(all, p, false);
      AllLast(all);
      hide Keep;
      EitherSide(multiset(Keep(init, p, true)), multiset(Keep(init, p, false)), multiset(init), last);
      if Eligible(last, p) {
        assert multiset(Keep(all, p, true)) == multiset(Keep(init, p, true)) + multiset{last};
      } else {
        assert multiset(Keep(all, p, false)) == multiset(Keep(init, p, false)) + multiset{last};
      }
    }
  }

  lemma EitherSide(a: multiset<Candidate>, b: multiset<Candidate>, all: multiset<Candidate>, c: Candidate)
    requires a + b == all
    ensures (a + multiset{c}) + (b + multiset{}) == all + multiset{c}
    ensures (a + multiset{}) + (b + multiset{c}) == all + multiset{c}
  {}

  /** Without a stop: every candidate is visible or filtered, the visible ones in order; what is selected is visible. */
  lemma ResolveSplits(all: seq<Candidate>, p: Policy)
    ensures var r := Resolve(all, p, false);
      && multiset(r.visible) + multiset(r.filtered) == multiset(Marked(all))
      && Ordered(r.visible)
      && (r.selected.Some? ==> r.selected.value in r.visible && r.approval.None?)
  {
    var marked := Marked(all);
    KeepSplits(marked, p);
    SortedOrdered(Keep(marked, p, true));
    InSorted(Keep(marked, p, true));
    hide Sorted, Marked, Ordered, Effective;
  }

  lemma InSorted(s: seq<Candidate>)
    ensures forall c :: c in Sorted(s) <==> c in s
  {
    assert forall c :: c in Sorted(s) <==> c in multiset(Sorted(s));
    assert forall c :: c in s <==> c in multiset(s);
  }

  lemma VisibleMembers(all: seq<Candidate>, p: Policy)
    ensures forall c :: c in Resolve(all, p, false).visible <==> c in Marked(all) && Eligible(c, p)
  {
    InSorted(Keep(Marked(all), p, true));
    hide Sorted, Marked, Eligible;
  }

  /** Nothing over the ceiling is ever selected without an exception or a one-shot allowance of its own. */
  lemma SelectedIsAllowed(all: seq<Candidate>, p: Policy, stop: bool)
    ensures var s := Resolve(all, p, stop).selected;
      s.Some? ==> !stop && (WithinCeiling(s.value, p) || s.value.id in p.exceptions || s.value.id in p.once)
  {
    if !stop {
      VisibleMembers(all, p);
      var visible := Resolve(all, p, stop).visible;
      assert visible != [] ==> visible[0] in visible;
      hide Sorted, Marked, Keep, WithinCeiling;
    }
  }

  lemma WithinCritical(p: Policy)
    requires p.ceiling == Critical
    ensures forall c :: WithinCeiling(c, p)
  {
    hide Effective;
  }

  /** At the highest ceiling something is always selected. */
  lemma CriticalAlwaysSelects(all: seq<Candidate>, p: Policy)
    requires all != [] && p.ceiling == Critical
    ensures Resolve(all, p, false).selected.Some?
  {
    var i := SomeoneUndominated(all);
    var u := Marked(all)[i];
    WithinCritical(p);
    VisibleMembers(all, p);
    hide Sorted, Marked, Keep, WithinCeiling, IsDominated;
    assert u in Resolve(all, p, false).visible;
  }

  /** Raising the ceiling only adds to what is visible and never makes an approval necessary. */
  lemma {:induction false} CeilingMonotone(all: seq<Candidate>, p: Policy, higher: Category)
    requires Rank(p.ceiling) <= Rank(higher)
    ensures var low, high := Resolve(all, p, false), Resolve(all, p.(ceiling := higher), false);
      && (forall c :: c in low.visible ==> c in high.visible)
      && (high.approval.Some? ==> low.approval == high.approval)
  {
    VisibleMembers(all, p);
    VisibleMembers(all, p.(ceiling := higher));
    hide Sorted, Marked, Keep;
  }

  /** After an approval is required, allowing that id once selects exactly the requested tool. */
  lemma SecondPassSelectsRequested(all: seq<Candidate>, p: Policy)
    requires Resolve(all, p, false).approval.Some?
    ensures var id := Resolve(all, p, false).approval.value.id;
      var again := Resolve(all, p.(once := {id}), false);
      p.requested == Some(id) && again.selected.Some? && again.selected.value.id == id && again.approval.None?
  {
    hide Sorted, Marked, Keep, Effective;
  }

  // ----- input order does not matter -----------------------------------------------------

  predicate UniqueTools(all: seq<Candidate>) { forall i, j :: 0 <= i < j < |all| ==> all[i].id != all[j].id }

  lemma SameHead(a: seq<Candidate>, b: seq<Candidate>)
    requires a != [] && multiset(a) == multiset(b) && Ordered(a) && Ordered(b)
    requires forall x, y :: x in a && y in a && x.id == y.id ==> x == y
    ensures b != [] && a[0] == b[0]
  {
    assert a[0] in multiset(b);
    assert b[0] in multiset(a);
    var i :| 0 <= i < |a| && a[i] == b[0];
    var j :| 0 <= j < |b| && b[j] == a[0];
    AheadTotal(a[0], b[0]);
    hide Ahead;
  }

  /** Strictly sorted sequences of the same candidates are the same sequence. */
  lemma {:induction false} OrderedUnique(a: seq<Candidate>, b: seq<Candidate>)
    requires multiset(a) == multiset(b) && Ordered(a) && Ordered(b)
    requires forall x, y :: x in a && y in a && x.id == y.id ==> x == y
    ensures a == b
  {
    assert |a| == |multiset(a)| && |b| == |multiset(b)|;
    if a != [] {
      SameHead(a, b);
      hide Ahead;
      assert a == [a[0]] + a[1..] && b == [b[0]] + b[1..];
      assert multiset(a[1..]) == multiset(a) - multiset{a[0]};
      assert multiset(b[1..]) == multiset(b) - multiset{b[0]};
      assert forall x :: x in a[1..] ==> x in a;
      OrderedUnique(a[1..], b[1..]);
    }
  }

  lemma SameMembers(a: seq<Candidate>, b: seq<Candidate>)
    requires multiset(a) == multiset(b)
    ensures forall c :: c in a <==> c in b
  {
    assert forall c :: c in a <==> c in multiset(a);
    assert forall c :: c in b <==> c in multiset(b);
  }

  lemma DominatedAlike(a: seq<Candidate>, b: seq<Candidate>, c: Candidate)
    requires forall x :: x in a ==> x in b
    ensures IsDominated(a, c) ==> IsDominated(b, c)
  {
    if IsDominated(a, c) {
      var i :| 0 <= i < |a| && a[i].id != c.id && Dominates(a[i], c);
      assert a[i] in b;
      var j :| 0 <= j < |b| && b[j] == a[i];
    }
  }

  /** Marking is a function of the candidate and the set of the others: it permutes with its input. */
  lemma MarkedMembers(a: seq<Candidate>, b: seq<Candidate>, c: Candidate)
    requires forall x :: x in a <==> x in b
    ensures c in Marked(a) ==> c in Marked(b)
  {
    if c in Marked(a) {
      var i :| 0 <= i < |a| && Marked(a)[i] == c;
      assert a[i] in b;
      var j :| 0 <= j < |b| && b[j] == a[i];
      DominatedAlike(a, b, a[i]);
      DominatedAlike(b, a, a[i]);
      hide IsDominated;
      assert Marked(b)[j] == c;
    }
  }

  /** Sequences without repeats that hold the same elements are permutations of each other. */
  lemma {:induction false} SameElements(a: seq<Candidate>, b: seq<Candidate>)
    requires (forall x :: x in a <==> x in b) && UniqueTools(a) && UniqueTools(b)
    ensures multiset(a) == multiset(b)
  {
    forall c ensures multiset(a)[c] == multiset(b)[c] {
      CountOne(a, c);
      CountOne(b, c);
    }
  }

  lemma {:induction false} CountOne(s: seq<Candidate>, c: Candidate)
    requires UniqueTools(s)
    ensures multiset(s)[c] == if c in s then 1 else 0
  {
    if s != [] {
      CountOne(s[1..], c);
      assert s == [s[0]] + s[1..];
    }
  }

  lemma {:induction false} KeepUnique(all: seq<Candidate>, p: Policy, wanted: bool)
    requires UniqueTools(all)
    ensures UniqueTools(Keep(all, p, wanted))
  {
    if all != [] {
      KeepUnique(all[..|all| - 1], p, wanted);
      hide Eligible;
      assert forall c :: c in all[..|all| - 1] ==> c.id != all[|all| - 1].id;
    }
  }

  lemma VisibleUnique(all: seq<Candidate>, p: Policy)
    requires UniqueTools(all)
    ensures UniqueTools(Keep(Marked(all), p, true))
  {
    KeepUnique(Marked(all), p, true);
  }

  lemma OneById(s: seq<Candidate>)
    requires UniqueTools(s)
    ensures forall x, y :: x in s && y in s && x.id == y.id ==> x == y
  {}

  lemma VisibleSame(a: seq<Candidate>, b: seq<Candidate>, p: Policy)
    requires multiset(a) == multiset(b) && UniqueTools(a) && UniqueTools(b)
    ensures Sorted(Keep(Marked(a), p, true)) == Sorted(Keep(Marked(b), p, true))
    ensures forall c :: c in Marked(a) <==> c in Marked(b)
  {
    SameMembers(a, b);
    forall c ensures c in Marked(a) <==> c in Marked(b) {
      MarkedMembers(a, b, c);
      MarkedMembers(b, a, c);
    }
    var x, y := Keep(Marked(a), p, true), Keep(Marked(b), p, true);
    VisibleUnique(a, p);
    VisibleUnique(b, p);
    hide Marked, Ordered, Eligible;
    SameElements(x, y);
    SortedOrdered(x);
    SortedOrdered(y);
    OneById(x);
    InSorted(x);
    hide Sorted, UniqueTools;
    OrderedUnique(Sorted(x), Sorted(y));
  }

  lemma MarkedUnique(all: seq<Candidate>)
    requires UniqueTools(all)
    ensures UniqueTools(Marked(all))
  {}

  lemma NamedSame(x: seq<Candidate>, y: seq<Candidate>, id: Option<string>)
    requires (forall c :: c in x <==> c in y) && UniqueTools(y)
    ensures Named(x, id) == Named(y, id)
  {
    OneById(y);
    hide UniqueTools;
  }

  /** With one candidate for each tool, what is selected and asked for does not depend on the order of the list. */
  lemma {:induction false} OrderIrrelevant(a: seq<Candidate>, b: seq<Candidate>, p: Policy)
    requires multiset(a) == multiset(b) && UniqueTools(a) && UniqueTools(b)
    ensures var r, q := Resolve(a, p, false), Resolve(b, p, false);
      r.selected == q.selected && r.visible == q.visible && r.approval == q.approval
  {
    hide Sorted, Marked, Keep, UniqueTools, WithinCeiling, Effective, Named, IsDominated;
    VisibleSame(a, b, p);
    MarkedUnique(b);
    NamedSame(Marked(a), Marked(b), p.requested);
  }
}
