/** What the strict parser and its repair accept, said of the payload's own fields and text. */
module ParserLaws {
  import opened Text
  import opened Json
  import opened Scanner
  import opened Statuses
  import opened FinalResponses

  // ----- the object ----------------------------------------------------------------------

  /** A list field: a missing or null one is the empty list. */
  predicate Lists(data: Dict, key: string, items: seq<Value>) {
    Get(data, key) == Arr(items) || (Get(data, key) == Null && items == [])
  }

  predicate Objects(items: seq<Value>) { forall i :: 0 <= i < |items| ==> items[i].Obj? }

  predicate Strings(items: seq<Value>) { forall i :: 0 <= i < |items| ==> items[i].Str? }

  /** The object is this response to this role and assignment: field by field, nothing made up and nothing lost. */
  predicate Is(data: Dict, role: Role, key: string, r: FinalResponse) {
    && r.assignmentKey == key && key != "" && Get(data, "assignment_key") == Str(key)
    && r.role == role && Get(data, "role") == Str(RoleName(role))
    && r.finalStatus in RoleFinalStatuses(role) && Get(data, "final_status") == Str(StatusName(r.finalStatus))
    && r.summary != "" && Get(data, "summary") == Str(r.summary)
    && Lists(data, "evidence", r.evidence) && Objects(r.evidence)
    && Lists(data, "decision_log", r.decisionLog) && Strings(r.decisionLog)
    && Lists(data, "risks", r.risks) && Strings(r.risks)
    && Lists(data, "assumptions", r.assumptions) && Strings(r.assumptions)
    && r.nextHandoff == Get(data, "next_handoff") && (r.nextHandoff.Null? || r.nextHandoff.Obj?)
    && r.blockReason == Get(data, "block_reason") && (r.blockReason.Null? || r.blockReason.Str?)
  }

  lemma ListExactly(data: Dict, key: string, items: seq<Value>)
    ensures Lists(data, key, items) <==> ListOf(data, key) == Arr(items)
    ensures Objects(items) <==> AllObjects(items)
    ensures Strings(items) <==> AllStrings(items)
  {
    assert forall i :: 0 <= i < |items| ==> items[i] in items;
  }

  lemma AcceptedIs(data: Dict, role: Role, key: string)
    requires ParseFields(data, role, key).Accepted?
    ensures Is(data, role, key, ParseFields(data, role, key).value)
  {
    var r := ParseFields(data, role, key).value;
    ListExactly(data, "evidence", r.evidence);
    ListExactly(data, "decision_log", r.decisionLog);
    ListExactly(data, "risks", r.risks);
    ListExactly(data, "assumptions", r.assumptions);
    NamesNotEmpty(role, r.finalStatus);
    hide Get, ListOf, Lists, AllObjects, AllStrings, Objects, Strings, RoleName, ValidateFinalStatus, RoleFinalStatuses, StatusName;
  }

  lemma IsAccepted(data: Dict, role: Role, key: string, r: FinalResponse)
    requires Is(data, role, key, r)
    ensures ParseFields(data, role, key) == Accepted(r)
  {
    ListExactly(data, "evidence", r.evidence);
    ListExactly(data, "decision_log", r.decisionLog);
    ListExactly(data, "risks", r.risks);
    ListExactly(data, "assumptions", r.assumptions);
    NamesNotEmpty(role, r.finalStatus);
    StatusIsItsName(role, r.finalStatus);
    hide Get, ListOf, Lists, AllObjects, AllStrings, Objects, Strings, RoleName, ValidateFinalStatus, RoleFinalStatuses, StatusName;
  }

  /** The field checks accept exactly the objects that are a response to the role and assignment. */
  lemma FieldsExactly(data: Dict, role: Role, key: string, r: FinalResponse)
    ensures ParseFields(data, role, key) == Accepted(r) <==> Is(data, role, key, r)
  {
    hide ParseFields, Is;
    if ParseFields(data, role, key) == Accepted(r) { AcceptedIs(data, role, key); }
    if Is(data, role, key, r) { IsAccepted(data, role, key, r); }
  }

  // ----- where it is found ---------------------------------------------------------------

  const FIELDS: seq<string> := ["final_response", "output", "result", "response", "text"]

  /** Neither an object nor a string with visible text. */
  predicate Blank(v: Value) { !v.Obj? && !(v.Str? && Strip(v.s) != "") }

  /** The first field that is not blank. */
  predicate FirstAt(payload: Dict, i: nat) {
    i < |FIELDS| && !Blank(Get(payload, FIELDS[i])) && forall j :: 0 <= j < i ==> Blank(Get(payload, FIELDS[j]))
  }

  /** The object a field holds, as it is or as its whole text. */
  predicate Holds(v: Value, data: Dict) { v == Obj(data) || (v.Str? && Loads(Strip(v.s)) == Loaded(Obj(data))) }

  /** The strict parser looks at the first field that is not blank, and nowhere else. */
  lemma StrictExactly(payload: Dict, role: Role, key: string, i: nat, r: FinalResponse)
    requires FirstAt(payload, i)
    ensures ParseFinalResponse(payload, role, key) == Accepted(r) <==>
      exists data :: Holds(Get(payload, FIELDS[i]), data) && Is(data, role, key, r)
  {
    assert KEYS == FIELDS;
    forall j | 0 <= j < |KEYS| ensures Skipped(Get(payload, KEYS[j])) <==> Blank(Get(payload, FIELDS[j])) {}
    ExtractSkips(payload, 0, i);
    var v := Get(payload, FIELDS[i]);
    var read := ReadField(v);
    assert read.Accepted? ==> Holds(v, read.value);
    assert forall data :: Holds(v, data) ==> read == Accepted(data);
    hide Skipped, Blank, Holds, ReadField, Get, ParseFields;
    if read.Accepted? { FieldsExactly(read.value, role, key, r); }
  }

  lemma StrictNothing(payload: Dict, role: Role, key: string)
    requires forall j :: 0 <= j < |FIELDS| ==> Blank(Get(payload, FIELDS[j]))
    ensures ParseFinalResponse(payload, role, key).Rejected?
  {
    assert KEYS == FIELDS;
    forall j | 0 <= j < |KEYS| ensures Skipped(Get(payload, KEYS[j])) {}
    ExtractSkips(payload, 0, |KEYS|);
  }

  // ----- one object in a text ------------------------------------------------------------

  /** A maximal balanced block of the text that reads as this object. */
  ghost predicate Reads(text: string, s: nat, e: nat, f: Dict) {
    Block(text, s, e) && e <= |text| && Loads(text[s..e]) == Loaded(Obj(f))
  }

  ghost predicate LoadsAt(text: string, span: Span) {
    span.0 <= span.1 <= |text| && Loads(text[span.0..span.1]).Loaded? && Loads(text[span.0..span.1]).value.Obj?
  }

  lemma OrderedLast(spans: seq<Span>, limit: nat)
    requires Ordered(spans, limit) && spans != []
    ensures var n := |spans| - 1;
      Ordered(spans[..n], limit) && spans[n].0 <= spans[n].1 <= limit
  {}

  /** The objects of the spans, one span at a time. */
  lemma LoadLast(text: string, spans: seq<Span>)
    requires Ordered(spans, |text|) && spans != []
    ensures var n := |spans| - 1;
      && Ordered(spans[..n], |text|)
      && LoadSpans(text, spans) == LoadSpans(text, spans[..n])
           + if LoadsAt(text, spans[n]) then [Loads(text[spans[n].0..spans[n].1]).value.fields] else []
  {
    hide Loads, Ordered;
    OrderedLast(spans, |text|);
  }

  lemma {:induction false} LoadNone(text: string, spans: seq<Span>)
    requires Ordered(spans, |text|) && forall k :: 0 <= k < |spans| ==> !LoadsAt(text, spans[k])
    ensures LoadSpans(text, spans) == []
  {
    if spans != [] {
      hide LoadSpans, LoadsAt, Ordered;
      LoadLast(text, spans);
      LoadNone(text, spans[..|spans| - 1]);
    }
  }

  lemma {:induction false} LoadOne(text: string, spans: seq<Span>, at: nat)
    requires Ordered(spans, |text|) && at < |spans| && LoadsAt(text, spans[at])
    requires forall k :: 0 <= k < |spans| && k != at ==> !LoadsAt(text, spans[k])
    ensures LoadSpans(text, spans) == [Loads(text[spans[at].0..spans[at].1]).value.fields]
  {
    hide LoadSpans, Ordered, Loads;
    var n := |spans| - 1;
    LoadLast(text, spans);
    if at == n {
      LoadNone(text, spans[..n]);
    } else {
      LoadOne(text, spans[..n], at);
    }
  }

  lemma {:induction false} LoadSome(text: string, spans: seq<Span>, at: nat)
    requires Ordered(spans, |text|) && at < |spans| && LoadsAt(text, spans[at])
    ensures |LoadSpans(text, spans)| >= 1
  {
    hide LoadSpans, LoadsAt, Ordered, Loads;
    var n := |spans| - 1;
    LoadLast(text, spans);
    if at < n { LoadSome(text, spans[..n], at); }
  }

  lemma {:induction false} LoadTwo(text: string, spans: seq<Span>, a: nat, b: nat)
    requires Ordered(spans, |text|) && a < b < |spans| && LoadsAt(text, spans[a]) && LoadsAt(text, spans[b])
    ensures |LoadSpans(text, spans)| >= 2
  {
    hide LoadSpans, LoadsAt, Ordered, Loads;
    var n := |spans| - 1;
    LoadLast(text, spans);
    if b == n { LoadSome(text, spans[..n], a); } else { LoadTwo(text, spans[..n], a, b); }
  }

  /** The one maximal block that reads as an object, if there is one. */
  ghost predicate OnlyObject(text: string, f: Dict) {
    DepthAt(text, |text|) == 0 && exists s: nat, e: nat :: Reads(text, s, e, f) && NoOther(text, s, e)
  }

  ghost predicate NoOther(text: string, s: nat, e: nat) {
    forall t: nat, u: nat, g: Dict :: Reads(text, t, u, g) ==> t == s && u == e
  }

  ghost predicate LoadsOnly(text: string, spans: seq<Span>, k: int)
  {
    0 <= k < |spans| && LoadsAt(text, spans[k]) && forall m :: 0 <= m < |spans| && m != k ==> !LoadsAt(text, spans[m])
  }

  lemma SpanReads(text: string, span: Span)
    requires LoadsAt(text, span) && Block(text, span.0, span.1)
    ensures Reads(text, span.0, span.1, Loads(text[span.0..span.1]).value.fields)
  {
    hide Loads, Block;
  }

  lemma ReadsSpan(text: string, s: nat, e: nat, f: Dict)
    requires Reads(text, s, e, f)
    ensures Block(text, s, e) && LoadsAt(text, (s, e)) && Loads(text[s..e]).value.fields == f
  {
    hide Loads;
  }

  /** What is found among the spans, and how many. */
  lemma FoundSpans(text: string, spans: seq<Span>)
    requires Ordered(spans, |text|)
    requires forall s: nat, e: nat :: (s, e) in spans <==> Block(text, s, e) && e <= |text|
    ensures |LoadSpans(text, spans)| == 1 ==> exists k :: 0 <= k < |spans| && LoadsOnly(text, spans, k)
  {
    hide LoadSpans, LoadsAt, Ordered, Loads, Block;
    if k :| 0 <= k < |spans| && LoadsAt(text, spans[k]) {
      if m :| 0 <= m < |spans| && m != k && LoadsAt(text, spans[m]) {
        if m < k { LoadTwo(text, spans, m, k); } else { LoadTwo(text, spans, k, m); }
      } else {
        assert LoadsOnly(text, spans, k);
      }
    } else {
      LoadNone(text, spans);
    }
  }

  lemma SingleIsOnly(text: string, f: Dict)
    requires ExtractSingle(text) == Accepted(f)
    ensures OnlyObject(text, f)
  {
    hide LoadsAt, SpansUpTo, Loads, Block, DepthAt, Reads, LoadsOnly, Ordered, NoOther;
    SpansAreBlocks(text, |text|);
    var spans := SpansUpTo(text, |text|);
    assert BalancedObjectSpans(text) == Balanced(spans) && DepthAt(text, |text|) == 0;
    assert LoadSpans(text, spans) == [f];
    hide LoadSpans;
    FoundSpans(text, spans);
    var k :| 0 <= k < |spans| && LoadsOnly(text, spans, k);
    OnlySpan(text, spans, k);
    NoneOther(text, spans, k);
    assert Reads(text, spans[k].0, spans[k].1, f) && NoOther(text, spans[k].0, spans[k].1);
  }

  lemma OnlySpan(text: string, spans: seq<Span>, k: int)
    requires Ordered(spans, |text|) && LoadsOnly(text, spans, k)
    requires forall s: nat, e: nat :: (s, e) in spans <==> Block(text, s, e) && e <= |text|
    ensures LoadSpans(text, spans) == [Loads(text[spans[k].0..spans[k].1]).value.fields]
    ensures Reads(text, spans[k].0, spans[k].1, Loads(text[spans[k].0..spans[k].1]).value.fields)
  {
    hide LoadSpans, LoadsAt, Loads, Block, Ordered, Reads;
    LoadOne(text, spans, k);
    assert spans[k] == (spans[k].0, spans[k].1) && spans[k] in spans;
    SpanReads(text, spans[k]);
  }

  lemma NoneOther(text: string, spans: seq<Span>, k: int)
    requires LoadsOnly(text, spans, k)
    requires forall s: nat, e: nat :: (s, e) in spans <==> Block(text, s, e) && e <= |text|
    ensures NoOther(text, spans[k].0, spans[k].1)
  {
    hide LoadsAt, Loads, Block, Reads;
    forall t: nat, u: nat, g: Dict | Reads(text, t, u, g) ensures t == spans[k].0 && u == spans[k].1 {
      ReadsSpan(text, t, u, g);
      BlockWithin(text, t, u);
      assert (t, u) in spans;
      var m :| 0 <= m < |spans| && spans[m] == (t, u);
    }
  }

  lemma BlockWithin(text: string, s: nat, e: nat)
    requires Block(text, s, e)
    ensures e <= |text|
  {}

  lemma OnlyIsSingle(text: string, f: Dict)
    requires OnlyObject(text, f)
    ensures ExtractSingle(text) == Accepted(f)
  {
    SpansAreBlocks(text, |text|);
    var spans := SpansUpTo(text, |text|);
    assert BalancedObjectSpans(text) == Balanced(spans);
    hide LoadsAt, SpansUpTo, Loads, Block, DepthAt, Reads, Ordered;
    var s: nat, e: nat :| Reads(text, s, e, f) && NoOther(text, s, e);
    ReadsSpan(text, s, e, f);
    BlockWithin(text, s, e);
    var k :| 0 <= k < |spans| && spans[k] == (s, e);
    forall m | 0 <= m < |spans| && m != k ensures !LoadsAt(text, spans[m]) {
      assert spans[m] == (spans[m].0, spans[m].1) && spans[m] in spans;
      if LoadsAt(text, spans[m]) { SpanReads(text, spans[m]); }
      SpansDiffer(text, spans, k, m);
    }
    LoadOne(text, spans, k);
    hide LoadSpans;
  }

  lemma SpansDiffer(text: string, spans: seq<Span>, k: nat, m: nat)
    requires Ordered(spans, |text|) && k < |spans| && m < |spans| && m != k
    ensures spans[k] != spans[m]
  {}

  /** Extraction succeeds exactly when one block of the text, and no other, reads as an object. */
  lemma ExtractedExactly(text: string, f: Dict)
    ensures ExtractSingle(text) == Accepted(f) <==> OnlyObject(text, f)
  {
    hide ExtractSingle, OnlyObject;
    if ExtractSingle(text) == Accepted(f) { SingleIsOnly(text, f); }
    if OnlyObject(text, f) { OnlyIsSingle(text, f); }
  }

  // ----- repair --------------------------------------------------------------------------

  /** What repair can work with: an object, or the one object in a text that is neither blank nor too long. */
  ghost predicate Workable(v: Value, maxChars: nat, f: Dict) {
    v == Obj(f) || (v.Str? && Strip(v.s) != "" && |v.s| <= maxChars && OnlyObject(v.s, f))
  }

  lemma RepairableExactly(v: Value, maxChars: nat, f: Dict)
    ensures Candidate(v, maxChars) == Some(f) <==> Workable(v, maxChars, f)
  {
    if v.Str? { ExtractedExactly(v.s, f); }
    hide ExtractSingle, OnlyObject, Strip;
  }

  /** The first field repair can work with holds its normalised object afterwards; every other field stays. */
  lemma RepairedExactly(payload: Dict, maxChars: nat, i: nat, f: Dict)
    requires i < |FIELDS| && Workable(Get(payload, FIELDS[i]), maxChars, f)
    requires forall j, g :: 0 <= j < i ==> !Workable(Get(payload, FIELDS[j]), maxChars, g)
    ensures RepairedPayload(payload, maxChars) == payload[FIELDS[i] := Obj(Normalize(f))]
  {
    hide Candidate, Workable, Normalize, Get;
    assert KEYS == FIELDS;
    RepairableExactly(Get(payload, FIELDS[i]), maxChars, f);
    var r := RepairKey(payload, maxChars, 0);
    if r < i {
      var g := Candidate(Get(payload, FIELDS[r]), maxChars).value;
      RepairableExactly(Get(payload, FIELDS[r]), maxChars, g);
    }
  }

  lemma NothingRepaired(payload: Dict, maxChars: nat)
    requires forall j, g :: 0 <= j < |FIELDS| ==> !Workable(Get(payload, FIELDS[j]), maxChars, g)
    ensures RepairedPayload(payload, maxChars) == payload
  {
    hide Candidate, Workable, Normalize, Get;
    assert KEYS == FIELDS;
    var r := RepairKey(payload, maxChars, 0);
    if r < |FIELDS| {
      var g := Candidate(Get(payload, FIELDS[r]), maxChars).value;
      RepairableExactly(Get(payload, FIELDS[r]), maxChars, g);
    }
  }

  /** Evidence texts become objects that keep them, and a missing list becomes empty; nothing else is touched. */
  lemma NormalizedExactly(data: Dict, field: string)
    ensures var before, after := Get(data, field), Get(Normalize(data), field);
      && (field in {"evidence", "decision_log", "risks", "assumptions"} && before.Null? ==> after == Arr([]))
      && (field == "evidence" && before.Arr? && Strings(before.items) ==>
            && after.Arr? && |after.items| == |before.items|
            && forall i :: 0 <= i < |before.items| ==>
                 after.items[i] == Obj(map["source" := before.items[i], "detail" := Str("provided by agent as evidence text")]))
      && (!before.Null? && !(field == "evidence" && before.Arr? && Strings(before.items)) ==> after == before)
      && (field !in {"evidence", "decision_log", "risks", "assumptions"} ==> after == before)
  {
    NormalizeFields(data, field);
    var before := Get(data, field);
    if before.Arr? { ListExactly(data, field, before.items); }
    hide Normalize, Strings;
    assert LIST_FIELDS[0] == "decision_log" && LIST_FIELDS[1] == "risks" && LIST_FIELDS[2] == "assumptions";
  }

  // ----- what is stored ------------------------------------------------------------------

  /** The response is stored under the first of the fields that is there, or else as final_response; all else stays. */
  lemma CanonicalExactly(payload: Dict, r: FinalResponse, i: nat)
    requires i < |FIELDS|
    requires forall j :: 0 <= j < i ==> FIELDS[j] !in payload
    ensures FIELDS[i] in payload ==> CanonicalPayload(payload, r) == payload[FIELDS[i] := Obj(ToDict(r))]
    ensures (forall j :: 0 <= j < |FIELDS| ==> FIELDS[j] !in payload) ==> CanonicalPayload(payload, r) == payload["final_response" := Obj(ToDict(r))]
  {
    hide ToDict;
    assert KEYS == FIELDS && FIELDS[0] == "final_response";
    if FIELDS[i] in payload { FirstPresent(payload, 0, i); }
    if forall j :: 0 <= j < |FIELDS| ==> FIELDS[j] !in payload { NonePresent(payload, 0); }
  }

  lemma {:induction false} FirstPresent(payload: Dict, k: nat, i: nat)
    requires k <= i < |KEYS| && KEYS[i] in payload && forall j :: k <= j < i ==> KEYS[j] !in payload
    ensures CanonicalKey(payload, k) == i
    decreases i - k
  {
    if k < i { FirstPresent(payload, k + 1, i); }
  }

  lemma {:induction false} NonePresent(payload: Dict, k: nat)
    requires k <= |KEYS| && forall j :: k <= j < |KEYS| ==> KEYS[j] !in payload
    ensures CanonicalKey(payload, k) == 0
    decreases |KEYS| - k
  {
    if k < |KEYS| { NonePresent(payload, k + 1); }
  }

  // ----- the three sources ---------------------------------------------------------------

  /**
   A response the strict parser reads is the one used. Otherwise, with repair enabled, the repaired payload's;
   otherwise, with the model enabled too and answering, its repaired answer's; and otherwise none.
   */
  lemma SourcesExactly(payload: Dict, role: Role, key: string, config: RepairConfig, modelAnswer: Option<Dict>)
    ensures var used := ParsedOrRepaired(payload, role, key, config, modelAnswer);
      var strict := ParseFinalResponse(payload, role, key);
      var repaired := ParseFinalResponse(RepairedPayload(payload, config.maxChars), role, key);
      && (strict.Accepted? ==> used == Some(strict.value))
      && (strict.Rejected? && !config.enabled ==> used == None)
      && (strict.Rejected? && config.enabled && repaired.Accepted? ==> used == Some(repaired.value))
      && (strict.Rejected? && config.enabled && repaired.Rejected? && !(config.modelEnabled && modelAnswer.Some?) ==> used == None)
      && (strict.Rejected? && config.enabled && repaired.Rejected? && config.modelEnabled && modelAnswer.Some? ==>
            var answer := ParseFinalResponse(RepairedPayload(modelAnswer.value, config.maxChars), role, key);
            (answer.Accepted? ==> used == Some(answer.value)) && (answer.Rejected? ==> used == None))
  {
    hide ParseFinalResponse, RepairedPayload;
  }
}
