/**
 What is stored for a completed run: the canonical response among the payload's other fields, with the
 reasoning fields taken out of all of it, at every depth.
 */
module CompletionRecords {
  import opened Json
  import opened JsonRoundTrip
  import opened Statuses
  import opened FinalResponses

  /** `FORBIDDEN_REASONING_KEYS`. */
  predicate Forbidden(key: string) {
    || key == "chain_of_thought" || key == "chainOfThought" || key == "cot" || key == "reasoning_trace"
    || key == "reasoning_steps" || key == "private_reasoning" || key == "internal_monologue"
  }

  /** `_scrub_forbidden_reasoning_fields`. */
  function Scrub(v: Value): Value
    decreases v
  {
    match v
    case Obj(fields) => Obj(map k | k in fields && !Forbidden(k) :: Scrub(fields[k]))
    case Arr(items) => Arr(seq(|items|, i requires 0 <= i < |items| => Scrub(items[i])))
    case _ => v
  }

  /** No reasoning field at any depth. */
  ghost predicate Clean(v: Value)
    decreases v
  {
    match v
    case Obj(fields) => forall k :: k in fields ==> !Forbidden(k) && Clean(fields[k])
    case Arr(items) => forall i :: 0 <= i < |items| ==> Clean(items[i])
    case _ => true
  }

  /** Scrubbing leaves nothing forbidden behind, and changes exactly what holds something forbidden. */
  lemma {:induction false} ScrubExactly(v: Value)
    ensures Clean(Scrub(v)) && (Scrub(v) == v <==> Clean(v))
    decreases v
  {
    hide Forbidden;
    match v
    case Obj(fields) =>
      forall k | k in fields ensures Clean(Scrub(fields[k])) && (Scrub(fields[k]) == fields[k] <==> Clean(fields[k])) {
        ScrubExactly(fields[k]);
      }
      var scrubbed := Scrub(v).fields;
      if Clean(v) {
        assert scrubbed == fields;
      }
    case Arr(items) =>
      forall i | 0 <= i < |items| ensures Clean(Scrub(items[i])) && (Scrub(items[i]) == items[i] <==> Clean(items[i])) {
        ScrubExactly(items[i]);
      }
      var scrubbed := Scrub(v).items;
      if Clean(v) {
        assert scrubbed == items;
      }
    case _ =>
  }

  // ----- what is left, place by place ----------------------------------------------------

  datatype Step = Key(key: string) | Index(i: nat)

  /** The value at a place inside another. */
  function At(v: Value, path: seq<Step>): Option<Value>
    decreases path
  {
    if path == [] then Some(v)
    else if v.Obj? && path[0].Key? && path[0].key in v.fields then At(v.fields[path[0].key], path[1..])
    else if v.Arr? && path[0].Index? && path[0].i < |v.items| then At(v.items[path[0].i], path[1..])
    else None
  }

  /** No step of the way is a reasoning field. */
  predicate Allowed(path: seq<Step>) {
    forall i :: 0 <= i < |path| && path[i].Key? ==>
      path[i].key !in {"chain_of_thought", "chainOfThought", "cot", "reasoning_trace", "reasoning_steps",
                       "private_reasoning", "internal_monologue"}
  }

  /** The same kind of value: a text, number or truth value itself, an array as long. */
  predicate Alike(a: Value, b: Value) {
    match a
    case Obj(_) => b.Obj?
    case Arr(items) => b.Arr? && |b.items| == |items|
    case _ => a == b
  }

  lemma AllowedRest(path: seq<Step>)
    requires path != []
    ensures Allowed(path) <==> (path[0].Key? ==> !Forbidden(path[0].key)) && Allowed(path[1..])
  {
    assert forall i :: 0 < i < |path| ==> path[i] == path[1..][i - 1];
    assert forall i :: 0 <= i < |path| - 1 ==> path[1..][i] == path[i + 1];
  }

  /** Whatever is reached without passing a reasoning field is still there, like it was; nothing else is. */
  lemma {:induction false} ScrubKeeps(v: Value, path: seq<Step>)
    ensures At(Scrub(v), path).Some? <==> Allowed(path) && At(v, path).Some?
    ensures At(Scrub(v), path).Some? ==> Alike(At(v, path).value, At(Scrub(v), path).value)
    decreases path
  {
    if path != [] {
      AllowedRest(path);
      hide Forbidden, Allowed;
      if v.Obj? && path[0].Key? && path[0].key in v.fields { ScrubKeeps(v.fields[path[0].key], path[1..]); }
      if v.Arr? && path[0].Index? && path[0].i < |v.items| { ScrubKeeps(v.items[path[0].i], path[1..]); }
    }
  }

  lemma {:induction false} ScrubWellFormed(v: Value)
    requires WellFormed(v)
    ensures WellFormed(Scrub(v))
    decreases v
  {
    hide Forbidden;
    match v
    case Obj(fields) =>
      forall k | k in fields ensures WellFormed(Scrub(fields[k])) { ScrubWellFormed(fields[k]); }
    case Arr(items) =>
      forall i | 0 <= i < |items| ensures WellFormed(Scrub(items[i])) { ScrubWellFormed(items[i]); }
    case _ =>
  }

  function ScrubFields(d: Dict): Dict { Scrub(Obj(d)).fields }

  /** `_raw_with_repair_info` of `_canonical_completion_payload`; the repair's report is added when it did something. */
  function Record(payload: Dict, r: FinalResponse, report: Option<Value>): Dict {
    var scrubbed := ScrubFields(CanonicalPayload(ScrubFields(payload), r));
    if report.None? then scrubbed else scrubbed["final_response_repair" := report.value]
  }

  /** The response with the reasoning fields taken out. */
  function ScrubResponse(r: FinalResponse): FinalResponse {
    r.(evidence := Scrub(Arr(r.evidence)).items, nextHandoff := Scrub(r.nextHandoff))
  }

  // ----- field names ---------------------------------------------------------------------

  /** A name that starts like none of them, or is too short for the two that start alike. */
  predicate Harmless(key: string) {
    key != "" && key[0] != 'c' && key[0] != 'p' && key[0] != 'i' && (key[0] == 'r' ==> |key| < 15)
  }

  lemma HarmlessAllowed(key: string)
    requires Harmless(key)
    ensures !Forbidden(key)
  {}

  lemma KeysHarmless(i: nat)
    requires i < |KEYS|
    ensures Harmless(KEYS[i]) && KEYS[i] != "final_response_repair"
  {}

  lemma NamesHarmless()
    ensures Harmless("assignment_key") && Harmless("role") && Harmless("final_status") && Harmless("summary")
    ensures Harmless("evidence") && Harmless("decision_log") && Harmless("risks") && Harmless("assumptions")
    ensures Harmless("next_handoff") && Harmless("block_reason")
  {}

  lemma FieldsHarmless(r: FinalResponse, k: string)
    requires k in ToDict(r)
    ensures !Forbidden(k)
  {
    NamesHarmless();
    hide Harmless, Forbidden, RoleName, StatusName;
    HarmlessAllowed(k);
  }

  // ----- reading it back -----------------------------------------------------------------

  lemma ScrubGet(d: Dict, k: string)
    requires !Forbidden(k)
    ensures Get(ScrubFields(d), k) == Scrub(Get(d, k))
  {}

  lemma ScrubSkips(v: Value)
    ensures Skipped(Scrub(v)) <==> Skipped(v)
  {}

  lemma StringsClean(items: seq<Value>)
    requires IsStringList(Arr(items))
    ensures Scrub(Arr(items)) == Arr(items)
  {
    ScrubExactly(Arr(items));
    forall i | 0 <= i < |items| ensures Clean(items[i]) { assert items[i] in items; }
  }

  lemma SameNames(r: FinalResponse)
    ensures ToDict(ScrubResponse(r)).Keys == ToDict(r).Keys
  {
    hide Scrub, RoleName, StatusName;
  }

  lemma ScrubLeaves(v: Value)
    ensures v.Null? || v.Str? ==> Scrub(v) == v
    ensures v.Arr? ==> Scrub(v) == Arr(Scrub(v).items)
  {}

  lemma SameValues(r: FinalResponse, role: Role, key: string, k: string)
    requires Stored(r, role, key) && k in ToDict(r)
    ensures k in ToDict(ScrubResponse(r)) && ToDict(ScrubResponse(r))[k] == Scrub(ToDict(r)[k])
  {
    SameNames(r);
    StringsClean(r.decisionLog);
    StringsClean(r.risks);
    StringsClean(r.assumptions);
    ScrubLeaves(Arr(r.evidence));
    ScrubLeaves(ToDict(r)[k]);
    ScrubLeaves(r.blockReason);
    hide Scrub, RoleName, StatusName, IsStringList, AllObjects, Answers;
  }

  lemma ScrubStored(r: FinalResponse, role: Role, key: string)
    requires Stored(r, role, key)
    ensures Stored(ScrubResponse(r), role, key)
  {
    ObjectsStay(r.evidence);
    assert r.nextHandoff.Obj? ==> Scrub(r.nextHandoff).Obj?;
    ScrubLeaves(r.nextHandoff);
    hide Scrub, IsStringList, AllObjects, Answers;
    assert Answers(ScrubResponse(r), role, key) by { AnswersAlike(r, role, key); }
  }

  lemma AnswersAlike(r: FinalResponse, role: Role, key: string)
    ensures Answers(ScrubResponse(r), role, key) <==> Answers(r, role, key)
  {}

  /** Scrubbing the response's object is scrubbing the response. */
  lemma ScrubDict(r: FinalResponse, role: Role, key: string)
    requires Stored(r, role, key)
    ensures ScrubFields(ToDict(r)) == ToDict(ScrubResponse(r)) && Stored(ScrubResponse(r), role, key)
  {
    ScrubStored(r, role, key);
    SameNames(r);
    var d, e := ScrubFields(ToDict(r)), ToDict(ScrubResponse(r));
    forall k | k in ToDict(r) ensures !Forbidden(k) { FieldsHarmless(r, k); }
    hide Forbidden, ToDict, Stored;
    assert d.Keys == ToDict(r).Keys && forall k :: k in d ==> d[k] == Scrub(ToDict(r)[k]);
    hide Scrub;
    forall k | k in d ensures d[k] == e[k] { SameValues(r, role, key, k); }
    assert d == e;
  }

  lemma ObjectsStay(items: seq<Value>)
    requires AllObjects(items)
    ensures AllObjects(Scrub(Arr(items)).items)
  {
    var scrubbed := Scrub(Arr(items)).items;
    forall x | x in scrubbed ensures x.Obj? {
      var i :| 0 <= i < |scrubbed| && scrubbed[i] == x;
      assert items[i] in items && scrubbed[i] == Scrub(items[i]);
    }
  }

  /** What is stored parses to the scrubbed response, so to the response itself exactly when that was clean. */
  lemma {:induction false} RecordReparses(payload: Dict, data: Dict, report: Option<Value>, role: Role, key: string)
    requires ParseFields(data, role, key).Accepted?
    ensures var r := ParseFields(data, role, key).value;
      var parsed := ParseFinalResponse(Record(payload, r, report), role, key);
      && parsed == Accepted(ScrubResponse(r))
      && (parsed == Accepted(r) <==> Clean(Arr(r.evidence)) && Clean(r.nextHandoff))
  {
    var r := ParseFields(data, role, key).value;
    AcceptedIsStored(data, role, key);
    hide ParseFields, ToDict, Stored;
    ResponseRecordReparses(payload, r, report, role, key);
    ScrubExactly(Arr(r.evidence));
    ScrubExactly(r.nextHandoff);
    hide Scrub, Clean, Record, ParseFinalResponse;
  }

  lemma RecordFields(payload: Dict, r: FinalResponse, report: Option<Value>, role: Role, key: string)
    requires Stored(r, role, key)
    ensures var i := CanonicalKey(ScrubFields(payload), 0);
      && (forall j :: 0 <= j < i ==> Skipped(Get(Record(payload, r, report), KEYS[j])))
      && Get(Record(payload, r, report), KEYS[i]) == Obj(ToDict(ScrubResponse(r)))
  {
    var safe := ScrubFields(payload);
    var i := CanonicalKey(safe, 0);
    var canonical := CanonicalPayload(safe, r);
    CanonicalFields(safe, r);
    ScrubDict(r, role, key);
    hide Forbidden, ToDict, CanonicalPayload, CanonicalKey, Skipped, Stored;
    forall j | 0 <= j <= i ensures Get(Record(payload, r, report), KEYS[j]) == Scrub(Get(canonical, KEYS[j])) {
      KeysHarmless(j);
      HarmlessAllowed(KEYS[j]);
      ScrubGet(canonical, KEYS[j]);
    }
    forall j | 0 <= j < i ensures Skipped(Get(Record(payload, r, report), KEYS[j])) { ScrubSkips(Get(canonical, KEYS[j])); }
  }

  lemma {:induction false} ResponseRecordReparses(payload: Dict, r: FinalResponse, report: Option<Value>, role: Role, key: string)
    requires Stored(r, role, key)
    ensures ParseFinalResponse(Record(payload, r, report), role, key) == Accepted(ScrubResponse(r))
  {
    var record := Record(payload, r, report);
    var i := CanonicalKey(ScrubFields(payload), 0);
    RecordFields(payload, r, report, role, key);
    ScrubDict(r, role, key);
    hide ToDict, ParseFields, Record, CanonicalKey, Scrub, Get, Skipped, Stored, ReadField;
    ExtractSkips(record, 0, i);
    ReadObject(ToDict(ScrubResponse(r)));
    StoredParses(ScrubResponse(r), role, key);
  }

  /** The stored text is read back to the stored object. */
  lemma {:induction false} RecordLoads(payload: Dict, r: FinalResponse, report: Option<Value>)
    requires WellFormed(Obj(payload)) && WellFormed(Obj(ToDict(r))) && (report.Some? ==> WellFormed(report.value))
    ensures Loads(Dumps(Obj(Record(payload, r, report)), SPACED)) == Loaded(Obj(Record(payload, r, report)))
  {
    hide ToDict, Forbidden;
    ScrubWellFormed(Obj(payload));
    var canonical := CanonicalPayload(ScrubFields(payload), r);
    assert WellFormed(Obj(canonical));
    ScrubWellFormed(Obj(canonical));
    assert WellFormed(Obj(Record(payload, r, report)));
    hide Record, Loads, Dumps, WellFormed;
    LoadsDumps(Obj(Record(payload, r, report)), SPACED);
  }

  /** An accepted response that is not stored as it is: one evidence item has a reasoning field. */
  lemma EvidenceLosesReasoning(payload: Dict) returns (r: FinalResponse)
    ensures Stored(r, Builder, "k")
    ensures r.evidence == [Obj(map["source" := Str("x"), "cot" := Str("y")])]
    ensures ParseFinalResponse(Record(payload, r, None), Builder, "k") == Accepted(r.(evidence := [Obj(map["source" := Str("x")])]))
  {
    var item := Obj(map["source" := Str("x"), "cot" := Str("y")]);
    r := FinalResponse("k", Builder, PrReadyForReview, "done", [item], [], [], [], Null, Null);
    HarmlessAllowed("source");
    assert Scrub(item) == Obj(map["source" := Str("x")]) by {
      assert Scrub(item).fields == map["source" := Str("x")];
    }
    assert Scrub(Arr([item])).items == [Scrub(item)];
    hide Scrub, Record, ParseFinalResponse, Forbidden;
    ResponseRecordReparses(payload, r, None, Builder, "k");
  }
}
