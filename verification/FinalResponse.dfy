/**
 The strict final-response parser and the repair that may precede it.

 A payload is the JSON object a Hermes run reported. Both sides look for the response under the
 same keys in the same order; repair rewrites one of them into an object and nothing else.
 */
module FinalResponses {
  import opened Text
  import opened Json
  import opened JsonRoundTrip
  import opened Scanner
  import opened Statuses

  const KEYS: seq<string> := ["final_response", "output", "result", "response", "text"]

  datatype FinalResponse = FinalResponse(
    assignmentKey: string,
    role: Role,
    finalStatus: FinalStatus,
    summary: string,
    evidence: seq<Value>,
    decisionLog: seq<Value>,
    risks: seq<Value>,
    assumptions: seq<Value>,
    nextHandoff: Value,
    blockReason: Value)

  /** What `FinalResponseError` and repair's ValueError say, one constructor a message. */
  datatype Reason =
    | NoResponse | NotJson | NotAnObject
    | NoAssignmentKey | NoRole | NoFinalStatus | NoSummary
    | BadEvidence | BadDecisionLog | BadRisks | BadAssumptions
    | KeyMismatch | RoleMismatch | BadFinalStatus | BadHandoff | BadBlockReason
    | UnbalancedObject | NoObject | SeveralObjects

  datatype Result<+T> = Rejected(reason: Reason) | Accepted(value: T)

  // ----- strict parser -------------------------------------------------------------------

  /** A value the parser and repair pass over: not a dict and not a string with visible text. */
  predicate Skipped(v: Value) { !v.Obj? && (v.Str? ==> Strip(v.s) == "") }

  /** What the parser makes of the first field it does not pass over. */
  function ReadField(v: Value): Result<Dict>
    requires !Skipped(v)
  {
    if v.Obj? then Accepted(v.fields) else
    match Loads(Strip(v.s))
    case Malformed => Rejected(NotJson)
    case Loaded(x) => if x.Obj? then Accepted(x.fields) else Rejected(NotAnObject)
  }

  function ExtractFrom(payload: Dict, i: nat): Result<Dict>
    requires i <= |KEYS|
    decreases |KEYS| - i
  {
    if i == |KEYS| then Rejected(NoResponse)
    else if Skipped(Get(payload, KEYS[i])) then ExtractFrom(payload, i + 1)
    else ReadField(Get(payload, KEYS[i]))
  }

  predicate IsText(v: Value) { v.Str? && v.s != "" }

  predicate AllObjects(items: seq<Value>) { forall x :: x in items ==> x.Obj? }

  predicate AllStrings(items: seq<Value>) { forall x :: x in items ==> x.Str? }

  /** A list-valued field, a missing or null one reading as the empty list. */
  function ListOf(data: Dict, key: string): Value {
    if Get(data, key).Null? then Arr([]) else Get(data, key)
  }

  predicate IsStringList(v: Value) { v.Arr? && AllStrings(v.items) }

  /** The response is for the assignment and role it was expected for, with a status open to the role. */
  predicate Answers(r: FinalResponse, role: Role, key: string) {
    r.role == role && r.assignmentKey == key && r.finalStatus in RoleFinalStatuses(role)
  }

  /** The checks on the extracted object, in the order the parser makes them. */
  function ParseFields(data: Dict, role: Role, key: string): (r: Result<FinalResponse>)
    ensures r.Accepted? ==> Answers(r.value, role, key)
  {
    var evidence := ListOf(data, "evidence");
    var handoff := Get(data, "next_handoff");
    var blockReason := Get(data, "block_reason");
    if !IsText(Get(data, "assignment_key")) then Rejected(NoAssignmentKey)
    else if !IsText(Get(data, "role")) then Rejected(NoRole)
    else if !IsText(Get(data, "final_status")) then Rejected(NoFinalStatus)
    else if !IsText(Get(data, "summary")) then Rejected(NoSummary)
    else if !(evidence.Arr? && AllObjects(evidence.items)) then Rejected(BadEvidence)
    else if !IsStringList(ListOf(data, "decision_log")) then Rejected(BadDecisionLog)
    else if !IsStringList(ListOf(data, "risks")) then Rejected(BadRisks)
    else if !IsStringList(ListOf(data, "assumptions")) then Rejected(BadAssumptions)
    else if Get(data, "assignment_key").s != key then Rejected(KeyMismatch)
    else if Get(data, "role").s != RoleName(role) then Rejected(RoleMismatch)
    else
      match ValidateFinalStatus(role, Get(data, "final_status").s)
      case None => Rejected(BadFinalStatus)
      case Some(status) =>
        if !(handoff.Null? || handoff.Obj?) then Rejected(BadHandoff)
        else if !(blockReason.Null? || blockReason.Str?) then Rejected(BadBlockReason)
        else Accepted(FinalResponse(key, role, status, Get(data, "summary").s, evidence.items,
                                    ListOf(data, "decision_log").items, ListOf(data, "risks").items,
                                    ListOf(data, "assumptions").items, handoff, blockReason))
  }

  /** `parse_final_response`. */
  function ParseFinalResponse(payload: Dict, role: Role, key: string): (r: Result<FinalResponse>)
    ensures r.Accepted? ==> Answers(r.value, role, key)
  {
    match ExtractFrom(payload, 0)
    case Rejected(reason) => Rejected(reason)
    case Accepted(data) => ParseFields(data, role, key)
  }

  /** `FinalResponse.to_json` before it is printed. */
  function ToDict(r: FinalResponse): Dict {
    map["assignment_key" := Str(r.assignmentKey), "role" := Str(RoleName(r.role)),
        "final_status" := Str(StatusName(r.finalStatus)), "summary" := Str(r.summary),
        "evidence" := Arr(r.evidence), "decision_log" := Arr(r.decisionLog), "risks" := Arr(r.risks),
        "assumptions" := Arr(r.assumptions), "next_handoff" := r.nextHandoff, "block_reason" := r.blockReason]
  }

  function ToJson(r: FinalResponse): string { Dumps(Obj(ToDict(r)), SPACED) }

  // ----- repair --------------------------------------------------------------------------

  /** The repair diagnostics. */
  datatype Note =
    | TooLong(key: string) | NotExtracted(key: string, reason: Reason) | NothingFound
    | FilledList(field: string) | ConvertedEvidence

  datatype RepairResult = RepairResult(payload: Dict, repaired: bool, diagnostics: seq<Note>)

  function EvidenceItem(x: Value): Value
    requires x.Str?
  {
    Obj(map["source" := x, "detail" := Str("provided by agent as evidence text")])
  }

  function EvidenceObjects(items: seq<Value>): (r: seq<Value>)
    requires AllStrings(items)
    ensures |r| == |items| && forall i :: 0 <= i < |r| ==> r[i] == EvidenceItem(items[i])
  {
    if items == [] then [] else assert items[0] in items; [EvidenceItem(items[0])] + EvidenceObjects(items[1..])
  }

  function NormalizeEvidence(data: Dict): Dict {
    var v := Get(data, "evidence");
    if v.Null? then data["evidence" := Arr([])]
    else if IsStringList(v) then data["evidence" := Arr(EvidenceObjects(v.items))]
    else data
  }

  function NormalizeList(data: Dict, field: string): Dict {
    if Get(data, field).Null? then data[field := Arr([])] else data
  }

  const LIST_FIELDS: seq<string> := ["decision_log", "risks", "assumptions"]

  function NormalizeLists(data: Dict, i: nat): Dict
    requires i <= |LIST_FIELDS|
  {
    if i == 0 then data else NormalizeList(NormalizeLists(data, i - 1), LIST_FIELDS[i - 1])
  }

  /** What `_normalize_payload` makes of the extracted object. */
  function Normalize(data: Dict): Dict { NormalizeLists(NormalizeEvidence(data), |LIST_FIELDS|) }

  /** The objects among the text's top-level spans. */
  function LoadSpans(text: string, spans: seq<Span>): seq<Dict>
    requires Ordered(spans, |text|)
  {
    if spans == [] then [] else
    var n := |spans| - 1;
    var loaded := Loads(text[spans[n].0..spans[n].1]);
    LoadSpans(text, spans[..n]) + if loaded.Loaded? && loaded.value.Obj? then [loaded.value.fields] else []
  }

  /** `_extract_single_json_object`. */
  function ExtractSingle(text: string): Result<Dict> {
    match BalancedObjectSpans(text)
    case Unbalanced => Rejected(UnbalancedObject)
    case Balanced(spans) =>
      SpansAreBlocks(text, |text|);
      var objects := LoadSpans(text, spans);
      if |objects| == 0 then Rejected(NoObject)
      else if |objects| > 1 then Rejected(SeveralObjects)
      else Accepted(objects[0])
  }

  /** What repair takes from the field: an object, or a reason to look further, or nothing to say. */
  function Candidate(v: Value, maxChars: nat): Option<Dict> {
    if v.Obj? then Some(v.fields)
    else if Skipped(v) || |v.s| > maxChars then None
    else match ExtractSingle(v.s) { case Accepted(f) => Some(f) case Rejected(_) => None }
  }

  /** The first key from i on holding something repair can work with. */
  function RepairKey(payload: Dict, maxChars: nat, i: nat): (r: nat)
    requires i <= |KEYS|
    ensures i <= r <= |KEYS|
    ensures r < |KEYS| ==> Candidate(Get(payload, KEYS[r]), maxChars).Some?
    ensures forall j :: i <= j < r ==> Candidate(Get(payload, KEYS[j]), maxChars).None?
    decreases |KEYS| - i
  {
    if i == |KEYS| || Candidate(Get(payload, KEYS[i]), maxChars).Some? then i else RepairKey(payload, maxChars, i + 1)
  }

  /** The payload `deterministic_repair_payload` returns. */
  function RepairedPayload(payload: Dict, maxChars: nat): Dict {
    var i := RepairKey(payload, maxChars, 0);
    if i == |KEYS| then payload
    else payload[KEYS[i] := Obj(Normalize(Candidate(Get(payload, KEYS[i]), maxChars).value))]
  }

  /** The object lacks a list, or its evidence is a list of strings (the empty list included). */
  predicate NeedsRepair(data: Dict) {
    || Get(data, "evidence").Null? || IsStringList(Get(data, "evidence"))
    || exists i :: 0 <= i < |LIST_FIELDS| && Get(data, LIST_FIELDS[i]).Null?
  }

  /** `_normalize_payload`: edits a copy of the object, noting each change. */
  method NormalizePayload(payload: Dict, data: Dict, key: string, diagnostics: seq<Note>) returns (r: RepairResult)
    ensures r.payload == payload[key := Obj(Normalize(data))]
    ensures r.repaired <==> NeedsRepair(data) || Get(payload, key) != Obj(Normalize(data))
    ensures diagnostics <= r.diagnostics
  {
    var normalized, repaired, notes := data, false, diagnostics;
    var evidence := Get(normalized, "evidence");
    if evidence.Null? {
      normalized := normalized["evidence" := Arr([])];
      notes := notes + [FilledList("evidence")];
      repaired := true;
    } else if IsStringList(evidence) {
      normalized := normalized["evidence" := Arr(EvidenceObjects(evidence.items))];
      notes := notes + [ConvertedEvidence];
      repaired := true;
    }
    for i := 0 to |LIST_FIELDS|
      invariant normalized == NormalizeLists(NormalizeEvidence(data), i)
      invariant forall j :: i <= j < |LIST_FIELDS| ==> Get(normalized, LIST_FIELDS[j]) == Get(data, LIST_FIELDS[j])
      invariant repaired <==> evidence.Null? || IsStringList(evidence)
                              || exists j :: 0 <= j < i && Get(data, LIST_FIELDS[j]).Null?
      invariant diagnostics <= notes
    {
      var field := LIST_FIELDS[i];
      if Get(normalized, field).Null? {
        normalized := normalized[field := Arr([])];
        notes := notes + [FilledList(field)];
        repaired := true;
      }
    }
    if Get(payload, key) != Obj(normalized) {
      repaired := true;
    }
    return RepairResult(payload[key := Obj(normalized)], repaired, notes);
  }

  /** `_extract_single_json_object`: the loop over the spans the scanner found. */
  method ExtractSingleJsonObject(text: string) returns (r: Result<Dict>)
    ensures r == ExtractSingle(text)
  {
    hide Loads, Block, SpansUpTo, DepthAt;
    var scanned := ScanObjectSpans(text);
    if scanned.Unbalanced? {
      return Rejected(UnbalancedObject);
    }
    var spans, objects: seq<Dict> := scanned.spans, [];
    for i := 0 to |spans|
      invariant objects == LoadSpans(text, spans[..i])
    {
      assert spans[..i + 1][..i] == spans[..i];
      var parsed := Loads(text[spans[i].0..spans[i].1]);
      if parsed.Loaded? && parsed.value.Obj? {
        objects := objects + [parsed.value.fields];
      }
    }
    assert spans[..|spans|] == spans;
    if |objects| == 0 {
      return Rejected(NoObject);
    }
    if |objects| > 1 {
      return Rejected(SeveralObjects);
    }
    return Accepted(objects[0]);
  }

  /** A span never holds valid JSON other than an object, so the "must be an object" error is dead. */
  lemma SpansHoldObjects(text: string, s: nat, e: nat)
    requires Block(text, s, e) && Loads(text[s..e]).Loaded?
    ensures Loads(text[s..e]).value.Obj?
  {
    BlockBraces(text, s, e);
    assert text[s..e][0] == '{' && SkipWs(text[s..e]) == text[s..e];
  }

  /** `deterministic_repair_payload`. */
  method DeterministicRepair(payload: Dict, maxChars: nat) returns (r: RepairResult)
    ensures r.payload == RepairedPayload(payload, maxChars)
    ensures r.repaired ==> RepairKey(payload, maxChars, 0) < |KEYS|
    ensures var i := RepairKey(payload, maxChars, 0);
      i < |KEYS| ==> (r.repaired <==> NeedsRepair(Candidate(Get(payload, KEYS[i]), maxChars).value)
                                      || r.payload != payload)
    ensures !r.repaired ==> r.payload == payload
  {
    var diagnostics: seq<Note> := [];
    for i := 0 to |KEYS|
      invariant RepairKey(payload, maxChars, 0) == RepairKey(payload, maxChars, i)
    {
      var key := KEYS[i];
      var value := Get(payload, key);
      if value.Obj? {
        r := NormalizePayload(payload, value.fields, key, diagnostics);
        return;
      }
      if !value.Str? || Strip(value.s) == "" {
        continue;
      }
      if |value.s| > maxChars {
        diagnostics := diagnostics + [TooLong(key)];
        continue;
      }
      var extracted := ExtractSingleJsonObject(value.s);
      if extracted.Rejected? {
        diagnostics := diagnostics + [NotExtracted(key, extracted.reason)];
        continue;
      }
      r := NormalizePayload(payload, extracted.value, key, diagnostics);
      return;
    }
    if diagnostics == [] {
      diagnostics := [NothingFound];
    }
    return RepairResult(payload, false, diagnostics);
  }

  // ----- repair against the strict parser ------------------------------------------------

  /** Reading a text that is one JSON object: its own scan finds it whole. */
  lemma ExtractWhole(pre: string, d: string, post: string, f: Dict)
    requires IsProse(pre) && IsProse(post) && ParseValue(d) == Parsed(Obj(f), "")
    ensures ExtractSingle(pre + d + post) == Accepted(f)
  {
    var t := pre + d + post;
    OneSpanInProse(pre, d, post, f);
    assert t[|pre|..|pre| + |d|] == d;
    assert SkipWs(d) == d;
    var spans: seq<Span> := [(|pre|, |pre| + |d|)];
    assert LoadSpans(t, spans[..0]) == [];
    assert LoadSpans(t, spans) == [f];
  }

  lemma {:induction false} SkippedToEnd(e: string)
    requires SkipWs(e) == "" && e != ""
    ensures IsWs(e[|e| - 1])
  {
    if |e| > 1 { SkippedToEnd(e[1..]); }
  }

  /** A string the strict parser loads as an object is one repair extracts, to the same object. */
  lemma ExtractsWhatLoads(text: string, f: Dict)
    requires Loads(Strip(text)) == Loaded(Obj(f))
    ensures ExtractSingle(text) == Accepted(f)
  {
    var d := Strip(text);
    var pre, post := StripSplits(text);
    SpacesAreProse(pre);
    SpacesAreProse(post);
    hide IsProse, ExtractSingle, Strip, IsSpace;
    LoadsWhole(d, f);
    ExtractWhole(pre, d, post, f);
  }

  lemma SpacesAreProse(p: string)
    requires forall c :: c in p ==> IsSpace(c)
    ensures IsProse(p)
  {
    forall i | 0 <= i < |p| ensures p[i] != '"' && p[i] != '{' { assert p[i] in p; }
  }

  lemma ScanStarts(d: string)
    ensures LexAt(d, 0) == Outside
  {}

  /** With no white space at either end, `json.loads` leaves nothing unread. */
  lemma LoadsWhole(d: string, f: Dict)
    requires d != "" && !IsSpace(d[0]) && !IsSpace(d[|d| - 1]) && Loads(d) == Loaded(Obj(f))
    ensures ParseValue(d) == Parsed(Obj(f), "")
  {
    assert SkipWs(d) == d && d[0..] == d;
    hide ParseValue, LexAt, DepthAt, Level;
    var j := LevelOverValue(d, 0) by { assert LexAt(d, 0) == Outside by { ScanStarts(d); } }
    var e := d[j..];
    assert e != "" ==> e[|e| - 1] == d[|d| - 1];
    if e != "" { SkippedToEnd(e); }
  }

  lemma {:induction false} ExtractSkips(payload: Dict, i: nat, e: nat)
    requires i <= e <= |KEYS| && forall j :: i <= j < e ==> Skipped(Get(payload, KEYS[j]))
    ensures ExtractFrom(payload, i) == ExtractFrom(payload, e)
    decreases e - i
  {
    if i < e { ExtractSkips(payload, i + 1, e); }
  }

  /** The first key the strict parser does not pass over. */
  function FirstField(payload: Dict, i: nat): (e: nat)
    requires i <= |KEYS|
    ensures i <= e <= |KEYS| && (forall j :: i <= j < e ==> Skipped(Get(payload, KEYS[j])))
    ensures e < |KEYS| ==> !Skipped(Get(payload, KEYS[e]))
    decreases |KEYS| - i
  {
    if i < |KEYS| && Skipped(Get(payload, KEYS[i])) then FirstField(payload, i + 1) else i
  }

  lemma KeysDistinct(i: nat, j: nat)
    requires i < |KEYS| && j < |KEYS| && i != j
    ensures KEYS[i] != KEYS[j]
  {}

  /** Normalising fills in lists and turns evidence strings into objects; it touches nothing else. */
  lemma NormalizeFields(data: Dict, key: string)
    ensures key != "evidence" && key !in LIST_FIELDS ==> Get(Normalize(data), key) == Get(data, key)
    ensures key in LIST_FIELDS ==> Get(Normalize(data), key) == ListOf(data, key)
    ensures Get(Normalize(data), "evidence") == Get(NormalizeEvidence(data), "evidence")
    ensures data.Keys <= Normalize(data).Keys <= data.Keys + {"evidence", "decision_log", "risks", "assumptions"}
  {
    var d0 := NormalizeEvidence(data);
    var d1 := NormalizeList(d0, "decision_log");
    var d2 := NormalizeList(d1, "risks");
    assert NormalizeLists(d0, 1) == d1 && NormalizeLists(d0, 2) == d2;
    assert Normalize(data) == NormalizeList(d2, "assumptions");
  }

  /** An object the parser accepts is accepted with the same result once normalised. */
  lemma ParseNormalized(data: Dict, role: Role, key: string)
    requires ParseFields(data, role, key).Accepted?
    ensures ParseFields(Normalize(data), role, key) == ParseFields(data, role, key)
  {
    var n := Normalize(data);
    NormalizeFields(data, "assignment_key");
    NormalizeFields(data, "role");
    NormalizeFields(data, "final_status");
    NormalizeFields(data, "summary");
    NormalizeFields(data, "next_handoff");
    NormalizeFields(data, "block_reason");
    NormalizeFields(data, "decision_log");
    NormalizeFields(data, "risks");
    NormalizeFields(data, "assumptions");
    AcceptedEvidence(data);
    hide Normalize, IsStringList, AllObjects, IsText, ValidateFinalStatus, Answers;
  }

  lemma AcceptedEvidence(data: Dict)
    requires ListOf(data, "evidence").Arr? && AllObjects(ListOf(data, "evidence").items)
    ensures ListOf(Normalize(data), "evidence") == ListOf(data, "evidence")
  {
    NormalizeFields(data, "evidence");
    var v := Get(data, "evidence");
    if v.Arr? { FirstItem(v.items); }
  }

  lemma FirstItem(items: seq<Value>)
    ensures items != [] && AllObjects(items) ==> items[0].Obj?
    ensures items != [] && AllStrings(items) ==> items[0].Str?
  {
    if items != [] { assert items[0] in items; }
  }

  /**
   Repair is conservative: whatever payload the strict parser accepts, it accepts repaired, with the
   identical response.
   */
  lemma RepairConservative(payload: Dict, maxChars: nat, role: Role, key: string)
    requires ParseFinalResponse(payload, role, key).Accepted?
    ensures ParseFinalResponse(RepairedPayload(payload, maxChars), role, key) == ParseFinalResponse(payload, role, key)
  {
    var i := RepairKey(payload, maxChars, 0);
    if i < |KEYS| {
      ExtractRepaired(payload, maxChars);
      hide RepairedPayload, ParseFields, Normalize, ExtractFrom, RepairKey;
      ParseNormalized(ExtractFrom(payload, 0).value, role, key);
    }
  }

  /** Repaired, the payload holds the object it held, or that object normalised. */
  lemma ExtractRepaired(payload: Dict, maxChars: nat)
    requires ExtractFrom(payload, 0).Accepted?
    ensures ExtractFrom(RepairedPayload(payload, maxChars), 0) == ExtractFrom(payload, 0)
      || ExtractFrom(RepairedPayload(payload, maxChars), 0) == Accepted(Normalize(ExtractFrom(payload, 0).value))
  {
    var e, i := FirstField(payload, 0), RepairKey(payload, maxChars, 0);
    ExtractSkips(payload, 0, e);
    if i < |KEYS| {
      var repaired := RepairedPayload(payload, maxChars);
      RepairReplaces(payload, maxChars);
      hide RepairedPayload, Normalize, RepairKey, FirstField, ReadField, Candidate;
      ExtractSkips(repaired, 0, e);
      if i == e {
        ExtractedIsCandidate(payload, e, maxChars);
        ReadObject(Normalize(ExtractFrom(payload, e).value));
      }
    }
  }

  lemma ReadObject(f: Dict)
    ensures !Skipped(Obj(f)) && ReadField(Obj(f)) == Accepted(f)
  {}

  /** Repair rewrites the one key it settled on, which no key the parser passes over can be. */
  lemma RepairReplaces(payload: Dict, maxChars: nat)
    requires RepairKey(payload, maxChars, 0) < |KEYS|
    ensures var i := RepairKey(payload, maxChars, 0);
      && FirstField(payload, 0) <= i
      && (forall j :: 0 <= j < |KEYS| && j != i ==>
           Get(RepairedPayload(payload, maxChars), KEYS[j]) == Get(payload, KEYS[j]))
      && Get(RepairedPayload(payload, maxChars), KEYS[i]) ==
         Obj(Normalize(Candidate(Get(payload, KEYS[i]), maxChars).value))
  {
    var i := RepairKey(payload, maxChars, 0);
    assert !Skipped(Get(payload, KEYS[i]));
    forall j | 0 <= j < |KEYS| && j != i
      ensures Get(RepairedPayload(payload, maxChars), KEYS[j]) == Get(payload, KEYS[j])
    {
      KeysDistinct(i, j);
    }
  }

  /** Where the parser reads an object, repair, if it takes that field, takes the same object. */
  lemma ExtractedIsCandidate(payload: Dict, e: nat, maxChars: nat)
    requires e < |KEYS| && !Skipped(Get(payload, KEYS[e])) && ExtractFrom(payload, e).Accepted?
    requires Candidate(Get(payload, KEYS[e]), maxChars).Some?
    ensures Candidate(Get(payload, KEYS[e]), maxChars).value == ExtractFrom(payload, e).value
  {
    var v := Get(payload, KEYS[e]);
    if v.Str? { ExtractsWhatLoads(v.s, ExtractFrom(payload, e).value); }
  }

  /**
   Whatever it repairs, repair leaves the outcome alone: every other field of the payload, and in the
   object it rewrites every field but the evidence and the three lists.
   */
  lemma RepairKeepsOutcome(payload: Dict, maxChars: nat, field: string)
    requires RepairKey(payload, maxChars, 0) < |KEYS|
    requires field != "evidence" && field !in LIST_FIELDS
    ensures var key := KEYS[RepairKey(payload, maxChars, 0)];
      var repaired := RepairedPayload(payload, maxChars);
      && repaired.Keys == payload.Keys && (forall k :: k in payload && k != key ==> repaired[k] == payload[k])
      && repaired[key].Obj?
      && Get(repaired[key].fields, field) == Get(Candidate(Get(payload, key), maxChars).value, field)
  {
    RepairReplaces(payload, maxChars);
    NormalizeFields(Candidate(Get(payload, KEYS[RepairKey(payload, maxChars, 0)]), maxChars).value, field);
  }

  lemma EvidenceIsObjects(items: seq<Value>)
    requires AllStrings(items)
    ensures AllObjects(EvidenceObjects(items)) && AllStrings(EvidenceObjects(items)) ==> EvidenceObjects(items) == []
    ensures AllObjects(EvidenceObjects(items))
  {
    var r := EvidenceObjects(items);
    forall x | x in r ensures x.Obj? {
      var i :| 0 <= i < |r| && r[i] == x;
      assert r[i] == EvidenceItem(items[i]);
    }
    FirstItem(r);
  }

  lemma NormalizeTwice(data: Dict)
    ensures Normalize(Normalize(data)) == Normalize(data)
  {
    var n := Normalize(data);
    NormalizeFields(data, "evidence");
    NormalizeFields(data, "decision_log");
    NormalizeFields(data, "risks");
    NormalizeFields(data, "assumptions");
    var v := Get(data, "evidence");
    if IsStringList(v) { EvidenceIsObjects(v.items); }
    hide Normalize;
    NothingToNormalize(n);
  }

  lemma NothingToNormalize(n: Dict)
    requires "evidence" in n && !n["evidence"].Null? && (IsStringList(n["evidence"]) ==> n["evidence"].items == [])
    requires !Get(n, "decision_log").Null? && !Get(n, "risks").Null? && !Get(n, "assumptions").Null?
    ensures Normalize(n) == n
  {
    assert NormalizeEvidence(n) == n;
    assert NormalizeLists(n, 1) == n && NormalizeLists(n, 2) == n;
  }

  /** Repairing twice changes nothing more, although the second repair may again call itself one. */
  lemma RepairIdempotent(payload: Dict, maxChars: nat)
    ensures RepairedPayload(RepairedPayload(payload, maxChars), maxChars) == RepairedPayload(payload, maxChars)
  {
    var i := RepairKey(payload, maxChars, 0);
    if i < |KEYS| {
      var repaired := RepairedPayload(payload, maxChars);
      RepairReplaces(payload, maxChars);
      RepairKeyStays(payload, repaired, maxChars, i, 0);
      NormalizeTwice(Candidate(Get(payload, KEYS[i]), maxChars).value);
    }
  }

  /** What a normalised object still sets the flag for: an evidence list that is empty. */
  lemma NeedsRepairAgain(data: Dict)
    ensures NeedsRepair(Normalize(data)) <==> Get(Normalize(data), "evidence") == Arr([])
  {
    var n := Normalize(data);
    NormalizeFields(data, "evidence");
    NormalizeFields(data, "decision_log");
    NormalizeFields(data, "risks");
    NormalizeFields(data, "assumptions");
    var v := Get(data, "evidence");
    if IsStringList(v) { EvidenceIsObjects(v.items); }
    hide Normalize;
    assert LIST_FIELDS[0] == "decision_log" && LIST_FIELDS[1] == "risks" && LIST_FIELDS[2] == "assumptions";
  }

  /** A second repair, which changes nothing, says repaired exactly when the normalised evidence is empty. */
  lemma RepairedTwice(payload: Dict, maxChars: nat)
    requires RepairKey(payload, maxChars, 0) < |KEYS|
    ensures var again := RepairedPayload(payload, maxChars);
      var i := RepairKey(again, maxChars, 0);
      && i < |KEYS| && RepairedPayload(again, maxChars) == again
      && var data := Candidate(Get(again, KEYS[i]), maxChars).value;
         NeedsRepair(data) <==> Get(data, "evidence") == Arr([])
  {
    var i := RepairKey(payload, maxChars, 0);
    var again := RepairedPayload(payload, maxChars);
    RepairReplaces(payload, maxChars);
    RepairKeyStays(payload, again, maxChars, i, 0);
    RepairIdempotent(payload, maxChars);
    var data := Candidate(Get(payload, KEYS[i]), maxChars).value;
    ObjectIsCandidate(Get(again, KEYS[i]), maxChars);
    NeedsRepairAgain(data);
    hide Normalize, NeedsRepair, RepairedPayload, RepairKey;
  }

  /** An object without evidence is repaired every time. */
  lemma MissingEvidenceRepairedTwice(maxChars: nat)
    ensures var payload: Dict := map["final_response" := Obj(map["summary" := Str("done")])];
      var again := RepairedPayload(payload, maxChars);
      RepairKey(again, maxChars, 0) == 0 && NeedsRepair(Candidate(Get(again, KEYS[0]), maxChars).value)
  {
    var data: Dict := map["summary" := Str("done")];
    var payload: Dict := map["final_response" := Obj(data)];
    ObjectIsCandidate(Obj(data), maxChars);
    assert Get(payload, KEYS[0]) == Obj(data);
    assert RepairKey(payload, maxChars, 0) == 0;
    RepairReplaces(payload, maxChars);
    RepairedTwice(payload, maxChars);
    NormalizeFields(data, "evidence");
    RepairKeyStays(payload, RepairedPayload(payload, maxChars), maxChars, 0, 0);
    ObjectIsCandidate(Obj(Normalize(data)), maxChars);
    assert Get(data, "evidence") == Null;
    hide Normalize, RepairKey, NeedsRepair, RepairedPayload, Candidate;
  }

  lemma {:induction false} RepairKeyStays(payload: Dict, repaired: Dict, maxChars: nat, i: nat, j: nat)
    requires j <= i < |KEYS| && RepairKey(payload, maxChars, j) == i && Get(repaired, KEYS[i]).Obj?
    requires forall k :: j <= k < i ==> Get(repaired, KEYS[k]) == Get(payload, KEYS[k])
    ensures RepairKey(repaired, maxChars, j) == i
    decreases i - j
  {
    hide Candidate;
    ObjectIsCandidate(Get(repaired, KEYS[i]), maxChars);
    if j < i { RepairKeyStays(payload, repaired, maxChars, i, j + 1); }
  }

  lemma ObjectIsCandidate(v: Value, maxChars: nat)
    requires v.Obj?
    ensures Candidate(v, maxChars) == Some(v.fields)
  {}

  /**
   What repair is for: the first field holds prose around one JSON object. The repaired payload parses
   exactly as that object would once normalised.
   */
  lemma {:induction false} RepairReadsProse(payload: Dict, maxChars: nat, pre: string, d: string, post: string, f: Dict, role: Role, key: string)
    requires IsProse(pre) && IsProse(post) && ParseValue(d) == Parsed(Obj(f), "")
    requires |pre + d + post| <= maxChars
    requires FirstField(payload, 0) < |KEYS| && Get(payload, KEYS[FirstField(payload, 0)]) == Str(pre + d + post)
    ensures ParseFinalResponse(RepairedPayload(payload, maxChars), role, key) == ParseFields(Normalize(f), role, key)
  {
    var e := FirstField(payload, 0);
    hide ParseFields, Normalize, ParseValue;
    ExtractWhole(pre, d, post, f);
    hide ExtractSingle;
    assert Candidate(Get(payload, KEYS[e]), maxChars) == Some(f);
    FirstCandidate(payload, maxChars, e, 0);
    RepairReplaces(payload, maxChars);
    var repaired := RepairedPayload(payload, maxChars);
    hide RepairedPayload, Candidate, FirstField, RepairKey;
    ReadObject(Normalize(f));
    ExtractSkips(repaired, 0, e);
  }

  lemma {:induction false} FirstCandidate(payload: Dict, maxChars: nat, e: nat, i: nat)
    requires i <= e < |KEYS| && Candidate(Get(payload, KEYS[e]), maxChars).Some?
    requires forall j :: i <= j < e ==> Skipped(Get(payload, KEYS[j]))
    ensures RepairKey(payload, maxChars, i) == e
    decreases e - i
  {
    if i < e {
      assert Candidate(Get(payload, KEYS[i]), maxChars).None?;
      FirstCandidate(payload, maxChars, e, i + 1);
    }
  }

  // ----- storing the response ------------------------------------------------------------

  lemma ToDictFields(r: FinalResponse)
    ensures var d := ToDict(r);
      && Get(d, "assignment_key") == Str(r.assignmentKey) && Get(d, "role") == Str(RoleName(r.role))
      && Get(d, "final_status") == Str(StatusName(r.finalStatus)) && Get(d, "summary") == Str(r.summary)
      && ListOf(d, "evidence") == Arr(r.evidence) && ListOf(d, "decision_log") == Arr(r.decisionLog)
      && ListOf(d, "risks") == Arr(r.risks) && ListOf(d, "assumptions") == Arr(r.assumptions)
      && Get(d, "next_handoff") == r.nextHandoff && Get(d, "block_reason") == r.blockReason
  {
    hide RoleName, StatusName;
  }

  /** What acceptance says of the response itself. */
  predicate Stored(r: FinalResponse, role: Role, key: string) {
    && Answers(r, role, key) && key != "" && r.summary != ""
    && AllObjects(r.evidence) && IsStringList(Arr(r.decisionLog)) && IsStringList(Arr(r.risks))
    && IsStringList(Arr(r.assumptions))
    && (r.nextHandoff.Null? || r.nextHandoff.Obj?) && (r.blockReason.Null? || r.blockReason.Str?)
  }

  lemma AcceptedIsStored(data: Dict, role: Role, key: string)
    requires ParseFields(data, role, key).Accepted?
    ensures Stored(ParseFields(data, role, key).value, role, key)
  {
    hide RoleName, ListOf, Get, ValidateFinalStatus, AllObjects;
  }

  lemma StoredParses(r: FinalResponse, role: Role, key: string)
    requires Stored(r, role, key)
    ensures ParseFields(ToDict(r), role, key) == Accepted(r)
  {
    hide ToDict, RoleName, StatusName, Get, ListOf, ValidateFinalStatus, IsStringList, AllObjects, RoleFinalStatuses;
    ToDictFields(r);
    StatusIsItsName(role, r.finalStatus);
    NamesNotEmpty(role, r.finalStatus);
  }

  lemma NamesNotEmpty(role: Role, status: FinalStatus)
    ensures RoleName(role) != "" && StatusName(status) != ""
  {}

  /** `to_json` is read back to the very response, by json.loads and the strict parser. */
  lemma {:induction false} ToJsonReparses(data: Dict, role: Role, key: string)
    requires ParseFields(data, role, key).Accepted? && WellFormed(Obj(ToDict(ParseFields(data, role, key).value)))
    ensures var r := ParseFields(data, role, key).value;
      Loads(ToJson(r)) == Loaded(Obj(ToDict(r))) && ParseFields(ToDict(r), role, key) == Accepted(r)
  {
    AcceptedIsStored(data, role, key);
    hide ParseFields, ToDict, WellFormed, Stored;
    var r := ParseFields(data, role, key).value;
    LoadsDumps(Obj(ToDict(r)), SPACED);
    StoredParses(r, role, key);
  }

  lemma StatusIsItsName(role: Role, status: FinalStatus)
    requires status in RoleFinalStatuses(role)
    ensures ValidateFinalStatus(role, StatusName(status)) == Some(status)
  {
    NamesDistinct();
  }

  /** The key `_canonical_completion_payload` stores under: the first one present, else the first. */
  function CanonicalKey(payload: Dict, i: nat): (r: nat)
    requires i <= |KEYS|
    ensures r < |KEYS|
    decreases |KEYS| - i
  {
    if i == |KEYS| then 0 else if KEYS[i] in payload then i else CanonicalKey(payload, i + 1)
  }

  function CanonicalPayload(payload: Dict, r: FinalResponse): Dict {
    payload[KEYS[CanonicalKey(payload, 0)] := Obj(ToDict(r))]
  }

  lemma {:induction false} CanonicalKeyFirst(payload: Dict, i: nat)
    requires i <= |KEYS| && forall j :: 0 <= j < i ==> KEYS[j] !in payload
    ensures forall j :: 0 <= j < CanonicalKey(payload, i) ==> KEYS[j] !in payload
    decreases |KEYS| - i
  {
    if i < |KEYS| && KEYS[i] !in payload { CanonicalKeyFirst(payload, i + 1); }
  }

  lemma CanonicalFields(payload: Dict, r: FinalResponse)
    ensures var i := CanonicalKey(payload, 0);
      && (forall j :: 0 <= j < i ==> Skipped(Get(CanonicalPayload(payload, r), KEYS[j])))
      && Get(CanonicalPayload(payload, r), KEYS[i]) == Obj(ToDict(r))
  {
    hide ToDict;
    var i := CanonicalKey(payload, 0);
    CanonicalKeyFirst(payload, 0);
    forall j | 0 <= j < i ensures Skipped(Get(CanonicalPayload(payload, r), KEYS[j])) { KeysDistinct(i, j); }
  }

  /** The canonical completion payload, before its reasoning fields are taken out, parses to the response it was built from. */
  lemma {:induction false} CanonicalReparses(payload: Dict, data: Dict, role: Role, key: string)
    requires ParseFields(data, role, key).Accepted? && WellFormed(Obj(ToDict(ParseFields(data, role, key).value)))
    ensures var r := ParseFields(data, role, key).value;
      ParseFinalResponse(CanonicalPayload(payload, r), role, key) == Accepted(r)
  {
    hide ParseFields, ToDict, WellFormed, ToJson, CanonicalPayload, CanonicalKey, ReadField, Skipped, Get;
    var r := ParseFields(data, role, key).value;
    ToJsonReparses(data, role, key);
    CanonicalFields(payload, r);
    var i := CanonicalKey(payload, 0);
    ExtractSkips(CanonicalPayload(payload, r), 0, i);
    ReadObject(ToDict(r));
  }

  // ----- parse or repair -----------------------------------------------------------------

  datatype RepairConfig = RepairConfig(enabled: bool, modelEnabled: bool, maxChars: nat)

  /**
   `_parse_or_repair_final_response`: strict parse, then deterministic repair, then the model's answer
   (None when asking it raised), itself repaired.
   */
  method ParseOrRepair(payload: Dict, role: Role, key: string, config: RepairConfig, modelAnswer: Option<Dict>)
    returns (r: Option<FinalResponse>, modelAsked: bool)
    ensures r == ParsedOrRepaired(payload, role, key, config, modelAnswer)
    ensures modelAsked ==> config.enabled && config.modelEnabled && ParseFinalResponse(payload, role, key).Rejected?
  {
    modelAsked := false;
    var parsed := ParseFinalResponse(payload, role, key);
    if parsed.Accepted? {
      return Some(parsed.value), false;
    }
    if config.enabled {
      var repair := DeterministicRepair(payload, config.maxChars);
      if repair.repaired {
        parsed := ParseFinalResponse(repair.payload, role, key);
        if parsed.Accepted? {
          return Some(parsed.value), false;
        }
      }
    }
    if config.enabled && config.modelEnabled {
      modelAsked := true;
      if modelAnswer.Some? {
        var repair := DeterministicRepair(modelAnswer.value, config.maxChars);
        parsed := ParseFinalResponse(repair.payload, role, key);
        if parsed.Accepted? {
          return Some(parsed.value), true;
        }
      }
    }
    return None, modelAsked;
  }

  function ToOption<T>(r: Result<T>): Option<T> { if r.Accepted? then Some(r.value) else None }

  /** The three sources of a response in their order, first acceptance wins. */
  function ParsedOrRepaired(payload: Dict, role: Role, key: string, config: RepairConfig, modelAnswer: Option<Dict>)
    : (r: Option<FinalResponse>)
    ensures r.Some? ==> Answers(r.value, role, key)
  {
    var strict := ParseFinalResponse(payload, role, key);
    var repaired := ParseFinalResponse(RepairedPayload(payload, config.maxChars), role, key);
    if strict.Accepted? then Some(strict.value)
    else if config.enabled && repaired.Accepted? then Some(repaired.value)
    else if config.enabled && config.modelEnabled && modelAnswer.Some? then
      ToOption(ParseFinalResponse(RepairedPayload(modelAnswer.value, config.maxChars), role, key))
    else None
  }
}
