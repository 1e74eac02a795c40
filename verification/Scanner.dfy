/**
 The scanner that finds JSON objects inside prose (`_balanced_object_spans`).

 Reference: two readings of a position, whether it lies inside a string literal and how many
 braces are open there. The scanner's spans are exactly the maximal stretches of positive depth.
 */
module Scanner {
  import opened Text
  import opened Json

  datatype Lex = Outside | InString | Escaped

  function LexAt(t: string, k: nat): Lex
    requires k <= |t|
  {
    if k == 0 then Outside else
    match LexAt(t, k - 1)
    case Escaped => InString
    case InString => if t[k - 1] == '\\' then Escaped else if t[k - 1] == '"' then Outside else InString
    case Outside => if t[k - 1] == '"' then InString else Outside
  }

  /** Open braces at position k; a closing brace with none open is ignored. */
  function DepthAt(t: string, k: nat): nat
    requires k <= |t|
  {
    if k == 0 then 0 else
    var d := DepthAt(t, k - 1);
    if LexAt(t, k - 1) != Outside then d
    else if t[k - 1] == '{' then d + 1
    else if t[k - 1] == '}' && d > 0 then d - 1
    else d
  }

  /** A top-level braced stretch of the text: nothing open at its ends, something open between. */
  ghost predicate Block(t: string, start: nat, end: nat) {
    && start + 1 < end <= |t| && DepthAt(t, start) == 0 && DepthAt(t, end) == 0
    && forall m :: start < m < end ==> DepthAt(t, m) > 0
  }

  type Span = (nat, nat)

  /** The last position up to k with nothing open. */
  function LastClosed(t: string, k: nat): (r: nat)
    requires k <= |t|
    ensures r <= k && DepthAt(t, r) == 0 && (forall m :: r < m <= k ==> DepthAt(t, m) > 0)
  {
    if DepthAt(t, k) == 0 then k else LastClosed(t, k - 1)
  }

  function SpansUpTo(t: string, k: nat): seq<Span>
    requires k <= |t|
  {
    if k == 0 then [] else
    SpansUpTo(t, k - 1)
    + if DepthAt(t, k - 1) > 0 && DepthAt(t, k) == 0 then [(LastClosed(t, k - 1), k)] else []
  }

  predicate Ordered(spans: seq<Span>, limit: nat) {
    && (forall i :: 0 <= i < |spans| ==> spans[i].0 < spans[i].1 <= limit)
    && (forall i, j :: 0 <= i < j < |spans| ==> spans[i].1 <= spans[j].0)
  }

  /** Spans are in order, disjoint, and precisely the text's blocks. */
  lemma {:induction false} SpansAreBlocks(t: string, k: nat)
    requires k <= |t|
    ensures Ordered(SpansUpTo(t, k), k)
    ensures forall s: nat, e: nat :: (s, e) in SpansUpTo(t, k) <==> Block(t, s, e) && e <= k
  {
    hide DepthAt, LexAt, LastClosed;
    if k > 0 {
      SpansAreBlocks(t, k - 1);
      var prev := SpansUpTo(t, k - 1);
      if DepthAt(t, k - 1) > 0 && DepthAt(t, k) == 0 {
        var s := LastClosed(t, k - 1);
        assert Block(t, s, k);
        forall i | 0 <= i < |prev| ensures prev[i].1 <= s {
          assert prev[i] in prev && Block(t, prev[i].0, prev[i].1);
        }
        forall s2: nat | Block(t, s2, k) ensures s2 == s {
          assert DepthAt(t, s) == 0 && DepthAt(t, s2) == 0;
        }
      } else {
        forall s: nat ensures !Block(t, s, k) {
          assert DepthAt(t, k - 1) == 0 || DepthAt(t, k) > 0;
        }
      }
    }
  }

  /** A block opens with a brace and closes with one, both outside strings. */
  lemma BlockBraces(t: string, start: nat, end: nat)
    requires Block(t, start, end)
    ensures t[start] == '{' && LexAt(t, start) == Outside
    ensures t[end - 1] == '}' && LexAt(t, end - 1) == Outside
  {
    assert DepthAt(t, start + 1) > 0 && DepthAt(t, end - 1) > 0;
  }

  datatype Spans = Unbalanced | Balanced(spans: seq<Span>)

  /** `_balanced_object_spans`: the spans of the text, or the ValueError it raises. */
  function BalancedObjectSpans(t: string): Spans {
    if DepthAt(t, |t|) == 0 then Balanced(SpansUpTo(t, |t|)) else Unbalanced
  }

  /** The loop over characters with its four variables. */
  method ScanObjectSpans(text: string) returns (r: Spans)
    ensures r == BalancedObjectSpans(text)
    ensures r.Unbalanced? <==> DepthAt(text, |text|) != 0
    ensures r.Balanced? ==> Ordered(r.spans, |text|)
    ensures r.Balanced? ==> forall s: nat, e: nat :: (s, e) in r.spans <==> Block(text, s, e)
  {
    var spans: seq<Span> := [];
    var depth := 0;
    var start: int := -1;
    var inString, escaped := false, false;
    for index := 0 to |text|
      invariant inString == (LexAt(text, index) != Outside) && escaped == (LexAt(text, index) == Escaped)
      invariant depth == DepthAt(text, index)
      invariant depth > 0 ==> start == LastClosed(text, index)
      invariant spans == SpansUpTo(text, index)
    {
      var c := text[index];
      if inString {
        if escaped {
          escaped := false;
        } else if c == '\\' {
          escaped := true;
        } else if c == '"' {
          inString := false;
        }
        continue;
      }
      if c == '"' {
        inString := true;
        continue;
      }
      if c == '{' {
        if depth == 0 {
          start := index;
        }
        depth := depth + 1;
      } else if c == '}' {
        if depth == 0 {
          continue;
        }
        depth := depth - 1;
        if depth == 0 && start != -1 {
          spans := spans + [(start, index + 1)];
          start := -1;
        }
      }
    }
    SpansAreBlocks(text, |text|);
    return if depth != 0 then Unbalanced else Balanced(spans);
  }

  // ----- the scanner against the reader --------------------------------------------------

  /** From i to j the scanner leaves strings as it found them and never closes below depth(i). */
  ghost predicate Level(t: string, i: nat, j: nat) {
    && i <= j <= |t| && LexAt(t, i) == Outside && LexAt(t, j) == Outside
    && DepthAt(t, j) == DepthAt(t, i) && (forall m :: i <= m <= j ==> DepthAt(t, m) >= DepthAt(t, i))
  }

  predicate IsPlain(c: char) { c != '"' && c != '{' && c != '}' }

  /** s is r with plain characters before it. */
  ghost predicate PlainBefore(s: string, r: string) {
    |r| <= |s| && s[|s| - |r|..] == r && forall k :: 0 <= k < |s| - |r| ==> IsPlain(s[k])
  }

  lemma PlainStep(s: string, r: string)
    requires s != "" && IsPlain(s[0]) && PlainBefore(s[1..], r)
    ensures PlainBefore(s, r)
  {
    assert s[1..][|s[1..]| - |r|..] == s[|s| - |r|..];
    forall k | 0 <= k < |s| - |r| ensures IsPlain(s[k]) {
      if k > 0 { assert s[k] == s[1..][k - 1]; }
    }
  }

  lemma PlainUnstep(s: string, r: string)
    requires PlainBefore(s, r) && |r| < |s|
    ensures IsPlain(s[0]) && PlainBefore(s[1..], r)
  {
    var u := s[1..];
    assert u[|u| - |r|..] == s[|s| - |r|..];
    forall k | 0 <= k < |u| - |r| ensures IsPlain(u[k]) { assert u[k] == s[k + 1]; }
  }

  lemma PlainTrans(s: string, u: string, r: string)
    requires PlainBefore(s, u) && PlainBefore(u, r)
    ensures PlainBefore(s, r)
  {
    assert u[|u| - |r|..] == s[|s| - |r|..];
    forall k | 0 <= k < |s| - |r| ensures IsPlain(s[k]) {
      if k >= |s| - |u| { assert s[k] == u[k - (|s| - |u|)]; }
    }
  }

  lemma {:induction false} PlainWs(s: string)
    ensures PlainBefore(s, SkipWs(s))
  {
    if s != "" && IsWs(s[0]) {
      PlainWs(s[1..]);
      PlainStep(s, SkipWs(s));
    }
  }

  lemma {:induction false} PlainDigits(s: string)
    ensures PlainBefore(s, DropDigits(s))
  {
    if s != "" && IsDigit(s[0]) {
      PlainDigits(s[1..]);
      PlainStep(s, DropDigits(s));
    }
  }

  lemma PlainFraction(s: string)
    ensures PlainBefore(s, DropFraction(s))
  {
    if DropFraction(s) != s {
      PlainDigits(s[1..]);
      PlainStep(s, DropFraction(s));
    }
  }

  lemma PlainExponent(s: string)
    ensures PlainBefore(s, DropExponent(s))
  {
    if DropExponent(s) != s {
      var t := DropSign(s[1..]);
      PlainDigits(t);
      if t != s[1..] { PlainStep(s[1..], DropDigits(t)); }
      PlainStep(s, DropDigits(t));
    }
  }

  lemma PlainDecimal(s: string)
    requires s != "" && IsDigit(s[0])
    ensures PlainBefore(s, DropDecimal(s))
  {
    var u := if s[0] == '0' then s[1..] else DropDigits(s);
    PlainDigits(s);
    assert PlainBefore(s, u);
    PlainFraction(u);
    PlainExponent(DropFraction(u));
    PlainTrans(s, u, DropFraction(u));
    PlainTrans(s, DropFraction(u), DropDecimal(s));
  }

  lemma PlainWord(s: string, w: string)
    requires Starts(s, w) && (forall c :: c in w ==> IsPlain(c))
    ensures PlainBefore(s, s[|w|..])
  {
    forall k | 0 <= k < |w| ensures IsPlain(s[k]) { assert s[..|w|][k] == w[k]; assert w[k] in w; }
  }

  lemma PlainAtom(s: string)
    requires s != "" && ParseAtom(s).Parsed?
    ensures PlainBefore(s, ParseAtom(s).rest)
  {
    if s[0] == 'n' { PlainWord(s, "null"); }
    else if s[0] == 't' { PlainWord(s, "true"); }
    else if s[0] == 'f' { PlainWord(s, "false"); }
    else { PlainNumber(s); }
  }

  lemma PlainNumber(s: string)
    ensures PlainBefore(s, DropNumber(s))
  {
    var t := if s != "" && s[0] == '-' then s[1..] else s;
    if t != "" && IsDigit(t[0]) {
      PlainDecimal(t);
      if t != s { PlainStep(s, DropDecimal(t)); }
    } else if Starts(s, "NaN") { PlainWord(s, "NaN"); }
    else if Starts(s, "Infinity") { PlainWord(s, "Infinity"); }
    else if Starts(s, "-Infinity") { PlainWord(s, "-Infinity"); }
  }

  /** r is what the text reads from position j on. */
  ghost predicate Rest(t: string, j: nat, r: string) { j <= |t| && t[j..] == r }

  lemma {:induction false} LevelOverPlain(t: string, i: nat, r: string) returns (j: nat)
    requires i <= |t| && LexAt(t, i) == Outside && PlainBefore(t[i..], r)
    ensures Rest(t, j, r) && Level(t, i, j)
    decreases |t| - i
  {
    if |r| == |t| - i {
      j := i;
    } else {
      assert IsPlain(t[i..][0]);
      assert t[i + 1..] == t[i..][1..];
      PlainUnstep(t[i..], r);
      j := LevelOverPlain(t, i + 1, r);
      JoinLevels(t, i, i + 1, j);
    }
  }

  lemma JoinLevels(t: string, i: nat, m: nat, j: nat)
    requires Level(t, i, m) && Level(t, m, j)
    ensures Level(t, i, j)
  {
    hide LexAt, DepthAt;
  }

  lemma LevelOverWs(t: string, i: nat) returns (j: nat)
    requires i <= |t| && LexAt(t, i) == Outside
    ensures Rest(t, j, SkipWs(t[i..])) && Level(t, i, j)
  {
    PlainWs(t[i..]);
    j := LevelOverPlain(t, i, SkipWs(t[i..]));
  }

  lemma StepInString(t: string, i: nat)
    requires i < |t| && LexAt(t, i) == InString
    ensures DepthAt(t, i + 1) == DepthAt(t, i)
    ensures t[i] == '"' ==> LexAt(t, i + 1) == Outside
    ensures t[i] != '"' && t[i] != '\\' ==> LexAt(t, i + 1) == InString
    ensures t[i] == '\\' && i + 1 < |t| ==> LexAt(t, i + 2) == InString && DepthAt(t, i + 2) == DepthAt(t, i)
  {}

  lemma StepHex4(t: string, i: nat, s: string)
    requires i <= |t| && s == t[i..] && LexAt(t, i) == InString && HasHex4(s)
    ensures LexAt(t, i + 4) == InString && (forall m :: i <= m <= i + 4 ==> DepthAt(t, m) == DepthAt(t, i))
    ensures s[4..] == t[i + 4..]
  {
    assert s[0] == t[i] && s[1] == t[i + 1] && s[2] == t[i + 2] && s[3] == t[i + 3];
    StepInString(t, i);
    StepInString(t, i + 1);
    StepInString(t, i + 2);
    StepInString(t, i + 3);
    hide LexAt, DepthAt;
  }

  lemma StepUnicode(t: string, i: nat, s: string) returns (k: nat)
    requires i <= |t| && s == t[i..] && LexAt(t, i) == InString && ReadUnicode(s).Parsed?
    ensures i < k && Rest(t, k, ReadUnicode(s).rest) && LexAt(t, k) == InString
    ensures forall m :: i <= m <= k ==> DepthAt(t, m) == DepthAt(t, i)
  {
    StepHex4(t, i, s);
    hide LexAt, DepthAt;
    k := i + 4;
    if ReadUnicode(s).rest != s[4..] {
      assert t[i + 4..][0] == t[i + 4] && s[10..] == t[i + 4..][2..][4..];
      StepInString(t, i + 4);
      assert t[i + 4..][2..] == t[i + 6..];
      StepHex4(t, i + 6, t[i + 6..]);
      k := i + 10;
    }
  }

  /** Reading a string body ends just outside the string, with nothing opened or closed. */
  lemma {:induction false} LevelOverString(t: string, i: nat) returns (j: nat)
    requires i <= |t| && LexAt(t, i) == InString && ReadString(t[i..]).Parsed?
    ensures i < j && Rest(t, j, ReadString(t[i..]).rest) && LexAt(t, j) == Outside
    ensures forall m :: i <= m <= j ==> DepthAt(t, m) == DepthAt(t, i)
    decreases |t| - i
  {
    hide LexAt, DepthAt, ReadUnicode;
    var s := t[i..];
    assert s[0] == t[i];
    StepInString(t, i);
    if s[0] == '\\' {
      assert s[1] == t[i + 1] && s[2..] == t[i + 2..];
      if s[1] == 'u' {
        var k := StepUnicode(t, i + 2, s[2..]);
        j := LevelOverString(t, k);
      } else {
        j := LevelOverString(t, i + 2);
      }
    } else {
      assert s[1..] == t[i + 1..];
      if s[0] == '"' { j := i + 1; } else { j := LevelOverString(t, i + 1); }
    }
  }

  lemma StepOutside(t: string, i: nat)
    requires i < |t| && LexAt(t, i) == Outside
    ensures t[i] == '"' ==> LexAt(t, i + 1) == InString && DepthAt(t, i + 1) == DepthAt(t, i)
    ensures t[i] == '{' ==> LexAt(t, i + 1) == Outside && DepthAt(t, i + 1) == DepthAt(t, i) + 1
    ensures t[i] == '}' && DepthAt(t, i) > 0 ==> LexAt(t, i + 1) == Outside && DepthAt(t, i + 1) == DepthAt(t, i) - 1
    ensures IsPlain(t[i]) || (t[i] == '}' && DepthAt(t, i) == 0) ==> Level(t, i, i + 1)
    ensures t[i] == t[i..][0] && t[i + 1..] == t[i..][1..]
  {}

  /** A whole literal, quotes included. */
  lemma LevelOverLiteral(t: string, i: nat) returns (j: nat)
    requires i < |t| && LexAt(t, i) == Outside && t[i] == '"' && ReadString(t[i + 1..]).Parsed?
    ensures i < j && Rest(t, j, ReadString(t[i + 1..]).rest) && Level(t, i, j)
  {
    StepOutside(t, i);
    j := LevelOverString(t, i + 1);
  }

  lemma LevelOverKey(t: string, i: nat) returns (j: nat)
    requires i <= |t| && LexAt(t, i) == Outside && ReadKey(t[i..]).Parsed?
    ensures i < j && Rest(t, j, ReadKey(t[i..]).rest) && Level(t, i, j)
  {
    hide LexAt, DepthAt, ReadString, SkipWs;
    StepOutside(t, i);
    var k := LevelOverLiteral(t, i);
    var c := LevelOverWs(t, k);
    StepOutside(t, c);
    j := LevelOverWs(t, c + 1);
    JoinLevels(t, i, k, c);
    JoinLevels(t, i, c, c + 1);
    JoinLevels(t, i, c + 1, j);
  }

  /** After a value: white space, then a comma or a closing sign, whatever the reader expects. */
  lemma LevelOverWsThen(t: string, i: nat) returns (d: nat)
    requires i <= |t| && LexAt(t, i) == Outside && SkipWs(t[i..]) != ""
    ensures i <= d < |t| && Level(t, i, d) && t[d..] == SkipWs(t[i..]) && t[d] == SkipWs(t[i..])[0]
  {
    d := LevelOverWs(t, i);
  }

  /**
   Whatever `json.loads` reads, the scanner leaves at the depth and outside strings, without
   falling below that depth on the way; inside an object it stays strictly above.
   */
  lemma {:induction false} LevelOverValue(t: string, i: nat) returns (j: nat)
    requires i <= |t| && LexAt(t, i) == Outside && ParseValue(t[i..]).Parsed?
    ensures i < j && Rest(t, j, ParseValue(t[i..]).rest) && Level(t, i, j)
    ensures t[i] == '{' ==> forall m :: i < m < j ==> DepthAt(t, m) > DepthAt(t, i)
    decreases |t| - i, 1
  {
    hide LexAt, DepthAt, ReadString, ParseMembers, ParseElements, ParseAtom, SkipWs;
    StepOutside(t, i);
    if t[i] == '"' {
      j := LevelOverLiteral(t, i);
    } else if t[i] == '{' {
      j := LevelOverObject(t, i);
    } else if t[i] == '[' {
      j := LevelOverArray(t, i);
    } else {
      PlainAtom(t[i..]);
      j := LevelOverPlain(t, i, ParseAtom(t[i..]).rest);
    }
  }

  lemma {:induction false} LevelOverObject(t: string, i: nat) returns (j: nat)
    requires i < |t| && t[i] == '{' && LexAt(t, i) == Outside && ParseValue(t[i..]).Parsed?
    ensures i < j && Rest(t, j, ParseValue(t[i..]).rest) && Level(t, i, j)
    ensures forall m :: i < m < j ==> DepthAt(t, m) > DepthAt(t, i)
    decreases |t| - i, 0
  {
    hide LexAt, DepthAt, ReadString, ParseMembers, SkipWs;
    StepOutside(t, i);
    assert SkipWs(t[i + 1..]) != "" by { NothingToRead(); }
    var d := LevelOverWsThen(t, i + 1);
    if t[d] == '}' {
      StepOutside(t, d);
      j := d + 1;
    } else {
      j := OverMembers(t, d, map[]);
    }
  }

  lemma NothingToRead()
    ensures ParseMembers("", map[]).Fail? && ParseElements("").Fail?
  {}

  lemma {:induction false} LevelOverArray(t: string, i: nat) returns (j: nat)
    requires i < |t| && t[i] == '[' && LexAt(t, i) == Outside && ParseValue(t[i..]).Parsed?
    ensures i < j && Rest(t, j, ParseValue(t[i..]).rest) && Level(t, i, j)
    decreases |t| - i, 0
  {
    hide LexAt, DepthAt, ReadString, ParseElements, SkipWs;
    StepOutside(t, i);
    assert SkipWs(t[i + 1..]) != "" by { NothingToRead(); }
    var d := LevelOverWsThen(t, i + 1);
    JoinLevels(t, i, i + 1, d);
    if t[d] == ']' {
      StepOutside(t, d);
      j := d + 1;
    } else {
      j := OverElements(t, d);
    }
    JoinLevels(t, i, d, j);
  }

  /** From the first key of an object to just after its closing brace. */
  lemma {:induction false} OverMembers(t: string, i: nat, acc: Dict) returns (j: nat)
    requires i <= |t| && LexAt(t, i) == Outside && DepthAt(t, i) > 0 && ParseMembers(t[i..], acc).Parsed?
    ensures i < j && Rest(t, j, ParseMembers(t[i..], acc).rest) && LexAt(t, j) == Outside
    ensures DepthAt(t, j) == DepthAt(t, i) - 1 && forall m :: i <= m < j ==> DepthAt(t, m) >= DepthAt(t, i)
    decreases |t| - i, 0
  {
    hide LexAt, DepthAt, ReadKey, ParseValue, SkipWs;
    var k := LevelOverKey(t, i);
    var e := LevelOverValue(t, k);
    var d := LevelOverWsThen(t, e);
    JoinLevels(t, i, k, e);
    JoinLevels(t, i, e, d);
    StepOutside(t, d);
    if t[d] == '}' {
      j := d + 1;
    } else {
      var n := LevelOverWs(t, d + 1);
      JoinLevels(t, i, d, d + 1);
      JoinLevels(t, i, d + 1, n);
      j := OverMembers(t, n, acc[ReadKey(t[i..]).value := ParseValue(t[k..]).value]);
    }
  }

  lemma {:induction false} OverElements(t: string, i: nat) returns (j: nat)
    requires i <= |t| && LexAt(t, i) == Outside && ParseElements(t[i..]).Parsed?
    ensures i < j && Rest(t, j, ParseElements(t[i..]).rest) && Level(t, i, j)
    decreases |t| - i, 2
  {
    hide LexAt, DepthAt, ParseValue, SkipWs;
    var e := LevelOverValue(t, i);
    var d := LevelOverWsThen(t, e);
    JoinLevels(t, i, e, d);
    StepOutside(t, d);
    JoinLevels(t, i, d, d + 1);
    if t[d] == ']' {
      j := d + 1;
    } else {
      var n := LevelOverWs(t, d + 1);
      JoinLevels(t, i, d + 1, n);
      j := OverElements(t, n);
      JoinLevels(t, i, n, j);
    }
  }

  // ----- an object inside prose ----------------------------------------------------------

  /** Prose the scanner reads past: no quote and no opening brace (closing ones are ignored). */
  predicate IsProse(p: string) { forall i :: 0 <= i < |p| ==> p[i] != '"' && p[i] != '{' }

  lemma {:induction false} ProseBefore(t: string, k: nat)
    requires k <= |t| && IsProse(t[..k])
    ensures LexAt(t, k) == Outside && (forall m :: 0 <= m <= k ==> DepthAt(t, m) == 0)
  {
    if k > 0 {
      assert t[..k - 1] == t[..k][..k - 1];
      ProseBefore(t, k - 1);
      assert t[..k][k - 1] == t[k - 1];
    }
  }

  lemma {:induction false} ProseAfter(t: string, i: nat, k: nat)
    requires i <= k <= |t| && LexAt(t, i) == Outside && DepthAt(t, i) == 0 && IsProse(t[i..])
    ensures LexAt(t, k) == Outside && (forall m :: i <= m <= k ==> DepthAt(t, m) == 0)
    decreases k
  {
    if k > i {
      ProseAfter(t, i, k - 1);
      assert t[i..][k - 1 - i] == t[k - 1];
    }
  }

  /** Scanning a text that starts outside everything does not depend on what stands before it. */
  lemma {:induction false} Shift(t: string, o: nat, n: nat, d: string, m: nat)
    requires n == o + |d| <= |t| && t[o..n] == d && LexAt(t, o) == Outside && DepthAt(t, o) == 0 && o <= m <= n
    ensures LexAt(t, m) == LexAt(d, m - o) && DepthAt(t, m) == DepthAt(d, m - o)
    decreases m
  {
    if m > o {
      Shift(t, o, n, d, m - 1);
      assert t[m - 1] == t[o..n][m - 1 - o];
    }
  }

  lemma {:induction false} OrderedSingleton(spans: seq<Span>, limit: nat, b: Span)
    requires Ordered(spans, limit) && b in spans && (forall x :: x in spans ==> x == b)
    ensures spans == [b]
  {
    assert spans[0] in spans && spans[|spans| - 1] in spans;
  }

  lemma DepthsInObject(d: string, f: Dict)
    requires ParseValue(d) == Parsed(Obj(f), "")
    ensures 1 < |d| && LexAt(d, |d|) == Outside && DepthAt(d, |d|) == 0
    ensures forall m :: 0 < m < |d| ==> DepthAt(d, m) > 0
  {
    assert d[0..] == d;
    var j := LevelOverValue(d, 0);
    assert |d[j..]| == 0;
    assert DepthAt(d, 1) > 0 by { StepOutside(d, 0); }
  }

  /** `d` stands between prose in t, from o to n. */
  ghost predicate Embedded(t: string, o: nat, n: nat, d: string) {
    n == o + |d| <= |t| && t[o..n] == d && IsProse(t[..o]) && IsProse(t[n..])
  }

  lemma DepthInside(t: string, o: nat, n: nat, d: string, f: Dict, m: nat)
    requires Embedded(t, o, n, d) && ParseValue(d) == Parsed(Obj(f), "")
    requires LexAt(t, o) == Outside && DepthAt(t, o) == 0
    ensures o + 1 < n && (o < m < n ==> DepthAt(t, m) > 0) && LexAt(t, n) == Outside && DepthAt(t, n) == 0
  {
    DepthsInObject(d, f);
    hide LexAt, DepthAt, ParseValue, IsProse;
    Shift(t, o, n, d, n);
    if o < m < n { Shift(t, o, n, d, m); }
  }

  /** Something is open strictly inside the object and nowhere else. */
  lemma DepthsInProse(t: string, o: nat, n: nat, d: string, f: Dict)
    requires Embedded(t, o, n, d) && ParseValue(d) == Parsed(Obj(f), "")
    ensures o + 1 < n && forall m :: 0 <= m <= |t| ==> (DepthAt(t, m) > 0 <==> o < m < n)
  {
    ProseBefore(t, o);
    DepthInside(t, o, n, d, f, 0);
    ProseAfter(t, n, |t|);
    hide LexAt, DepthAt, ParseValue, IsProse;
    forall m | 0 <= m <= |t| ensures DepthAt(t, m) > 0 <==> o < m < n {
      DepthInside(t, o, n, d, f, m);
    }
  }

  lemma BlockFromDepths(t: string, o: nat, n: nat, s: nat, e: nat)
    requires o + 1 < n <= |t|
    requires forall m :: 0 <= m <= |t| ==> (DepthAt(t, m) > 0 <==> o < m < n)
    ensures Block(t, s, e) <==> s == o && e == n
  {
    hide DepthAt, LexAt;
    if Block(t, s, e) {
      assert DepthAt(t, s + 1) > 0 && DepthAt(t, e - 1) > 0 && DepthAt(t, s) == 0 && DepthAt(t, e) == 0;
    }
  }

  lemma OneSpanEmbedded(t: string, o: nat, n: nat, d: string, f: Dict)
    requires Embedded(t, o, n, d) && ParseValue(d) == Parsed(Obj(f), "")
    ensures BalancedObjectSpans(t) == Balanced([(o, n)])
  {
    DepthsInProse(t, o, n, d, f);
    SpansAreBlocks(t, |t|);
    hide DepthAt, LexAt, SpansUpTo, ParseValue, Embedded;
    var spans, b: Span := SpansUpTo(t, |t|), (o, n);
    BlockFromDepths(t, o, n, b.0, b.1);
    forall x | x in spans ensures x == b {
      BlockFromDepths(t, o, n, x.0, x.1);
      assert (x.0, x.1) in spans;
    }
    OrderedSingleton(spans, |t|, b);
  }

  lemma Embed(pre: string, d: string, post: string)
    requires IsProse(pre) && IsProse(post)
    ensures Embedded(pre + d + post, |pre|, |pre| + |d|, d)
  {
    hide IsProse;
    var t := pre + d + post;
    assert t[..|pre|] == pre;
    assert t[|pre|..|pre| + |d|] == d;
    assert t[|pre| + |d|..] == post;
  }

  /**
   Exactly one span is found in prose around one JSON object, and it holds the object, whatever
   the object's strings contain.
   */
  lemma {:induction false} OneSpanInProse(pre: string, d: string, post: string, f: Dict)
    requires IsProse(pre) && IsProse(post) && ParseValue(d) == Parsed(Obj(f), "")
    ensures BalancedObjectSpans(pre + d + post) == Balanced([(|pre|, |pre| + |d|)])
  {
    hide ParseValue, BalancedObjectSpans, IsProse, Embedded;
    Embed(pre, d, post);
    OneSpanEmbedded(pre + d + post, |pre|, |pre| + |d|, d, f);
  }
}
