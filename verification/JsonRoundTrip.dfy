/**
 Reading back what the writer printed gives the printed value, for every value and both styles.
 Hence the canonical encoding behind `canonical_args_hash` is injective, and the strict
 response parser reads every document `FinalResponse.to_json` can store.
 */
module JsonRoundTrip {
  import opened Text
  import opened Json

  predicate IsStyle(style: Style) { style == COMPACT || style == SPACED }

  predicate IsNumber(w: string) {
    w != "" && DropNumber(w) == "" && w[0] != 'n' && w[0] != 't' && w[0] != 'f'
  }

  /** Every number is spelled as JSON spells one. */
  ghost predicate WellFormed(v: Value)
    decreases v
  {
    match v
    case Num(lexeme) => IsNumber(lexeme)
    case Arr(items) => forall x :: x in items ==> WellFormed(x)
    case Obj(fields) => forall k :: k in fields ==> WellFormed(fields[k])
    case _ => true
  }

  // ----- strings -------------------------------------------------------------------------

  lemma ReadControl(c: char, h: char, l: char, r: string)
    requires c < ' ' && h == HexDigit(c as int / 16) && l == HexDigit(c as int % 16)
    ensures ReadUnicode(['0', '0', h, l] + r) == Parsed(c, r)
  {
    var s := ['0', '0', h, l] + r;
    assert s[4..] == r;
    assert Hex4(s) == c as int;
  }

  lemma ReadSimpleEscape(e: char, r: string)
    requires IsSimpleEscape(e)
    ensures ReadString(['\\', e] + r) == Prepend(SimpleEscape(e), ReadString(r))
  {
    hide ReadUnicode, IsSimpleEscape, SimpleEscape;
    var s := ['\\', e] + r;
    assert s[2..] == r;
    assert e != 'u' by { SimpleEscapeIsNotU(); }
  }

  lemma SimpleEscapeIsNotU()
    ensures !IsSimpleEscape('u')
  {}

  lemma ReadEscape(c: char, r: string)
    ensures ReadString(Escape(c) + r) == Prepend(c, ReadString(r))
  {
    hide ReadUnicode, ReadString, HexDigit;
    if c == '"' || c == '\\' { ReadSimpleEscape(c, r); }
    else if c == '\n' { ReadSimpleEscape('n', r); }
    else if c == '\r' { ReadSimpleEscape('r', r); }
    else if c == '\t' { ReadSimpleEscape('t', r); }
    else if c == '\U{08}' { ReadSimpleEscape('b', r); }
    else if c == '\U{0C}' { ReadSimpleEscape('f', r); }
    else { ReadOther(c, r); }
  }

  lemma ReadOther(c: char, r: string)
    requires c != '"' && c != '\\'
    ensures c < ' ' ==>
      ReadString(['\\', 'u', '0', '0', HexDigit(c as int / 16), HexDigit(c as int % 16)] + r) == Prepend(c, ReadString(r))
    ensures ' ' <= c ==> ReadString([c] + r) == Prepend(c, ReadString(r))
  {
    hide ReadUnicode, HexDigit;
    if c < ' ' {
      var h, l := HexDigit(c as int / 16), HexDigit(c as int % 16);
      ReadControl(c, h, l, r);
      var s := ['\\', 'u', '0', '0', h, l] + r;
      assert s[2..] == ['0', '0', h, l] + r;
    } else {
      assert ([c] + r)[1..] == r;
    }
  }

  lemma {:induction false} ReadEscaped(t: string, r: string)
    ensures ReadString(EscapeAll(t) + "\"" + r) == Parsed(t, r)
  {
    if t == "" {
      assert ("\"" + r)[1..] == r;
      assert EscapeAll(t) + "\"" + r == "\"" + r;
    } else {
      var tail := EscapeAll(t[1..]) + "\"" + r;
      assert EscapeAll(t) + "\"" + r == Escape(t[0]) + tail;
      ReadEscape(t[0], tail);
      ReadEscaped(t[1..], r);
      assert t == [t[0]] + t[1..];
    }
  }

  // ----- numbers -------------------------------------------------------------------------

  predicate IsNumberChar(c: char) {
    IsDigit(c) || c == '+' || c == '-' || c == '.' || c == 'e' || c == 'E'
  }

  /** The text is at its end or goes on with a character no number continues with. */
  predicate Stops(r: string) { r == "" || !IsNumberChar(r[0]) }

  lemma {:induction false} DropDigitsLocal(w: string, r: string)
    requires Stops(r)
    ensures DropDigits(w + r) == DropDigits(w) + r
  {
    if w == "" {
      assert w + r == r;
    } else {
      assert (w + r)[1..] == w[1..] + r;
      DropDigitsLocal(w[1..], r);
    }
  }

  lemma DropFractionLocal(w: string, r: string)
    requires Stops(r)
    ensures DropFraction(w + r) == DropFraction(w) + r
  {
    if w == "" { assert w + r == r; } else {
      assert (w + r)[1..] == w[1..] + r;
      DropDigitsLocal(w[1..], r);
    }
  }

  lemma DropExponentLocal(w: string, r: string)
    requires Stops(r)
    ensures DropExponent(w + r) == DropExponent(w) + r
  {
    if w == "" { assert w + r == r; } else {
      assert (w + r)[1..] == w[1..] + r;
      var t := DropSign(w[1..]);
      assert DropSign(w[1..] + r) == t + r by {
        if |w| == 1 { assert w[1..] + r == r; } else { assert (w[1..] + r)[1..] == w[1..][1..] + r; }
      }
      if t == "" { assert t + r == r; }
      DropDigitsLocal(t, r);
    }
  }

  lemma DropDecimalLocal(t: string, r: string)
    requires Stops(r) && t != "" && IsDigit(t[0])
    ensures DropDecimal(t + r) == DropDecimal(t) + r
  {
    assert (t + r)[1..] == t[1..] + r;
    DropDigitsLocal(t, r);
    var u := if t[0] == '0' then t[1..] else DropDigits(t);
    DropFractionLocal(u, r);
    DropExponentLocal(DropFraction(u), r);
  }

  lemma DropWordLocal(w: string, r: string)
    requires w != "" && DropWord(w) == ""
    ensures DropWord(w + r) == r
  {
    assert w[..|w|] == w;
    assert w == "NaN" || w == "Infinity" || w == "-Infinity";
    assert (w + r)[..|w|] == w && (w + r)[|w|..] == r;
    if Starts(w + r, "NaN") { assert (w + r)[..3][0] == w[0]; }
    if Starts(w + r, "Infinity") { assert (w + r)[..8][0] == w[0]; }
  }

  /** A number read inside a longer text ends where it ends on its own. */
  lemma DropNumberLocal(w: string, r: string)
    requires Stops(r) && IsNumber(w)
    ensures DropNumber(w + r) == r
  {
    hide DropDecimal, DropWord;
    var t := if w[0] == '-' then w[1..] else w;
    assert (w + r)[1..] == w[1..] + r;
    if t != "" && IsDigit(t[0]) {
      DropDecimalLocal(t, r);
      assert "" + r == r;
    } else {
      if t == "" { assert t + r == r; }
      DropWordLocal(w, r);
    }
  }

  // ----- values --------------------------------------------------------------------------

  /** A text that begins a value: none of the signs that follow or close one. */
  predicate StartsValue(d: string) { d != "" && !IsWs(d[0]) && d[0] != ']' }

  lemma NumberStart(w: string)
    requires IsNumber(w)
    ensures IsDigit(w[0]) || w[0] == '-' || w[0] == 'N' || w[0] == 'I'
  {
    if !IsDigit(w[0]) && w[0] != '-' {
      assert w[0] == (if Starts(w, "NaN") then w[..3] else w[..8])[0];
    }
  }

  lemma DumpsStart(v: Value, style: Style)
    requires WellFormed(v)
    ensures StartsValue(Dumps(v, style))
  {
    if v.Num? { NumberStart(v.lexeme); }
  }

  /** A separator is its sign, then white space up to the next token. */
  lemma SkipSeparator(sep: string, sign: char, t: string)
    requires (sep == [sign] || sep == [sign, ' ']) && !IsWs(sign) && (t != "" ==> !IsWs(t[0]))
    ensures SkipWs(sep + t) == sep + t && SkipWs((sep + t)[1..]) == t
  {
    assert (sep + t)[1..] == sep[1..] + t;
    if |sep| == 1 { assert sep[1..] + t == t; } else { assert (sep[1..] + t)[1..] == t; }
  }

  lemma ElementsLast(s: string, x: Value, r: string)
    requires ParseValue(s) == Parsed(x, "]" + r)
    ensures ParseElements(s) == Parsed([x], r)
  {
    hide ParseValue;
    assert ("]" + r)[1..] == r;
  }

  lemma ElementsMore(s: string, x: Value, comma: string, t: string, xs: seq<Value>, r: string)
    requires ParseValue(s) == Parsed(x, comma + t) && ParseElements(t) == Parsed(xs, r)
    requires (comma == "," || comma == ", ") && t != "" && !IsWs(t[0])
    ensures ParseElements(s) == Parsed([x] + xs, r)
  {
    hide ParseValue;
    SkipSeparator(comma, ',', t);
  }

  lemma MembersLast(s: string, key: string, k: string, x: Value, r: string, acc: Dict)
    requires ReadKey(s) == Parsed(key, k) && ParseValue(k) == Parsed(x, "}" + r)
    ensures ParseMembers(s, acc) == Parsed(Obj(acc[key := x]), r)
  {
    hide ParseValue, ReadKey;
    assert ("}" + r)[1..] == r;
  }

  lemma MembersMore(s: string, key: string, k: string, x: Value, comma: string, t: string, acc: Dict)
    requires ReadKey(s) == Parsed(key, k) && ParseValue(k) == Parsed(x, comma + t)
    requires (comma == "," || comma == ", ") && t != "" && !IsWs(t[0])
    ensures ParseMembers(s, acc) == ParseMembers(t, acc[key := x])
  {
    hide ParseValue, ReadKey;
    SkipSeparator(comma, ',', t);
  }

  lemma ReadDumpedKey(key: string, colon: string, t: string)
    requires (colon == ":" || colon == ": ") && t != "" && !IsWs(t[0])
    ensures ReadKey(Quote(key) + colon + t) == Parsed(key, t)
  {
    var s := Quote(key) + colon + t;
    assert s[1..] == EscapeAll(key) + "\"" + (colon + t);
    ReadEscaped(key, colon + t);
    hide ReadString;
    SkipSeparator(colon, ':', t);
  }

  lemma ParseAtomDumped(v: Value, style: Style, r: string)
    requires WellFormed(v) && (v.Null? || v.Bool? || v.Num?) && Stops(r)
    ensures ParseValue(Dumps(v, style) + r) == Parsed(v, r)
  {
    hide DropNumber;
    var d := Dumps(v, style);
    assert (d + r)[..|d|] == d && (d + r)[|d|..] == r;
    if v.Num? {
      NumberStart(d);
      DropNumberLocal(d, r);
    }
  }

  /** What the induction on values shows of each: its text reads back, whatever follows it. */
  ghost predicate ReadsBack(v: Value, style: Style) {
    && StartsValue(Dumps(v, style))
    && forall r {:trigger Dumps(v, style) + r} :: Stops(r) ==> ParseValue(Dumps(v, style) + r) == Parsed(v, r)
  }

  lemma Assoc(a: string, b: string, c: string)
    ensures (a + b) + c == a + (b + c)
  {}

  lemma Regroup(a: string, b: string, c: string, r: string)
    ensures a + (b + c) + r == a + (b + (c + r))
  {
    Assoc(a, b + c, r);
    Assoc(b, c, r);
  }

  lemma OneItem(x: Value, style: Style, r: string)
    requires ReadsBack(x, style)
    ensures ParseElements(Dumps(x, style) + "]" + r) == Parsed([x], r)
  {
    var d := Dumps(x, style);
    hide ParseElements, Dumps, StartsValue;
    Assoc(d, "]", r);
    ElementsLast(d + "]" + r, x, r);
  }

  lemma MoreItems(x: Value, style: Style, t: string, r: string, xs: seq<Value>)
    requires IsStyle(style) && ReadsBack(x, style) && StartsValue(t)
    requires ParseElements(t + r) == Parsed(xs, r)
    ensures ParseElements(Dumps(x, style) + (style.comma + t) + r) == Parsed([x] + xs, r)
  {
    var d := Dumps(x, style);
    Regroup(d, style.comma, t, r);
    hide ParseElements, Dumps;
    ElementsMore(d + (style.comma + (t + r)), x, style.comma, t + r, xs, r);
  }

  lemma {:induction false} ParseItems(v: Value, items: seq<Value>, style: Style, r: string)
    requires IsStyle(style) && v.Arr? && items != []
    requires forall x :: x in items ==> x in v.items && ReadsBack(x, style)
    ensures StartsValue(DumpItems(v, items, style))
    ensures ParseElements(DumpItems(v, items, style) + r) == Parsed(items, r)
    decreases |items|
  {
    var x := items[0];
    assert x in v.items && ReadsBack(x, style) && StartsValue(Dumps(x, style));
    hide ParseElements, Dumps, ReadsBack;
    if |items| == 1 {
      OneItem(x, style, r);
      assert items == [x];
    } else {
      ParseItems(v, items[1..], style, r);
      MoreItems(x, style, DumpItems(v, items[1..], style), r, items[1..]);
      assert items == [x] + items[1..];
    }
  }

  function Extend(acc: Dict, fields: Dict, keys: seq<string>): (r: Dict)
    requires forall k :: k in keys ==> k in fields
    ensures r.Keys == acc.Keys + (set k | k in keys)
    ensures forall k :: k in r ==> r[k] == if k in keys then fields[k] else acc[k]
    decreases |keys|
  {
    if keys == [] then acc else Extend(acc[keys[0] := fields[keys[0]]], fields, keys[1..])
  }

  lemma ExtendAll(fields: Dict)
    ensures Extend(map[], fields, SortedKeys(fields.Keys)) == fields
    ensures fields != map[] ==> SortedKeys(fields.Keys) != []
  {
    var keys := SortedKeys(fields.Keys);
    hide SortedKeys, Extend;
    if fields != map[] {
      var k :| k in fields;
      assert k in keys;
    }
  }

  lemma ExtendStep(acc: Dict, fields: Dict, keys: seq<string>)
    requires keys != [] && (forall k :: k in keys ==> k in fields)
    ensures var next := acc[keys[0] := fields[keys[0]]];
      Extend(acc, fields, keys) == if |keys| == 1 then next else Extend(next, fields, keys[1..])
  {}

  lemma LastMember(key: string, x: Value, style: Style, r: string, acc: Dict)
    requires IsStyle(style) && ReadsBack(x, style)
    ensures ParseMembers(Quote(key) + style.colon + Dumps(x, style) + "}" + r, acc) == Parsed(Obj(acc[key := x]), r)
  {
    hide ParseMembers, Dumps, Quote, ParseValue, ReadKey;
    var k := Dumps(x, style) + ("}" + r);
    Assoc(Quote(key) + style.colon + Dumps(x, style), "}", r);
    Assoc(Quote(key) + style.colon, Dumps(x, style), "}" + r);
    ReadDumpedKey(key, style.colon, k);
    MembersLast(Quote(key) + style.colon + k, key, k, x, r, acc);
  }

  lemma NextMember(key: string, x: Value, style: Style, t: string, r: string, acc: Dict)
    requires IsStyle(style) && ReadsBack(x, style) && t != "" && !IsWs(t[0])
    ensures ParseMembers(Quote(key) + style.colon + Dumps(x, style) + (style.comma + t) + r, acc)
      == ParseMembers(t + r, acc[key := x])
  {
    hide ParseMembers, Dumps, Quote, ParseValue, ReadKey;
    var k := Dumps(x, style) + (style.comma + (t + r));
    Regroup(Quote(key) + style.colon + Dumps(x, style), style.comma, t, r);
    Assoc(Quote(key) + style.colon, Dumps(x, style), style.comma + (t + r));
    ReadDumpedKey(key, style.colon, k);
    MembersMore(Quote(key) + style.colon + k, key, k, x, style.comma, t + r, acc);
  }

  lemma {:induction false} ParseMembersBack(v: Value, keys: seq<string>, style: Style, r: string, acc: Dict)
    requires IsStyle(style) && v.Obj? && keys != []
    requires forall k :: k in keys ==> k in v.fields && ReadsBack(v.fields[k], style)
    ensures DumpMembers(v, keys, style) != "" && DumpMembers(v, keys, style)[0] == '"'
    ensures ParseMembers(DumpMembers(v, keys, style) + r, acc) == Parsed(Obj(Extend(acc, v.fields, keys)), r)
    decreases |keys|
  {
    var key, x := keys[0], v.fields[keys[0]];
    assert ReadsBack(x, style);
    DumpMembersStart(v, keys, style);
    ExtendStep(acc, v.fields, keys);
    hide ParseMembers, Dumps, Quote, ReadsBack, Extend;
    if |keys| == 1 {
      LastMember(key, x, style, r, acc);
    } else {
      ParseMembersBack(v, keys[1..], style, r, acc[key := x]);
      NextMember(key, x, style, DumpMembers(v, keys[1..], style), r, acc);
    }
  }

  lemma ParseArray(v: Value, style: Style, r: string)
    requires IsStyle(style) && v.Arr? && (forall x :: x in v.items ==> ReadsBack(x, style))
    ensures ParseValue(Dumps(v, style) + r) == Parsed(v, r)
  {
    var body := (if v.items == [] then "]" else DumpItems(v, v.items, style)) + r;
    assert Dumps(v, style) + r == "[" + body && ("[" + body)[1..] == body;
    if v.items == [] { assert body[1..] == r; } else { ParseItems(v, v.items, style, r); }
    hide ParseElements, DumpItems, Dumps;
  }

  lemma OpenBrace(t: string)
    requires t != "" && (t[0] == '"' || t[0] == '}')
    ensures ParseValue("{" + t) == if t[0] == '}' then Parsed(Obj(map[]), t[1..]) else ParseMembers(t, map[])
  {
    hide ParseMembers;
    assert ("{" + t)[1..] == t;
  }

  lemma ParseObject(v: Value, style: Style, r: string)
    requires IsStyle(style) && v.Obj? && (forall k :: k in v.fields ==> ReadsBack(v.fields[k], style))
    ensures ParseValue(Dumps(v, style) + r) == Parsed(v, r)
  {
    hide ParseMembers, ParseValue, SortedKeys, Extend, ReadsBack, DumpMembers;
    var keys := SortedKeys(v.fields.Keys);
    if v.fields == map[] {
      assert "{}" + r == "{" + ("}" + r) && ("}" + r)[1..] == r;
      OpenBrace("}" + r);
    } else {
      ExtendAll(v.fields);
      ParseMembersBack(v, keys, style, r, map[]);
      var t := DumpMembers(v, keys, style);
      Assoc("{", t, r);
      OpenBrace(t + r);
    }
  }

  /** `json.loads(json.dumps(v)) == v`, also in the middle of a longer text. */
  lemma {:induction false} ParseDumped(v: Value, style: Style)
    requires IsStyle(style) && WellFormed(v)
    ensures ReadsBack(v, style)
    decreases v
  {
    DumpsStart(v, style);
    match v {
      case Arr(items) =>
        forall x | x in items ensures ReadsBack(x, style) { ParseDumped(x, style); }
      case Obj(fields) =>
        forall k | k in fields ensures ReadsBack(fields[k], style) { ParseDumped(fields[k], style); }
      case _ =>
    }
    hide ReadsBack, ParseValue, Dumps;
    forall r | Stops(r) ensures ParseValue(Dumps(v, style) + r) == Parsed(v, r) {
      if v.Arr? { ParseArray(v, style, r); }
      else if v.Obj? { ParseObject(v, style, r); }
      else if v.Str? { ParseText(v.s, style, r); }
      else { ParseAtomDumped(v, style, r); }
    }
    CollectReads(v, style);
  }

  lemma CollectReads(v: Value, style: Style)
    requires StartsValue(Dumps(v, style))
    requires forall r {:trigger Dumps(v, style) + r} :: Stops(r) ==> ParseValue(Dumps(v, style) + r) == Parsed(v, r)
    ensures ReadsBack(v, style)
  {}

  lemma ParseText(t: string, style: Style, r: string)
    ensures ParseValue(Dumps(Str(t), style) + r) == Parsed(Str(t), r)
  {
    assert (Quote(t) + r)[1..] == EscapeAll(t) + "\"" + r;
    ReadEscaped(t, r);
  }

  lemma DumpMembersStart(v: Value, keys: seq<string>, style: Style)
    requires v.Obj? && keys != [] && (forall k :: k in keys ==> k in v.fields)
    ensures DumpMembers(v, keys, style) != "" && DumpMembers(v, keys, style)[0] == '"'
  {}

  lemma {:induction false} LoadsDumps(v: Value, style: Style)
    requires IsStyle(style) && WellFormed(v)
    ensures Loads(Dumps(v, style)) == Loaded(v)
  {
    ParseDumped(v, style);
    assert Dumps(v, style) + "" == Dumps(v, style);
  }

  /** The canonical encoding separates values, whatever order their keys were sent in. */
  lemma DumpsInjective(v: Value, w: Value, style: Style)
    requires IsStyle(style) && WellFormed(v) && WellFormed(w)
    ensures Dumps(v, style) == Dumps(w, style) <==> v == w
  {
    LoadsDumps(v, style);
    LoadsDumps(w, style);
  }
}
