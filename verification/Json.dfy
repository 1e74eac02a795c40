/**
 JSON as Python's `json` module reads and writes it (sections 4 to 7 of RFC 8259, plus the
 NaN and Infinity spellings the module accepts). A number is kept as its spelling.
 */
module Json {
  import opened Text

  datatype Value =
    | Null
    | Bool(b: bool)
    | Num(lexeme: string)
    | Str(s: string)
    | Arr(items: seq<Value>)
    | Obj(fields: map<string, Value>)

  type Dict = map<string, Value>

  /** A reader takes the text still to be read and returns a value and what is left of the text. */
  datatype Parse<+T> = Fail | Parsed(value: T, rest: string)

  /** `d.get(key)`: a missing key reads as None. */
  function Get(d: Dict, key: string): Value {
    if key in d then d[key] else Null
  }

  // ----- lexical level -------------------------------------------------------------------

  predicate IsWs(c: char) { c == ' ' || c == '\t' || c == '\n' || c == '\r' }

  function SkipWs(s: string): (r: string)
    ensures |r| <= |s| && (r != "" ==> !IsWs(r[0]))
  {
    if s != "" && IsWs(s[0]) then SkipWs(s[1..]) else s
  }

  predicate IsHex(c: char) { '0' <= c <= '9' || 'a' <= c <= 'f' || 'A' <= c <= 'F' }

  function HexValue(c: char): (n: nat)
    requires IsHex(c)
    ensures n < 16
  {
    if '0' <= c <= '9' then c as int - '0' as int
    else if 'a' <= c <= 'f' then c as int - 'a' as int + 10
    else c as int - 'A' as int + 10
  }

  predicate HasHex4(s: string) {
    4 <= |s| && IsHex(s[0]) && IsHex(s[1]) && IsHex(s[2]) && IsHex(s[3])
  }

  function Hex4(s: string): (n: nat)
    requires HasHex4(s)
    ensures n < 0x10000
  {
    ((HexValue(s[0]) * 16 + HexValue(s[1])) * 16 + HexValue(s[2])) * 16 + HexValue(s[3])
  }

  predicate HasEscapedHex(s: string) { 6 <= |s| && s[0] == '\\' && s[1] == 'u' && HasHex4(s[2..]) }

  /** The character a `\uXXXX` escape denotes, a surrogate pair being one character. */
  function ReadUnicode(s: string): (r: Parse<char>)
    ensures r.Parsed? ==> HasHex4(s) && (r.rest == s[4..] || (HasEscapedHex(s[4..]) && r.rest == s[10..]))
  {
    if !HasHex4(s) then Fail else
    var h := Hex4(s);
    if h < 0xD800 || 0xDFFF < h then Parsed(h as char, s[4..])
    else if h <= 0xDBFF && HasEscapedHex(s[4..]) && 0xDC00 <= Hex4(s[4..][2..]) <= 0xDFFF then
      Parsed((0x10000 + (h - 0xD800) * 0x400 + (Hex4(s[4..][2..]) - 0xDC00)) as char, s[10..])
    else Parsed('\U{FFFD}', s[4..])
  }

  predicate IsSimpleEscape(c: char) {
    c == '"' || c == '\\' || c == '/' || c == 'b' || c == 'f' || c == 'n' || c == 'r' || c == 't'
  }

  function SimpleEscape(c: char): char
    requires IsSimpleEscape(c)
  {
    if c == 'b' then '\U{08}' else if c == 'f' then '\U{0C}' else if c == 'n' then '\n'
    else if c == 'r' then '\r' else if c == 't' then '\t' else c
  }

  function Prepend(c: char, tail: Parse<string>): Parse<string> {
    if tail.Fail? then Fail else Parsed([c] + tail.value, tail.rest)
  }

  /** A string literal from just after its opening quote to just after its closing one. */
  function ReadString(s: string): (r: Parse<string>)
    ensures r.Parsed? ==> |r.rest| < |s|
    decreases |s|
  {
    if s == "" then Fail
    else if s[0] == '"' then Parsed("", s[1..])
    else if s[0] == '\\' then
      if |s| == 1 then Fail
      else if s[1] == 'u' then
        match ReadUnicode(s[2..])
        case Fail => Fail
        case Parsed(c, k) => Prepend(c, ReadString(k))
      else if IsSimpleEscape(s[1]) then Prepend(SimpleEscape(s[1]), ReadString(s[2..]))
      else Fail
    else if s[0] < ' ' then Fail
    else Prepend(s[0], ReadString(s[1..]))
  }

  predicate IsDigit(c: char) { '0' <= c <= '9' }

  function DropDigits(s: string): (r: string)
    ensures |r| <= |s| && (s != "" && IsDigit(s[0]) ==> |r| < |s|)
  {
    if s != "" && IsDigit(s[0]) then DropDigits(s[1..]) else s
  }

  function DropFraction(s: string): (r: string)
    ensures |r| <= |s|
  {
    if |s| > 1 && s[0] == '.' && IsDigit(s[1]) then DropDigits(s[1..]) else s
  }

  function DropSign(s: string): (r: string)
    ensures |r| <= |s|
  {
    if s != "" && (s[0] == '+' || s[0] == '-') then s[1..] else s
  }

  function DropExponent(s: string): (r: string)
    ensures |r| <= |s|
  {
    if s != "" && (s[0] == 'e' || s[0] == 'E') then
      var t := DropSign(s[1..]);
      if t != "" && IsDigit(t[0]) then DropDigits(t) else s
    else s
  }

  function DropDecimal(s: string): (r: string)
    requires s != "" && IsDigit(s[0])
    ensures |r| < |s|
  {
    DropExponent(DropFraction(if s[0] == '0' then s[1..] else DropDigits(s)))
  }

  predicate Starts(s: string, w: string) { |w| <= |s| && s[..|w|] == w }

  function DropWord(s: string): (r: string)
    ensures |r| <= |s|
  {
    if Starts(s, "NaN") then s[3..]
    else if Starts(s, "Infinity") then s[8..]
    else if Starts(s, "-Infinity") then s[9..]
    else s
  }

  /** What follows the number at the head of the text; the whole text when there is none. */
  function DropNumber(s: string): (r: string)
    ensures |r| <= |s|
  {
    var t := if s != "" && s[0] == '-' then s[1..] else s;
    if t != "" && IsDigit(t[0]) then DropDecimal(t) else DropWord(s)
  }

  /** `null`, `true`, `false` or a number. */
  function ParseAtom(s: string): (r: Parse<Value>)
    requires s != ""
    ensures r.Parsed? ==> |r.rest| < |s| && !r.value.Obj?
  {
    if s[0] == 'n' then if Starts(s, "null") then Parsed(Null, s[4..]) else Fail
    else if s[0] == 't' then if Starts(s, "true") then Parsed(Bool(true), s[4..]) else Fail
    else if s[0] == 'f' then if Starts(s, "false") then Parsed(Bool(false), s[5..]) else Fail
    else
      var r := DropNumber(s);
      if |r| < |s| then Parsed(Num(s[..|s| - |r|]), r) else Fail
  }

  // ----- grammar level -------------------------------------------------------------------

  function ParseValue(s: string): (r: Parse<Value>)
    ensures r.Parsed? ==> |r.rest| < |s| && (r.value.Obj? <==> s[0] == '{')
    decreases |s|, 1
  {
    if s == "" then Fail
    else if s[0] == '"' then
      match ReadString(s[1..])
      case Fail => Fail
      case Parsed(t, k) => Parsed(Str(t), k)
    else if s[0] == '{' then
      var t := SkipWs(s[1..]);
      if t != "" && t[0] == '}' then Parsed(Obj(map[]), t[1..]) else ParseMembers(t, map[])
    else if s[0] == '[' then
      var t := SkipWs(s[1..]);
      if t != "" && t[0] == ']' then Parsed(Arr([]), t[1..]) else
      match ParseElements(t)
      case Fail => Fail
      case Parsed(vs, k) => Parsed(Arr(vs), k)
    else ParseAtom(s)
  }

  /** A key and its colon, up to where the value starts. */
  function ReadKey(s: string): (r: Parse<string>)
    ensures r.Parsed? ==> |r.rest| < |s|
  {
    if s == "" || s[0] != '"' then Fail else
    match ReadString(s[1..])
    case Fail => Fail
    case Parsed(key, k) =>
      var c := SkipWs(k);
      if c != "" && c[0] == ':' then Parsed(key, SkipWs(c[1..])) else Fail
  }

  /** The members of an object from the first key on; a repeated key keeps its last value. */
  function ParseMembers(s: string, acc: Dict): (r: Parse<Value>)
    ensures r.Parsed? ==> |r.rest| < |s| && r.value.Obj?
    decreases |s|, 0
  {
    match ReadKey(s)
    case Fail => Fail
    case Parsed(key, k) =>
      match ParseValue(k)
      case Fail => Fail
      case Parsed(v, e) =>
        var d := SkipWs(e);
        if d != "" && d[0] == '}' then Parsed(Obj(acc[key := v]), d[1..])
        else if d != "" && d[0] == ',' then ParseMembers(SkipWs(d[1..]), acc[key := v])
        else Fail
  }

  function ParseElements(s: string): (r: Parse<seq<Value>>)
    ensures r.Parsed? ==> |r.rest| < |s|
    decreases |s|, 2
  {
    match ParseValue(s)
    case Fail => Fail
    case Parsed(v, e) =>
      var d := SkipWs(e);
      if d != "" && d[0] == ']' then Parsed([v], d[1..])
      else if d != "" && d[0] == ',' then
        match ParseElements(SkipWs(d[1..]))
        case Fail => Fail
        case Parsed(vs, k) => Parsed([v] + vs, k)
      else Fail
  }

  datatype Loaded = Malformed | Loaded(value: Value)

  /** `json.loads`: one value, surrounded by JSON white space only. */
  function Loads(s: string): Loaded {
    match ParseValue(SkipWs(s))
    case Fail => Malformed
    case Parsed(v, e) => if SkipWs(e) == "" then Loaded(v) else Malformed
  }

  // ----- writer --------------------------------------------------------------------------

  function HexDigit(n: nat): (c: char)
    requires n < 16
    ensures IsHex(c) && HexValue(c) == n
  {
    if n < 10 then ('0' as int + n) as char else ('a' as int + n - 10) as char
  }

  function Escape(c: char): string {
    if c == '"' then "\\\"" else if c == '\\' then "\\\\" else if c == '\n' then "\\n"
    else if c == '\r' then "\\r" else if c == '\t' then "\\t"
    else if c == '\U{08}' then "\\b" else if c == '\U{0C}' then "\\f"
    else if c < ' ' then ['\\', 'u', '0', '0', HexDigit(c as int / 16), HexDigit(c as int % 16)]
    else [c]
  }

  function EscapeAll(t: string): string {
    if t == "" then "" else Escape(t[0]) + EscapeAll(t[1..])
  }

  function Quote(t: string): string { "\"" + EscapeAll(t) + "\"" }

  /** The two separators `json.dumps` puts after an item and after a key. */
  datatype Style = Style(comma: string, colon: string)

  const COMPACT := Style(",", ":")
  const SPACED := Style(", ", ": ")

  /** `json.dumps(v, sort_keys=True, ensure_ascii=False)` with the style's separators. */
  function Dumps(v: Value, style: Style): string
    decreases v
  {
    match v
    case Null => "null"
    case Bool(b) => if b then "true" else "false"
    case Num(lexeme) => lexeme
    case Str(t) => Quote(t)
    case Arr(items) => if items == [] then "[]" else "[" + DumpItems(v, items, style)
    case Obj(fields) => if fields == map[] then "{}" else "{" + DumpMembers(v, SortedKeys(fields.Keys), style)
  }

  function DumpItems(v: Value, items: seq<Value>, style: Style): string
    requires v.Arr? && (forall x :: x in items ==> x in v.items)
    decreases v, |items|
  {
    if items == [] then "]" else
    assert items[0] in v.items;
    Dumps(items[0], style) + if |items| == 1 then "]" else style.comma + DumpItems(v, items[1..], style)
  }

  function DumpMembers(v: Value, keys: seq<string>, style: Style): string
    requires v.Obj? && (forall k :: k in keys ==> k in v.fields)
    decreases v, |keys|
  {
    if keys == [] then "}" else
    Quote(keys[0]) + style.colon + Dumps(v.fields[keys[0]], style)
    + if |keys| == 1 then "}" else style.comma + DumpMembers(v, keys[1..], style)
  }
}
