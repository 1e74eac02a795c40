/**
 Strings as the Python code sees them: code-point order (used by every `sort_keys=True`),
 Unicode-aware stripping, and NUL-joined records.
 */
module Text {

  /** Code-point order; a proper prefix comes first. */
  predicate Less(a: string, b: string) {
    |b| > 0 && (|a| == 0 || a[0] < b[0] || (a[0] == b[0] && Less(a[1..], b[1..])))
  }

  lemma {:induction false} LessTotal(a: string, b: string)
    ensures a == b || Less(a, b) || Less(b, a)
    ensures !(Less(a, b) && Less(b, a)) && (a == b ==> !Less(a, b))
  {
    if |a| > 0 && |b| > 0 && a[0] == b[0] {
      LessTotal(a[1..], b[1..]);
      assert a == [a[0]] + a[1..] && b == [b[0]] + b[1..];
    }
  }

  lemma {:induction false} LessTransitive(a: string, b: string, c: string)
    requires Less(a, b) && Less(b, c)
    ensures Less(a, c)
  {
    if |a| > 0 && a[0] == b[0] && b[0] == c[0] {
      LessTransitive(a[1..], b[1..], c[1..]);
    }
  }

  predicate IsMin(m: string, keys: set<string>) {
    m in keys && forall k :: k in keys ==> k == m || Less(m, k)
  }

  lemma {:induction false} MinExists(keys: set<string>)
    requires keys != {}
    ensures exists m :: IsMin(m, keys)
    decreases |keys|
  {
    var x :| x in keys;
    if keys == {x} {
      assert IsMin(x, keys);
    } else {
      var rest := keys - {x};
      assert rest < keys && rest != {};
      MinExists(rest);
      var m :| IsMin(m, rest);
      LessTotal(x, m);
      if Less(m, x) {
        assert IsMin(m, keys);
      } else {
        forall k | k in keys ensures k == x || Less(x, k) {
          if k in rest && k != m { LessTransitive(x, m, k); }
        }
        assert IsMin(x, keys);
      }
    }
  }

  function Min(keys: set<string>): (m: string)
    requires keys != {}
    ensures IsMin(m, keys)
  {
    MinExists(keys);
    assert forall m, n :: IsMin(m, keys) && IsMin(n, keys) ==> m == n by {
      forall m, n | IsMin(m, keys) && IsMin(n, keys) ensures m == n { LessTotal(m, n); }
    }
    var m :| IsMin(m, keys);
    m
  }

  /** The keys of a dict in the order `sorted` and `sort_keys=True` visit them. */
  function SortedKeys(keys: set<string>): (r: seq<string>)
    ensures forall k :: k in r <==> k in keys
    ensures forall i, j :: 0 <= i < j < |r| ==> Less(r[i], r[j])
  {
    if keys == {} then [] else
      var m := Min(keys);
      var rest := SortedKeys(keys - {m});
      [m] + rest
  }

  /** `str.isspace` on one code point. */
  predicate IsSpace(c: char) {
    || '\t' <= c <= '\r' || '\U{1c}' <= c <= ' ' || c == '\U{85}' || c == '\U{a0}'
    || c == '\U{1680}' || '\U{2000}' <= c <= '\U{200a}' || c == '\U{2028}'
    || c == '\U{2029}' || c == '\U{202f}' || c == '\U{205f}' || c == '\U{3000}'
  }

  function SpacesBefore(s: string): (n: nat)
    ensures n <= |s| && (forall i :: 0 <= i < n ==> IsSpace(s[i])) && (n < |s| ==> !IsSpace(s[n]))
  {
    if s == "" || !IsSpace(s[0]) then 0 else 1 + SpacesBefore(s[1..])
  }

  function TrimEnd(s: string): (r: string)
    ensures r <= s && (forall i :: |r| <= i < |s| ==> IsSpace(s[i]))
    ensures r != "" ==> !IsSpace(r[|r| - 1])
  {
    if s == "" || !IsSpace(s[|s| - 1]) then s else TrimEnd(s[..|s| - 1])
  }

  /** `str.strip()`. */
  function Strip(s: string): string {
    TrimEnd(s[SpacesBefore(s)..])
  }

  /** What stripping removes is white space, and nothing else is removed. */
  lemma StripSplits(s: string) returns (pre: string, post: string)
    ensures s == pre + Strip(s) + post
    ensures forall c :: c in pre || c in post ==> IsSpace(c)
    ensures Strip(s) != "" ==> !IsSpace(Strip(s)[0]) && !IsSpace(Strip(s)[|Strip(s)| - 1])
  {
    var n := SpacesBefore(s);
    hide IsSpace;
    pre := s[..n];
    post := s[n + |Strip(s)|..];
    assert s[n..] == Strip(s) + s[n..][|Strip(s)|..];
    assert post == s[n..][|Strip(s)|..];
    forall c | c in post ensures IsSpace(c) {
      var i :| 0 <= i < |post| && post[i] == c;
      assert s[n..][|Strip(s)| + i] == c;
    }
  }
}
