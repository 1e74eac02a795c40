/** `GitHubAppTokenBroker.mint`: tokens reused for a while, looked up and stored under separate locks. */
module TokenCache {
  import opened Text
  import opened Statuses

  datatype Level = Read | Write

  function LowerChar(c: char): char { if 'A' <= c <= 'Z' then c - 'A' + 'a' else c }

  function Lower(s: string): string { seq(|s|, i requires 0 <= i < |s| => LowerChar(s[i])) }

  function LevelOf(word: string): Option<Level> {
    if Lower(word) == "read" then Some(Read) else if Lower(word) == "write" then Some(Write) else None
  }

  type Permissions = map<string, Level>

  /** `_normalize_permissions`; None where it raises. */
  function Normalized(raw: map<string, string>): Option<Permissions> {
    if raw == map[] || exists name :: name in raw && (name == "" || LevelOf(raw[name]).None?) then None
    else Some(map name | name in raw :: LevelOf(raw[name]).value)
  }

  method NormalizePermissions(raw: map<string, string>) returns (r: Option<Permissions>)
    ensures r == Normalized(raw)
  {
    hide LevelOf;
    var output: Permissions := map[];
    var left := raw.Keys;
    while left != {}
      invariant left <= raw.Keys && output.Keys == raw.Keys - left
      invariant forall name :: name in output ==> name != "" && LevelOf(raw[name]) == Some(output[name])
    {
      var name :| name in left;
      var level := LevelOf(raw[name]);
      if name == "" || level.None? { return None; }
      output := output[name := level.value];
      left := left - {name};
    }
    if output == map[] { return None; }
    assert raw.Keys == output.Keys;
    r := Some(output);
    assert output == map name | name in raw :: LevelOf(raw[name]).value;
  }

  /** owner/name, with one slash and something on both sides. */
  predicate IsRepository(s: string) {
    exists i :: 0 < i < |s| - 1 && s[i] == '/' && forall j :: 0 <= j < |s| && s[j] == '/' ==> j == i
  }

  // ----- keys ----------------------------------------------------------------------------

  datatype CacheKey = CacheKey(repository: string, items: seq<(string, Level)>)

  /** `tuple(sorted(permissions.items()))`; names are distinct, so they alone decide the order. */
  function SortedItems(permissions: Permissions): (r: seq<(string, Level)>) {
    var names := SortedKeys(permissions.Keys);
    seq(|names|, i requires 0 <= i < |names| => (names[i], permissions[names[i]]))
  }

  function KeyFor(repository: string, permissions: Permissions): CacheKey { CacheKey(repository, SortedItems(permissions)) }

  lemma ItemsHold(p: Permissions, name: string, level: Level)
    ensures (name, level) in SortedItems(p) <==> name in p && p[name] == level
  {
    var names := SortedKeys(p.Keys);
    hide SortedKeys;
    if name in p && p[name] == level {
      assert name in names;
      var i :| 0 <= i < |names| && names[i] == name;
      assert SortedItems(p)[i] == (name, level);
    }
    if (name, level) in SortedItems(p) {
      var i :| 0 <= i < |names| && SortedItems(p)[i] == (name, level);
      assert names[i] in names;
    }
  }

  /** Cache keys coincide exactly when the repository and the normalised permissions do. */
  lemma KeysCoincide(repo1: string, p1: Permissions, repo2: string, p2: Permissions)
    ensures KeyFor(repo1, p1) == KeyFor(repo2, p2) <==> repo1 == repo2 && p1 == p2
  {
    if KeyFor(repo1, p1) == KeyFor(repo2, p2) {
      forall name | name in p1 ensures name in p2 && p2[name] == p1[name] {
        ItemsHold(p1, name, p1[name]);
        ItemsHold(p2, name, p1[name]);
      }
      forall name | name in p2 ensures name in p1 {
        ItemsHold(p2, name, p2[name]);
        ItemsHold(p1, name, p2[name]);
      }
      hide SortedItems;
      assert p1.Keys == p2.Keys;
    }
  }

  // ----- the cache -----------------------------------------------------------------------

  datatype Entry = Entry(token: string, until: real)

  type Cache = map<CacheKey, Entry>

  function ClampSeconds(configured: int): (r: int)
    ensures 0 <= r <= 900
  {
    if configured < 0 then 0 else if configured > 900 then 900 else configured
  }

  function Least(a: real, b: real): real { if a < b then a else b }

  function ReusableUntil(expiry: real, asked: real, seconds: int): real { Least(expiry - 60.0, asked + seconds as real) }

  function Reusable(cache: Cache, key: CacheKey, now: real): Option<Entry> {
    if key in cache && cache[key].until > now then Some(cache[key]) else None
  }

  function Stored(cache: Cache, key: CacheKey, token: string, expiry: real, asked: real, seconds: int): Cache {
    var until := ReusableUntil(expiry, asked, seconds);
    if until > asked then cache[key := Entry(token, until)] else cache
  }

  datatype Response = Response(token: string, expiry: real)

  class TokenBroker {
    var cache: Cache
    const seconds: int

    constructor (configured: int)
      ensures cache == map[] && seconds == ClampSeconds(configured)
    {
      cache, seconds := map[], ClampSeconds(configured);
    }

    /** `mint`, undisturbed; None where it raises, and then nothing is cached. */
    method Mint(repository: string, raw: map<string, string>, now: real, response: Option<Response>)
      returns (token: Option<string>)
      modifies this
      ensures var p := Normalized(raw);
        if !IsRepository(repository) || p.None? then token.None? && cache == old(cache)
        else
          var key := KeyFor(repository, p.value);
          var hit := Reusable(old(cache), key, now);
          if hit.Some? then token == Some(hit.value.token) && cache == old(cache)
          else if response.None? then token.None? && cache == old(cache)
          else token == Some(response.value.token)
               && cache == Stored(old(cache), key, response.value.token, response.value.expiry, now, seconds)
    {
      if !IsRepository(repository) { return None; }
      var p := NormalizePermissions(raw);
      hide IsRepository, Normalized;
      if p.None? { return None; }
      var key := KeyFor(repository, p.value);
      if key in cache && cache[key].until > now { return Some(cache[key].token); }
      if response.None? { return None; }
      var until := ReusableUntil(response.value.expiry, now, seconds);
      if until > now { cache := cache[key := Entry(response.value.token, until)]; }
      token := Some(response.value.token);
    }
  }

  // ----- interleaved misses --------------------------------------------------------------

  datatype Request = Request(repository: string, permissions: Permissions, asked: real)

  /** A token the provider gave for a request. */
  datatype Minted = Minted(request: Request, token: string, expiry: real)

  /** A token handed out again, and when that was checked. */
  datatype Reuse = Reuse(request: Request, token: string)

  datatype System = System(cache: Cache, misses: seq<Request>, minted: seq<Minted>, reuses: seq<Reuse>)

  datatype Act =
    | Ask(repository: string, raw: map<string, string>, now: real)
    | Answer(miss: nat, token: string, expiry: real)

  /** A request looks the cache up; its answer, whenever it comes, is stored as of when it asked. */
  function Do(s: System, act: Act, seconds: int): System {
    match act
    case Ask(repository, raw, now) =>
      var p := Normalized(raw);
      if !IsRepository(repository) || p.None? then s
      else
        var request := Request(repository, p.value, now);
        var hit := Reusable(s.cache, KeyFor(repository, p.value), now);
        if hit.Some? then s.(reuses := s.reuses + [Reuse(request, hit.value.token)])
        else s.(misses := s.misses + [request])
    case Answer(miss, token, expiry) =>
      if miss >= |s.misses| then s
      else
        var r := s.misses[miss];
        s.(minted := s.minted + [Minted(r, token, expiry)],
           cache := Stored(s.cache, KeyFor(r.repository, r.permissions), token, expiry, r.asked, seconds))
  }

  function Run(acts: seq<Act>, seconds: int): System {
    if acts == [] then System(map[], [], [], []) else Do(Run(acts[..|acts| - 1], seconds), acts[|acts| - 1], seconds)
  }

  predicate Behind(m: Minted, key: CacheKey, e: Entry, seconds: int) {
    && KeyFor(m.request.repository, m.request.permissions) == key
    && m.token == e.token && e.until == ReusableUntil(m.expiry, m.request.asked, seconds)
  }

  /** A reuse is as good as minting afresh: same repository, same permissions, and in time on both counts. */
  predicate Justifies(m: Minted, r: Reuse, seconds: int) {
    && m.token == r.token
    && m.request.repository == r.request.repository && m.request.permissions == r.request.permissions
    && r.request.asked < m.expiry - 60.0 && r.request.asked < m.request.asked + seconds as real
  }

  ghost predicate CacheBacked(s: System, seconds: int) {
    forall key :: key in s.cache ==> exists i :: 0 <= i < |s.minted| && Behind(s.minted[i], key, s.cache[key], seconds)
  }

  ghost predicate Justified(minted: seq<Minted>, r: Reuse, seconds: int) {
    exists i :: 0 <= i < |minted| && Justifies(minted[i], r, seconds)
  }

  ghost predicate ReusesJustified(s: System, seconds: int) {
    forall k :: 0 <= k < |s.reuses| ==> Justified(s.minted, s.reuses[k], seconds)
  }

  lemma AskKeeps(s: System, act: Act, seconds: int)
    requires act.Ask? && CacheBacked(s, seconds) && ReusesJustified(s, seconds)
    ensures CacheBacked(Do(s, act, seconds), seconds)
    ensures ReusesJustified(Do(s, act, seconds), seconds)
  {
    hide IsRepository, Normalized, KeyFor;
    var next := Do(s, act, seconds);
    assert next.cache == s.cache && next.minted == s.minted;
    SameCache(s, next, seconds);
    forall k | 0 <= k < |next.reuses| ensures Justified(next.minted, next.reuses[k], seconds) {
      if k < |s.reuses| {
        assert next.reuses[k] == s.reuses[k];
      } else {
        HitJustified(s, act.repository, Normalized(act.raw).value, act.now, seconds);
      }
    }
  }

  lemma SameCache(s: System, next: System, seconds: int)
    requires CacheBacked(s, seconds) && next.cache == s.cache && next.minted == s.minted
    ensures CacheBacked(next, seconds)
  {}

  lemma HitJustified(s: System, repository: string, p: Permissions, now: real, seconds: int)
    requires CacheBacked(s, seconds) && Reusable(s.cache, KeyFor(repository, p), now).Some?
    ensures var reuse := Reuse(Request(repository, p, now), Reusable(s.cache, KeyFor(repository, p), now).value.token);
      Justified(s.minted, reuse, seconds)
  {
    var key := KeyFor(repository, p);
    var i :| 0 <= i < |s.minted| && Behind(s.minted[i], key, s.cache[key], seconds);
    KeysCoincide(s.minted[i].request.repository, s.minted[i].request.permissions, repository, p);
    hide KeyFor;
    assert Justifies(s.minted[i], Reuse(Request(repository, p, now), s.cache[key].token), seconds);
  }

  lemma AnswerKeeps(s: System, act: Act, seconds: int)
    requires act.Answer? && CacheBacked(s, seconds) && ReusesJustified(s, seconds)
    ensures CacheBacked(Do(s, act, seconds), seconds)
    ensures ReusesJustified(Do(s, act, seconds), seconds)
  {
    hide KeyFor, ReusableUntil;
    var next := Do(s, act, seconds);
    if act.miss < |s.misses| {
      var n := |s.minted|;
      var request := s.misses[act.miss];
      assert forall i :: 0 <= i < n ==> next.minted[i] == s.minted[i];
      forall key | key in next.cache ensures exists i :: 0 <= i < |next.minted| && Behind(next.minted[i], key, next.cache[key], seconds) {
        if key in s.cache && next.cache[key] == s.cache[key] {
          var i :| 0 <= i < n && Behind(s.minted[i], key, s.cache[key], seconds);
          assert Behind(next.minted[i], key, next.cache[key], seconds);
        } else {
          assert next.cache[key] == Entry(act.token, ReusableUntil(act.expiry, request.asked, seconds));
          assert Behind(next.minted[n], key, next.cache[key], seconds);
        }
      }
      assert next.reuses == s.reuses;
      forall k | 0 <= k < |next.reuses| ensures Justified(next.minted, next.reuses[k], seconds) {
        var i :| 0 <= i < n && Justifies(s.minted[i], s.reuses[k], seconds);
        assert Justifies(next.minted[i], next.reuses[k], seconds);
      }
    }
  }

  /**
   Over every interleaving of requests and answers, whatever the clock reads at each: a token handed out
   again came from a request for exactly that repository and those permissions, and the time it was
   checked at is below both its expiry less a minute and that request's time plus the cache seconds,
   which are at most 900.
   */
  lemma {:induction false} ReuseAgreesWithMinting(acts: seq<Act>, configured: int)
    ensures var s := Run(acts, ClampSeconds(configured));
      CacheBacked(s, ClampSeconds(configured)) && ReusesJustified(s, ClampSeconds(configured))
  {
    var seconds := ClampSeconds(configured);
    if acts != [] {
      var init, act := acts[..|acts| - 1], acts[|acts| - 1];
      ReuseAgreesWithMinting(init, configured);
      hide Do, CacheBacked, ReusesJustified, ClampSeconds;
      if act.Ask? { AskKeeps(Run(init, seconds), act, seconds); } else { AnswerKeeps(Run(init, seconds), act, seconds); }
    }
  }
}
