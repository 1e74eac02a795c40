/** What the token cache takes in, what it refuses, and when it hands a token out again. */
module CacheLaws {
  import opened Text
  import opened Statuses
  import opened TokenCache

  // ----- requests ------------------------------------------------------------------------

  lemma LowersExactly(s: string, i: nat)
    requires i < |s|
    ensures |Lower(s)| == |s|
    ensures 'A' <= s[i] <= 'Z' ==> Lower(s)[i] as int == s[i] as int + 32
    ensures !('A' <= s[i] <= 'Z') ==> Lower(s)[i] == s[i]
  {}

  /** Every permission is named, and is read or write in any case; there is at least one. */
  lemma PermissionsExactly(raw: map<string, string>, p: Permissions)
    ensures Normalized(raw) == Some(p) <==>
      && raw != map[] && p.Keys == raw.Keys
      && forall name :: name in raw ==>
           name != "" && ((p[name] == Read && Lower(raw[name]) == "read") || (p[name] == Write && Lower(raw[name]) == "write"))
  {
    hide Lower;
    assert "read"[0] != "write"[0];
    if Normalized(raw) == Some(p) {
      assert forall name :: name in raw ==> LevelOf(raw[name]) == Some(p[name]);
    }
    if p.Keys == raw.Keys && forall name :: name in raw ==> name != "" && LevelOf(raw[name]) == Some(p[name]) {
      assert p == map name | name in raw :: LevelOf(raw[name]).value;
    }
  }

  predicate NoSlash(s: string) { forall i :: 0 <= i < |s| ==> s[i] != '/' }

  lemma RepositorySplit(s: string, owner: string, name: string)
    requires owner != "" && name != "" && NoSlash(owner) && NoSlash(name) && s == owner + "/" + name
    ensures IsRepository(s)
  {
    var i := |owner|;
    assert s[i] == '/' && 0 < i < |s| - 1;
    forall j | 0 <= j < |s| && s[j] == '/' ensures j == i {
      assert s[..i] == owner && s[i + 1..] == name;
    }
  }

  /** A repository is an owner and a name, neither empty, with the one slash between them. */
  lemma RepositoryExactly(s: string)
    ensures IsRepository(s) <==>
      exists owner, name :: owner != "" && name != "" && NoSlash(owner) && NoSlash(name) && s == owner + "/" + name
  {
    if IsRepository(s) {
      var i :| 0 < i < |s| - 1 && s[i] == '/' && forall j :: 0 <= j < |s| && s[j] == '/' ==> j == i;
      var owner, name := s[..i], s[i + 1..];
      assert s == owner + "/" + name;
      assert NoSlash(owner) && NoSlash(name) && owner != "" && name != "";
    }
    if owner, name :| owner != "" && name != "" && NoSlash(owner) && NoSlash(name) && s == owner + "/" + name {
      RepositorySplit(s, owner, name);
    }
  }

  /** At most fifteen minutes, never negative, otherwise as configured. */
  lemma SecondsExactly(configured: int)
    ensures 0 <= configured <= 900 ==> ClampSeconds(configured) == configured
    ensures configured < 0 ==> ClampSeconds(configured) == 0
    ensures configured > 900 ==> ClampSeconds(configured) == 900
  {}

  // ----- reuse ---------------------------------------------------------------------------

  /** Some cached token's repository and permissions are these. */
  function Found(s: System, repository: string, p: Permissions, now: real): Option<Entry> {
    Reusable(s.cache, KeyFor(repository, p), now)
  }

  /**
   Ask again for what was just answered: that token is handed out exactly while the clock is below both its
   expiry less a minute and the time of its request plus the cache seconds. After that the request is a miss.
   An answer already too old to store leaves the cache as it was.
   */
  lemma AnsweredThenAsked(s: System, miss: nat, token: string, expiry: real, raw: map<string, string>, now: real, seconds: int)
    requires miss < |s.misses| && Normalized(raw) == Some(s.misses[miss].permissions) && IsRepository(s.misses[miss].repository)
    ensures var r := s.misses[miss];
      var answered := Do(s, Answer(miss, token, expiry), seconds);
      var asked := Do(answered, Ask(r.repository, raw, now), seconds);
      && answered.minted == s.minted + [Minted(r, token, expiry)] && answered.misses == s.misses && answered.reuses == s.reuses
      && (r.asked < expiry - 60.0 && 0 < seconds ==>
            if now < expiry - 60.0 && now < r.asked + seconds as real then
              asked == answered.(reuses := s.reuses + [Reuse(Request(r.repository, r.permissions, now), token)])
            else asked == answered.(misses := s.misses + [Request(r.repository, r.permissions, now)]))
      && (!(r.asked < expiry - 60.0 && 0 < seconds) ==> answered.cache == s.cache)
  {
    hide IsRepository, Normalized, KeyFor;
    assert seconds > 0 ==> seconds as real > 0.0;
    assert seconds <= 0 ==> seconds as real <= 0.0;
  }

  /** An answer for one repository and set of permissions changes nothing for any other. */
  lemma AnswerElsewhere(s: System, miss: nat, token: string, expiry: real, repository: string, p: Permissions, now: real, seconds: int)
    requires miss < |s.misses| && (repository != s.misses[miss].repository || p != s.misses[miss].permissions)
    ensures Found(Do(s, Answer(miss, token, expiry), seconds), repository, p, now) == Found(s, repository, p, now)
  {
    KeysCoincide(repository, p, s.misses[miss].repository, s.misses[miss].permissions);
    hide KeyFor;
  }

  /** A malformed request changes nothing, and a fresh cache knows no token. */
  lemma RefusedExactly(s: System, repository: string, raw: map<string, string>, now: real, seconds: int)
    ensures !IsRepository(repository) || Normalized(raw).None? <==> Do(s, Ask(repository, raw, now), seconds) == s
  {
    hide IsRepository, Normalized, KeyFor;
    var next := Do(s, Ask(repository, raw, now), seconds);
    if IsRepository(repository) && Normalized(raw).Some? {
      assert |next.misses| + |next.reuses| == |s.misses| + |s.reuses| + 1;
    }
  }
}
