/**
 * `parse_auth`: the `--auth` text `user:password` split into a user and an
 * optional password, with the terminal prompt supplying the password when the
 * text holds no colon.
 */
module Auth {
  import opened Results
  import opened Errors
  import opened Params

  /** `trim_start_matches(':')`: `s` without its leading colons. */
  function TrimStartColons(s: string): (r: string)
    ensures |r| <= |s| && s[|s| - |r|..] == r
    ensures r == [] || r[0] != ':'
    ensures AllColons(s, 0, |s| - |r|)
  {
    if s != [] && s[0] == ':' then TrimStartColons(s[1..]) else s
  }

  /** Every character of `s[lo..hi]` is a colon. */
  predicate AllColons(s: string, lo: nat, hi: int)
    requires hi <= |s|
  {
    forall j :: lo <= j < hi ==> s[j] == ':'
  }

  /** `t` holds no colon. */
  predicate NoColon(t: string) {
    forall j :: 0 <= j < |t| ==> t[j] != ':'
  }

  /**
   * `parse_auth`: `user:password` splits at the first colon and drops every
   * colon that follows it; an empty password means none. Without a colon the
   * whole string is the user and the password is the one typed at the prompt.
   */
  function ParseAuth(s: string, prompt: Result<string, IoErrorKind>): (r: Result<(string, Option<string>), Error>)
    ensures Find(s, ":").None? && prompt.Failure? ==> r == Failure(IO(prompt.error))
    ensures Find(s, ":").None? && prompt.Success? ==> r == Success((s, Some(prompt.value)))
    ensures Find(s, ":").Some? ==> r.Success? && SplitsAtFirstColon(s, r.value.0, r.value.1)
  {
    match Find(s, ":")
    case Some(idx) =>
      var password := TrimStartColons(s[idx..]);
      AuthSplit(s, idx);
      if password == [] then Success((s[..idx], None))
      else Success((s[..idx], Some(password)))
    case None =>
      match prompt
      case Failure(e) => Failure(IO(e))
      case Success(p) => Success((s, Some(p)))
  }

  /**
   * `user` is the text before the first colon of `s`; the password is absent
   * when only colons follow, and otherwise is what follows those colons.
   */
  predicate SplitsAtFirstColon(s: string, user: string, password: Option<string>) {
    && |user| < |s| && s[..|user|] == user && s[|user|] == ':'
    && NoColon(user)
    && (password.None? <==> AllColons(s, |user|, |s|))
    && (password.Some? ==>
          && password.value != [] && password.value[0] != ':'
          && |user| + |password.value| < |s|
          && s[|s| - |password.value|..] == password.value
          && AllColons(s, |user|, |s| - |password.value|))
  }

  /** The split `parse_auth` makes at the first colon satisfies SplitsAtFirstColon. */
  lemma AuthSplit(s: string, idx: nat)
    requires Find(s, ":") == Some(idx)
    ensures var p := TrimStartColons(s[idx..]);
      SplitsAtFirstColon(s, s[..idx], if p == [] then None else Some(p))
  {
    FirstColon(s, idx);
    TrimmedSuffix(s, idx);
  }

  /** The text before the first colon holds no colon. */
  lemma FirstColon(s: string, idx: nat)
    requires Find(s, ":") == Some(idx)
    ensures idx < |s| && s[idx] == ':'
    ensures NoColon(s[..idx])
  {
    assert s[idx..idx + 1] == ":";
    forall j | 0 <= j < idx
      ensures s[..idx][j] != ':'
    {
      if s[j] == ':' {
        assert s[j..j + 1] == ":";
        assert OccursAt(s, ":", j);
      }
    }
  }

  /** What trimming the colons off `s[idx..]` leaves, in terms of `s`. */
  lemma TrimmedSuffix(s: string, idx: nat)
    requires idx < |s| && s[idx] == ':'
    ensures var p := TrimStartColons(s[idx..]);
      && |p| < |s| - idx
      && s[|s| - |p|..] == p
      && AllColons(s, idx, |s| - |p|)
      && (p == [] <==> AllColons(s, idx, |s|))
  {
    var rest := s[idx..];
    var p := TrimStartColons(rest);
    var k := |s| - |p|;
    assert |p| < |rest| by {
      assert rest[0] == ':';
    }
    assert s[k..] == p by {
      assert s[k..] == rest[|rest| - |p|..];
    }
    assert AllColons(s, idx, k) by {
      forall j | idx <= j < k
        ensures s[j] == ':'
      {
        assert s[j] == rest[j - idx];
      }
    }
    assert p != [] ==> s[k] != ':' by {
      if p != [] {
        assert s[k] == p[0];
      }
    }
  }

  /** A user without a colon and a password not starting with one come back out of `user:password`. */
  lemma ParseAuthRoundTrip(user: string, password: string, prompt: Result<string, IoErrorKind>)
    requires NoColon(user)
    requires password == [] || password[0] != ':'
    ensures ParseAuth(user + ":" + password, prompt) == Success((user, if password == [] then None else Some(password)))
  {
    var s := user + ":" + password;
    assert OccursAt(s, ":", |user|) by {
      assert s[|user|..|user| + 1] == ":";
    }
    var idx := Find(s, ":").value;
    FirstColon(s, idx);
    assert idx == |user|;
    assert s[..idx] == user;
    assert s[idx..] == ":" + password;
    assert (":" + password)[1..] == password;
    assert TrimStartColons(":" + password) == TrimStartColons(password);
  }
}
