/**
 * A named session: the headers, cookies and credentials it stored from earlier
 * requests. It adds them to each new request, before what the invocation itself
 * gives, and unless read-only it stores this request's headers and credentials
 * for the next one.
 */
module Sessions {
  import opened Results
  import opened Errors
  import opened Params
  import opened Requests
  import opened Assembly
  import opened Auth

  /**
   * The value added last under `name`, with names compared exactly. Headers are
   * only appended, so earlier values under the same name are still sent.
   */
  function Lookup(hs: seq<(string, string)>, name: string): (v: Option<string>)
    ensures v.None? <==> forall i :: 0 <= i < |hs| ==> hs[i].0 != name
    ensures v.Some? ==> exists i :: 0 <= i < |hs| && hs[i] == (name, v.value) && LastUnder(hs, name, i)
    decreases |hs|
  {
    if hs == [] then None
    else if hs[|hs| - 1].0 == name then Some(hs[|hs| - 1].1)
    else
      var v := Lookup(hs[..|hs| - 1], name);
      assert forall i :: 0 <= i < |hs| - 1 ==> hs[..|hs| - 1][i] == hs[i];
      v
  }

  /** No header after position `i` is named `name`. */
  predicate LastUnder(hs: seq<(string, string)>, name: string, i: nat) {
    forall j :: i < j < |hs| ==> hs[j].0 != name
  }

  /** The last value under a name given in `b` is found in `b`; for any other name it is found in `a`. */
  lemma {:induction false} LookupAppend(a: seq<(string, string)>, b: seq<(string, string)>, name: string)
    ensures Lookup(a + b, name) == if Lookup(b, name).Some? then Lookup(b, name) else Lookup(a, name)
    decreases |b|
  {
    if b != [] {
      var n := |b| - 1;
      assert (a + b)[..|a| + n] == a + b[..n];
      assert (a + b)[|a| + n] == b[n];
      if b[n].0 != name {
        LookupAppend(a, b[..n], name);
      }
    } else {
      assert a + b == a;
    }
  }

  /** `hs` without any header named `name`. */
  function Remove(hs: seq<(string, string)>, name: string): (r: seq<(string, string)>)
    ensures forall i :: 0 <= i < |r| ==> r[i].0 != name
    ensures forall other :: other != name ==> Lookup(r, other) == Lookup(hs, other)
    decreases |hs|
  {
    if hs == [] then []
    else
      var last := hs[|hs| - 1];
      var init := Remove(hs[..|hs| - 1], name);
      if last.0 == name then init
      else
        assert (init + [last])[..|init|] == init;
        init + [last]
  }

  /** The stored headers with `name` set to `value`, as a map insertion. */
  function Store(hs: seq<(string, string)>, name: string, value: string): (r: seq<(string, string)>)
    ensures Lookup(r, name) == Some(value)
    ensures forall other :: other != name ==> Lookup(r, other) == Lookup(hs, other)
    ensures forall i, j :: 0 <= i < j < |r| && r[j].0 == name ==> r[i].0 != name
  {
    var init := Remove(hs, name);
    assert (init + [(name, value)])[..|init|] == init;
    init + [(name, value)]
  }

  /** The stored headers after storing each of `ns` in turn. */
  function Merge(hs: seq<(string, string)>, ns: seq<(string, string)>): (r: seq<(string, string)>)
    decreases |ns|
  {
    if ns == [] then hs
    else
      var last := ns[|ns| - 1];
      Store(Merge(hs, ns[..|ns| - 1]), last.0, last.1)
  }

  /** After the merge a name given in `ns` has its last value there; every other name keeps its stored value. */
  lemma {:induction false} MergeLookup(hs: seq<(string, string)>, ns: seq<(string, string)>, name: string)
    ensures Lookup(Merge(hs, ns), name) == if Lookup(ns, name).Some? then Lookup(ns, name) else Lookup(hs, name)
    decreases |ns|
  {
    if ns != [] {
      var n := |ns| - 1;
      if ns[n].0 != name {
        MergeLookup(hs, ns[..n], name);
      }
    }
  }

  /** What a session has stored. */
  datatype Stored = Stored(
    headers: seq<(string, string)>,
    cookies: seq<(string, string)>,
    auth: Option<string>,
    token: Option<string>)

  /**
   * The basic credential for a stored `--auth` text: split at the first colon
   * as `parse_auth` splits it; a text without a colon is a user without password.
   */
  function StoredCredential(s: string): (c: Credential)
    ensures c.Basic?
    ensures Find(s, ":").None? ==> c == Basic(s, None)
    ensures Find(s, ":").Some? ==> SplitsAtFirstColon(s, c.user, c.password)
  {
    match Find(s, ":")
    case Some(_) =>
      var (user, password) := ParseAuth(s, Success([])).value;
      Basic(user, password)
    case None => Basic(s, None)
  }

  /** With a colon, the stored credential is the one `parse_auth` gives, whatever the prompt would answer. */
  lemma StoredCredentialAgrees(s: string, prompt: Result<string, IoErrorKind>)
    requires Find(s, ":").Some?
    ensures ParseAuth(s, prompt).Success?
    ensures StoredCredential(s) == Basic(ParseAuth(s, prompt).value.0, ParseAuth(s, prompt).value.1)
  {
  }

  /** The credentials the session adds: the stored basic credential, then the stored token. */
  function StoredCredentials(st: Stored): seq<Credential> {
    (if st.auth.Some? then [StoredCredential(st.auth.value)] else [])
    + (if st.token.Some? then [Bearer(st.token.value)] else [])
  }

  /** The stored credential added last: the token when there is one, else the basic credential. */
  function StoredAuthorization(st: Stored): Option<Credential> {
    if st.token.Some? then Some(Bearer(st.token.value))
    else if st.auth.Some? then Some(StoredCredential(st.auth.value))
    else None
  }

  /**
   * `add_to_request`: the stored headers and cookies follow the request's own,
   * and the stored basic credential and then the stored token are added.
   */
  function AddToRequest(st: Stored, r: Request): (s: Request)
    ensures s.verb == r.verb && s.url == r.url && s.query == r.query && s.body == r.body
    ensures s.headers == r.headers + st.headers && s.credentials == r.credentials + StoredCredentials(st)
    ensures forall name :: Lookup(s.headers, name) == if Lookup(st.headers, name).Some? then Lookup(st.headers, name) else Lookup(r.headers, name)
    ensures s.cookies == r.cookies + st.cookies
    ensures Authorization(s) == if StoredAuthorization(st).Some? then StoredAuthorization(st) else Authorization(r)
  {
    var s := r.(headers := r.headers + st.headers, cookies := r.cookies + st.cookies,
                credentials := r.credentials + StoredCredentials(st));
    forall name { LookupAppend(r.headers, st.headers, name); }
    s
  }

  /**
   * What the session holds after `update_with_parameters` and `update_auth`:
   * every header parameter stored under its name, the last one winning, and
   * the auth and token replaced by those given.
   */
  function Updated(st: Stored, ps: seq<Parameter>, auth: Option<string>, token: Option<string>): Stored {
    st.(headers := Merge(st.headers, HeadersOf(ps)),
        auth := if auth.Some? then auth else st.auth,
        token := if token.Some? then token else st.token)
  }

  /**
   * After the update a header given as a parameter has its last value there,
   * and every other stored header keeps its value; credentials given replace
   * the stored ones and the others stay; the cookies are untouched.
   */
  lemma UpdatedRecalls(st: Stored, ps: seq<Parameter>, auth: Option<string>, token: Option<string>, name: string)
    ensures var u := Updated(st, ps, auth, token);
      && Lookup(u.headers, name) == (if Lookup(HeadersOf(ps), name).Some? then Lookup(HeadersOf(ps), name) else Lookup(st.headers, name))
      && (auth.Some? ==> u.auth == auth) && (auth.None? ==> u.auth == st.auth)
      && (token.Some? ==> u.token == token) && (token.None? ==> u.token == st.token)
      && u.cookies == st.cookies
  {
    MergeLookup(st.headers, HeadersOf(ps), name);
  }

  class Session {
    /** The stored headers; storing a name keeps one entry under it. */
    var headers: seq<(string, string)>
    /** The stored cookies, sent with every request. */
    var cookies: seq<(string, string)>
    /** The stored `--auth` text. */
    var auth: Option<string>
    /** The stored bearer token. */
    var token: Option<string>

    constructor(st: Stored)
      ensures State() == st
    {
      headers, cookies, auth, token := st.headers, st.cookies, st.auth, st.token;
    }

    function State(): Stored
      reads this
    {
      Stored(headers, cookies, auth, token)
    }

    /** `update_with_parameters`: each header parameter is stored under its name, in order. */
    method UpdateWithParameters(ps: seq<Parameter>)
      modifies this
      ensures State() == old(State()).(headers := Merge(old(headers), HeadersOf(ps)))
    {
      for i := 0 to |ps|
        invariant State() == old(State()).(headers := Merge(old(headers), HeadersOf(ps[..i])))
      {
        assert ps[..i + 1][..i] == ps[..i];
        if ps[i].Header? {
          assert HeadersOf(ps[..i + 1]) == HeadersOf(ps[..i]) + [(ps[i].key, ps[i].value)];
          assert (HeadersOf(ps[..i]) + [(ps[i].key, ps[i].value)])[..|HeadersOf(ps[..i])|] == HeadersOf(ps[..i]);
          headers := Store(headers, ps[i].key, ps[i].value);
        } else {
          assert HeadersOf(ps[..i + 1]) == HeadersOf(ps[..i]) + [];
          assert HeadersOf(ps[..i]) + [] == HeadersOf(ps[..i]);
        }
      }
      assert ps[..|ps|] == ps;
    }

    /** `update_auth`: a given `--auth` or `--token` replaces the stored one; one not given leaves it. */
    method UpdateAuth(auth: Option<string>, token: Option<string>)
      modifies this
      ensures this.auth == (if auth.Some? then auth else old(this.auth))
      ensures this.token == (if token.Some? then token else old(this.token))
      ensures headers == old(headers) && cookies == old(cookies)
    {
      if auth.Some? {
        this.auth := auth;
      }
      if token.Some? {
        this.token := token;
      }
    }
  }
}
