/**
 * The edge middleware guarding the admin routes: a request passes when any of the
 * four session cookies is set, and is otherwise redirected to the sign-in page with the
 * original path as `callbackUrl`.
 */
module RouteGate {
  import opened Common
  import CrudQuery

  type Pair = CrudQuery.Pair

  /** The cookie names NextAuth v4 and v5 use for the session token, in the order they
      are tried. */
  const SessionCookieNames: seq<string> := [
    "__Secure-next-auth.session-token",
    "next-auth.session-token",
    "__Secure-authjs.session-token",
    "authjs.session-token"
  ]

  type Cookies = map<string, string>

  /** `a?.value || b?.value || ...`: the first set, non-empty cookie among `names`. */
  function FirstSessionToken(cookies: Cookies, names: seq<string>): (r: Option<string>)
    ensures r.Some? ==> r.value != ""
    ensures r.Some? ==> exists i :: 0 <= i < |names| && names[i] in cookies && cookies[names[i]] == r.value &&
                           (forall j :: 0 <= j < i ==> names[j] !in cookies || cookies[names[j]] == "")
    ensures r.None? <==> forall i :: 0 <= i < |names| ==> names[i] !in cookies || cookies[names[i]] == ""
  {
    if names == [] then None
    else if names[0] in cookies && cookies[names[0]] != "" then Some(cookies[names[0]])
    else
      var r := FirstSessionToken(cookies, names[1..]);
      assert forall i :: 1 <= i < |names| ==> names[i] == names[1..][i - 1];
      assert r.Some? ==> exists i :: 0 <= i < |names| && names[i] in cookies && cookies[names[i]] == r.value &&
                           (forall j :: 0 <= j < i ==> names[j] !in cookies || cookies[names[j]] == "") by {
        if r.Some? {
          var k :| 0 <= k < |names[1..]| && names[1..][k] in cookies && cookies[names[1..][k]] == r.value &&
                   (forall j :: 0 <= j < k ==> names[1..][j] !in cookies || cookies[names[1..][j]] == "");
          assert names[k + 1] == names[1..][k];
          forall j | 0 <= j < k + 1 ensures names[j] !in cookies || cookies[names[j]] == "" {
            if j > 0 {
              assert names[j] == names[1..][j - 1];
            }
          }
        }
      }
      r
  }

  /** Some session cookie is set to a non-empty value. */
  predicate HasSessionCookie(cookies: Cookies)
  {
    exists i :: 0 <= i < |SessionCookieNames| && SessionCookieNames[i] in cookies && cookies[SessionCookieNames[i]] != ""
  }

  /** The earlier cookie name wins when several are set. */
  lemma FirstCookieWins(cookies: Cookies)
    requires "__Secure-next-auth.session-token" in cookies && cookies["__Secure-next-auth.session-token"] != ""
    ensures FirstSessionToken(cookies, SessionCookieNames) == Some(cookies["__Secure-next-auth.session-token"])
  {
  }

  // ---------------------------------------------------------------------------
  // URLs

  /** The parts of a request URL the middleware touches; `origin` stands for everything
      else (scheme, host, port, hash), which the clone keeps. */
  datatype Url = Url(origin: string, pathname: string, params: seq<Pair>)

  /** Every pair except those named `name`. */
  function RemoveAll(ps: seq<Pair>, name: string): (r: seq<Pair>)
    ensures forall p :: p in r <==> p in ps && p.0 != name
  {
    if ps == [] then [] else (if ps[0].0 == name then [] else [ps[0]]) + RemoveAll(ps[1..], name)
  }

  /** `URLSearchParams.set(name, value)` as the WHATWG URL Standard defines it: the
      first pair named `name` gets the value and the others named `name` are removed;
      with none, the pair is appended. */
  function SetParam(ps: seq<Pair>, name: string, value: string): seq<Pair>
  {
    if ps == [] then [(name, value)]
    else if ps[0].0 == name then [(name, value)] + RemoveAll(ps[1..], name)
    else [ps[0]] + SetParam(ps[1..], name, value)
  }

  lemma GetAllSingle(p: Pair, k: string)
    ensures CrudQuery.GetAll([p], k) == (if p.0 == k then [p.1] else [])
  {
    assert CrudQuery.GetAll([p], k) == CrudQuery.GetAll([], k) + (if p.0 == k then [p.1] else []);
  }

  lemma {:induction false} GetAllRemoveAll(ps: seq<Pair>, name: string, k: string)
    ensures CrudQuery.GetAll(RemoveAll(ps, name), k) == (if k == name then [] else CrudQuery.GetAll(ps, k))
    decreases |ps|
  {
    if ps != [] {
      GetAllRemoveAll(ps[1..], name, k);
      var head: seq<Pair> := if ps[0].0 == name then [] else [ps[0]];
      CrudQuery.GetAllAppend(head, RemoveAll(ps[1..], name), k);
      CrudQuery.GetAllAppend([ps[0]], ps[1..], k);
      assert [ps[0]] + ps[1..] == ps;
      GetAllSingle(ps[0], k);
      assert CrudQuery.GetAll([], k) == [];
    }
  }

  /** After `set`, the name holds exactly the one value, and every other name keeps all
      of its values in order. */
  lemma {:induction false} SetParamGetAll(ps: seq<Pair>, name: string, value: string, k: string)
    ensures CrudQuery.GetAll(SetParam(ps, name, value), k) == (if k == name then [value] else CrudQuery.GetAll(ps, k))
    decreases |ps|
  {
    GetAllSingle((name, value), k);
    if ps == [] {
      assert CrudQuery.GetAll([], k) == [];
    } else {
      CrudQuery.GetAllAppend([ps[0]], ps[1..], k);
      assert [ps[0]] + ps[1..] == ps;
      GetAllSingle(ps[0], k);
      if ps[0].0 == name {
        GetAllRemoveAll(ps[1..], name, k);
        CrudQuery.GetAllAppend([(name, value)], RemoveAll(ps[1..], name), k);
      } else {
        SetParamGetAll(ps[1..], name, value, k);
        CrudQuery.GetAllAppend([ps[0]], SetParam(ps[1..], name, value), k);
      }
    }
  }

  // ---------------------------------------------------------------------------
  // The middleware

  datatype Response = PassThrough | Redirect(location: Url)

  /** `middleware(req)`. */
  function Middleware(url: Url, cookies: Cookies): (r: Response)
    ensures r.PassThrough? <==> HasSessionCookie(cookies)
    ensures r.Redirect? ==>
              && r.location.origin == url.origin
              && r.location.pathname == "/signin"
              && CrudQuery.GetAll(r.location.params, "callbackUrl") == [url.pathname]
              && forall k :: k != "callbackUrl" ==> CrudQuery.GetAll(r.location.params, k) == CrudQuery.GetAll(url.params, k)
  {
    var token := FirstSessionToken(cookies, SessionCookieNames);
    if token.None? then
      var location := Url(url.origin, "/signin", SetParam(url.params, "callbackUrl", url.pathname));
      assert forall k :: CrudQuery.GetAll(location.params, k) == (if k == "callbackUrl" then [url.pathname] else CrudQuery.GetAll(url.params, k)) by {
        forall k ensures CrudQuery.GetAll(location.params, k) == (if k == "callbackUrl" then [url.pathname] else CrudQuery.GetAll(url.params, k)) {
          SetParamGetAll(url.params, "callbackUrl", url.pathname, k);
        }
      }
      Redirect(location)
    else PassThrough
  }

  /** The decision rests on whether a session cookie is set, never on what it holds. */
  lemma OnlyPresenceMatters(url: Url, c1: Cookies, c2: Cookies)
    requires HasSessionCookie(c1) == HasSessionCookie(c2)
    ensures Middleware(url, c1) == Middleware(url, c2)
  {
  }

  /** `config.matcher` `/admin/:path*`: `/admin` itself and every path below it. */
  predicate Guarded(path: string)
  {
    path == "/admin" || IsPrefix("/admin/", path)
  }

  /** The whole gate: unguarded paths never reach the middleware. */
  function Gate(url: Url, cookies: Cookies): (r: Response)
    ensures !Guarded(url.pathname) ==> r == PassThrough
    ensures Guarded(url.pathname) ==> (r.PassThrough? <==> HasSessionCookie(cookies))
  {
    if Guarded(url.pathname) then Middleware(url, cookies) else PassThrough
  }
}
