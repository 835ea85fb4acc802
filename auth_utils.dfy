/**
 * The JWT cookie helpers of the auth app: they put the access and refresh
 * tokens into a response's cookie jar under the names and attributes the
 * `SIMPLE_JWT` settings configure (with built-in defaults), clear them again,
 * and read the refresh token back from a request's cookies.
 */
module AuthUtils {
  import opened Wrappers
  import opened Http
  import opened Text

  /**
   * The `SIMPLE_JWT` entries the auth app reads; `None` is an entry that is not
   * configured. The lifetimes are `int(lifetime.total_seconds())`.
   */
  datatype JwtSettings = JwtSettings(
    authCookie: Option<string>,
    authCookieRefresh: Option<string>,
    httpOnly: Option<bool>,
    secure: Option<bool>,
    sameSite: Option<string>,
    path: Option<string>,
    accessLifetime: Option<int>,
    refreshLifetime: Option<int>)

  /** The effective settings of the helpers, each falling back to its default. */
  function AccessName(s: JwtSettings): string { s.authCookie.GetOr("access_token") }
  function RefreshName(s: JwtSettings): string { s.authCookieRefresh.GetOr("refresh_token") }
  function HttpOnly(s: JwtSettings): bool { s.httpOnly.GetOr(true) }
  function Secure(s: JwtSettings): bool { s.secure.GetOr(false) }
  function SameSite(s: JwtSettings): string { s.sameSite.GetOr("Lax") }
  function CookiePath(s: JwtSettings): string { s.path.GetOr("/") }

  /** `set_cookie` accepts the configured SameSite value (it raises ValueError otherwise). */
  predicate HelperSettings(s: JwtSettings) {
    ValidSameSite(Some(SameSite(s)))
  }

  /** The SameSite attribute a fresh morsel ends up with: an empty value sets none. */
  function SameSiteAttr(s: JwtSettings): Option<string> {
    if SameSite(s) == "" then None else Some(SameSite(s))
  }

  /** Python truthiness of the optional refresh token. */
  predicate Truthy(token: Option<string>) {
    token.Some? && token.value != ""
  }

  /** One `set_cookie` call of the helpers, with the configured attributes and no max-age. */
  function PutCookie(jar: map<string, Cookie>, s: JwtSettings, key: string, value: string, maxAge: Option<int>): (r: map<string, Cookie>)
    requires HelperSettings(s)
    ensures r.Keys == jar.Keys + {key}
    ensures forall k | k in jar && k != key :: r[k] == jar[k]
    ensures r[key].value == value && r[key].path == Some(CookiePath(s))
    ensures maxAge.Some? ==> r[key].maxAge == maxAge
    ensures HttpOnly(s) ==> r[key].httpOnly
    ensures Secure(s) ==> r[key].secure
    ensures key !in jar ==> r[key] == Cookie(value, maxAge, Some(CookiePath(s)), Secure(s), HttpOnly(s), SameSiteAttr(s))
  {
    SetCookie(jar, key, value, maxAge, Some(CookiePath(s)), Secure(s), HttpOnly(s), Some(SameSite(s)))
  }

  /**
   * The jar after `set_jwt_cookies`: the access cookie always, the refresh
   * cookie only for a truthy refresh token, and every other cookie untouched.
   */
  function WithJwtCookies(jar: map<string, Cookie>, s: JwtSettings, access: string, refresh: Option<string>): (r: map<string, Cookie>)
    requires HelperSettings(s)
    ensures r.Keys == jar.Keys + {AccessName(s)} + (if Truthy(refresh) then {RefreshName(s)} else {})
    ensures forall k | k in jar && k != AccessName(s) && k != RefreshName(s) :: r[k] == jar[k]
    ensures !Truthy(refresh) && RefreshName(s) in jar && RefreshName(s) != AccessName(s) ==>
      r[RefreshName(s)] == jar[RefreshName(s)]
    ensures Truthy(refresh) ==> r[RefreshName(s)].value == refresh.value
    ensures !Truthy(refresh) || AccessName(s) != RefreshName(s) ==> r[AccessName(s)].value == access
    ensures r[AccessName(s)].path == Some(CookiePath(s))
    ensures Truthy(refresh) ==> r[RefreshName(s)].path == Some(CookiePath(s))
  {
    var withAccess := PutCookie(jar, s, AccessName(s), access, None);
    if Truthy(refresh) then PutCookie(withAccess, s, RefreshName(s), refresh.value, None) else withAccess
  }

  /** The jar after `clear_jwt_cookies`: both names emptied with max-age 0, every other cookie untouched. */
  function WithoutJwtCookies(jar: map<string, Cookie>, s: JwtSettings): (r: map<string, Cookie>)
    requires HelperSettings(s)
    ensures r.Keys == jar.Keys + {AccessName(s), RefreshName(s)}
    ensures forall k | k in jar && k != AccessName(s) && k != RefreshName(s) :: r[k] == jar[k]
    ensures r[AccessName(s)].value == "" && r[AccessName(s)].maxAge == Some(0)
    ensures r[RefreshName(s)].value == "" && r[RefreshName(s)].maxAge == Some(0)
    ensures r[AccessName(s)].path == Some(CookiePath(s)) && r[RefreshName(s)].path == Some(CookiePath(s))
  {
    PutCookie(PutCookie(jar, s, AccessName(s), "", Some(0)), s, RefreshName(s), "", Some(0))
  }

  /** `set_jwt_cookies(response, access_token, refresh_token)`. */
  method SetJwtCookies(response: HttpResponse, s: JwtSettings, access: string, refresh: Option<string>)
    requires HelperSettings(s)
    modifies response
    ensures response.Snapshot() == old(response.Snapshot()).(cookies := WithJwtCookies(old(response.cookies), s, access, refresh))
  {
    response.SetCookieOn(AccessName(s), access, None, Some(CookiePath(s)), Secure(s), HttpOnly(s), Some(SameSite(s)));
    if Truthy(refresh) {
      response.SetCookieOn(RefreshName(s), refresh.value, None, Some(CookiePath(s)), Secure(s), HttpOnly(s), Some(SameSite(s)));
    }
  }

  /** `clear_jwt_cookies(response)`. */
  method ClearJwtCookies(response: HttpResponse, s: JwtSettings)
    requires HelperSettings(s)
    modifies response
    ensures response.Snapshot() == old(response.Snapshot()).(cookies := WithoutJwtCookies(old(response.cookies), s))
  {
    response.SetCookieOn(AccessName(s), "", Some(0), Some(CookiePath(s)), Secure(s), HttpOnly(s), Some(SameSite(s)));
    response.SetCookieOn(RefreshName(s), "", Some(0), Some(CookiePath(s)), Secure(s), HttpOnly(s), Some(SameSite(s)));
  }

  /** `get_refresh_token_from_request`: the value under the refresh cookie's name, if the request carries it. */
  function GetRefreshToken(requestCookies: map<string, string>, s: JwtSettings): (r: Option<string>)
    ensures r.Some? <==> RefreshName(s) in requestCookies
    ensures r.Some? ==> r.value == requestCookies[RefreshName(s)]
  {
    if RefreshName(s) in requestCookies then Some(requestCookies[RefreshName(s)]) else None
  }

  /** A Max-Age of zero or less makes the client drop the cookie at once (section 5.2.2 of RFC 6265). */
  predicate Expired(c: Cookie) {
    c.maxAge.Some? && c.maxAge.value <= 0
  }

  /**
   * The cookies a client holds after receiving the cookies of a response on
   * top of those it held: each received cookie replaces the stored one of the
   * same name, or removes it when it has expired (section 5.3 of RFC 6265).
   */
  function Receive(client: map<string, string>, jar: map<string, Cookie>): (after: map<string, string>)
    ensures forall k :: k in after <==> (k in jar && !Expired(jar[k])) || (k !in jar && k in client)
    ensures forall k | k in after :: after[k] == if k in jar then jar[k].value else client[k]
  {
    map k | k in jar.Keys + client.Keys && ((k in jar && !Expired(jar[k])) || (k !in jar && k in client)) ::
      if k in jar then jar[k].value else client[k]
  }

  /**
   * On a jar that holds neither cookie yet, the helpers write exactly the
   * configured attributes; with nothing configured these are httponly, not
   * secure, SameSite "Lax" and path "/" under the names "access_token" and
   * "refresh_token".
   */
  lemma FreshCookieAttributes(jar: map<string, Cookie>, s: JwtSettings, access: string, refresh: Option<string>)
    requires HelperSettings(s)
    requires AccessName(s) !in jar && RefreshName(s) !in jar && AccessName(s) != RefreshName(s)
    ensures var r := WithJwtCookies(jar, s, access, refresh);
      && r[AccessName(s)] == Cookie(access, None, Some(CookiePath(s)), Secure(s), HttpOnly(s), SameSiteAttr(s))
      && (Truthy(refresh) ==>
            r[RefreshName(s)] == Cookie(refresh.value, None, Some(CookiePath(s)), Secure(s), HttpOnly(s), SameSiteAttr(s)))
      && (!Truthy(refresh) ==> RefreshName(s) !in r)
  {
    var withAccess := PutCookie(jar, s, AccessName(s), access, None);
    assert RefreshName(s) !in withAccess;
  }

  /** With no `SIMPLE_JWT` entry configured the helpers fall back to their defaults. */
  lemma DefaultSettings(jar: map<string, Cookie>, access: string, refresh: string)
    requires "access_token" !in jar && "refresh_token" !in jar && refresh != ""
    ensures var s := JwtSettings(None, None, None, None, None, None, None, None);
      HelperSettings(s) &&
      var r := WithJwtCookies(jar, s, access, Some(refresh));
      && r["access_token"] == Cookie(access, None, Some("/"), false, true, Some("Lax"))
      && r["refresh_token"] == Cookie(refresh, None, Some("/"), false, true, Some("Lax"))
  {
    var s := JwtSettings(None, None, None, None, None, None, None, None);
    assert LowerString("Lax") == "lax";
    FreshCookieAttributes(jar, s, access, Some(refresh));
  }

  /**
   * Clearing after setting leaves both names empty with max-age 0, so a
   * client that receives the response forgets both, while every other
   * cookie is the one the jar held before.
   */
  lemma ClearAfterSet(jar: map<string, Cookie>, s: JwtSettings, access: string, refresh: Option<string>)
    requires HelperSettings(s)
    ensures var r := WithoutJwtCookies(WithJwtCookies(jar, s, access, refresh), s);
      && r.Keys == jar.Keys + {AccessName(s), RefreshName(s)}
      && r[AccessName(s)].value == "" && r[AccessName(s)].maxAge == Some(0)
      && r[RefreshName(s)].value == "" && r[RefreshName(s)].maxAge == Some(0)
      && (forall k | k in jar && k != AccessName(s) && k != RefreshName(s) :: r[k] == jar[k])
      && (forall client :: AccessName(s) !in Receive(client, r) && GetRefreshToken(Receive(client, r), s) == None)
  {
  }

  /**
   * The refresh token the helper stores is the one read back from the
   * client's next request, whatever the client held before, provided the
   * response carried no earlier morsel under either name.
   */
  lemma SetThenGetRefreshToken(client: map<string, string>, jar: map<string, Cookie>, s: JwtSettings,
                                access: string, refresh: string)
    requires HelperSettings(s) && refresh != ""
    requires AccessName(s) !in jar && RefreshName(s) !in jar
    ensures GetRefreshToken(Receive(client, WithJwtCookies(jar, s, access, Some(refresh))), s) == Some(refresh)
  {
    var withAccess := PutCookie(jar, s, AccessName(s), access, None);
    assert withAccess[AccessName(s)].maxAge == None;
  }
}
