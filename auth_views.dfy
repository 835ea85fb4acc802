/**
 * The auth app's views: account activation from the emailed link, the
 * profile queryset, and the login, refresh and logout endpoints that carry
 * the JWTs in cookies instead of the response body.
 */
module AuthViews {
  import opened Wrappers
  import opened Http
  import opened AuthUtils
  import opened AuthModels

  // ---------------------------------------------------------------------------
  // Activation (`FrontendActivationView.get`, open to everyone)

  /** `reverse("admin:index")` with the admin site mounted at "admin/". */
  const AdminIndex: string := "/admin/"

  /** `redirect(url)`: a 302 with the target in `Location` and an empty body. */
  function Redirect(url: string): (r: Response)
    ensures r.status == 302 && "Location" in r.headers && r.headers["Location"] == url
    ensures r.body == NoBody && r.cookies == map[]
  {
    Response(302, map["Content-Type" := HtmlUtf8, "Location" := url], NoBody, map[])
  }

  /**
   * djoser's `decode_uid` and the token generator are outside the model: the
   * primary key each uid decodes to (a uid that fails to decode is absent),
   * and the (user, token) pairs the generator accepts.
   */
  datatype TokenService = TokenService(uids: map<string, int>, valid: set<(int, string)>)

  /** The user a uid names, if it decodes and the user exists. */
  function ActivationTarget(rows: map<int, User>, tokens: TokenService, uid: string): (pk: Option<int>)
    ensures pk.Some? <==> uid in tokens.uids && tokens.uids[uid] in rows
    ensures pk.Some? ==> pk.value == tokens.uids[uid] && pk.value in rows
  {
    if uid in tokens.uids && tokens.uids[uid] in rows then Some(tokens.uids[uid]) else None
  }

  /**
   * The activation's response and the table afterwards: a bad uid is a bare
   * 400 and changes nothing; otherwise a valid token switches `is_active` on
   * for that user alone, and the answer is the redirect either way.
   */
  function Activation(rows: map<int, User>, tokens: TokenService, uid: string, token: string): (o: (Response, map<int, User>))
    ensures ActivationTarget(rows, tokens, uid).None? ==> o == (Response(400, map[], NoBody, map[]), rows)
    ensures ActivationTarget(rows, tokens, uid).Some? ==>
      var pk := ActivationTarget(rows, tokens, uid).value;
      && o.0 == Redirect(AdminIndex)
      && o.1.Keys == rows.Keys
      && (forall k | k in rows && k != pk :: o.1[k] == rows[k])
      && o.1[pk] == rows[pk].(isActive := rows[pk].isActive || (pk, token) in tokens.valid)
  {
    match ActivationTarget(rows, tokens, uid)
    case None => (Response(400, map[], NoBody, map[]), rows)
    case Some(pk) =>
      var after := if (pk, token) in tokens.valid then rows[pk := rows[pk].(isActive := true)] else rows;
      (Redirect(AdminIndex), after)
  }

  /**
   * Activation only ever switches `is_active` on: no other column of any
   * user changes, no user is deactivated, and an invalid token changes nothing.
   */
  lemma ActivationOnlyActivates(rows: map<int, User>, tokens: TokenService, uid: string, token: string)
    ensures var after := Activation(rows, tokens, uid, token).1;
      && after.Keys == rows.Keys
      && (forall k | k in rows :: after[k] == rows[k].(isActive := after[k].isActive))
      && (forall k | k in rows && rows[k].isActive :: after[k].isActive)
      && (forall pk | pk in rows && (pk, token) !in tokens.valid :: after[pk] == rows[pk])
  {
  }

  /** `FrontendActivationView.get(request, uid, token)`. */
  method ActivationGet(users: UserTable, tokens: TokenService, uid: string, token: string) returns (r: Response)
    requires users.Valid()
    modifies users
    ensures users.Valid()
    ensures (r, users.rows) == Activation(old(users.rows), tokens, uid, token)
    ensures users.nextId == old(users.nextId)
  {
    if !(uid in tokens.uids && tokens.uids[uid] in users.rows) {
      return Response(400, map[], NoBody, map[]);
    }
    var pk := tokens.uids[uid];
    if (pk, token) in tokens.valid {
      users.Activate(pk);
    }
    r := Redirect(AdminIndex);
  }

  // ---------------------------------------------------------------------------
  // Profile (`UserProfileViewSet`, signed-in users only)

  /** `get_queryset`: the users whose id is the requester's, which is the requester alone. */
  function ProfileQueryset(rows: map<int, User>, requesterId: int): (q: map<int, User>)
    ensures q.Keys == if requesterId in rows then {requesterId} else {}
    ensures forall id | id in q :: q[id] == rows[id]
  {
    map id | id in rows && id == requesterId :: rows[id]
  }

  // ---------------------------------------------------------------------------
  // Login, refresh and logout

  /**
   * The views index `SIMPLE_JWT` directly, so these entries must be configured
   * (a missing one is a KeyError), with a SameSite value `set_cookie` accepts.
   */
  predicate ViewSettings(s: JwtSettings) {
    && s.authCookie.Some? && s.authCookieRefresh.Some?
    && s.secure.Some? && s.sameSite.Some?
    && s.accessLifetime.Some? && s.refreshLifetime.Some?
    && ValidSameSite(s.sameSite)
  }

  /** One `set_cookie` call of the views: the lifetime as max-age, httponly always, the default path. */
  function TokenCookie(jar: map<string, Cookie>, s: JwtSettings, key: string, value: string, lifetime: int): (r: map<string, Cookie>)
    requires ViewSettings(s)
    ensures r.Keys == jar.Keys + {key}
    ensures forall k | k in jar && k != key :: r[k] == jar[k]
    ensures r[key].value == value && r[key].maxAge == Some(lifetime) && r[key].path == Some("/") && r[key].httpOnly
  {
    SetCookie(jar, key, value, Some(lifetime), Some("/"), s.secure.value, true, s.sameSite)
  }

  /** The cookies a 200 login adds: the access cookie, then the refresh cookie, each with its own lifetime. */
  function LoginCookies(jar: map<string, Cookie>, s: JwtSettings, access: string, refresh: string): (r: map<string, Cookie>)
    requires ViewSettings(s)
    ensures r.Keys == jar.Keys + {AccessName(s), RefreshName(s)}
    ensures forall k | k in jar && k != AccessName(s) && k != RefreshName(s) :: r[k] == jar[k]
    ensures r[RefreshName(s)].value == refresh && r[RefreshName(s)].maxAge == s.refreshLifetime
    ensures AccessName(s) != RefreshName(s) ==>
      r[AccessName(s)].value == access && r[AccessName(s)].maxAge == s.accessLifetime
    ensures r[AccessName(s)].httpOnly && r[RefreshName(s)].httpOnly
  {
    var withAccess := TokenCookie(jar, s, AccessName(s), access, s.accessLifetime.value);
    TokenCookie(withAccess, s, RefreshName(s), refresh, s.refreshLifetime.value)
  }

  /** A string entry of a JSON object body, as `response.data[key]` reads it. */
  function StrField(body: Body, key: string): (v: Option<string>)
    ensures v.Some? ==> body.JsonBody? && body.json.JObject? && key in body.json.fields
    ensures v.Some? ==> body.json.fields[key] == JStr(v.value)
  {
    if body.JsonBody? && body.json.JObject? && key in body.json.fields && body.json.fields[key].JStr?
    then Some(body.json.fields[key].s)
    else None
  }

  function DetailJson(message: string): Json {
    JObject(map["detail" := JStr(message)])
  }

  const CookiesSet: string := "Cookies set"
  const AccessRefreshed: string := "Access cookie refreshed"

  /**
   * `CookieTokenObtainPairView.post`, given the response simplejwt's view
   * produced (on 200 its data holds both tokens): on 200 the tokens move into
   * cookies and the body becomes a bare confirmation; any other response is
   * returned untouched.
   */
  method LoginPost(response: HttpResponse, s: JwtSettings)
    requires ViewSettings(s)
    requires response.status == 200 ==>
      StrField(response.body, "access").Some? && StrField(response.body, "refresh").Some?
    modifies response
    ensures old(response.status) != 200 ==> response.Snapshot() == old(response.Snapshot())
    ensures old(response.status) == 200 ==> response.Snapshot() == old(response.Snapshot()).(
      body := JsonBody(DetailJson(CookiesSet)),
      cookies := LoginCookies(old(response.cookies), s,
                              StrField(old(response.body), "access").value,
                              StrField(old(response.body), "refresh").value))
  {
    if response.status == 200 {
      var access := StrField(response.body, "access").value;
      var refresh := StrField(response.body, "refresh").value;
      response.SetCookieOn(AccessName(s), access, Some(s.accessLifetime.value), Some("/"), s.secure.value, true, s.sameSite);
      response.SetCookieOn(RefreshName(s), refresh, Some(s.refreshLifetime.value), Some("/"), s.secure.value, true, s.sameSite);
      response.SetData(DetailJson(CookiesSet));
    }
  }

  /**
   * simplejwt's refresh view is outside the model: the refresh tokens it
   * accepts, each with the access token it issues, and the non-200 response
   * it gives for any other value (absent, blank, invalid or expired).
   */
  datatype RefreshService = RefreshService(issued: map<string, string>, rejected: Response)

  /** The request as the refresh view sees it: its parsed data, which the view writes into, and its cookies. */
  class Request {
    var data: map<string, Json>
    var cookies: map<string, string>

    constructor (data: map<string, Json>, cookies: map<string, string>)
      ensures this.data == data && this.cookies == cookies
    {
      this.data := data;
      this.cookies := cookies;
    }
  }

  /** `None` becomes JSON null. */
  function TokenJson(token: Option<string>): (j: Json)
    ensures token.None? <==> j == JNull
    ensures token.Some? ==> j == JStr(token.value)
  {
    if token.Some? then JStr(token.value) else JNull
  }

  /**
   * The refresh view's answer for the refresh cookie the request carries:
   * an accepted token sets the access cookie alone and confirms; anything
   * else is simplejwt's rejection, untouched.
   */
  function RefreshResponse(refresh: Option<string>, s: JwtSettings, service: RefreshService): (r: Response)
    requires ViewSettings(s)
    ensures refresh.Some? && refresh.value in service.issued ==>
      && r.status == 200 && r.body == JsonBody(DetailJson(AccessRefreshed))
      && r.cookies.Keys == {AccessName(s)}
      && r.cookies[AccessName(s)].value == service.issued[refresh.value]
      && r.cookies[AccessName(s)].maxAge == s.accessLifetime
    ensures !(refresh.Some? && refresh.value in service.issued) ==> r == service.rejected
  {
    if refresh.Some? && refresh.value in service.issued then
      Response(200, map[], JsonBody(DetailJson(AccessRefreshed)),
               TokenCookie(map[], s, AccessName(s), service.issued[refresh.value], s.accessLifetime.value))
    else service.rejected
  }

  /**
   * `CookieTokenRefreshView.post`: the refresh cookie (or null) is written into
   * the request data as "refresh" before simplejwt sees it; on 200 only the
   * access cookie is set.
   */
  method RefreshPost(request: Request, s: JwtSettings, service: RefreshService) returns (r: Response)
    requires ViewSettings(s)
    requires service.rejected.status != 200
    modifies request
    ensures request.data == old(request.data)["refresh" := TokenJson(GetRefreshToken(old(request.cookies), s))]
    ensures request.cookies == old(request.cookies)
    ensures r == RefreshResponse(GetRefreshToken(request.cookies, s), s, service)
  {
    var refresh := GetRefreshToken(request.cookies, s);
    request.data := request.data["refresh" := TokenJson(refresh)];
    var inner: Response;
    if refresh.Some? && refresh.value in service.issued {
      inner := Response(200, map[], JsonBody(JObject(map["access" := JStr(service.issued[refresh.value])])), map[]);
    } else {
      inner := service.rejected;
    }
    var response := new HttpResponse.FromValue(inner);
    if response.status == 200 {
      var access := StrField(response.body, "access").value;
      response.SetCookieOn(AccessName(s), access, Some(s.accessLifetime.value), Some("/"), s.secure.value, true, s.sameSite);
      response.SetData(DetailJson(AccessRefreshed));
    }
    r := response.Snapshot();
  }

  /** The cookies of the logout response: both names deleted. */
  function LogoutCookies(s: JwtSettings): (jar: map<string, Cookie>)
    ensures jar.Keys == {AccessName(s), RefreshName(s)}
    ensures forall k | k in jar :: jar[k].value == "" && jar[k].maxAge == Some(0) && jar[k].path == Some("/")
  {
    DeleteCookie(DeleteCookie(map[], AccessName(s)), RefreshName(s))
  }

  /** `LogoutView.post`: always 204 with no body, deleting both configured cookies. */
  method LogoutPost(s: JwtSettings) returns (r: Response)
    requires s.authCookie.Some? && s.authCookieRefresh.Some?
    ensures r == Response(204, map[], NoBody, LogoutCookies(s))
  {
    var response := new HttpResponse.FromValue(Response(204, map[], NoBody, map[]));
    response.DeleteCookieOn(s.authCookie.value);
    response.DeleteCookieOn(s.authCookieRefresh.value);
    r := response.Snapshot();
  }

  /**
   * A client that stores a successful login's cookies sends the refresh token
   * back, so the refresh view reads the token the login issued, as long as
   * the refresh lifetime is positive.
   */
  lemma LoginThenRefreshReadsToken(client: map<string, string>, jar: map<string, Cookie>, s: JwtSettings,
                                   access: string, refresh: string)
    requires ViewSettings(s) && s.refreshLifetime.value > 0
    ensures GetRefreshToken(Receive(client, LoginCookies(jar, s, access, refresh)), s) == Some(refresh)
  {
  }

  /** After the logout response a client holds neither token, whatever it held before. */
  lemma LogoutForgetsTokens(client: map<string, string>, s: JwtSettings)
    ensures AccessName(s) !in Receive(client, LogoutCookies(s))
    ensures GetRefreshToken(Receive(client, LogoutCookies(s)), s) == None
    ensures forall k | k in client && k != AccessName(s) && k != RefreshName(s) ::
      k in Receive(client, LogoutCookies(s)) && Receive(client, LogoutCookies(s))[k] == client[k]
  {
  }
}
