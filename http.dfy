/**
 * HTTP responses as the views build them: a status, headers, a body and the
 * cookies a response sets, plus Django's `set_cookie`/`delete_cookie` rules.
 */
module Http {
  import opened Wrappers
  import opened Text

  /** The HLS playlist media type (section 4 of RFC 8216). */
  const MpegUrl: string := "application/vnd.apple.mpegurl"
  /** The MPEG-2 transport stream media type of HLS segments (section 3.2 of RFC 8216). */
  const Mp2t: string := "video/MP2T"
  /** Django's default content type for an `HttpResponse`. */
  const HtmlUtf8: string := "text/html; charset=utf-8"

  /** JSON values as the REST framework renders them; `JTime` is a datetime field (formatting not modelled). */
  datatype Json =
    | JNull
    | JBool(b: bool)
    | JInt(i: int)
    | JStr(s: string)
    | JTime(t: int)
    | JList(items: seq<Json>)
    | JObject(fields: map<string, Json>)

  datatype Body =
    | NoBody
    | Text(text: string)
    | FileBody(path: string)        // the bytes of the file at `path`, streamed or read whole
    | JsonBody(json: Json)

  /** One cookie as a `Morsel` holds it (section 4.1 of RFC 6265); `expires` is not modelled. */
  datatype Cookie = Cookie(
    value: string,
    maxAge: Option<int>,
    path: Option<string>,
    secure: bool,
    httpOnly: bool,
    sameSite: Option<string>)

  const FreshMorsel: Cookie := Cookie("", None, None, false, false, None)

  datatype Response = Response(
    status: int,
    headers: map<string, string>,
    body: Body,
    cookies: map<string, Cookie>)

  /** The user a request is made as, once the view's authenticators have run. */
  datatype Requester = Anonymous | Member(userId: int, isStaff: bool)

  /** The REST framework's refusal of an anonymous request. */
  const NoCredentials: string := "Authentication credentials were not provided."
  /** The REST framework's refusal of an authenticated user a permission class rejects. */
  const NoPermission: string := "You do not have permission to perform this action."

  function Detail(status: int, message: string): (r: Response)
    ensures r.status == status && r.cookies == map[]
  {
    Response(status, map[], JsonBody(JObject(map["detail" := JStr(message)])), map[])
  }

  // ---------------------------------------------------------------------------
  // `FileResponse`'s Content-Disposition

  predicate IsAscii(s: string) {
    forall i | 0 <= i < |s| :: s[i] as int < 0x80
  }

  /** A quoted-string body: backslashes and double quotes escaped with a backslash. */
  function Escaped(s: string): (r: string)
    ensures |r| >= |s|
    ensures (forall i | 0 <= i < |s| :: s[i] != '\\' && s[i] != '"') ==> r == s
  {
    if s == [] then []
    else (if s[0] == '\\' || s[0] == '"' then ['\\', s[0]] else [s[0]]) + Escaped(s[1..])
  }

  /** The UTF-8 encoding of one character. */
  function Utf8(c: char): (bytes: seq<nat>)
    ensures 1 <= |bytes| <= 4
    ensures forall i | 0 <= i < |bytes| :: bytes[i] < 256
    ensures c as int < 0x80 <==> bytes == [c as int]
  {
    var n := c as int;
    if n < 0x80 then [n]
    else if n < 0x800 then [0xC0 + n / 0x40, 0x80 + n % 0x40]
    else if n < 0x1_0000 then [0xE0 + n / 0x1000, 0x80 + (n / 0x40) % 0x40, 0x80 + n % 0x40]
    else [0xF0 + n / 0x4_0000, 0x80 + (n / 0x1000) % 0x40, 0x80 + (n / 0x40) % 0x40, 0x80 + n % 0x40]
  }

  predicate IsUpperHex(c: char) {
    '0' <= c <= '9' || 'A' <= c <= 'F'
  }

  function HexDigit(d: nat): (c: char)
    requires d < 16
    ensures IsUpperHex(c)
  {
    if d < 10 then ('0' as int + d) as char else ('A' as int + d - 10) as char
  }

  /** The characters `urllib.parse.quote(s, safe)` leaves alone: ASCII letters, digits, `_.-~` and the `safe` ones. */
  predicate Unreserved(c: char, safe: string) {
    'A' <= c <= 'Z' || 'a' <= c <= 'z' || '0' <= c <= '9' || c in "_.-~" || c in safe
  }

  /** Each byte as `%` and two upper-case hexadecimal digits. */
  function PercentBytes(bytes: seq<nat>): (r: string)
    requires forall i | 0 <= i < |bytes| :: bytes[i] < 256
    ensures |r| == 3 * |bytes|
    ensures forall i | 0 <= i < |r| :: r[i] == '%' || IsUpperHex(r[i])
  {
    if bytes == [] then []
    else
      var rest := PercentBytes(bytes[1..]);
      var r := ['%', HexDigit(bytes[0] / 16), HexDigit(bytes[0] % 16)] + rest;
      assert forall i | 3 <= i < |r| :: r[i] == rest[i - 3];
      r
  }

  /** `urllib.parse.quote(s, safe)`: every other character as the percent-encoded bytes of its UTF-8 form. */
  function QuoteWith(s: string, safe: string): (r: string)
    ensures (forall i | 0 <= i < |s| :: Unreserved(s[i], safe)) ==> r == s
    ensures |s| <= |r|
  {
    if s == [] then []
    else (if Unreserved(s[0], safe) then [s[0]] else PercentBytes(Utf8(s[0]))) + QuoteWith(s[1..], safe)
  }

  /** A quoted string holds only characters left alone, `%` and upper-case hexadecimal digits. */
  lemma {:induction false} QuotedIsSafe(s: string, safe: string)
    ensures forall i | 0 <= i < |QuoteWith(s, safe)| ::
      Unreserved(QuoteWith(s, safe)[i], safe) || QuoteWith(s, safe)[i] == '%' || IsUpperHex(QuoteWith(s, safe)[i])
  {
    if s != [] {
      QuotedIsSafe(s[1..], safe);
      var head := if Unreserved(s[0], safe) then [s[0]] else PercentBytes(Utf8(s[0]));
      var rest := QuoteWith(s[1..], safe);
      assert QuoteWith(s, safe) == head + rest;
      assert forall i | |head| <= i < |head + rest| :: (head + rest)[i] == rest[i - |head|];
    }
  }

  /** `urllib.parse.quote(s)` with its default safe `/`. */
  function Quote(s: string): (r: string)
    ensures (forall i | 0 <= i < |s| :: Unreserved(s[i], "/")) ==> r == s
  {
    QuoteWith(s, "/")
  }

  /**
   * The Content-Disposition `FileResponse` sets for a file it serves under the
   * base name `filename` (as Django 4.2 and later write it): inline, with the
   * name as a quoted string when it is ASCII, else percent-encoded UTF-8
   * (section 4.3 of RFC 6266).
   */
  function InlineDisposition(filename: string): string {
    if IsAscii(filename) then QuotedDisposition(filename) else EncodedDisposition(filename)
  }

  function QuotedDisposition(filename: string): string {
    "inline; filename=\"" + Escaped(filename) + "\""
  }

  function EncodedDisposition(filename: string): string {
    "inline; filename*=utf-8''" + Quote(filename)
  }

  /** An ASCII name without backslashes or double quotes appears in the disposition as it is. */
  lemma PlainDisposition(filename: string)
    requires IsAscii(filename)
    requires forall i | 0 <= i < |filename| :: filename[i] != '\\' && filename[i] != '"'
    ensures InlineDisposition(filename) == "inline; filename=\"" + filename + "\""
  {
  }

  /** Django accepts only these SameSite values (compared case-insensitively). */
  predicate ValidSameSite(s: Option<string>) {
    s.None? || s.value == "" || LowerString(s.value) in {"lax", "none", "strict"}
  }

  /**
   * `response.set_cookie(...)`: the cookie jar reuses the morsel already stored
   * under `key`, so an attribute that is not passed keeps its earlier value
   * (`secure` and `httponly` are only ever switched on).
   */
  function SetCookie(
    jar: map<string, Cookie>, key: string, value: string, maxAge: Option<int>, path: Option<string>,
    secure: bool, httpOnly: bool, sameSite: Option<string>): (r: map<string, Cookie>)
    requires ValidSameSite(sameSite)
    ensures r.Keys == jar.Keys + {key}
    ensures forall k | k in jar && k != key :: r[k] == jar[k]
    ensures r[key].value == value
    ensures maxAge.Some? ==> r[key].maxAge == maxAge
    ensures path.Some? ==> r[key].path == path
    ensures httpOnly ==> r[key].httpOnly
    ensures secure ==> r[key].secure
    ensures key !in jar ==> r[key] == Cookie(value, maxAge, path, secure, httpOnly,
                                              if sameSite == Some("") then None else sameSite)
  {
    var was := if key in jar then jar[key] else FreshMorsel;
    jar[key := Cookie(
      value,
      if maxAge.Some? then maxAge else was.maxAge,
      if path.Some? then path else was.path,
      was.secure || secure,
      was.httpOnly || httpOnly,
      if sameSite.Some? && sameSite.value != "" then sameSite else was.sameSite)]
  }

  /**
   * `response.delete_cookie(key)`: an empty value that expires at once, path "/",
   * secure only for the `__Secure-`/`__Host-` name prefixes.
   */
  function DeleteCookie(jar: map<string, Cookie>, key: string): (r: map<string, Cookie>)
    ensures r.Keys == jar.Keys + {key}
    ensures forall k | k in jar && k != key :: r[k] == jar[k]
    ensures r[key].value == "" && r[key].maxAge == Some(0) && r[key].path == Some("/")
  {
    SetCookie(jar, key, "", Some(0), Some("/"),
              StartsWith(key, "__Secure-") || StartsWith(key, "__Host-"), false, None)
  }

  /** A response object that a view builds and then changes in place. */
  class HttpResponse {
    var status: int
    var headers: map<string, string>
    var body: Body
    var cookies: map<string, Cookie>

    /** `HttpResponse(content, content_type=..., status=...)`. */
    constructor (body: Body, contentType: string, status: int)
      ensures this.status == status && this.body == body
      ensures headers == map["Content-Type" := contentType] && cookies == map[]
    {
      this.status := status;
      this.body := body;
      this.headers := map["Content-Type" := contentType];
      this.cookies := map[];
    }

    /** A response object holding the given response value. */
    constructor FromValue(r: Response)
      ensures Snapshot() == r
    {
      status := r.status;
      body := r.body;
      headers := r.headers;
      cookies := r.cookies;
    }

    function Snapshot(): Response
      reads this
    {
      Response(status, headers, body, cookies)
    }

    /** `response[name] = value`. */
    method SetHeader(name: string, value: string)
      modifies this
      ensures Snapshot() == old(Snapshot()).(headers := old(headers)[name := value])
    {
      headers := headers[name := value];
    }

    method SetData(json: Json)
      modifies this
      ensures Snapshot() == old(Snapshot()).(body := JsonBody(json))
    {
      body := JsonBody(json);
    }

    method SetCookieOn(key: string, value: string, maxAge: Option<int>, path: Option<string>,
                       secure: bool, httpOnly: bool, sameSite: Option<string>)
      requires ValidSameSite(sameSite)
      modifies this
      ensures Snapshot() == old(Snapshot()).(
        cookies := SetCookie(old(cookies), key, value, maxAge, path, secure, httpOnly, sameSite))
    {
      cookies := SetCookie(cookies, key, value, maxAge, path, secure, httpOnly, sameSite);
    }

    method DeleteCookieOn(key: string)
      modifies this
      ensures Snapshot() == old(Snapshot()).(cookies := DeleteCookie(old(cookies), key))
    {
      cookies := DeleteCookie(cookies, key);
    }
  }
}
