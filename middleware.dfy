/**
 * The request middleware of the storefront (middleware.ts): assets and the
 * API pass through, locale-prefixed paths continue (the admin area behind
 * HTTP Basic authentication), and every other path is redirected under the
 * visitor's locale. Base64 decoding is a parameter (`None` when it throws).
 */
module Middleware {
  import opened Wrappers
  import opened Text

  const Locales: seq<string> := ["ru", "kk"]
  const DefaultLocale: string := "ru"

  datatype Request = Request(pathname: string, localeCookie: Option<string>, authorization: Option<string>)

  /** `process.env.ADMIN_USER` and `process.env.ADMIN_PASS`. */
  datatype Env = Env(adminUser: Option<string>, adminPass: Option<string>)

  /** Returning nothing, `NextResponse.next()`, the 401 response, or a redirect to a path. */
  datatype Response = PassThrough | Next | Unauthorized | Redirect(to: string)

  /** `getLocale`: the `NEXT_LOCALE` cookie when it names a supported locale, else `ru`. */
  function GetLocale(cookie: Option<string>): (r: string)
    ensures r in Locales
    ensures (cookie.Some? && cookie.value in Locales) <==> cookie == Some(r)
    ensures r != DefaultLocale ==> cookie == Some(r)
  {
    match cookie
    case Some(c) => if c != [] && c in Locales then c else DefaultLocale
    case None => DefaultLocale
  }

  /** `pathname.split('/')[k]`, `None` for `undefined`. */
  function PathPiece(pathname: string, k: nat): Option<string> {
    var pieces := Split(pathname, '/');
    if k < |pieces| then Some(pieces[k]) else None
  }

  predicate Skipped(pathname: string) {
    StartsWith(pathname, "/api") || StartsWith(pathname, "/_next") || '.' in pathname
  }

  predicate HasLocalePrefix(pathname: string) {
    PathPiece(pathname, 1).Some? && PathPiece(pathname, 1).value in Locales
  }

  predicate IsAdminPath(pathname: string) {
    PathPiece(pathname, 2).GetOr("") == "admin"
  }

  /**
   * The credential test as written: `const [u, p] = decoded.split(':')`
   * takes the text before the first colon and the text between the first
   * and second colons.
   */
  predicate CredentialsMatchAsWritten(decoded: string, user: string, pass: string) {
    var pieces := Split(decoded, ':');
    pieces[0] == user && |pieces| >= 2 && pieces[1] == pass
  }

  /** The credential test of section 2 of RFC 7617: the user-id ends at the FIRST colon, the rest is the password. */
  predicate CredentialsMatch(decoded: string, user: string, pass: string) {
    ':' in decoded
    && var i := IndexOf(decoded, ':');
    decoded[..i] == user && decoded[i + 1..] == pass
  }

  /** The admin area's guard: both variables set, a `Basic ` header, and decodable matching credentials. */
  predicate AdminAuthorized(req: Request, env: Env, decode: string -> Option<string>) {
    var user := env.adminUser.GetOr("");
    var pass := env.adminPass.GetOr("");
    var auth := req.authorization.GetOr("");
    user != [] && pass != [] && StartsWith(auth, "Basic ")
    && decode(auth[6..]).Some? && CredentialsMatch(decode(auth[6..]).value, user, pass)
  }

  /** `middleware(request)`. */
  function Decide(req: Request, env: Env, decode: string -> Option<string>): Response {
    var p := req.pathname;
    if Skipped(p) then PassThrough
    else if HasLocalePrefix(p) then
      if IsAdminPath(p) && !AdminAuthorized(req, env, decode) then Unauthorized else Next
    else Redirect("/" + GetLocale(req.localeCookie) + p)
  }

  // ---------------------------------------------------------------------
  // Properties
  // ---------------------------------------------------------------------

  /** Exactly the API, the framework's assets and paths with a dot pass through untouched. */
  lemma PassThroughIff(req: Request, env: Env, decode: string -> Option<string>)
    ensures Decide(req, env, decode) == PassThrough <==> Skipped(req.pathname)
  {
  }

  /** Any other path without a locale prefix is redirected to itself under the visitor's locale. */
  lemma RedirectIff(req: Request, env: Env, decode: string -> Option<string>)
    ensures Decide(req, env, decode).Redirect? <==> !Skipped(req.pathname) && !HasLocalePrefix(req.pathname)
    ensures Decide(req, env, decode).Redirect? ==>
      Decide(req, env, decode).to == "/" + GetLocale(req.localeCookie) + req.pathname
  {
  }

  /** `/{lng}/admin…` gets a 401 unless every condition of the guard holds; other locale paths continue. */
  lemma AdminIff(req: Request, env: Env, decode: string -> Option<string>)
    requires !Skipped(req.pathname) && HasLocalePrefix(req.pathname)
    ensures Decide(req, env, decode) == Unauthorized <==> IsAdminPath(req.pathname) && !AdminAuthorized(req, env, decode)
    ensures Decide(req, env, decode) == Next <==> !IsAdminPath(req.pathname) || AdminAuthorized(req, env, decode)
  {
  }

  /** Without both admin variables the admin area is closed to every request. */
  lemma AdminClosedWithoutEnv(req: Request, env: Env, decode: string -> Option<string>)
    requires env.adminUser.GetOr("") == [] || env.adminPass.GetOr("") == []
    requires !Skipped(req.pathname) && HasLocalePrefix(req.pathname) && IsAdminPath(req.pathname)
    ensures Decide(req, env, decode) == Unauthorized
  {
  }

  /** A redirect target carries a locale prefix, so following the redirect is never redirected again. */
  lemma RedirectIsFinal(req: Request, env: Env, decode: string -> Option<string>)
    requires req.pathname == [] || req.pathname[0] == '/'
    requires Decide(req, env, decode).Redirect?
    ensures !Decide(req.(pathname := Decide(req, env, decode).to), env, decode).Redirect?
  {
    LocalePrefixed(GetLocale(req.localeCookie), req.pathname);
  }

  /** `/<locale><path>` has the locale as its first segment. */
  lemma LocalePrefixed(loc: string, p: string)
    requires loc in Locales && (p == [] || p[0] == '/')
    ensures HasLocalePrefix("/" + loc + p)
  {
    var t := "/" + loc + p;
    assert '/' !in loc;
    assert t == [] + ['/'] + (loc + p);
    SplitAfterPiece([], '/', loc + p);
    if p == [] {
      assert loc + p == loc;
    } else {
      assert loc + p == loc + ['/'] + p[1..];
      SplitAfterPiece(loc, '/', p[1..]);
    }
    assert PathPiece(t, 1) == Some(loc);
  }

  /** The corrected test accepts exactly `user:pass`, for any user-id without a colon. */
  lemma CredentialsMatchIff(decoded: string, user: string, pass: string)
    requires ':' !in user
    ensures CredentialsMatch(decoded, user, pass) <==> decoded == user + ":" + pass
  {
    if decoded == user + ":" + pass {
      IndexOfAfterPiece(user, ':', pass);
      assert decoded == user + [':'] + pass;
    }
    if CredentialsMatch(decoded, user, pass) {
      var i := IndexOf(decoded, ':');
      assert decoded == decoded[..i] + [':'] + decoded[i + 1..];
    }
  }

  /** The two credential tests agree on every header whose decoded text has at most one colon. */
  lemma CredentialsAgree(decoded: string, user: string, pass: string)
    requires forall i, j :: 0 <= i < j < |decoded| && decoded[i] == ':' ==> decoded[j] != ':'
    ensures CredentialsMatchAsWritten(decoded, user, pass) <==> CredentialsMatch(decoded, user, pass)
  {
    if ':' in decoded {
      var i := IndexOf(decoded, ':');
      var rest := decoded[i + 1..];
      assert ':' !in rest by {
        forall k | 0 <= k < |rest| ensures rest[k] != ':' {
          assert rest[k] == decoded[i + 1 + k];
        }
      }
      assert Split(decoded, ':') == [decoded[..i], rest];
    }
  }

  /** As written, a password containing a colon can never be entered. */
  lemma AsWrittenRejectsColonPassword(decoded: string, user: string, pass: string)
    requires ':' in pass
    ensures !CredentialsMatchAsWritten(decoded, user, pass)
  {
  }

  /**
   * As written, a password `a:b` is refused although the header carries
   * exactly `user:a:b` (for instance `admin:a:b`), which the corrected test accepts.
   */
  lemma AsWrittenRefusesColon(user: string, a: string, b: string)
    requires ':' !in user
    ensures !CredentialsMatchAsWritten(user + ":" + (a + ":" + b), user, a + ":" + b)
    ensures CredentialsMatch(user + ":" + (a + ":" + b), user, a + ":" + b)
  {
    var pass := a + ":" + b;
    assert pass[|a|] == ':';
    AsWrittenRejectsColonPassword(user + ":" + pass, user, pass);
    CredentialsMatchIff(user + ":" + pass, user, pass);
  }

  /** As written, a trailing `:junk` after the password is ignored, so `admin:a:junk` opens the area for password `a`. */
  lemma AsWrittenAcceptsSuffix(user: string, pass: string, junk: string)
    requires ':' !in user && ':' !in pass
    ensures CredentialsMatchAsWritten(user + ":" + pass + ":" + junk, user, pass)
    ensures !CredentialsMatch(user + ":" + pass + ":" + junk, user, pass)
  {
    var d := user + ":" + pass + ":" + junk;
    assert d == user + [':'] + (pass + [':'] + junk);
    SplitAfterPiece(user, ':', pass + [':'] + junk);
    SplitAfterPiece(pass, ':', junk);
    CredentialsMatchIff(d, user, pass);
    assert |d| > |user + ":" + pass|;
  }
}
