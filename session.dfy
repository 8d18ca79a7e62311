/** The session manager of src/app/lib/session.ts: a signed token carrying
    `{ userId, expires }` kept in the `session` cookie, with the four
    operations create, verify, update (refresh) and delete.

    Signing is modelled symbolically: a signed token carries its claims and a
    MAC term `Hmac(key, header, claims)`, so verifying with the same key gives
    the claims back, and a token whose claims or key differ is rejected. The
    clock is the parameter `nowMs` (milliseconds since the epoch). */
module Session {
  import opened Common

  /** Seven days in milliseconds: the validity window (session.ts:35, :60). */
  const WeekMs: nat := 7 * 24 * 60 * 60 * 1000
  const SessionCookie := "session"
  const JwtCookie := "jwt"
  const Hs256 := "HS256"

  /** The signing key is the UTF-8 encoding of SESSION_SECRET, read with no
      presence check; `TextEncoder.encode(undefined)` encodes the empty string. */
  function KeyFromSecret(secret: Option<string>): string {
    secret.GetOr("")
  }

  /** The JWT claims set: the session payload plus the `iat` and `exp`
      claims the signing step adds (session.ts:6-9, 17-18). */
  datatype Claims = Claims(userId: string, expires: int, iat: int, exp: int)

  datatype Header = Header(alg: string)

  /** An HMAC over header and claims, as a term: equal only for equal inputs. */
  datatype Mac = Hmac(key: string, header: Header, claims: Claims)

  /** A cookie value: a compact signed token, or any other text a client sent. */
  datatype Token = Jws(header: Header, claims: Claims, mac: Mac) | Text(raw: string)

  function Sign(key: string, claims: Claims): Token {
    var header := Header(Hs256);
    Jws(header, claims, Hmac(key, header, claims))
  }

  /** jwtVerify restricted to HS256 at instant `nowSec`: the MAC must be the
      one `key` gives over header and claims, and the `exp` claim must lie
      after the current time (section 4.1.4 of RFC 7519). */
  function JwtVerify(key: string, t: Token, nowSec: int): Option<Claims> {
    if t.Jws? && t.header.alg == Hs256 && t.mac == Hmac(key, t.header, t.claims) && nowSec < t.claims.exp
    then Some(t.claims)
    else None
  }

  /** Signing then verifying with the same key gives the claims back while `exp` lies ahead. */
  lemma SignThenVerify(key: string, claims: Claims, nowSec: int)
    ensures JwtVerify(key, Sign(key, claims), nowSec) == if nowSec < claims.exp then Some(claims) else None
  {
  }

  /** A token signed under another key, or whose claims were altered after signing, is rejected. */
  lemma TamperedTokenRejected(key: string, other: string, claims: Claims, forged: Claims, nowSec: int)
    requires other != key || forged != claims
    ensures JwtVerify(other, Jws(Header(Hs256), forged, Sign(key, claims).mac), nowSec) == None
  {
  }

  /** encrypt (session.ts:14-20): `iat` is the signing instant in seconds and
      `exp` is set to the payload's `expires`. */
  function Encrypt(key: string, userId: string, expires: int, nowMs: nat): Token {
    Sign(key, Claims(userId, expires, nowMs / 1000, expires))
  }

  /** decrypt (session.ts:22-32): an absent value defaults to '', which never
      verifies; every verification failure becomes null (None). */
  function Decrypt(key: string, session: Option<Token>, nowMs: nat): Option<Claims> {
    JwtVerify(key, session.GetOr(Text("")), nowMs / 1000)
  }

  datatype CookieOptions = CookieOptions(httpOnly: bool, secure: bool, expiresMs: int, sameSite: string, path: string)
  datatype Cookie = Cookie(value: Token, options: CookieOptions)
  type CookieStore = map<string, Cookie>

  /** `Math.floor((now + 7 days) / 1000)`: the token expiry in seconds. */
  function ExpiresInSeconds(nowMs: nat): nat {
    (nowMs + WeekMs) / 1000
  }

  /** The `session` cookie written by createSession and updateSession. */
  function IssuedCookie(key: string, userId: string, nowMs: nat): (c: Cookie)
    ensures c.options == CookieOptions(true, true, nowMs + WeekMs, "lax", "/")
    ensures c.options.expiresMs / 1000 == ExpiresInSeconds(nowMs)
    ensures Decrypt(key, Some(c.value), nowMs)
            == Some(Claims(userId, ExpiresInSeconds(nowMs), nowMs / 1000, ExpiresInSeconds(nowMs)))
  {
    var expiresAt := nowMs + WeekMs;
    Cookie(Encrypt(key, userId, expiresAt / 1000, nowMs), CookieOptions(true, true, expiresAt, "lax", "/"))
  }

  /** `cookieStore.get('session')?.value` */
  function SessionValue(store: CookieStore): Option<Token> {
    if SessionCookie in store then Some(store[SessionCookie].value) else None
  }

  /** JavaScript truthiness of the cookie value: present and not the empty string. */
  predicate Present(session: Option<Token>) {
    session.Some? && session.value != Text("")
  }

  /** verifySession (session.ts:80-112): no cookie, a failed decode and an
      expired payload all give None; otherwise the decoded payload itself. */
  function VerifySession(store: CookieStore, key: string, nowMs: nat): (r: Option<Claims>)
    ensures SessionCookie !in store ==> r == None
    ensures r.Some? <==> (var p := Decrypt(key, SessionValue(store), nowMs);
                          p.Some? && !(p.value.expires < nowMs / 1000))
    ensures r.Some? ==> r == Decrypt(key, SessionValue(store), nowMs)
  {
    var session := SessionValue(store);
    if !Present(session) then None
    else
      var payload := Decrypt(key, session, nowMs);
      if payload.None? then None
      else if payload.value.expires < nowMs / 1000 then None
      else payload
  }

  /** The store after createSession(userId): the `session` cookie is
      overwritten and nothing else changes; verifying at once yields the user. */
  function Created(store: CookieStore, key: string, userId: string, nowMs: nat): (r: CookieStore)
    ensures r.Keys == store.Keys + {SessionCookie}
    ensures forall n :: n in store && n != SessionCookie ==> r[n] == store[n]
    ensures VerifySession(r, key, nowMs)
            == Some(Claims(userId, ExpiresInSeconds(nowMs), nowMs / 1000, ExpiresInSeconds(nowMs)))
  {
    store[SessionCookie := IssuedCookie(key, userId, nowMs)]
  }

  /** The store after updateSession: unchanged when the cookie does not
      decode; otherwise re-issued for the same user with a fresh window. */
  function Updated(store: CookieStore, key: string, nowMs: nat): (r: CookieStore)
    ensures Decrypt(key, SessionValue(store), nowMs).None? ==> r == store
    ensures Decrypt(key, SessionValue(store), nowMs).Some? ==>
              r.Keys == store.Keys
              && (forall n :: n in store && n != SessionCookie ==> r[n] == store[n])
              && VerifySession(r, key, nowMs)
                 == Some(Claims(Decrypt(key, SessionValue(store), nowMs).value.userId,
                                ExpiresInSeconds(nowMs), nowMs / 1000, ExpiresInSeconds(nowMs)))
  {
    var payload := Decrypt(key, SessionValue(store), nowMs);
    if payload.None? then store
    else store[SessionCookie := IssuedCookie(key, payload.value.userId, nowMs)]
  }

  /** The store after deleteSession: exactly `session` and `jwt` are gone,
      and no later verification finds a session. */
  function Deleted(store: CookieStore): (r: CookieStore)
    ensures r.Keys == store.Keys - {SessionCookie, JwtCookie}
    ensures forall n :: n in r ==> r[n] == store[n]
    ensures forall key, nowMs :: VerifySession(r, key, nowMs) == None
  {
    store - {SessionCookie, JwtCookie}
  }

  /** The cookie store of one request together with the process-wide key. */
  class SessionManager {
    const key: string
    var cookies: CookieStore

    constructor (secret: Option<string>, requestCookies: CookieStore)
      ensures key == KeyFromSecret(secret) && cookies == requestCookies
    {
      key := KeyFromSecret(secret);
      cookies := requestCookies;
    }

    /** createSession (session.ts:34-48) */
    method CreateSession(userId: string, nowMs: nat)
      modifies this
      ensures cookies == Created(old(cookies), key, userId, nowMs)
    {
      var expiresAt := nowMs + WeekMs;
      var expiresInSeconds := expiresAt / 1000;
      var session := Encrypt(key, userId, expiresInSeconds, nowMs);
      cookies := cookies[SessionCookie := Cookie(session, CookieOptions(true, true, expiresAt, "lax", "/"))];
    }

    /** updateSession (session.ts:51-78): `refreshed` stands for the
        returned `{ ok: true }`, its absence for `null`. */
    method UpdateSession(nowMs: nat) returns (refreshed: bool)
      modifies this
      ensures refreshed <==> Decrypt(key, SessionValue(old(cookies)), nowMs).Some?
      ensures cookies == Updated(old(cookies), key, nowMs)
    {
      var session := SessionValue(cookies);
      var payload := Decrypt(key, session, nowMs);
      if !Present(session) || payload.None? {
        return false;
      }
      var expiresAt := nowMs + WeekMs;
      var expiresInSeconds := expiresAt / 1000;
      var newSession := Encrypt(key, payload.value.userId, expiresInSeconds, nowMs);
      cookies := cookies[SessionCookie := Cookie(newSession, CookieOptions(true, true, expiresAt, "lax", "/"))];
      refreshed := true;
    }

    /** deleteSession (session.ts:114-124) */
    method DeleteSession()
      modifies this
      ensures cookies == Deleted(old(cookies))
    {
      cookies := cookies - {SessionCookie};
      cookies := cookies - {JwtCookie};
    }
  }

  /** A session created at `t` is reported by verification at any later
      instant whose second lies before its expiry, and by none after. */
  lemma VerifyAfterCreate(store: CookieStore, key: string, userId: string, t: nat, later: nat)
    requires t <= later
    ensures VerifySession(Created(store, key, userId, t), key, later)
            == if later / 1000 < ExpiresInSeconds(t)
               then Some(Claims(userId, ExpiresInSeconds(t), t / 1000, ExpiresInSeconds(t)))
               else None
  {
  }

  /** Deleting twice is deleting once. */
  lemma DeleteIdempotent(store: CookieStore)
    ensures Deleted(Deleted(store)) == Deleted(store)
  {
  }

  /** Refreshing a session issued at `t0` keeps its user and never moves the
      expiry back; a refresh a full second later moves it strictly forward. */
  lemma RefreshExtends(store: CookieStore, key: string, userId: string, t0: nat, now: nat)
    requires t0 <= now
    requires SessionValue(store) == Some(IssuedCookie(key, userId, t0).value)
    requires Decrypt(key, SessionValue(store), now).Some?
    ensures var after := VerifySession(Updated(store, key, now), key, now);
            && after.Some?
            && after.value.userId == userId
            && after.value.expires >= ExpiresInSeconds(t0)
            && (now >= t0 + 1000 ==> after.value.expires > ExpiresInSeconds(t0))
  {
  }

  /** Every `session` cookie carrying a valid MAC under `key` has `exp`
      equal to `expires`: true of every token encrypt produces. */
  ghost predicate ExpiryClaimsAgree(store: CookieStore, key: string) {
    SessionCookie in store && store[SessionCookie].value.Jws?
    && store[SessionCookie].value.mac == Hmac(key, store[SessionCookie].value.header, store[SessionCookie].value.claims)
    ==> store[SessionCookie].value.claims.exp == store[SessionCookie].value.claims.expires
  }

  /** For such a store the library's `exp` check decides alone: a session
      verifies exactly while `expires` lies strictly after the current second,
      so a payload with `expires` equal to the current second is rejected
      although the comparison at session.ts:101 alone would accept it. */
  lemma ExpiryIsExclusive(store: CookieStore, key: string, nowMs: nat)
    requires ExpiryClaimsAgree(store, key)
    ensures VerifySession(store, key, nowMs).Some? <==>
              && SessionCookie in store
              && store[SessionCookie].value.Jws?
              && store[SessionCookie].value.header.alg == Hs256
              && store[SessionCookie].value.mac
                 == Hmac(key, store[SessionCookie].value.header, store[SessionCookie].value.claims)
              && nowMs / 1000 < store[SessionCookie].value.claims.expires
  {
  }

  /** One step of the session lifecycle, at its own instant. */
  datatype SessionOp = Create(userId: string) | Update | Delete
  datatype Step = Step(op: SessionOp, nowMs: nat)

  function Apply(store: CookieStore, key: string, s: Step): CookieStore {
    match s.op
    case Create(userId) => Created(store, key, userId, s.nowMs)
    case Update => Updated(store, key, s.nowMs)
    case Delete => Deleted(store)
  }

  function Run(store: CookieStore, key: string, steps: seq<Step>): CookieStore
    decreases |steps|
  {
    if steps == [] then store else Run(Apply(store, key, steps[0]), key, steps[1..])
  }

  /** Any sequence of create, update and delete keeps `exp` and `expires` in
      agreement, so ExpiryIsExclusive applies to every store they reach. */
  lemma {:induction false} RunKeepsExpiryClaims(store: CookieStore, key: string, steps: seq<Step>)
    requires ExpiryClaimsAgree(store, key)
    ensures ExpiryClaimsAgree(Run(store, key, steps), key)
    decreases |steps|
  {
    if steps != [] {
      var next := Apply(store, key, steps[0]);
      assert ExpiryClaimsAgree(next, key);
      RunKeepsExpiryClaims(next, key, steps[1..]);
    }
  }

  /** A run that ends with delete leaves no session, whatever came before. */
  lemma {:induction false} RunEndingInDelete(store: CookieStore, key: string, steps: seq<Step>, nowMs: nat)
    requires steps != [] && steps[|steps| - 1].op == Delete
    ensures VerifySession(Run(store, key, steps), key, nowMs) == None
    decreases |steps|
  {
    if |steps| > 1 {
      RunEndingInDelete(Apply(store, key, steps[0]), key, steps[1..], nowMs);
    }
  }
}
