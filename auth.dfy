/** The token store of `useAuth`: one cookie jar shared by the whole page, and per
    `useAuth()` call a Session holding its own mirror refs of the two token cookies. */
module Auth {

  /** A JavaScript value held by a token ref: `null` after `clearTokens`, `undefined` for
      a cookie that is not there, or a string. */
  datatype Ref = Null | Undefined | Str(s: string)

  /** JavaScript truthiness of a ref: a non-empty string. */
  predicate Truthy(v: Ref)
  {
    v.Str? && v.s != ""
  }

  /** The text a ref becomes inside a template literal or a cookie value. */
  function Text(v: Ref): string
  {
    match v
    case Null => "null"
    case Undefined => "undefined"
    case Str(s) => s
  }

  datatype SameSite = Strict | Lax | NoRestriction

  datatype CookieOptions = CookieOptions(path: string, secure: bool, sameSite: SameSite, maxAge: nat)

  datatype Cookie = Cookie(value: string, options: CookieOptions)

  /** The cookies of the page, by name. */
  type Jar = map<string, Cookie>

  const AccessTokenKey: string := "accessToken"
  const RefreshTokenKey: string := "refreshToken"

  /** One hour. */
  const AccessTokenMaxAge: nat := 60 * 60
  /** One week. */
  const RefreshTokenMaxAge: nat := 60 * 60 * 24 * 7

  const AccessCookieOptions: CookieOptions := CookieOptions("/", true, Strict, AccessTokenMaxAge)
  const RefreshCookieOptions: CookieOptions := CookieOptions("/", true, Strict, RefreshTokenMaxAge)

  /** `cookies.get(key)`. */
  function Read(jar: Jar, key: string): (v: Ref)
    ensures v == Undefined <==> key !in jar
    ensures key in jar ==> v == Str(jar[key].value)
  {
    if key in jar then Str(jar[key].value) else Undefined
  }

  /** The two `cookies.set` calls of `setTokens`. */
  function StoreTokens(jar: Jar, access: Ref, refresh: Ref): (j: Jar)
    ensures j.Keys == jar.Keys + {AccessTokenKey, RefreshTokenKey}
    ensures forall k :: k in jar && k != AccessTokenKey && k != RefreshTokenKey ==> j[k] == jar[k]
  {
    jar[AccessTokenKey := Cookie(Text(access), AccessCookieOptions)]
       [RefreshTokenKey := Cookie(Text(refresh), RefreshCookieOptions)]
  }

  /** The two `cookies.remove` calls of `clearTokens`. */
  function RemoveTokens(jar: Jar): (j: Jar)
    ensures AccessTokenKey !in j && RefreshTokenKey !in j
    ensures forall k :: k in jar && k != AccessTokenKey && k != RefreshTokenKey ==> k in j && j[k] == jar[k]
    ensures j.Keys <= jar.Keys
  {
    jar - {AccessTokenKey, RefreshTokenKey}
  }

  /** After storing, each token cookie reads back the stored value with its own
      lifetime, both restricted to path `/`, secure and same-site strict; other
      cookies are untouched. */
  lemma StoreThenRead(jar: Jar, access: Ref, refresh: Ref)
    ensures var j := StoreTokens(jar, access, refresh);
      && Read(j, AccessTokenKey) == Str(Text(access))
      && Read(j, RefreshTokenKey) == Str(Text(refresh))
      && j[AccessTokenKey].options == CookieOptions("/", true, Strict, 3600)
      && j[RefreshTokenKey].options == CookieOptions("/", true, Strict, 604800)
      && forall k :: k != AccessTokenKey && k != RefreshTokenKey ==> Read(j, k) == Read(jar, k)
  {
  }

  /** A later store wins over an earlier one. */
  lemma StoreOverwrites(jar: Jar, a1: Ref, r1: Ref, a2: Ref, r2: Ref)
    ensures StoreTokens(StoreTokens(jar, a1, r1), a2, r2) == StoreTokens(jar, a2, r2)
  {
  }

  /** Removing is idempotent, and it undoes any store. */
  lemma RemoveIdempotent(jar: Jar, access: Ref, refresh: Ref)
    ensures RemoveTokens(RemoveTokens(jar)) == RemoveTokens(jar)
    ensures RemoveTokens(StoreTokens(jar, access, refresh)) == RemoveTokens(jar)
    ensures Read(RemoveTokens(jar), AccessTokenKey) == Undefined
    ensures Read(RemoveTokens(jar), RefreshTokenKey) == Undefined
  {
  }

  /** The page's cookie store (`useCookies`), shared by every Session. */
  class CookieJar {
    var entries: Jar

    constructor (initial: Jar)
      ensures entries == initial
    {
      entries := initial;
    }

    function Get(key: string): Ref
      reads this
    {
      Read(entries, key)
    }

    method Set(key: string, value: Ref, options: CookieOptions)
      modifies this
      ensures entries == old(entries)[key := Cookie(Text(value), options)]
    {
      entries := entries[key := Cookie(Text(value), options)];
    }

    method Remove(key: string)
      modifies this
      ensures entries == old(entries) - {key}
    {
      entries := entries - {key};
    }
  }

  /** One `useAuth()` instance: its own `accessToken`/`refreshToken` refs over the
      shared jar. */
  class Session {
    const jar: CookieJar
    var accessToken: Ref
    var refreshToken: Ref

    /** `ref(cookies.get(...))`: a new instance starts in sync with the cookies. */
    constructor (jar: CookieJar)
      ensures this.jar == jar
      ensures accessToken == jar.Get(AccessTokenKey) && refreshToken == jar.Get(RefreshTokenKey)
      ensures InSync()
    {
      this.jar := jar;
      accessToken := jar.Get(AccessTokenKey);
      refreshToken := jar.Get(RefreshTokenKey);
    }

    /** The refs hold what the cookies hold. */
    predicate InSync()
      reads this, jar
    {
      accessToken == jar.Get(AccessTokenKey) && refreshToken == jar.Get(RefreshTokenKey)
    }

    method SetTokens(access: Ref, refresh: Ref)
      modifies this`accessToken, this`refreshToken, jar
      ensures jar.entries == StoreTokens(old(jar.entries), access, refresh)
      ensures accessToken == access && refreshToken == refresh
    {
      jar.Set(AccessTokenKey, access, AccessCookieOptions);
      jar.Set(RefreshTokenKey, refresh, RefreshCookieOptions);
      accessToken := access;
      refreshToken := refresh;
    }

    method ClearTokens()
      modifies this`accessToken, this`refreshToken, jar
      ensures jar.entries == RemoveTokens(old(jar.entries))
      ensures accessToken == Null && refreshToken == Null
      ensures !Truthy(accessToken) && !Truthy(refreshToken)
    {
      jar.Remove(AccessTokenKey);
      jar.Remove(RefreshTokenKey);
      assert jar.entries == RemoveTokens(old(jar.entries));
      accessToken := Null;
      refreshToken := Null;
    }

    /** One run of the `watchEffect`: each ref that differs from its cookie takes the
        cookie's value. `changed` says whether a ref was written. */
    method Reconcile() returns (changed: bool)
      modifies this`accessToken, this`refreshToken
      ensures InSync()
      ensures changed <==> old(accessToken) != jar.Get(AccessTokenKey)
                           || old(refreshToken) != jar.Get(RefreshTokenKey)
      ensures old(InSync()) ==> !changed
    {
      changed := false;
      var cookieAccessToken := jar.Get(AccessTokenKey);
      var cookieRefreshToken := jar.Get(RefreshTokenKey);
      if cookieAccessToken != accessToken {
        accessToken := cookieAccessToken;
        changed := true;
      }
      if cookieRefreshToken != refreshToken {
        refreshToken := cookieRefreshToken;
        changed := true;
      }
    }
  }

  /** Two instances over one jar: a write through one leaves the other's refs stale until
      its next reconcile, which brings them to the written values. `staleAccess` and
      `staleRefresh` are what the other instance holds between the write and its
      reconcile: the cookies as they were before the write. */
  method MirrorsFollowTheJar(jar: CookieJar, access: string, refresh: string)
    returns (a: Session, b: Session, staleAccess: Ref, staleRefresh: Ref)
    modifies jar
    ensures staleAccess == Read(old(jar.entries), AccessTokenKey)
    ensures staleRefresh == Read(old(jar.entries), RefreshTokenKey)
    ensures a.jar == jar && b.jar == jar && a != b
    ensures a.accessToken == b.accessToken == Str(access)
    ensures a.refreshToken == b.refreshToken == Str(refresh)
    ensures a.InSync() && b.InSync()
  {
    a := new Session(jar);
    b := new Session(jar);
    a.SetTokens(Str(access), Str(refresh));
    staleAccess, staleRefresh := b.accessToken, b.refreshToken;
    var changed := b.Reconcile();
  }

  /** After `clearTokens` the refs hold `null` while the cookies read `undefined`, so the
      next reconcile rewrites both refs: the values differ but neither is truthy. */
  method ReconcileAfterClear(s: Session)
    modifies s, s.jar
    ensures s.accessToken == Undefined && s.refreshToken == Undefined
    ensures !Truthy(s.accessToken) && !Truthy(s.refreshToken)
  {
    s.ClearTokens();
    var changed := s.Reconcile();
    assert changed;
  }
}
