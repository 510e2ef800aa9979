/**
 * The visitor identity: a provider that, once mounted, adopts the visitor
 * id kept in a cookie or creates one, and exposes `{userId, isLoaded}` to
 * the components below it.
 */
module UserContextProvider {
  import opened Wrappers
  import opened Browser
  import opened Uuid

  const UserIdCookie: string := "katalon_bot_user_id"
  const UserIdCookieExpiryDays: nat := 365

  /** What the context reports. */
  datatype UserContext = UserContext(userId: string, isLoaded: bool)

  /** The context seen before the identity is resolved, and by a component
      outside any provider. */
  const DefaultUserContext: UserContext := UserContext("", false)

  /** The cookie written for a new visitor: a year's expiry, same-site
      strict, and secure only in a production build. */
  function NewUserIdCookie(id: string, isProduction: bool): (c: Cookie)
    ensures c.value == id && c.expiresInDays == 365 && c.sameSite == Strict
    ensures c.secure <==> isProduction
  {
    Cookie(id, UserIdCookieExpiryDays, Strict, isProduction)
  }

  class UserProvider {
    var userId: string
    var isLoaded: bool

    function Context(): UserContext
      reads this
    {
      UserContext(userId, isLoaded)
    }

    constructor ()
      ensures Context() == DefaultUserContext
    {
      userId, isLoaded := "", false;
    }

    /**
     * The mount effect. A cookie holding a non-empty id is adopted and the
     * jar is left alone; otherwise `freshId`, from the fresh-id source, is
     * written. Afterwards the context is loaded and reports the id the jar
     * now holds, which is never empty.
     */
    method Resolve(jar: CookieJar, freshId: string, isProduction: bool)
      requires IsUuidV4(freshId)
      modifies this, jar
      ensures IsTruthy(old(jar.Get(UserIdCookie))) ==>
        jar.cookies == old(jar.cookies) && userId == old(jar.cookies[UserIdCookie].value)
      ensures !IsTruthy(old(jar.Get(UserIdCookie))) ==>
        jar.cookies == old(jar.cookies)[UserIdCookie := NewUserIdCookie(freshId, isProduction)] && userId == freshId
      ensures isLoaded && jar.Get(UserIdCookie) == Some(userId) && userId != ""
    {
      var existing := jar.Get(UserIdCookie);
      if !IsTruthy(existing) {
        jar.Set(UserIdCookie, NewUserIdCookie(freshId, isProduction));
        existing := Some(freshId);
      }
      userId := existing.value;
      isLoaded := true;
    }
  }

  /** Resolving twice against the same cookie jar, as two mounts do, yields the
      same id, and the second mount writes nothing: the jar ends as the first
      resolution left it, the second fresh id unused. */
  method ResolveIsStable(jar: CookieJar, fresh1: string, fresh2: string, isProduction: bool)
      returns (first: UserProvider, second: UserProvider)
    requires IsUuidV4(fresh1) && IsUuidV4(fresh2)
    modifies jar
    ensures first.userId == second.userId
    ensures first.isLoaded && second.isLoaded && jar.Get(UserIdCookie) == Some(second.userId)
    ensures IsTruthy(old(jar.Get(UserIdCookie))) ==> jar.cookies == old(jar.cookies)
    ensures !IsTruthy(old(jar.Get(UserIdCookie))) ==>
      jar.cookies == old(jar.cookies)[UserIdCookie := NewUserIdCookie(fresh1, isProduction)] && second.userId == fresh1
  {
    first := new UserProvider();
    first.Resolve(jar, fresh1, isProduction);
    ghost var afterFirst := jar.cookies;
    second := new UserProvider();
    second.Resolve(jar, fresh2, isProduction);
    assert jar.cookies == afterFirst;
  }
}
