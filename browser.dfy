/**
 * The two browser stores the client reads and writes, as plain key-value
 * maps: `window.localStorage` and the cookie jar behind `js-cookie`.
 */
module Browser {
  import opened Wrappers

  /** JavaScript truthiness of a string lookup: null, undefined and "" are falsy. */
  predicate IsTruthy(v: Option<string>) {
    v.Some? && v.value != ""
  }

  /** `window.localStorage`. */
  class LocalStorage {
    var items: map<string, string>

    constructor (items: map<string, string>)
      ensures this.items == items
    {
      this.items := items;
    }

    /** `getItem`: the stored string, or null. */
    function GetItem(key: string): Option<string>
      reads this
    {
      if key in items then Some(items[key]) else None
    }

    /** `setItem`. */
    method SetItem(key: string, value: string)
      modifies this
      ensures items == old(items)[key := value]
    {
      items := items[key := value];
    }
  }

  datatype SameSite = Strict | Lax | NoSameSiteRestriction

  /** A cookie with the attributes the client sets. */
  datatype Cookie = Cookie(value: string, expiresInDays: nat, sameSite: SameSite, secure: bool)

  /** The document's cookies, by name. */
  class CookieJar {
    var cookies: map<string, Cookie>

    constructor (cookies: map<string, Cookie>)
      ensures this.cookies == cookies
    {
      this.cookies := cookies;
    }

    /** `Cookies.get(name)`: the value, or undefined. */
    function Get(name: string): Option<string>
      reads this
    {
      if name in cookies then Some(cookies[name].value) else None
    }

    /** `Cookies.set(name, value, attributes)`. */
    method Set(name: string, cookie: Cookie)
      modifies this
      ensures cookies == old(cookies)[name := cookie]
    {
      cookies := cookies[name := cookie];
    }
  }
}
