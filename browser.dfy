/** The browser's `localStorage`: a synchronous string-to-string store shared by every module. */
module Browser {
  import opened Wrappers

  /** The two keys under which the session's tokens persist. */
  const AccessTokenKey: string := "accessToken"
  const RefreshTokenKey: string := "refreshToken"

  class LocalStorage {
    var items: map<string, string>

    constructor (initial: map<string, string>)
      ensures items == initial
    {
      items := initial;
    }

    /** `getItem`: the stored string, or null when the key is absent. */
    function GetItem(key: string): (r: Option<string>)
      reads this
      ensures r.Some? <==> key in items
      ensures r.Some? ==> r.value == items[key]
    {
      Lookup(items, key)
    }

    /** `setItem`: stores `value` under `key`, replacing what was there. */
    method SetItem(key: string, value: string)
      modifies this
      ensures items == old(items)[key := value]
    {
      items := items[key := value];
    }

    /** `removeItem`: forgets `key`; removing an absent key changes nothing. */
    method RemoveItem(key: string)
      modifies this
      ensures items == old(items) - {key}
    {
      items := items - {key};
    }
  }
}
