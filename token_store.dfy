/** The browser-side token holder (client/src/lib/auth.js): one key of the
    page's `localStorage`, modelled as a mutable map from keys to strings. */
module TokenStore {
  import opened Common

  const TokenKey: string := "memorie:token"

  /** The storage after `setToken(v)`: a falsy `v` removes the token key, any
      other value is written under it, and no other key is touched. */
  function AfterSet(items: map<string, string>, v: Option<string>): (r: map<string, string>)
    ensures Present(v) ==> TokenKey in r && r[TokenKey] == v.value
    ensures !Present(v) ==> TokenKey !in r
    ensures forall k :: k != TokenKey ==> (k in r <==> k in items)
    ensures forall k :: k != TokenKey && k in r ==> r[k] == items[k]
  {
    if !Present(v) then items - {TokenKey} else items[TokenKey := v.value]
  }

  /** `getToken` reads the token key and nothing else. */
  function Lookup(items: map<string, string>): Option<string> {
    if TokenKey in items then Some(items[TokenKey]) else None
  }

  /** Reading back after a write gives the written token, or nothing for a falsy one. */
  lemma GetAfterSet(items: map<string, string>, v: Option<string>)
    ensures Lookup(AfterSet(items, v)) == if Present(v) then v else None
  {
  }

  /** Writing the same value twice is the same as writing it once. */
  lemma SetIdempotent(items: map<string, string>, v: Option<string>)
    ensures AfterSet(AfterSet(items, v), v) == AfterSet(items, v)
  {
    var once := AfterSet(items, v);
    var twice := AfterSet(once, v);
    assert forall k :: k in twice <==> k in once;
  }

  /** The page's `localStorage`. */
  class LocalStorage {
    var items: map<string, string>

    constructor (items: map<string, string>)
      ensures this.items == items
    {
      this.items := items;
    }

    /** `getToken()`. */
    function GetToken(): (t: Option<string>)
      reads this
      ensures t.Some? <==> TokenKey in items
      ensures t.Some? ==> t.value == items[TokenKey]
    {
      Lookup(items)
    }

    /** `setToken(v)`: `removeItem` for a falsy `v`, `setItem` otherwise. */
    method SetToken(v: Option<string>)
      modifies this
      ensures items == AfterSet(old(items), v)
    {
      items := AfterSet(items, v);
    }
  }
}
