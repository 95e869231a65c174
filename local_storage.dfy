/**
 * The browser's `localStorage`: a string-to-string map that the session
 * code reads and writes in place.
 */
module LocalStorage {
  import opened JsStrings

  /** `localStorage.getItem(key)` on a snapshot of the store; None is `null`. */
  function GetItem(items: map<string, string>, key: string): (r: Option<string>)
    ensures r.Some? <==> key in items
    ensures r.Some? ==> r.value == items[key]
  {
    if key in items then Some(items[key]) else None
  }

  class Storage {
    var items: map<string, string>

    /** An empty store. */
    constructor ()
      ensures items == map[]
    {
      items := map[];
    }

    /** `localStorage.setItem(key, value)`: only `key` changes. */
    method SetItem(key: string, value: string)
      modifies this
      ensures items == old(items)[key := value]
    {
      items := items[key := value];
    }

    /** `localStorage.removeItem(key)`: only `key` goes. */
    method RemoveItem(key: string)
      modifies this
      ensures items == old(items) - {key}
    {
      items := items - {key};
    }

    /** `localStorage.clear()`: every key goes. */
    method Clear()
      modifies this
      ensures items == map[]
    {
      items := map[];
    }
  }
}
