/** The browser's `localStorage`: a string-to-string map updated in place. */
module Storage {
  import opened Common

  class LocalStorage {
    var items: map<string, string>

    /** An empty store. */
    constructor ()
      ensures items == map[]
    {
      items := map[];
    }

    /** `getItem`: the stored value, or null when the key is absent. */
    function GetItem(key: string): (r: Option<string>)
      reads this
      ensures r.Some? <==> key in items
      ensures r.Some? ==> r.value == items[key]
    {
      if key in items then Some(items[key]) else None
    }

    /** `setItem`: stores `value` under `key`, replacing what was there. */
    method SetItem(key: string, value: string)
      modifies this
      ensures items == old(items)[key := value]
    {
      items := items[key := value];
    }

    /** `removeItem`: deletes `key`; an absent key is no error. */
    method RemoveItem(key: string)
      modifies this
      ensures items == old(items) - {key}
    {
      items := items - {key};
    }
  }
}
