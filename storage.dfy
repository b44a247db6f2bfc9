/** The browser's `localStorage`: one synchronous string-keyed store shared by the whole page. */
module Storage {
  import opened Wrappers

  class Store {
    var kv: map<string, string>

    constructor (initial: map<string, string>)
      ensures kv == initial
    {
      kv := initial;
    }

    /** `getItem`: the stored string, or `None` (`null`) when the key is absent. */
    function GetItem(key: string): Option<string>
      reads this
    {
      if key in kv then Some(kv[key]) else None
    }

    /** `setItem`. Writes never fail in this model. */
    method SetItem(key: string, value: string)
      modifies this
      ensures kv == old(kv)[key := value]
    {
      kv := kv[key := value];
    }

    /** `removeItem`; removing an absent key does nothing. */
    method RemoveItem(key: string)
      modifies this
      ensures kv == old(kv) - {key}
    {
      kv := kv - {key};
    }
  }
}
