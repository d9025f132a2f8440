/** The two pieces of browser state the client writes: `localStorage`, a
    string-to-string store, and `window.location.href`. */
module Browser {
  import opened Types

  /** `localStorage.getItem`: the stored value, or None (`null`). */
  function Lookup(storage: map<string, string>, key: string): Option<string>
  {
    if key in storage then Some(storage[key]) else None
  }

  class BrowserWindow {
    var storage: map<string, string>
    var location: string

    constructor (storage: map<string, string>, location: string)
      ensures this.storage == storage && this.location == location
    {
      this.storage := storage;
      this.location := location;
    }

    method GetItem(key: string) returns (value: Option<string>)
      ensures value == Lookup(storage, key)
    {
      value := if key in storage then Some(storage[key]) else None;
    }

    method SetItem(key: string, value: string)
      modifies this
      ensures storage == old(storage)[key := value]
      ensures location == old(location)
    {
      storage := storage[key := value];
    }

    /** Removing an absent key is allowed and changes nothing. */
    method RemoveItem(key: string)
      modifies this
      ensures storage == old(storage) - {key}
      ensures location == old(location)
    {
      storage := storage - {key};
    }

    /** `window.location.href = href`. */
    method Assign(href: string)
      modifies this
      ensures location == href
      ensures storage == old(storage)
    {
      location := href;
    }
  }
}
