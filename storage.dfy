/** The device's persistent key/value store (AsyncStorage), as a map from keys to strings. */
module Storage {
  import opened Wrappers

  class KeyValueStore {
    var items: map<string, string>

    constructor (persisted: map<string, string>)
      ensures items == persisted
    {
      items := persisted;
    }

    /** `getItem`: the stored string, or `None` (null) when the key is absent. */
    method GetItem(key: string) returns (value: Option<string>)
      ensures value.Some? <==> key in items
      ensures value.Some? ==> value.value == items[key]
    {
      value := Lookup(items, key);
    }

    method SetItem(key: string, value: string)
      modifies this
      ensures items == old(items)[key := value]
    {
      items := items[key := value];
    }

    method RemoveItem(key: string)
      modifies this
      ensures items == old(items) - {key}
    {
      items := items - {key};
    }
  }
}
