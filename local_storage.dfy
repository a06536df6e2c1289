/**
 * The browser's localStorage: a string-to-string store. Where the code guards against storage that
 * is missing or throws, a null store stands for it.
 */
module LocalStorage {
  import opened Wrappers

  class Storage {
    var items: map<string, string>

    constructor (items: map<string, string>)
      ensures this.items == items
    {
      this.items := items;
    }

    /** getItem: the value, or null for a missing key. */
    function GetItem(key: string): (r: Option<string>)
      reads this
      ensures r.Some? <==> key in items
      ensures r.Some? ==> r.value == items[key]
    {
      if key in items then Some(items[key]) else None
    }

    method SetItem(key: string, value: string)
      modifies this
      ensures items == old(items)[key := value]
    {
      items := items[key := value];
    }

    method RemoveItem(key: string)
      modifies this
      ensures items == old(items) - {key}
    {
      items := items - {key};
    }
  }

  /** `if (!localStorage.getItem(key))`: the key is missing or holds the empty string. */
  predicate Falsy(value: Option<string>) {
    value.None? || value.value == ""
  }
}
