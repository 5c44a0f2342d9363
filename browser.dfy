/** The two browser services the wallet helper touches: `localStorage` and
    `navigator.clipboard`. Each keeps its observable state in a field. */
module Browser {
  import opened Wrappers

  /** `window.localStorage`: a string-to-string dictionary shared by every
      caller in the page. */
  class LocalStorage {
    var items: map<string, string>

    constructor (initial: map<string, string>)
      ensures items == initial
    {
      items := initial;
    }

    /** `getItem(key)`: the stored string, or `null` when nothing is stored. */
    function GetItem(key: string): (r: Option<string>)
      reads this
      ensures r.Some? <==> key in items
      ensures r.Some? ==> r.value == items[key]
    {
      if key in items then Some(items[key]) else None
    }

    /** `setItem(key, value)`: stores `value` under `key`, nothing else changes. */
    method SetItem(key: string, value: string)
      modifies this
      ensures items == old(items)[key := value]
    {
      items := items[key := value];
    }
  }

  /** `navigator.clipboard`, observed through the texts written to it. */
  class Clipboard {
    var written: seq<string>

    constructor ()
      ensures written == []
    {
      written := [];
    }

    /** `writeText(text)`: one more write, of exactly `text`. */
    method WriteText(text: string)
      modifies this
      ensures written == old(written) + [text]
    {
      written := written + [text];
    }
  }
}
