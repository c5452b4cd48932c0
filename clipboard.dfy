/** The copy buffer of core/clipboard.py: holds the last document copied, if any. */
module Clipboard {
  import opened Wrappers

  class GraphClipboard<T> {
    var data: Option<T>

    /** A new clipboard holds nothing. */
    constructor ()
      ensures data == None
      ensures !HasData() && Get() == None
    {
      data := None;
    }

    /** `set`: replaces whatever was held; the last write wins. */
    method Set(d: T)
      modifies this
      ensures data == Some(d)
      ensures HasData() && Get() == Some(d)
    {
      data := Some(d);
    }

    /** `get`: the held document, or `None`. */
    function Get(): (r: Option<T>)
      reads this
      ensures r == data
    {
      data
    }

    /** `has_data`: whether anything is held. */
    predicate HasData()
      reads this
      ensures HasData() <==> Get() != None
    {
      data.Some?
    }
  }
}
