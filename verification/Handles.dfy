/** The handles a process has open. Close demands an open handle, so code that could close
    one twice does not verify. */
module Handles {

  /** `open` is the set of handles the process has open; handles are never reissued. */
  class HandleTable {
    var open: set<nat>
    var next: nat

    constructor ()
      ensures Valid() && open == {}
    {
      open, next := {}, 0;
    }

    ghost predicate Valid()
      reads this
    {
      forall h :: h in open ==> h < next
    }

    method Open() returns (h: nat)
      requires Valid()
      modifies this
      ensures Valid() && h == old(next) && next == h + 1 && open == old(open) + {h}
    {
      h := next;
      next := next + 1;
      open := open + {h};
    }

    method Close(h: nat)
      requires Valid() && h in open
      modifies this`open
      ensures Valid() && open == old(open) - {h}
    {
      open := open - {h};
    }
  }
}
