/**
  Resources the exporter must give back: the local temporary files of the
  put/get/delete probe (`tempfile.mkstemp` / `os.remove`) and the SSH
  connection of a cycle (`asyncssh.connect` / `conn.close`). Each is a handle
  that is live from acquisition to release.
*/
module Resources {

  class Handles {
    /** Handles acquired and not yet released. */
    var live: set<nat>
    /** Handles ever acquired; a new handle is the next number. */
    var issued: nat

    ghost predicate Valid()
      reads this
    {
      forall h | h in live :: h < issued
    }

    constructor ()
      ensures Valid() && live == {} && issued == 0
    {
      live := {};
      issued := 0;
    }

    /** Acquire a new handle, distinct from every live one. */
    method Acquire() returns (h: nat)
      requires Valid()
      modifies this
      ensures Valid()
      ensures h == old(issued) && h !in old(live)
      ensures live == old(live) + {h} && issued == old(issued) + 1
    {
      h := issued;
      live := live + {h};
      issued := issued + 1;
    }

    /** Release a live handle (`os.remove` of a file that is not there would raise). */
    method Release(h: nat)
      requires Valid() && h in live
      modifies this
      ensures Valid()
      ensures live == old(live) - {h} && issued == old(issued)
    {
      live := live - {h};
    }
  }
}
