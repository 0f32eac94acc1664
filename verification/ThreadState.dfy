/** The flags of a thread. */
module ThreadStates {

  /** The thread-local flags: the allocator is running; the allocator has been destroyed. */
  class ThreadFlags {
    var active: bool
    var gone: bool
    /** Some vector of the allocator's own has grown with the guard down: its buffer came from the
        allocator itself. */
    ghost var exposed: bool

    constructor ()
      ensures !active && !gone && !exposed
    {
      active, gone, exposed := false, false, false;
    }

    /** A vector of the allocator's own may take a larger buffer from operator new. */
    ghost method VectorGrows()
      modifies this`exposed
      ensures exposed == (old(exposed) || !active)
    {
      exposed := exposed || !active;
    }
  }
}
