/** The slab accumulation buffer the layers render into: `slabs.extend`
    appends records in call order, and that order encodes depth. The
    microslab grid `slabs.microslabs(thickness)` is taken as an input. */
module Slabs {

  /** One `extend(rho=..., irho=..., w=..., sigma=...)` record. `sigma` is
      the interfacial roughness, 0 when the caller does not give one. */
  datatype Extent = Extent(rho: seq<real>, irho: seq<real>, w: seq<real>, sigma: real)

  /** The microslab widths `Pw` and positions `Pz`, paired entry by entry. */
  datatype Grid = Grid(w: seq<real>, z: seq<real>)
  {
    predicate Valid()
    {
      |w| == |z|
    }
  }

  /** The buffer: what has been appended so far, oldest first. */
  class SlabBuffer {
    var written: seq<Extent>

    constructor ()
      ensures written == []
    {
      written := [];
    }

    /** `extend`: append one record after everything already written. */
    method Extend(e: Extent)
      modifies this
      ensures written == old(written) + [e]
    {
      written := written + [e];
    }
  }
}
