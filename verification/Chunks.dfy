/** A piece of process output, as one read or write carries it. */
module Chunks {
  type Chunk = seq<bv8>
}
