/** Pointers into an array of nodes. */
module Pointers {

  datatype Ptr = Null | At(addr: nat)
}
