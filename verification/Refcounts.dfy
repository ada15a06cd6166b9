/** Reference counts of the data store: readers and writers of a datum. */
module Refcounts {

  datatype Refs = Refs(read: int, write: int)

  function Plus(a: Refs, b: Refs): Refs { Refs(a.read + b.read, a.write + b.write) }
  function Minus(a: Refs, b: Refs): Refs { Refs(a.read - b.read, a.write - b.write) }
  predicate AtLeast(a: Refs, b: Refs) { a.read >= b.read && a.write >= b.write }
  function Zero(): Refs { Refs(0, 0) }
}
