/** Tcl values. */
module Values {
  import opened Sorting

  /** A word, a dict in insertion order, or a list. */
  datatype Value = Atom(text: Text) | Dict(entries: seq<Entry>) | List(elems: seq<Value>)

  datatype Entry = Entry(key: Text, val: Value)

  predicate UniqueKeys(es: seq<Entry>) {
    forall i, j :: 0 <= i < j < |es| ==> es[i].key != es[j].key
  }
}
