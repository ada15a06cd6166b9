/** The worker's data cache, code/src/turbine/cache.c: a table of entries and a tree of the
    same entries ordered by the stamp of their last access. */
module Cache {
  import opened Options
  import opened Bytes

  type Id = int

  /** What a client stores: a datum, its type and its bytes. */
  datatype Item = Item(td: Id, kind: nat, data: seq<byte>)

  // ---------------------------------------------------------------- a plain LRU list

  /** Items from the least to the most recently stored or retrieved. */
  predicate DistinctIds(items: seq<Item>) {
    forall i, j :: 0 <= i < j < |items| ==> items[i].td != items[j].td
  }

  function IndexOf(items: seq<Item>, td: Id): (r: Option<nat>)
    ensures r.Some? ==> r.value < |items| && items[r.value].td == td
    ensures r.None? ==> forall i :: 0 <= i < |items| ==> items[i].td != td
  {
    if |items| == 0 then None
    else if items[0].td == td then Some(0)
    else
      var r := IndexOf(items[1..], td);
      if r.None? then (assert forall i :: 1 <= i < |items| ==> items[i] == items[1..][i-1]; None) else Some(r.value + 1)
  }

  function Without<T>(items: seq<T>, i: nat): seq<T>
    requires i < |items|
  {
    items[..i] + items[i + 1..]
  }

  /** A retrieved item becomes the most recent one. */
  function Touch(items: seq<Item>, td: Id): seq<Item> {
    var r := IndexOf(items, td);
    if r.None? then items else Without(items, r.value) + [items[r.value]]
  }

  /** A stored item is the most recent one; the oldest makes room for it. */
  function Put(items: seq<Item>, item: Item, capacity: nat): seq<Item> {
    if capacity == 0 then items
    else if |items| + 1 == capacity && |items| > 0 then items[1..] + [item]
    else items + [item]
  }

  function TotalLength(items: seq<Item>): nat {
    if |items| == 0 then 0 else |items[0].data| + TotalLength(items[1..])
  }

  lemma {:induction false} TotalAppend(a: seq<Item>, b: seq<Item>)
    ensures TotalLength(a + b) == TotalLength(a) + TotalLength(b)
  {
    if |a| == 0 {
      assert a + b == b;
    } else {
      assert (a + b)[1..] == a[1..] + b;
      TotalAppend(a[1..], b);
    }
  }

  lemma {:induction false} TotalWithout(items: seq<Item>, i: nat)
    requires i < |items|
    ensures TotalLength(items) == TotalLength(Without(items, i)) + |items[i].data|
  {
    TotalAppend(items[..i], items[i + 1..]);
    assert items == items[..i] + ([items[i]] + items[i + 1..]);
    TotalAppend(items[..i], [items[i]] + items[i + 1..]);
    assert ([items[i]] + items[i + 1..])[1..] == items[i + 1..];
  }

  lemma {:induction false} TotalTouch(items: seq<Item>, td: Id)
    ensures TotalLength(Touch(items, td)) == TotalLength(items)
  {
    var r := IndexOf(items, td);
    if r.Some? {
      TotalWithout(items, r.value);
      TotalAppend(Without(items, r.value), [items[r.value]]);
      assert [items[r.value]][1..] == [];
    }
  }

  /** What is lost when an item is stored: the oldest, or nothing. */
  function Evicted(items: seq<Item>, capacity: nat): nat {
    if capacity > 0 && |items| + 1 == capacity && |items| > 0 then |items[0].data| else 0
  }

  lemma {:induction false} TotalPut(items: seq<Item>, item: Item, capacity: nat)
    requires capacity > 0
    ensures TotalLength(Put(items, item, capacity)) ==
            TotalLength(items) - Evicted(items, capacity) + |item.data|
  {
    assert [item][1..] == [];
    assert TotalLength([item]) == |item.data|;
    TotalAppend(items, [item]);
    if |items| > 0 { TotalAppend(items[1..], [item]); }
  }

  // ---------------------------------------------------------------- the cache

  /** `struct entry`; the table and the tree point to the same object. */
  class Entry {
    var item: Item
    var stamp: int

    constructor (item: Item, stamp: int)
      ensures this.item == item && this.stamp == stamp
    {
      this.item, this.stamp := item, stamp;
    }
  }

  /** The subtraction of an `unsigned long`. */
  function MinusWrapped(memory: int, length: int): nat {
    (memory - length) % SIZE_LIMIT
  }

  datatype Code = Success | NotFound | Crash

  /** An entry with what it holds, as a line of the LRU list. */
  datatype Row = Row(e: Entry, item: Item, stamp: int)

  /** Stamps increase along the list and are older than `counter`. */
  ghost predicate Ordered(rows: seq<Row>, counter: int) {
    && (forall i, j :: 0 <= i < j < |rows| ==> rows[i].stamp < rows[j].stamp)
    && (forall i :: 0 <= i < |rows| ==> rows[i].stamp < counter)
  }

  ghost predicate Distinct(rows: seq<Row>) {
    forall i, j :: 0 <= i < j < |rows| ==> rows[i].e != rows[j].e && rows[i].item.td != rows[j].item.td
  }

  /** The table maps each entry's datum to it, and nothing else. */
  ghost predicate InTable(rows: seq<Row>, entries: map<Id, Entry>) {
    && (forall i :: 0 <= i < |rows| ==> rows[i].item.td in entries && entries[rows[i].item.td] == rows[i].e)
    && (forall td :: td in entries ==> exists i :: 0 <= i < |rows| && rows[i].item.td == td)
  }

  /** The tree maps each entry's stamp to it, and nothing else. */
  ghost predicate InTree(rows: seq<Row>, lru: map<int, Entry>) {
    && (forall i :: 0 <= i < |rows| ==> rows[i].stamp in lru && lru[rows[i].stamp] == rows[i].e)
    && (forall s :: s in lru ==> exists i :: 0 <= i < |rows| && rows[i].stamp == s)
  }

  ghost function Items(rows: seq<Row>): (r: seq<Item>)
    ensures |r| == |rows| && forall i :: 0 <= i < |rows| ==> r[i] == rows[i].item
  {
    seq(|rows|, i requires 0 <= i < |rows| => rows[i].item)
  }

  /** What the entries hold is what the list says. */
  ghost predicate Mirrors(order: seq<Entry>, rows: seq<Row>)
    reads order
  {
    |order| == |rows| && forall i :: 0 <= i < |rows| ==> rows[i] == Row(order[i], order[i].item, order[i].stamp)
  }

  ghost predicate Linked(rows: seq<Row>, entries: map<Id, Entry>, lru: map<int, Entry>, counter: int) {
    Ordered(rows, counter) && Distinct(rows) && InTable(rows, entries) && InTree(rows, lru)
  }

  /** The tree after a node was given another key. */
  function Rekeyed(lru: map<int, Entry>, from: int, to: int, e: Entry): map<int, Entry> {
    (lru - {from})[to := e]
  }

  // ---------------------------------------------------------------- lemmas about the list

  lemma {:induction false} AppendedTable(rows: seq<Row>, entries: map<Id, Entry>, r: Row)
    requires InTable(rows, entries) && r.item.td !in entries
    ensures InTable(rows + [r], entries[r.item.td := r.e])
  {
    var rows', entries' := rows + [r], entries[r.item.td := r.e];
    forall td | td in entries' ensures exists i :: 0 <= i < |rows'| && rows'[i].item.td == td {
      if td == r.item.td {
        assert rows'[|rows|].item.td == td;
      } else {
        var i :| 0 <= i < |rows| && rows[i].item.td == td;
        assert rows'[i] == rows[i];
      }
    }
  }

  lemma {:induction false} AppendedTree(rows: seq<Row>, lru: map<int, Entry>, r: Row)
    requires InTree(rows, lru) && r.stamp !in lru
    ensures InTree(rows + [r], lru[r.stamp := r.e])
  {
    var rows', lru' := rows + [r], lru[r.stamp := r.e];
    forall s | s in lru' ensures exists i :: 0 <= i < |rows'| && rows'[i].stamp == s {
      if s == r.stamp {
        assert rows'[|rows|].stamp == s;
      } else {
        var i :| 0 <= i < |rows| && rows[i].stamp == s;
        assert rows'[i] == rows[i];
      }
    }
  }

  lemma AppendedOrdered(rows: seq<Row>, counter: int, r: Row)
    requires Ordered(rows, counter) && r.stamp == counter
    ensures Ordered(rows + [r], counter + 1)
  {
  }

  lemma AppendedDistinct(rows: seq<Row>, entries: map<Id, Entry>, r: Row)
    requires Distinct(rows) && InTable(rows, entries) && r.item.td !in entries
    requires forall i :: 0 <= i < |rows| ==> rows[i].e != r.e
    ensures Distinct(rows + [r])
  {
  }

  lemma CounterIsNew(rows: seq<Row>, lru: map<int, Entry>, counter: int)
    requires Ordered(rows, counter) && InTree(rows, lru)
    ensures counter !in lru
  {
  }

  /** A new entry, newer than all others. */
  lemma {:induction false} AppendedLinked(rows: seq<Row>, entries: map<Id, Entry>, lru: map<int, Entry>,
                                          counter: int, e: Entry, item: Item)
    requires Linked(rows, entries, lru, counter) && item.td !in entries
    requires forall i :: 0 <= i < |rows| ==> rows[i].e != e
    ensures Linked(rows + [Row(e, item, counter)], entries[item.td := e], lru[counter := e], counter + 1)
  {
    hide InTable, InTree, Ordered, Distinct;
    var r := Row(e, item, counter);
    CounterIsNew(rows, lru, counter);
    AppendedOrdered(rows, counter, r);
    AppendedDistinct(rows, entries, r);
    AppendedTable(rows, entries, r);
    AppendedTree(rows, lru, r);
  }

  lemma DroppedMirrors(order: seq<Entry>, rows: seq<Row>)
    requires Mirrors(order, rows) && |rows| > 0
    ensures |order| > 0 && order[0] == rows[0].e && order[0].item == rows[0].item
    ensures Mirrors(order[1..], rows[1..])
  {
  }

  lemma DroppedTable(rows: seq<Row>, entries: map<Id, Entry>)
    requires InTable(rows, entries) && Distinct(rows) && |rows| > 0
    ensures InTable(rows[1..], entries - {rows[0].item.td})
  {
  }

  lemma DroppedTree(rows: seq<Row>, lru: map<int, Entry>, counter: int)
    requires InTree(rows, lru) && Ordered(rows, counter) && |rows| > 0
    ensures InTree(rows[1..], lru - {rows[0].stamp})
  {
  }

  lemma DroppedOrdered(rows: seq<Row>, counter: int)
    requires Ordered(rows, counter) && |rows| > 0
    ensures Ordered(rows[1..], counter)
  {
  }

  lemma DroppedDistinct(rows: seq<Row>)
    requires Distinct(rows) && |rows| > 0
    ensures Distinct(rows[1..]) && forall i :: 0 <= i < |rows[1..]| ==> rows[1..][i].e != rows[0].e
  {
  }

  /** The oldest entry is gone. */
  lemma {:induction false} DroppedLinked(rows: seq<Row>, entries: map<Id, Entry>, lru: map<int, Entry>, counter: int)
    requires Linked(rows, entries, lru, counter) && |rows| > 0
    ensures Linked(rows[1..], entries - {rows[0].item.td}, lru - {rows[0].stamp}, counter)
    ensures forall i :: 0 <= i < |rows[1..]| ==> rows[1..][i].e != rows[0].e
  {
    hide InTable, InTree, Ordered, Distinct;
    DroppedTable(rows, entries);
    DroppedTree(rows, lru, counter);
    DroppedOrdered(rows, counter);
    DroppedDistinct(rows);
  }

  /** The leftmost node of the tree is the least recently used entry. */
  lemma LeftmostIsOldest(rows: seq<Row>, lru: map<int, Entry>, counter: int, s: int)
    requires InTree(rows, lru) && Ordered(rows, counter) && s in lru && forall t :: t in lru ==> s <= t
    ensures |rows| > 0 && rows[0].stamp == s && lru[s] == rows[0].e
  {
  }

  /** Line `i` goes to the end, as `r`. */
  function Moved(rows: seq<Row>, i: nat, r: Row): (m: seq<Row>)
    requires i < |rows|
    ensures |m| == |rows| && m[|rows| - 1] == r
    ensures forall k :: 0 <= k < |rows| - 1 ==> m[k] == rows[if k < i then k else k + 1]
  {
    Without(rows, i) + [r]
  }

  lemma {:induction false} MovedTree(rows: seq<Row>, lru: map<int, Entry>, counter: int, i: nat)
    requires Ordered(rows, counter) && InTree(rows, lru) && i < |rows|
    ensures var r := rows[i];
      InTree(Moved(rows, i, Row(r.e, r.item, counter)), Rekeyed(lru, r.stamp, counter, r.e))
  {
    hide Moved;
    var r := rows[i];
    var m := Moved(rows, i, Row(r.e, r.item, counter));
    var lru' := Rekeyed(lru, r.stamp, counter, r.e);
    forall s | s in lru' ensures exists k :: 0 <= k < |m| && m[k].stamp == s {
      if s == counter {
        assert m[|rows| - 1].stamp == s;
      } else {
        var k :| 0 <= k < |rows| && rows[k].stamp == s;
        assert m[if k < i then k else k - 1] == rows[k];
      }
    }
  }

  lemma MovedOrdered(rows: seq<Row>, counter: int, i: nat)
    requires Ordered(rows, counter) && i < |rows|
    ensures Ordered(Moved(rows, i, Row(rows[i].e, rows[i].item, counter)), counter + 1)
  {
  }

  lemma MovedDistinct(rows: seq<Row>, counter: int, i: nat)
    requires Distinct(rows) && i < |rows|
    ensures Distinct(Moved(rows, i, Row(rows[i].e, rows[i].item, counter)))
  {
  }

  lemma {:induction false} MovedTable(rows: seq<Row>, entries: map<Id, Entry>, counter: int, i: nat)
    requires InTable(rows, entries) && i < |rows|
    ensures InTable(Moved(rows, i, Row(rows[i].e, rows[i].item, counter)), entries)
  {
    hide Moved;
    var m := Moved(rows, i, Row(rows[i].e, rows[i].item, counter));
    forall td | td in entries ensures exists k :: 0 <= k < |m| && m[k].item.td == td {
      var k :| 0 <= k < |rows| && rows[k].item.td == td;
      assert m[if k < i then k else if k == i then |rows| - 1 else k - 1].item == rows[k].item;
    }
  }

  lemma {:induction false} MovedLinked(rows: seq<Row>, entries: map<Id, Entry>, lru: map<int, Entry>,
                                       counter: int, i: nat)
    requires Linked(rows, entries, lru, counter) && i < |rows|
    ensures Linked(Moved(rows, i, Row(rows[i].e, rows[i].item, counter)), entries,
                   Rekeyed(lru, rows[i].stamp, counter, rows[i].e), counter + 1)
  {
    hide Ordered, Distinct, InTable, InTree, Moved;
    MovedTree(rows, lru, counter, i);
    MovedOrdered(rows, counter, i);
    MovedDistinct(rows, counter, i);
    MovedTable(rows, entries, counter, i);
  }

  lemma MovedMirrors(order: seq<Entry>, rows: seq<Row>, i: nat)
    requires |order| == |rows| && i < |rows| && rows[i].e == order[i] && rows[i].item == order[i].item
    requires forall k :: 0 <= k < |rows| && k != i ==> rows[k] == Row(order[k], order[k].item, order[k].stamp)
    ensures Mirrors(Without(order, i) + [order[i]], Moved(rows, i, Row(order[i], order[i].item, order[i].stamp)))
  {
  }

  lemma MovedItems(rows: seq<Row>, counter: int, i: nat)
    requires i < |rows|
    ensures Items(Moved(rows, i, Row(rows[i].e, rows[i].item, counter)))
            == Without(Items(rows), i) + [Items(rows)[i]]
  {
  }

  lemma TableIndex(rows: seq<Row>, entries: map<Id, Entry>, td: Id)
    requires Distinct(rows) && InTable(rows, entries)
    ensures IndexOf(Items(rows), td).Some? <==> td in entries
    ensures td in entries ==> entries[td] == rows[IndexOf(Items(rows), td).value].e
  {
  }

  /** What a retrieval of the entry of line `i` leaves. */
  lemma {:induction false} RetrieveAt(rows: seq<Row>, entries: map<Id, Entry>, lru: map<int, Entry>,
                                      counter: int, td: Id, i: nat)
    requires Linked(rows, entries, lru, counter) && IndexOf(Items(rows), td) == Some(i)
    ensures i < |rows| && Distinct(rows) && rows[i].item == Items(rows)[i]
    ensures td in entries && entries[td] == rows[i].e
    ensures var m := Moved(rows, i, Row(rows[i].e, rows[i].item, counter));
      Linked(m, entries, Rekeyed(lru, rows[i].stamp, counter, rows[i].e), counter + 1)
      && Items(m) == Touch(Items(rows), td) && TotalLength(Items(m)) == TotalLength(Items(rows))
  {
    assert i < |rows|;
    TableIndex(rows, entries, td);
    MovedLinked(rows, entries, lru, counter, i);
    MovedItems(rows, counter, i);
    TotalTouch(Items(rows), td);
  }

  class Cache {
    const max_entries: nat
    ghost const budget: nat
    var counter: int
    var memory: nat
    var entries: map<Id, Entry>
    var lru: map<int, Entry>
    var size: nat                        // `entries.size`
    ghost var order: seq<Entry>
    ghost var rows: seq<Row>

    /** Table and tree hold the same entries; their stamps are distinct and below the counter;
        the memory left, modulo the word size, and the lengths make up the budget; and there is
        always room for one more entry. */
    ghost predicate Valid()
      reads this, order
    {
      && Mirrors(order, rows) && Linked(rows, entries, lru, counter)
      && size == |rows| && (if max_entries == 0 then size == 0 else size < max_entries)
      && memory == MinusWrapped(budget, TotalLength(Items(rows)))
    }

    /** The cache as a list, least recently used first. */
    ghost function Contents(): seq<Item>
      reads this
    {
      Items(rows)
    }

    /** `turbine_cache_init`. */
    constructor (size: nat, max_memory: nat)
      requires max_memory < SIZE_LIMIT
      ensures Valid() && Contents() == [] && max_entries == size && budget == max_memory && order == []
    {
      max_entries, budget, memory := size, max_memory, max_memory;
      counter, entries, lru, this.size, order, rows := 0, map[], map[], 0, [], [];
    }

    /** `turbine_cache_check`. */
    method Check(td: Id) returns (hit: bool)
      requires Valid()
      ensures hit <==> max_entries > 0 && IndexOf(Contents(), td).Some?
    {
      TableIndex(rows, entries, td);
      hit := max_entries != 0 && td in entries;
    }

    /** `turbine_cache_retrieve`; called only when the cache is enabled. */
    method Retrieve(td: Id) returns (code: Code, item: Item)
      requires Valid() && max_entries > 0
      modifies this, order
      ensures Valid() && forall e :: e in order ==> e in old(order)
      ensures Contents() == Touch(old(Contents()), td)
      ensures var r := IndexOf(old(Contents()), td);
        if r.Some? then code == Success && item == old(Contents())[r.value] else code == NotFound
    {
      TableIndex(rows, entries, td);
      hide Valid;
      item := Item(td, 0, []);
      code := NotFound;
      if td in entries {
        item := Hit(td);
        code := Success;
      }
    }

    method Hit(td: Id) returns (item: Item)
      requires Valid() && IndexOf(Contents(), td).Some?
      modifies this, order
      ensures Valid() && forall e :: e in order ==> e in old(order)
      ensures Contents() == Touch(old(Contents()), td) && item == old(Contents())[IndexOf(old(Contents()), td).value]
    {
      hide Linked, MinusWrapped, TotalLength, Moved, Items, IndexOf, Touch, Rekeyed, Distinct;
      ghost var i := IndexOf(Contents(), td).value;
      RetrieveAt(rows, entries, lru, counter, td, i);
      var e := entries[td];
      item := e.item;
      MoveToEnd(e, i);
    }

    /** `turbine_cache_store`.  With room for one entry only, the first store looks for a victim
        in an empty tree. */
    method Store(item: Item) returns (code: Code)
      requires Valid() && IndexOf(Contents(), item.td).None?
      modifies this, order
      ensures code == if max_entries == 1 then Crash else Success
      ensures code == Success ==>
        Valid() && Contents() == Put(old(Contents()), item, max_entries)
        && forall e :: e in order ==> e in old(order) || fresh(e)
      ensures code == Crash ==> Contents() == old(Contents())
    {
      if max_entries == 0 { return Success; }
      TableIndex(rows, entries, item.td);
      assert size <= max_entries;
      if max_entries - size == 1 {
        if size == 0 { return Crash; }
        CacheReplace(item);
      } else {
        CacheAdd(item);
      }
      code := Success;
    }

    /** `entry_init`, and the entry goes into both structures as the most recent one. */
    method Enter(e: Entry, item: Item)
      requires Mirrors(order, rows) && Linked(rows, entries, lru, counter) && item.td !in entries
      requires forall i :: 0 <= i < |rows| ==> rows[i].e != e
      modifies this`entries, this`lru, this`counter, this`order, this`rows, e
      ensures Mirrors(order, rows) && Linked(rows, entries, lru, counter)
      ensures order == old(order) + [e] && |rows| == |old(rows)| + 1
      ensures Items(rows) == Items(old(rows)) + [item]
    {
      hide Linked, Items, TotalLength, MinusWrapped, Put, Evicted, Touch, IndexOf;
      AppendedLinked(rows, entries, lru, counter, e, item);
      AppendedItems(rows, Row(e, item, counter));
      e.item, e.stamp := item, counter;
      entries := entries[item.td := e];
      lru := lru[counter := e];
      order, rows := order + [e], rows + [Row(e, item, counter)];
      counter := counter + 1;
    }

    /** `cache_add`. */
    method CacheAdd(item: Item)
      requires Valid() && size + 1 < max_entries && item.td !in entries
      modifies this
      ensures Valid() && Contents() == old(Contents()) + [item]
      ensures forall e :: e in order ==> e in old(order) || fresh(e)
    {
      hide Linked, TotalLength, MinusWrapped, Items, Put, Evicted, Touch, IndexOf;
      AddedMemory(budget, rows, item);
      var e := new Entry(item, counter);
      Enter(e, item);
      size := size + 1;
      memory := MinusWrapped(memory, |item.data|);
      CacheShrink();
    }

    /** The least recently used entry leaves both structures. */
    method RemoveOldest() returns (e: Entry)
      requires Mirrors(order, rows) && Linked(rows, entries, lru, counter) && |rows| > 0
      modifies this`entries, this`lru, this`order, this`rows
      ensures Mirrors(order, rows) && Linked(rows, entries, lru, counter)
      ensures e == old(order)[0] && order == old(order)[1..] && rows == old(rows)[1..]
      ensures forall i :: 0 <= i < |rows| ==> rows[i].e != e
      ensures forall td :: td in entries ==> td in old(entries)
    {
      hide *;
      var node := Leftmost();
      e := lru[node];
      DroppedMirrors(order, rows);
      DroppedLinked(rows, entries, lru, counter);
      lru := lru - {node};
      entries := entries - {e.item.td};
      order, rows := order[1..], rows[1..];
    }

    /** The least recently used entry leaves for good.  The source has no such step that works;
        it is part of the intended `cache_shrink` (`CacheIntent`). */
    method PopOldest() returns (length: nat)
      requires Valid() && size > 0
      modifies this
      ensures Valid() && Contents() == old(Contents())[1..] && length == |old(Contents())[0].data|
      ensures forall e :: e in order ==> e in old(order)
    {
      hide Linked, TotalLength, MinusWrapped;
      PoppedMemory(budget, rows);
      var e := RemoveOldest();
      length := |e.item.data|;
      memory := (memory + length) % SIZE_LIMIT;
      size := size - 1;
    }

    /** `cache_replace`: the entry of the victim is used for the new item. */
    method CacheReplace(item: Item)
      requires Valid() && 0 < size && size + 1 == max_entries && item.td !in entries
      modifies this, order
      ensures Valid() && Contents() == old(Contents())[1..] + [item]
      ensures forall e :: e in order ==> e in old(order)
    {
      hide Linked, TotalLength, MinusWrapped, Put, Evicted, Touch, IndexOf;
      ReplacedMemory(budget, rows, item);
      var e := RemoveOldest();
      memory := (memory + |e.item.data|) % SIZE_LIMIT;
      Enter(e, item);
      memory := MinusWrapped(memory, |item.data|);
      CacheShrink();
    }

    /** `rbtree_leftmost`. */
    method Leftmost() returns (s: int)
      requires Linked(rows, entries, lru, counter) && |rows| > 0
      ensures s in lru && lru[s] == rows[0].e && s == rows[0].stamp
    {
      forall t | t in lru ensures rows[0].stamp <= t {}
      assert rows[0].stamp in lru;
      s :| s in lru && forall t :: t in lru ==> s <= t;
      LeftmostIsOldest(rows, lru, counter, s);
    }

    /** `cache_shrink`.  The memory left is unsigned, so the condition of its loop never holds. */
    method CacheShrink()
    {
      if memory < 0 { assert false; }
    }

    /** `rbtree_move` and the new stamp. */
    method MoveToEnd(e: Entry, ghost i: nat)
      requires Mirrors(order, rows) && Distinct(rows) && i < |order| && order[i] == e
      modifies this`lru, this`counter, this`order, this`rows, e
      ensures Mirrors(order, rows) && forall x :: x in order ==> x in old(order)
      ensures rows == Moved(old(rows), i, Row(old(rows[i].e), old(rows[i].item), old(counter)))
      ensures lru == Rekeyed(old(lru), old(rows[i].stamp), old(counter), old(rows[i].e))
      ensures counter == old(counter) + 1
    {
      OthersStay(rows, i);
      hide Distinct, Moved;
      lru := Rekeyed(lru, e.stamp, counter, e);
      e.stamp := counter;
      MovedMirrors(order, rows, i);
      order := Without(order, i) + [e];
      rows := Moved(rows, i, Row(e, e.item, counter));
      counter := counter + 1;
    }
  }

  lemma {:induction false} AddedMemory(budget: nat, rows: seq<Row>, item: Item)
    ensures MinusWrapped(MinusWrapped(budget, TotalLength(Items(rows))), |item.data|)
            == MinusWrapped(budget, TotalLength(Items(rows) + [item]))
  {
    TotalAppend(Items(rows), [item]);
    OneItem(item);
  }

  /** What the victim gives back, what the new item takes. */
  lemma {:induction false} ReplacedMemory(budget: nat, rows: seq<Row>, item: Item)
    requires |rows| > 0
    ensures Items(rows[1..]) == Items(rows)[1..]
    ensures MinusWrapped((MinusWrapped(budget, TotalLength(Items(rows))) + |rows[0].item.data|) % SIZE_LIMIT, |item.data|)
            == MinusWrapped(budget, TotalLength(Items(rows[1..]) + [item]))
  {
    assert Items(rows[1..]) == Items(rows)[1..];
    TotalAppend(Items(rows)[1..], [item]);
    OneItem(item);
  }

  lemma {:induction false} PoppedMemory(budget: nat, rows: seq<Row>)
    requires |rows| > 0
    ensures Items(rows[1..]) == Items(rows)[1..]
    ensures (MinusWrapped(budget, TotalLength(Items(rows))) + |rows[0].item.data|) % SIZE_LIMIT
            == MinusWrapped(budget, TotalLength(Items(rows[1..])))
  {
    assert Items(rows[1..]) == Items(rows)[1..];
  }

  lemma OneItem(item: Item)
    ensures TotalLength([item]) == |item.data|
  {
  }

  lemma AppendedItems(rows: seq<Row>, r: Row)
    ensures Items(rows + [r]) == Items(rows) + [r.item]
  {
  }

  lemma OthersStay(rows: seq<Row>, i: nat)
    requires Distinct(rows) && i < |rows|
    ensures forall k :: 0 <= k < |rows| && k != i ==> rows[k].e != rows[i].e
  {
  }
}
