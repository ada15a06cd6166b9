/** What the cache keeps: the most recently used items, and what its budget is worth. */
module CacheTheorems {
  import opened Options
  import opened Bytes
  import opened Cache

  // ---------------------------------------------------------------- least recently used

  /** The last `n` items. */
  function Last(items: seq<Item>, n: nat): seq<Item> {
    if |items| <= n then items else items[|items| - n..]
  }

  /** Every item ever used, in the order of its last use: a cache without bound. */
  function Use(all: seq<Item>, item: Item): seq<Item> {
    var r := IndexOf(all, item.td);
    if r.None? then all + [item] else Without(all, r.value) + [item]
  }

  lemma IndexIsUnique(items: seq<Item>, i: nat)
    requires DistinctIds(items) && i < |items|
    ensures IndexOf(items, items[i].td) == Some(i)
  {
  }

  lemma LastAt(all: seq<Item>, n: nat, i: nat)
    requires i < |Last(all, n)|
    ensures Last(all, n)[i] == all[|all| - |Last(all, n)| + i]
  {
  }

  lemma LastDistinct(all: seq<Item>, n: nat)
    requires DistinctIds(all)
    ensures DistinctIds(Last(all, n))
  {
  }

  lemma WithoutSplit(all: seq<Item>, d: nat, i: nat)
    requires d + i < |all|
    ensures Without(all, d + i) + [all[d + i]] == all[..d] + (Without(all[d..], i) + [all[d..][i]])
  {
  }

  lemma LastOfSplit(front: seq<Item>, back: seq<Item>, n: nat)
    requires |back| == n || (|back| <= n && front == [])
    ensures Last(front + back, n) == back
  {
  }

  /** A retrieval moves the same item to the end of the cache and of the full history. */
  lemma {:induction false} TouchKeepsLast(all: seq<Item>, n: nat, td: Id)
    requires DistinctIds(all) && IndexOf(Last(all, n), td).Some?
    ensures Touch(Last(all, n), td) == Last(Touch(all, td), n)
    ensures DistinctIds(Touch(all, td))
  {
    hide DistinctIds, IndexOf, Without;
    var kept := Last(all, n);
    var i := IndexOf(kept, td).value;
    var d := |all| - |kept|;
    LastAt(all, n, i);
    IndexIsUnique(all, d + i);
    WithoutSplit(all, d, i);
    assert all[d..] == kept;
    WithoutSize(kept, i);
    LastOfSplit(all[..d], Without(kept, i) + [kept[i]], n);
    WithoutDistinct(all, d + i);
  }

  lemma WithoutSize(items: seq<Item>, i: nat)
    requires i < |items|
    ensures |Without(items, i)| == |items| - 1
  {
  }

  lemma WithoutDistinct(all: seq<Item>, i: nat)
    requires DistinctIds(all) && i < |all|
    ensures DistinctIds(Without(all, i) + [all[i]])
  {
  }

  lemma OlderThanLast(all: seq<Item>, n: nat, i: nat)
    requires i < |all| && IndexOf(Last(all, n), all[i].td).None?
    ensures i < |all| - |Last(all, n)|
  {
  }

  /** One more item after `front + kept`. */
  lemma LastAfterPut(front: seq<Item>, kept: seq<Item>, n: nat, item: Item)
    requires n >= 1 && (|kept| == n || (|kept| < n && front == []))
    ensures Last(front + kept + [item], n) == Put(kept, item, n + 1)
  {
  }

  /** A store of an item that is not in the cache. */
  lemma {:induction false} PutKeepsLast(all: seq<Item>, n: nat, item: Item)
    requires n >= 1 && DistinctIds(all) && IndexOf(Last(all, n), item.td).None?
    ensures Put(Last(all, n), item, n + 1) == Last(Use(all, item), n)
    ensures DistinctIds(Use(all, item))
  {
    hide IndexOf, Put;
    var kept := Last(all, n);
    var r := IndexOf(all, item.td);
    var d := |all| - |kept|;
    assert all == all[..d] + kept;
    if r.None? {
      LastAfterPut(all[..d], kept, n, item);
      NewIsDistinct(all, item);
    } else {
      OlderThanLast(all, n, r.value);
      WithoutDistinct(all, r.value);
      ReplaceLast(Without(all, r.value), all[r.value], item);
      WithoutFront(all[..d], kept, r.value);
      LastAfterPut(Without(all[..d], r.value), kept, n, item);
    }
  }

  lemma WithoutFront(front: seq<Item>, back: seq<Item>, i: nat)
    requires i < |front|
    ensures Without(front + back, i) == Without(front, i) + back
  {
  }

  lemma NewIsDistinct(all: seq<Item>, item: Item)
    requires DistinctIds(all) && IndexOf(all, item.td).None?
    ensures DistinctIds(all + [item])
  {
  }

  lemma {:induction false} ReplaceLast(front: seq<Item>, a: Item, b: Item)
    requires DistinctIds(front + [a]) && a.td == b.td
    ensures DistinctIds(front + [b])
  {
    forall j, k | 0 <= j < k < |front + [b]| ensures (front + [b])[j].td != (front + [b])[k].td {
      assert (front + [a])[j].td != (front + [a])[k].td;
    }
  }

  datatype Op = Stored(item: Item) | Retrieved(td: Id)

  /** The cache after a history of operations, and the items in the order of their last use. */
  function Run(ops: seq<Op>, capacity: nat): seq<Item> {
    if |ops| == 0 then []
    else
      var items := Run(ops[..|ops| - 1], capacity);
      match ops[|ops| - 1]
      case Stored(item) => Put(items, item, capacity)
      case Retrieved(td) => Touch(items, td)
  }

  function History(ops: seq<Op>, capacity: nat): seq<Item> {
    if |ops| == 0 then []
    else
      var all := History(ops[..|ops| - 1], capacity);
      match ops[|ops| - 1]
      case Stored(item) => Use(all, item)
      case Retrieved(td) => if IndexOf(Run(ops[..|ops| - 1], capacity), td).Some? then Touch(all, td) else all
  }

  /** Only items that are not in the cache are stored. */
  predicate NoStoreOfCached(ops: seq<Op>, capacity: nat) {
    forall i :: 0 <= i < |ops| && ops[i].Stored? ==> IndexOf(Run(ops[..i], capacity), ops[i].item.td).None?
  }

  /** After any history a cache of capacity two or more holds exactly the `capacity - 1` items
      that were used last, in the order of their last use. */
  lemma {:induction false} KeepsMostRecentlyUsed(ops: seq<Op>, capacity: nat)
    requires capacity >= 2 && NoStoreOfCached(ops, capacity)
    ensures Run(ops, capacity) == Last(History(ops, capacity), capacity - 1)
    ensures |Run(ops, capacity)| <= capacity - 1
    ensures DistinctIds(History(ops, capacity)) && DistinctIds(Run(ops, capacity))
  {
    hide Put, Use, Touch, IndexOf, Last, DistinctIds;
    if |ops| == 0 {
      EmptyHistory(capacity - 1);
    } else {
      var front := ops[..|ops| - 1];
      forall i | 0 <= i < |front| ensures front[..i] == ops[..i] && front[i] == ops[i] {}
      KeepsMostRecentlyUsed(front, capacity);
      var all := History(front, capacity);
      match ops[|ops| - 1] {
        case Stored(item) => PutKeepsLast(all, capacity - 1, item);
        case Retrieved(td) =>
          if IndexOf(Run(front, capacity), td).Some? { TouchKeepsLast(all, capacity - 1, td); }
          else { MissChangesNothing(Run(front, capacity), td); }
      }
    }
    LastSize(History(ops, capacity), capacity - 1);
    LastDistinct(History(ops, capacity), capacity - 1);
  }

  lemma EmptyHistory(n: nat)
    ensures Last([], n) == [] && DistinctIds([])
  {
  }

  lemma LastSize(all: seq<Item>, n: nat)
    ensures |Last(all, n)| <= n
  {
  }

  lemma MissChangesNothing(items: seq<Item>, td: Id)
    requires IndexOf(items, td).None?
    ensures Touch(items, td) == items
  {
  }

  // ---------------------------------------------------------------- the memory budget

  /** A store keeps the lengths within the budget exactly if the item fits into what is left
      and what the victim gives back: nothing is ever evicted for its length. */
  lemma {:induction false} BudgetKeptIff(items: seq<Item>, item: Item, capacity: nat, budget: nat)
    requires capacity > 0 && budget < SIZE_LIMIT && TotalLength(items) <= budget
    ensures TotalLength(Put(items, item, capacity)) <= budget
            <==> |item.data| <= MinusWrapped(budget, TotalLength(items)) + Evicted(items, capacity)
  {
    TotalPut(items, item, capacity);
  }

  /** One item of two bytes in a budget of one: it stays, and nearly all memory counts as left. */
  lemma BudgetExceeded()
    ensures var items := Put([], Item(1, 0, [7, 7]), 10);
      TotalLength(items) == 2 && MinusWrapped(1, TotalLength(items)) == SIZE_LIMIT - 1
  {
  }
}
