/** What `cache_shrink` of code/src/turbine/cache.c:230-250 is meant to do, as its comment says:
    evict until the cache is within its budget again.  This is the intent and not the code, which
    counts memory without a sign, so that its loop never runs, and whose loop would leave the
    victims in the table.  Here memory has a sign, and a victim leaves both structures. */
module CacheIntent {
  import opened Options
  import opened Bytes
  import opened Cache
  import opened CacheTheorems

  // ---------------------------------------------------------------- shrinking a list

  /** The oldest items leave as long as the lengths exceed the budget. */
  function Shrunk(items: seq<Item>, budget: nat): seq<Item> {
    if TotalLength(items) <= budget then items else Shrunk(items[1..], budget)
  }

  lemma {:induction false} TotalTail(items: seq<Item>, j: nat, k: nat)
    requires j <= k <= |items|
    ensures TotalLength(items[k..]) <= TotalLength(items[j..])
  {
    assert items[j..] == items[j..k] + items[k..];
    TotalAppend(items[j..k], items[k..]);
  }

  /** What leaves is the shortest oldest part whose loss brings the rest within the budget. */
  lemma {:induction false} ShrunkIsShortest(items: seq<Item>, budget: nat) returns (d: nat)
    ensures d <= |items| && Shrunk(items, budget) == items[d..] && TotalLength(items[d..]) <= budget
    ensures forall m :: 0 <= m < d ==> TotalLength(items[m..]) > budget
  {
    if TotalLength(items) <= budget {
      d := 0;
    } else {
      var rest := ShrunkIsShortest(items[1..], budget);
      d := rest + 1;
      forall k | 1 <= k <= |items| ensures items[1..][k - 1..] == items[k..] {}
      forall m | 0 <= m < d ensures TotalLength(items[m..]) > budget {
        if m > 0 { assert items[1..][m - 1..] == items[m..]; } else { assert items[0..] == items; }
      }
    }
  }

  /** And nothing else is like that: what is left is known by fitting, and by not fitting with the
      item before it. */
  lemma {:induction false} ShrunkIs(items: seq<Item>, budget: nat, d: nat)
    requires d <= |items|
    requires TotalLength(items[d..]) <= budget && (d > 0 ==> TotalLength(items[d - 1..]) > budget)
    ensures Shrunk(items, budget) == items[d..]
  {
    hide Shrunk, TotalLength;
    var c := ShrunkIsShortest(items, budget);
    if c < d { TotalTail(items, c, d - 1); }
  }

  /** A new item that fits into the budget by itself stays; a longer one leaves, and takes all
      others along. */
  lemma {:induction false} NewItemStaysIff(items: seq<Item>, item: Item, budget: nat)
    ensures if |item.data| <= budget then Shrunk(items + [item], budget) != []
              && Shrunk(items + [item], budget)[|Shrunk(items + [item], budget)| - 1] == item
            else Shrunk(items + [item], budget) == []
  {
    var all := items + [item];
    var d := ShrunkIsShortest(all, budget);
    OneItem(item);
    assert all[|items|..] == [item];
    if d <= |items| { TotalTail(all, d, |items|); }
    assert all[|all|..] == [];
  }

  // ---------------------------------------------------------------- the cache that shrinks

  class SignedCache {
    const cache: Cache
    var memory: int

    /** The memory left and the lengths make up the budget; no store leaves it negative. */
    ghost predicate Valid()
      reads this, cache, cache.order
    {
      cache.Valid() && memory == cache.budget - TotalLength(cache.Contents()) && memory >= 0
    }

    constructor (cache: Cache, max_memory: nat)
      requires cache.Valid() && cache.Contents() == [] && cache.budget == max_memory
      ensures Valid() && this.cache == cache
    {
      this.cache, memory := cache, max_memory;
    }

    /** `turbine_cache_store`. */
    method Store(item: Item) returns (code: Code)
      requires Valid() && IndexOf(cache.Contents(), item.td).None?
      modifies this, cache, cache.order
      ensures code == if cache.max_entries == 1 then Crash else Success
      ensures code == Success ==>
        Valid() && cache.Contents() == Shrunk(Put(old(cache.Contents()), item, cache.max_entries), cache.budget)
        && forall e :: e in cache.order ==> e in old(cache.order) || fresh(e)
    {
      hide Cache.Valid, IndexOf, Put, TotalLength;
      ghost var items := cache.Contents();
      ShrunkAlready(items, cache.budget);
      if cache.max_entries == 0 {
        StoreNothing(items, item);
        return Success;
      }
      var given := GivenBack();
      code := cache.Store(item);
      if code.Crash? { return; }
      TotalPut(items, item, cache.max_entries);
      memory := memory + given - |item.data|;
      Shrink();
    }

    /** What the victim of the store gives back. */
    method GivenBack() returns (length: nat)
      requires cache.Valid() && cache.max_entries > 0
      ensures length == Evicted(cache.Contents(), cache.max_entries)
    {
      length := 0;
      if cache.max_entries - cache.size == 1 && cache.size > 0 {
        var node := cache.Leftmost();
        length := |cache.lru[node].item.data|;
      }
    }

    /** `cache_shrink`. */
    method Shrink()
      requires cache.Valid() && memory == cache.budget - TotalLength(cache.Contents())
      modifies this, cache
      ensures Valid() && cache.Contents() == Shrunk(old(cache.Contents()), cache.budget)
      ensures forall e :: e in cache.order ==> e in old(cache.order)
    {
      hide Cache.Valid, Shrunk, TotalLength;
      while memory < 0
        invariant cache.Valid() && memory == cache.budget - TotalLength(cache.Contents())
        invariant Shrunk(cache.Contents(), cache.budget) == Shrunk(old(cache.Contents()), cache.budget)
        invariant forall e :: e in cache.order ==> e in old(cache.order)
        decreases |cache.Contents()|
      {
        OneLess(cache.Contents(), cache.budget);
        SizeIsLength();
        var length := cache.PopOldest();
        memory := memory + length;
      }
      ShrunkAlready(cache.Contents(), cache.budget);
    }

    lemma SizeIsLength()
      requires cache.Valid()
      ensures cache.size == |cache.Contents()|
    {
    }
  }

  lemma OneLess(items: seq<Item>, budget: nat)
    requires TotalLength(items) > budget
    ensures |items| > 0 && Shrunk(items, budget) == Shrunk(items[1..], budget)
    ensures TotalLength(items) == |items[0].data| + TotalLength(items[1..])
  {
  }

  lemma ShrunkAlready(items: seq<Item>, budget: nat)
    ensures TotalLength(items) <= budget ==> Shrunk(items, budget) == items
  {
  }

  lemma StoreNothing(items: seq<Item>, item: Item)
    ensures Put(items, item, 0) == items
  {
  }

  // ---------------------------------------------------------------- all histories

  /** The cache after a history of operations. */
  function Run(ops: seq<Op>, capacity: nat, budget: nat): seq<Item> {
    if |ops| == 0 then []
    else
      var items := Run(ops[..|ops| - 1], capacity, budget);
      match ops[|ops| - 1]
      case Stored(item) => Shrunk(Put(items, item, capacity), budget)
      case Retrieved(td) => Touch(items, td)
  }

  /** The items in the order of their last use. */
  function History(ops: seq<Op>, capacity: nat, budget: nat): seq<Item> {
    if |ops| == 0 then []
    else
      var all := History(ops[..|ops| - 1], capacity, budget);
      match ops[|ops| - 1]
      case Stored(item) => Use(all, item)
      case Retrieved(td) =>
        if IndexOf(Run(ops[..|ops| - 1], capacity, budget), td).Some? then Touch(all, td) else all
  }

  predicate NoStoreOfCached(ops: seq<Op>, capacity: nat, budget: nat) {
    forall i :: 0 <= i < |ops| && ops[i].Stored? ==>
      IndexOf(Run(ops[..i], capacity, budget), ops[i].item.td).None?
  }

  /** A datum is written once, so it always has the same length. */
  predicate OneLength(items: seq<Item>, length: Id -> nat) {
    forall i :: 0 <= i < |items| ==> |items[i].data| == length(items[i].td)
  }

  predicate OpsOneLength(ops: seq<Op>, length: Id -> nat) {
    forall i :: 0 <= i < |ops| && ops[i].Stored? ==> |ops[i].item.data| == length(ops[i].item.td)
  }

  predicate Fits(items: seq<Item>, n: nat, budget: nat) {
    |items| <= n && TotalLength(items) <= budget
  }

  /** `kept` fits, and with the last of `front` before it it would not. */
  predicate Maximal(front: seq<Item>, kept: seq<Item>, n: nat, budget: nat) {
    Fits(kept, n, budget) && (|front| > 0 ==> !Fits([front[|front| - 1]] + kept, n, budget))
  }

  lemma {:induction false} OneMore(x: Item, items: seq<Item>)
    ensures |[x] + items| == |items| + 1 && TotalLength([x] + items) == |x.data| + TotalLength(items)
  {
    assert ([x] + items)[1..] == items;
  }

  /** No longer end of the list fits. */
  lemma {:induction false} MaximalIsLongest(front: seq<Item>, kept: seq<Item>, n: nat, budget: nat, d: nat)
    requires Maximal(front, kept, n, budget) && d < |front|
    ensures !Fits((front + kept)[d..], n, budget)
  {
    var all, m := front + kept, |front| - 1;
    TotalTail(all, d, m);
    assert all[m..] == [front[m]] + kept;
  }

  lemma {:induction false} TouchSplit(front: seq<Item>, kept: seq<Item>, td: Id)
    requires DistinctIds(front + kept) && IndexOf(kept, td).Some?
    ensures Touch(front + kept, td) == front + Touch(kept, td)
    ensures DistinctIds(front + Touch(kept, td)) && |Touch(kept, td)| == |kept|
  {
    hide DistinctIds, IndexOf, Without;
    var all, d, i := front + kept, |front|, IndexOf(kept, td).value;
    assert all[d + i] == kept[i] && all[..d] == front && all[d..] == kept;
    IndexIsUnique(all, d + i);
    WithoutSplit(all, d, i);
    WithoutSize(kept, i);
    WithoutDistinct(all, d + i);
  }

  lemma {:induction false} MaximalTouch(front: seq<Item>, kept: seq<Item>, td: Id, n: nat, budget: nat)
    requires Maximal(front, kept, n, budget) && |Touch(kept, td)| == |kept|
    ensures Maximal(front, Touch(kept, td), n, budget)
  {
    TotalTouch(kept, td);
    if |front| > 0 {
      OneMore(front[|front| - 1], kept);
      OneMore(front[|front| - 1], Touch(kept, td));
    }
  }

  /** The older items, when `item` is used again. */
  function Unused(front: seq<Item>, item: Item): seq<Item> {
    var r := IndexOf(front, item.td);
    if r.None? then front else Without(front, r.value)
  }

  lemma {:induction false} UseSplit(front: seq<Item>, kept: seq<Item>, item: Item)
    requires DistinctIds(front + kept) && IndexOf(kept, item.td).None?
    ensures Use(front + kept, item) == Unused(front, item) + (kept + [item])
    ensures DistinctIds(Use(front + kept, item))
  {
    var all := front + kept;
    var r := IndexOf(front, item.td);
    if r.Some? {
      assert all[r.value] == front[r.value];
      IndexIsUnique(all, r.value);
      WithoutFront(front, kept, r.value);
      WithoutDistinct(all, r.value);
      ReplaceLast(Without(all, r.value), all[r.value], item);
    } else {
      InNeither(front, kept, item.td);
      NewIsDistinct(all, item);
    }
    hide IndexOf, DistinctIds, Without;
  }

  lemma InNeither(a: seq<Item>, b: seq<Item>, td: Id)
    requires IndexOf(a, td).None? && IndexOf(b, td).None?
    ensures IndexOf(a + b, td).None?
  {
  }

  /** Whether the last older item would fit does not depend on the one that was used again. */
  lemma {:induction false} StillTooLong(front: seq<Item>, kept: seq<Item>, item: Item, n: nat, budget: nat,
                                        length: Id -> nat)
    requires Maximal(front, kept, n, budget) && |kept| + 1 < n && |Unused(front, item)| > 0
    requires OneLength(front, length) && |item.data| == length(item.td)
    requires TotalLength(kept + [item]) <= budget
    ensures !Fits([Unused(front, item)[|Unused(front, item)| - 1]] + (kept + [item]), n, budget)
  {
    var older := Unused(front, item);
    var last := front[|front| - 1];
    OneMore(last, kept);
    OneMore(older[|older| - 1], kept + [item]);
    TotalAppend(kept, [item]);
    OneItem(item);
    if last.td != item.td { assert older[|older| - 1] == last; }
  }

  /** What a store makes of the list, before it shrinks. */
  lemma {:induction false} PutSplit(older: seq<Item>, kept: seq<Item>, item: Item, n: nat) returns (front: seq<Item>)
    requires n >= 1 && |kept| <= n
    ensures front + Put(kept, item, n + 1) == older + (kept + [item]) && |Put(kept, item, n + 1)| <= n
    ensures |kept| < n ==> front == older && Put(kept, item, n + 1) == kept + [item]
    ensures |kept| == n ==> |Put(kept, item, n + 1)| == n
  {
    front := if |kept| == n then older + [kept[0]] else older;
    if |kept| == n { assert kept == [kept[0]] + kept[1..]; }
  }

  lemma {:induction false} MaximalPut(front: seq<Item>, kept: seq<Item>, item: Item, n: nat, budget: nat,
                                      length: Id -> nat) returns (front': seq<Item>)
    requires n >= 1 && Maximal(front, kept, n, budget)
    requires OneLength(front, length) && |item.data| == length(item.td)
    ensures front' + Shrunk(Put(kept, item, n + 1), budget) == Unused(front, item) + (kept + [item])
    ensures Maximal(front', Shrunk(Put(kept, item, n + 1), budget), n, budget)
  {
    hide Unused, Put, OneLength, TotalLength, Shrunk;
    var p := Put(kept, item, n + 1);
    var before := PutSplit(Unused(front, item), kept, item, n);
    var j := ShrunkIsShortest(p, budget);
    front' := before + p[..j];
    assert p == p[..j] + p[j..];
    if j > 0 {
      assert [p[j - 1]] + p[j..] == p[j - 1..];
    } else if |front'| > 0 {
      assert front' == before && p[0..] == p;
      if |p| < n { StillTooLong(front, kept, item, n, budget, length); }
    }
  }

  lemma UsedOneLength(all: seq<Item>, item: Item, length: Id -> nat)
    requires OneLength(all, length) && |item.data| == length(item.td)
    ensures OneLength(Use(all, item), length)
  {
  }

  lemma TouchedOneLength(all: seq<Item>, td: Id, length: Id -> nat)
    requires OneLength(all, length)
    ensures OneLength(Touch(all, td), length)
  {
  }

  lemma {:induction false} FrontOneLength(front: seq<Item>, kept: seq<Item>, length: Id -> nat)
    requires OneLength(front + kept, length)
    ensures OneLength(front, length)
  {
    forall i | 0 <= i < |front| ensures |front[i].data| == length(front[i].td) {
      assert (front + kept)[i] == front[i];
    }
  }

  /** After any history the cache that shrinks as intended holds exactly the most recently used
      items: as many, counted from the last use backwards, as fit into its capacity and its
      budget. */
  lemma {:induction false} KeepsLongestThatFits(ops: seq<Op>, capacity: nat, budget: nat, length: Id -> nat)
    returns (front: seq<Item>)
    requires capacity >= 2 && NoStoreOfCached(ops, capacity, budget) && OpsOneLength(ops, length)
    ensures History(ops, capacity, budget) == front + Run(ops, capacity, budget)
    ensures Maximal(front, Run(ops, capacity, budget), capacity - 1, budget)
    ensures forall d :: 0 <= d < |front| ==> !Fits(History(ops, capacity, budget)[d..], capacity - 1, budget)
    ensures DistinctIds(History(ops, capacity, budget)) && OneLength(History(ops, capacity, budget), length)
  {
    hide Put, Use, Touch, IndexOf, DistinctIds, Maximal, Shrunk, OneLength, Unused;
    if |ops| == 0 {
      front := [];
      NothingHeld(capacity - 1, budget, length);
    } else {
      var last := |ops| - 1;
      var earlier := ops[..last];
      forall i | 0 <= i < last ensures earlier[..i] == ops[..i] && earlier[i] == ops[i] {}
      front := KeepsLongestThatFits(earlier, capacity, budget, length);
      var all, kept := History(earlier, capacity, budget), Run(earlier, capacity, budget);
      match ops[last] {
        case Stored(item) =>
          UseSplit(front, kept, item);
          FrontOneLength(front, kept, length);
          UsedOneLength(all, item, length);
          front := MaximalPut(front, kept, item, capacity - 1, budget, length);
        case Retrieved(td) =>
          if IndexOf(kept, td).Some? {
            TouchSplit(front, kept, td);
            MaximalTouch(front, kept, td, capacity - 1, budget);
            TouchedOneLength(all, td, length);
          } else {
            MissChangesNothing(kept, td);
          }
      }
    }
    hide Run, History;
    forall d | 0 <= d < |front| ensures !Fits(History(ops, capacity, budget)[d..], capacity - 1, budget) {
      MaximalIsLongest(front, Run(ops, capacity, budget), capacity - 1, budget, d);
    }
  }

  lemma NothingHeld(n: nat, budget: nat, length: Id -> nat)
    ensures Maximal([], [], n, budget) && DistinctIds([]) && OneLength([], length)
  {
  }
}
