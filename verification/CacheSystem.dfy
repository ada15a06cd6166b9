/** Workers with least-recently-used caches, code/src/turbine/cache.c, that run the procedures of
    code/lib/data.tcl on one data store: together they are what `CacheClients` says of caches that
    may lose any entry. */
module CacheSystem {
  import opened Options
  import opened Bytes
  import opened Cache
  import opened CacheTheorems
  import opened CacheWorker
  import CC = CacheClients

  type Lists = map<nat, seq<Item>>

  function ListOf(lists: Lists, w: nat): seq<Item> {
    if w in lists then lists[w] else []
  }

  /** The cache of a worker as a map. */
  function MapOf(items: seq<Item>): (m: map<Id, CC.Written>)
    ensures forall td :: td in m <==> Held(items, td).Some?
    ensures forall td :: td in m ==> m[td] == Held(items, td).value
  {
    map td | td in (set i | 0 <= i < |items| :: items[i].td) :: Held(items, td).value
  }

  /** One operation of a worker of capacity other than one, as `Worker.Store`, `Worker.Retrieve`
      and `Worker.ReadOne` do it. */
  function WorkerStep(st: CC.Store, lists: Lists, capacity: nat, op: CC.Op): (CC.Result, CC.Store, Lists) {
    match op
    case Stored(w, id, k, v, keep) =>
      var r := StoreOutcome(st, ListOf(lists, w), capacity, id, k, v, keep);
      (if r.0.Ok? then CC.Nothing else CC.Result.Error, r.1, lists[w := r.2])
    case Retrieved(w, id, asked, n, keep) =>
      var r := ReadOutcome(st, ListOf(lists, w), capacity, id, asked, true, keep, n);
      (if r.0.Ok? then CC.Value(r.0.value) else CC.Result.Error, r.1, lists[w := r.2])
    case _ => var r := CC.PlainStep(st, op); (r.0, r.1, lists)
  }

  /** The list of a worker, with the ids distinct and everything as it was written. */
  ghost predicate GoodList(st: CC.Store, items: seq<Item>) {
    DistinctIds(items) && Honest(items, st)
  }

  ghost predicate GoodLists(st: CC.Store, lists: Lists) {
    forall w :: GoodList(st, ListOf(lists, w))
  }

  // ---------------------------------------------------------------- one step

  lemma {:induction false} HeldAt(items: seq<Item>, i: nat)
    requires DistinctIds(items) && i < |items|
    ensures Held(items, items[i].td) == Some(CC.Written(items[i].kind, items[i].data))
  {
    IndexIsUnique(items, i);
  }

  /** Two lists of the same items hold the same. */
  lemma {:induction false} HeldSame(a: seq<Item>, b: seq<Item>, td: Id)
    requires DistinctIds(a) && DistinctIds(b) && forall x :: x in a <==> x in b
    ensures Held(a, td) == Held(b, td)
  {
    hide Held, DistinctIds;
    if Held(a, td).Some? { SomeHeld(a, b, td); }
    if Held(b, td).Some? { SomeHeld(b, a, td); }
  }

  lemma {:induction false} TouchSame(items: seq<Item>, td: Id)
    requires DistinctIds(items)
    ensures DistinctIds(Touch(items, td)) && forall x :: x in Touch(items, td) <==> x in items
  {
    var r := IndexOf(items, td);
    if r.Some? {
      WithoutDistinct(items, r.value);
      var t := Without(items, r.value) + [items[r.value]];
      forall x | x in items ensures x in t {
        var k :| 0 <= k < |items| && items[k] == x;
        assert t[if k < r.value then k else if k == r.value then |items| - 1 else k - 1] == x;
      }
    }
  }

  /** A hit moves an item and loses none. */
  lemma {:induction false} TouchMap(st: CC.Store, items: seq<Item>, td: Id)
    requires GoodList(st, items)
    ensures GoodList(st, Touch(items, td)) && MapOf(Touch(items, td)) == MapOf(items)
  {
    TouchSame(items, td);
    HonestTouch(items, td, st);
    hide DistinctIds, Honest, Touch, Held;
    forall x ensures Held(Touch(items, td), x) == Held(items, x) { HeldSame(Touch(items, td), items, x); }
  }

  /** A new item, with at most one other lost. */
  lemma {:induction false} PutMap(st: CC.Store, items: seq<Item>, item: Item, capacity: nat)
    requires GoodList(st, items) && Held(items, item.td).None?
    requires item.td in st.written && st.written[item.td] == CC.Written(item.kind, item.data)
    ensures GoodList(st, Put(items, item, capacity))
    ensures Within(MapOf(Put(items, item, capacity)), MapOf(items)[item.td := CC.Written(item.kind, item.data)])
  {
    HonestPut(items, item, capacity, st);
    NewIsDistinct(items, item);
    PutWithin(items, item, capacity);
    AppendMap(items, item);
    hide Held, Honest;
  }

  lemma {:induction false} PutWithin(items: seq<Item>, item: Item, capacity: nat)
    requires DistinctIds(items + [item])
    ensures Within(MapOf(Put(items, item, capacity)), MapOf(items + [item]))
  {
    var p, all := Put(items, item, capacity), items + [item];
    PutSome(items, item, capacity);
    hide DistinctIds, Put, Held;
    forall td | td in MapOf(p) ensures td in MapOf(all) && MapOf(p)[td] == MapOf(all)[td] {
      SomeHeld(p, all, td);
    }
  }

  lemma PutSome(items: seq<Item>, item: Item, capacity: nat)
    ensures forall x :: x in Put(items, item, capacity) ==> x in items + [item]
  {
  }

  /** What a list holds, any longer list holds too. */
  lemma {:induction false} SomeHeld(a: seq<Item>, b: seq<Item>, td: Id)
    requires DistinctIds(b) && (forall x :: x in a ==> x in b) && Held(a, td).Some?
    ensures Held(b, td) == Held(a, td)
  {
    var i := IndexOf(a, td).value;
    assert a[i] in b;
    var k :| 0 <= k < |b| && b[k] == a[i];
    HeldAt(b, k);
  }

  lemma {:induction false} AppendMap(items: seq<Item>, item: Item)
    requires DistinctIds(items + [item]) && Held(items, item.td).None?
    ensures MapOf(items + [item]) == MapOf(items)[item.td := CC.Written(item.kind, item.data)]
  {
    var all, m := items + [item], MapOf(items)[item.td := CC.Written(item.kind, item.data)];
    assert all[|items|] == item;
    HeldAt(all, |items|);
    hide DistinctIds, Held;
    forall td ensures Held(all, td) == if td == item.td then Some(m[td]) else Held(items, td) {
      if td != item.td { AppendHeld(items, item, td); }
    }
  }

  lemma {:induction false} AppendHeld(items: seq<Item>, item: Item, td: Id)
    requires DistinctIds(items + [item]) && td != item.td
    ensures Held(items + [item], td) == Held(items, td)
  {
    var i := IndexOf(items, td);
    if i.Some? {
      assert (items + [item])[i.value] == items[i.value];
      HeldAt(items + [item], i.value);
    }
  }

  /** What is left of a cache that has lost entries. */
  predicate Within(m: map<Id, CC.Written>, n: map<Id, CC.Written>) {
    forall td :: td in m ==> td in n && m[td] == n[td]
  }

  /** A worker's step is that of a client with the same cache, which then may lose an entry. */
  lemma {:induction false} StepIsClients(st: CC.Store, lists: Lists, capacity: nat, op: CC.Op)
    requires capacity != 1 && CC.Sound(st) && GoodLists(st, lists) && (op.Stored? || op.Retrieved?)
    ensures var caches := map[op.w := MapOf(ListOf(lists, op.w))];
      var r, c := WorkerStep(st, lists, capacity, op), CC.CachedStep(st, caches, op);
      && r.0 == c.0 && r.1 == c.1
      && GoodList(r.1, ListOf(r.2, op.w)) && Within(MapOf(ListOf(r.2, op.w)), CC.CacheOf(c.2, op.w))
  {
    assert GoodList(st, ListOf(lists, op.w));
    hide *;
    if op.Stored? { StoreIsClients(st, lists, capacity, op); } else { ReadIsClients(st, lists, capacity, op); }
  }

  lemma {:induction false} StoreIsClients(st: CC.Store, lists: Lists, capacity: nat, op: CC.Op)
    requires capacity != 1 && CC.Sound(st) && op.Stored? && GoodList(st, ListOf(lists, op.w))
    ensures var caches := map[op.w := MapOf(ListOf(lists, op.w))];
      var r, c := WorkerStep(st, lists, capacity, op), CC.CachedStep(st, caches, op);
      && r.0 == c.0 && r.1 == c.1
      && GoodList(r.1, ListOf(r.2, op.w)) && Within(MapOf(ListOf(r.2, op.w)), CC.CacheOf(c.2, op.w))
  {
    var items := ListOf(lists, op.w);
    if CC.Put(st, op.id, op.kind, op.v).Some? {
      NotHeld(items, st, op.id, op.kind, op.v);
      HeldIff(items, op.id);
      CC.StoredSound(st, op.id, op.kind, op.v);
      var st' := CC.Put(st, op.id, op.kind, op.v).value;
      HonestLater(items, st, st');
      PutMap(st', items, Item(op.id, op.kind, op.v), capacity);
    }
    hide CC.Put, Put, Honest, DistinctIds, CC.Sound, Held, CC.Later;
  }

  lemma {:induction false} ReadIsClients(st: CC.Store, lists: Lists, capacity: nat, op: CC.Op)
    requires capacity != 1 && CC.Sound(st) && op.Retrieved? && GoodList(st, ListOf(lists, op.w))
    ensures var caches := map[op.w := MapOf(ListOf(lists, op.w))];
      var r, c := WorkerStep(st, lists, capacity, op), CC.CachedStep(st, caches, op);
      && r.0 == c.0 && r.1 == c.1
      && GoodList(r.1, ListOf(r.2, op.w)) && Within(MapOf(ListOf(r.2, op.w)), CC.CacheOf(c.2, op.w))
  {
    var items := ListOf(lists, op.w);
    var held := Held(items, op.id);
    var g := CC.ReadThrough(st, held, op.id, op.asked, op.decr);
    ReadLater(st, items, op.id, op.asked, op.decr);
    HonestLater(items, st, g.st);
    if held.Some? {
      TouchMap(g.st, items, op.id);
    } else if g.value.Some? && op.keep && op.asked.Some? {
      PutMap(g.st, items, Item(op.id, op.asked.value, g.value.value), capacity);
    }
    hide CC.ReadThrough, Touch, Put, Honest, DistinctIds, CC.Sound, Held, CC.Later;
  }

  lemma {:induction false} ReadLater(st: CC.Store, items: seq<Item>, id: Id, asked: Option<nat>, decr: nat)
    requires CC.Sound(st) && Honest(items, st)
    ensures var g := CC.ReadThrough(st, Held(items, id), id, asked, decr);
      && CC.Later(st, g.st)
      && (Held(items, id).None? && g.value.Some? && asked.Some? ==>
            id in g.st.written && g.st.written[id] == CC.Written(asked.value, g.value.value))
  {
    if Held(items, id).Some? { HeldIsWritten(items, st, id); }
    CC.GetSound(st, id, asked, decr);
    ReadTakes(st, Held(items, id), id, asked, decr);
    hide CC.Sound, Honest, Held, CC.Later, CC.Get, Took;
  }

  // ---------------------------------------------------------------- every run

  function WorkersAt(st: CC.Store, lists: Lists, capacity: nat, ops: seq<CC.Op>, k: nat): (CC.Store, Lists)
    requires k <= |ops|
  {
    if k == 0 then (st, lists)
    else
      var r := WorkersAt(st, lists, capacity, ops, k - 1);
      var s := WorkerStep(r.0, r.1, capacity, ops[k-1]);
      (s.1, s.2)
  }

  function WorkerResult(st: CC.Store, lists: Lists, capacity: nat, ops: seq<CC.Op>, k: nat): CC.Result
    requires k < |ops|
  {
    var r := WorkersAt(st, lists, capacity, ops, k);
    WorkerStep(r.0, r.1, capacity, ops[k]).0
  }

  /** The worker's cache holds the datum, and the read shows it. */
  predicate ListShows(st: CC.Store, lists: Lists, op: CC.Op) {
    op.Retrieved? && Held(ListOf(lists, op.w), op.id).Some? && CC.Shows(st, op.id, op.asked, op.decr)
  }

  lemma {:induction false} StepOfWorkers(st: CC.Store, lists: Lists, capacity: nat, op: CC.Op)
    requires capacity != 1 && CC.Sound(st) && GoodLists(st, lists)
    ensures var r := WorkerStep(st, lists, capacity, op);
      && r.1 == CC.PlainStep(st, op).1 && CC.Sound(r.1) && GoodLists(r.1, r.2)
      && (r.0 == CC.PlainStep(st, op).0 <==> !ListShows(st, lists, op))
  {
    CC.PlainStepSound(st, op);
    if op.Stored? || op.Retrieved? {
      var caches := map[op.w := MapOf(ListOf(lists, op.w))];
      StepIsClients(st, lists, capacity, op);
      OneHonest(st, lists, op.w);
      CC.StepTransparent(st, caches, op);
      ShowsSame(st, lists, op);
      OthersKeep(st, lists, capacity, op);
    } else {
      StillGood(st, CC.PlainStep(st, op).1, lists);
    }
    hide CC.Sound, CC.PlainStep, CC.CachedStep, GoodLists, GoodList, Within, MapOf, CC.CacheShows, ListShows;
  }

  lemma {:induction false} OneHonest(st: CC.Store, lists: Lists, w: nat)
    requires GoodLists(st, lists)
    ensures CC.AllHonest(st, map[w := MapOf(ListOf(lists, w))])
  {
    var items := ListOf(lists, w);
    assert GoodList(st, items);
    forall td | td in MapOf(items) ensures td in st.written && MapOf(items)[td] == st.written[td] {
      HeldIsWritten(items, st, td);
    }
    hide Held, MapOf;
  }

  lemma ShowsSame(st: CC.Store, lists: Lists, op: CC.Op)
    requires op.Retrieved? || op.Stored?
    ensures CC.CacheShows(st, map[op.w := MapOf(ListOf(lists, op.w))], op) <==> ListShows(st, lists, op)
  {
  }

  lemma {:induction false} StillGood(st: CC.Store, st': CC.Store, lists: Lists)
    requires GoodLists(st, lists) && CC.Later(st, st')
    ensures GoodLists(st', lists)
  {
    forall w ensures GoodList(st', ListOf(lists, w)) {
      assert GoodList(st, ListOf(lists, w));
      HonestLater(ListOf(lists, w), st, st');
    }
  }

  lemma {:induction false} OthersKeep(st: CC.Store, lists: Lists, capacity: nat, op: CC.Op)
    requires (op.Stored? || op.Retrieved?) && GoodLists(st, lists)
    requires var r := WorkerStep(st, lists, capacity, op);
      CC.Later(st, r.1) && GoodList(r.1, ListOf(r.2, op.w))
    ensures var r := WorkerStep(st, lists, capacity, op); GoodLists(r.1, r.2)
  {
    var r := WorkerStep(st, lists, capacity, op);
    StillGood(st, r.1, lists);
    hide GoodList;
    forall w ensures GoodList(r.1, ListOf(r.2, w)) {
      assert GoodList(r.1, ListOf(lists, w));
    }
  }

  /** Any interleaving of any number of workers with such caches, of any capacity but one, leaves
      the data and the read references as they are with no cache at all; and an operation returns
      the same value or error, exactly if it does not hit the worker's cache after the datum was
      collected, or under another type. */
  lemma {:induction false} WorkersAreInvisible(st: CC.Store, lists: Lists, capacity: nat, ops: seq<CC.Op>, k: nat)
    requires capacity != 1 && CC.Sound(st) && GoodLists(st, lists) && k <= |ops|
    ensures var r := WorkersAt(st, lists, capacity, ops, k);
      && r.0 == CC.PlainAt(st, ops, k) && CC.Sound(r.0) && GoodLists(r.0, r.1)
      && (k < |ops| ==>
            (WorkerResult(st, lists, capacity, ops, k) == CC.PlainResult(st, ops, k)
             <==> !ListShows(r.0, r.1, ops[k])))
  {
    hide CC.Sound, GoodLists, WorkerStep, CC.PlainStep, ListShows;
    if k > 0 {
      WorkersAreInvisible(st, lists, capacity, ops, k - 1);
      var r := WorkersAt(st, lists, capacity, ops, k - 1);
      StepOfWorkers(r.0, r.1, capacity, ops[k-1]);
    }
    if k < |ops| {
      var r := WorkersAt(st, lists, capacity, ops, k);
      StepOfWorkers(r.0, r.1, capacity, ops[k]);
    }
  }
}
