/** The procedures of code/lib/data.tcl on one worker, with its cache and the data store, which
    other workers use in between. */
module CacheWorker {
  import opened Options
  import opened Bytes
  import opened Cache
  import opened CacheTheorems
  import CC = CacheClients

  /** What the cache holds for a datum. */
  function Held(items: seq<Item>, td: Id): Option<CC.Written> {
    var r := IndexOf(items, td);
    if r.None? then None else Some(CC.Written(items[r.value].kind, items[r.value].data))
  }

  /** Everything in the cache was stored under its name. */
  predicate Honest(items: seq<Item>, st: CC.Store) {
    forall i :: 0 <= i < |items| ==>
      items[i].td in st.written && st.written[items[i].td] == CC.Written(items[i].kind, items[i].data)
  }

  lemma HonestTouch(items: seq<Item>, td: Id, st: CC.Store)
    requires Honest(items, st)
    ensures Honest(Touch(items, td), st)
  {
  }

  lemma HonestPut(items: seq<Item>, item: Item, capacity: nat, st: CC.Store)
    requires Honest(items, st) && item.td in st.written && st.written[item.td] == CC.Written(item.kind, item.data)
    ensures Honest(Put(items, item, capacity), st)
  {
  }

  lemma HonestLater(items: seq<Item>, st: CC.Store, st': CC.Store)
    requires Honest(items, st) && CC.Later(st, st')
    ensures Honest(items, st')
  {
  }

  lemma LaterTrans(a: CC.Store, b: CC.Store, c: CC.Store)
    requires CC.Later(a, b) && CC.Later(b, c)
    ensures CC.Later(a, c)
  {
  }

  /** The data store. */
  class Server {
    var st: CC.Store

    constructor ()
      ensures CC.Sound(st) && st == CC.Store(map[], map[])
    {
      st := CC.Store(map[], map[]);
    }

    /** Other workers' operations. */
    method Others()
      requires CC.Sound(st)
      modifies this
      ensures CC.Sound(st) && CC.Later(old(st), st)
    {
      var ops: seq<CC.Op> := *;
      for i := 0 to |ops|
        invariant CC.Sound(st) && CC.Later(old(st), st)
      {
        hide CC.Sound, CC.Later;
        StepLater(old(st), st, ops[i]);
        st := CC.PlainStep(st, ops[i]).1;
      }
    }
  }

  lemma {:induction false} StepLater(first: CC.Store, st: CC.Store, op: CC.Op)
    requires CC.Sound(st) && CC.Later(first, st)
    ensures CC.Sound(CC.PlainStep(st, op).1) && CC.Later(first, CC.PlainStep(st, op).1)
  {
    hide CC.Sound, CC.PlainStep;
    CC.PlainStepSound(st, op);
    LaterTrans(first, st, CC.PlainStep(st, op).1);
  }

  /** `Died` is the crash of a cache with room for one entry. */
  datatype Outcome = Ok(value: seq<byte>) | Error | Died

  /** What a store hands back, and the data store and the cache after it. */
  function StoreOutcome(st: CC.Store, items: seq<Item>, capacity: nat, id: Id, kind: nat, value: seq<byte>, keep: bool)
    : (Outcome, CC.Store, seq<Item>)
  {
    var p := CC.Put(st, id, kind, value);
    if p.None? then (Error, st, items)
    else if keep && capacity == 1 then (Died, p.value, items)
    else (Ok(value), p.value, if keep then Put(items, Item(id, kind, value), capacity) else items)
  }

  /** The same of a read.  A hit counts as a use even when the references cannot be dropped. */
  function ReadOutcome(st: CC.Store, items: seq<Item>, capacity: nat, id: Id, asked: Option<nat>, cached: bool,
                       keep: bool, decr: nat): (Outcome, CC.Store, seq<Item>)
  {
    var held := if cached then Held(items, id) else None;
    var g := CC.ReadThrough(st, held, id, asked, decr);
    if held.Some? then (if g.value.None? then Error else Ok(g.value.value), g.st, Touch(items, id))
    else if g.value.None? then (Error, g.st, items)
    else if keep && asked.Some? && capacity == 1 then (Died, g.st, items)
    else (Ok(g.value.value), g.st,
          if keep && asked.Some? then Put(items, Item(id, asked.value, g.value.value), capacity) else items)
  }

  class Worker {
    const cache: Cache
    const server: Server

    ghost predicate Valid()
      reads this, cache, cache.order, server
    {
      cache.Valid() && CC.Sound(server.st) && Honest(cache.Contents(), server.st)
    }

    constructor (cache: Cache, server: Server)
      requires cache.Valid() && cache.Contents() == [] && CC.Sound(server.st)
      ensures Valid() && this.cache == cache && this.server == server
    {
      this.cache, this.server := cache, server;
    }

    /** `store_integer` and `store_ref` keep the value in the cache, `store_float` and
        `store_string` do not. */
    method Store(id: Id, kind: nat, value: seq<byte>, keep: bool) returns (r: Outcome)
      requires Valid()
      modifies server, cache, cache.order
      ensures (r, server.st, cache.Contents()) ==
              StoreOutcome(old(server.st), old(cache.Contents()), cache.max_entries, id, kind, value, keep)
      ensures !r.Died? ==> Valid()
    {
      hide Cache.Valid, IndexOf, Put, Touch, CC.Sound, CC.Put;
      var p := CC.Put(server.st, id, kind, value);
      if p.None? { return Error; }
      NotHeld(cache.Contents(), server.st, id, kind, value);
      CC.StoredSound(server.st, id, kind, value);
      HonestLater(cache.Contents(), server.st, p.value);
      server.st := p.value;
      r := Ok(value);
      if keep {
        var item := Item(id, kind, value);
        HonestPut(cache.Contents(), item, cache.max_entries, server.st);
        var code := cache.Store(item);
        if code.Crash? { return Died; }
      }
    }

    /** `retrieve_integer`, `retrieve_ref`, `retrieve_float` and `retrieve_string`. */
    method Retrieve(id: Id, kind: nat, cached: bool, decr: nat) returns (r: Outcome)
      requires Valid()
      modifies server, cache, cache.order
      ensures (r, server.st, cache.Contents()) ==
              ReadOutcome(old(server.st), old(cache.Contents()), cache.max_entries, id, Some(kind), cached, cached, decr)
      ensures !r.Died? ==> Valid()
      ensures r.Ok? ==> Took(old(server.st), server.st, id, decr, r.value)
    {
      hide Cache.Valid, IndexOf, Put, Touch, CC.Sound, Honest, CC.ReadThrough, Took, Held;
      ghost var held := if cached then Held(cache.Contents(), id) else None;
      if held.Some? { HeldIsWritten(cache.Contents(), server.st, id); }
      ReadTakes(server.st, held, id, Some(kind), decr);
      r := Read(id, Some(kind), cached, cached, decr);
    }

    /** A read: from the cache when it may and the cache holds the datum, otherwise from the data
        store, and then the value is kept if it is to be. */
    method Read(id: Id, asked: Option<nat>, cached: bool, keep: bool, decr: nat) returns (r: Outcome)
      requires Valid() && (keep ==> cached)
      modifies server, cache, cache.order
      ensures (r, server.st, cache.Contents()) ==
              ReadOutcome(old(server.st), old(cache.Contents()), cache.max_entries, id, asked, cached, keep, decr)
      ensures !r.Died? ==> Valid()
      ensures r.Ok? ==> id in server.st.written && r.value == server.st.written[id].text
      ensures !keep ==> forall e :: e in cache.order ==> e in old(cache.order)
    {
      hide Cache.Valid, IndexOf, Put, Touch, CC.Sound, Honest, CC.Get, CC.Decr;
      var hit := false;
      HeldIff(cache.Contents(), id);
      DisabledHolds(id);
      if cached { hit := cache.Check(id); }
      if hit { r := RetrieveHit(id, asked, decr); } else { r := RetrieveMiss(id, asked, keep, decr); }
    }

    /** A cache that is not enabled is empty. */
    lemma DisabledHolds(id: Id)
      requires cache.Valid()
      ensures cache.max_entries == 0 ==> IndexOf(cache.Contents(), id).None?
    {
    }

    method RetrieveHit(id: Id, asked: Option<nat>, decr: nat) returns (r: Outcome)
      requires Valid() && cache.max_entries > 0 && IndexOf(cache.Contents(), id).Some?
      modifies server, cache, cache.order
      ensures Valid() && !r.Died? && cache.Contents() == Touch(old(cache.Contents()), id)
      ensures forall e :: e in cache.order ==> e in old(cache.order)
      ensures var g := CC.ReadThrough(old(server.st), Held(old(cache.Contents()), id), id, asked, decr);
        server.st == g.st && r == if g.value.Some? then Ok(g.value.value) else Error
      ensures r.Ok? ==> id in server.st.written && r.value == server.st.written[id].text
    {
      hide Cache.Valid, IndexOf, Put, Touch, CC.Sound, Honest, CC.Decr, CC.Get;
      HeldIff(cache.Contents(), id);
      HeldIsWritten(cache.Contents(), server.st, id);
      var item := Lookup(id);
      r := Ok(item.data);
      if decr > 0 {
        var ok := Drop(id, decr);
        if !ok { r := Error; }
      }
    }

    /** `cache_retrieve`. */
    method Lookup(id: Id) returns (item: Item)
      requires Valid() && cache.max_entries > 0 && IndexOf(cache.Contents(), id).Some?
      modifies cache, cache.order
      ensures Valid() && Some(CC.Written(item.kind, item.data)) == Held(old(cache.Contents()), id)
      ensures cache.Contents() == Touch(old(cache.Contents()), id)
      ensures forall e :: e in cache.order ==> e in old(cache.order)
    {
      hide Cache.Valid, Put, Touch, CC.Sound, Honest, IndexOf;
      HonestTouch(cache.Contents(), id, server.st);
      var code;
      code, item := cache.Retrieve(id);
    }

    /** `read_refcount_decr`. */
    method Drop(id: Id, decr: nat) returns (ok: bool)
      requires Valid()
      modifies server
      ensures Valid() && server.st.written == old(server.st).written
      ensures var next := CC.Decr(old(server.st), id, decr);
        ok == next.Some? && server.st == if ok then next.value else old(server.st)
    {
      hide Cache.Valid, CC.Sound, CC.Decr;
      var next := CC.Decr(server.st, id, decr);
      ok := next.Some?;
      if ok {
        CC.DecrSound(server.st, id, decr);
        server.st := next.value;
      }
    }

    method RetrieveMiss(id: Id, asked: Option<nat>, keep: bool, decr: nat) returns (r: Outcome)
      requires Valid() && (keep ==> IndexOf(cache.Contents(), id).None?)
      modifies server, cache, cache.order
      ensures var g := CC.Get(old(server.st), id, asked, decr);
        && server.st == g.st
        && r == (if g.value.None? then Error
                 else if keep && asked.Some? && cache.max_entries == 1 then Died else Ok(g.value.value))
        && cache.Contents() == (if r.Ok? && keep && asked.Some?
                                then Put(old(cache.Contents()), Item(id, asked.value, r.value), cache.max_entries)
                                else old(cache.Contents()))
      ensures !r.Died? ==> Valid()
      ensures !keep ==> cache.order == old(cache.order)
      ensures r.Ok? ==> id in server.st.written && r.value == server.st.written[id].text
    {
      hide Cache.Valid, IndexOf, Put, Touch, CC.Sound, Honest, CC.Get;
      var g := CC.Get(server.st, id, asked, decr);
      CC.GetSound(server.st, id, asked, decr);
      HonestLater(cache.Contents(), server.st, g.st);
      server.st := g.st;
      if g.value.None? { return Error; }
      r := Ok(g.value.value);
      if keep && asked.Some? {
        var item := Item(id, asked.value, g.value.value);
        HonestPut(cache.Contents(), item, cache.max_entries, server.st);
        var code := cache.Store(item);
        if code.Crash? { return Died; }
      }
    }

    /** `multi_retrieve`: each value is what was written under its name, and each read drops its
        references as it is made, whatever other workers do in between; it stops at the first
        that cannot be read.  `before` and `left` are the data store before and after each read.
        A miss does not store into the cache. */
    method MultiRetrieve(ids: seq<Id>, asked: Option<nat>, cached: bool, decr: nat)
      returns (ok: bool, values: seq<seq<byte>>, ghost before: seq<CC.Store>, ghost left: seq<CC.Store>)
      requires Valid()
      modifies server, cache, cache.order
      ensures Valid() && AllWritten(ids, values, server.st)
      ensures AllTook(ids, values, before, left, decr) && InTurn(old(server.st), before, left, server.st)
      ensures if ok then |values| == |ids|
              else |values| < |ids| && CC.Get(server.st, ids[|values|], asked, decr).value.None?
    {
      NothingRead(ids, server.st, decr);
      hide *;
      values, before, left, ok := [], [], [], true;
      for i := 0 to |ids|
        invariant Valid() && |values| == i
        invariant forall e :: e in cache.order ==> e in old(cache.order)
        invariant forall k :: 0 <= k < |cache.order| ==> cache.order[k] in old(cache.order)
        invariant AllWritten(ids, values, server.st) && AllTook(ids, values, before, left, decr)
        invariant InTurn(old(server.st), before, left, server.st)
      {
        ghost var last := server.st;
        ghost var at;
        var r;
        r, at := ReadOne(ids[i], asked, cached, decr);
        AllWrittenMore(ids, values, last, server.st, r);
        if r.Error? {
          InTurnLater(old(server.st), before, left, last, server.st);
          return false, values, before, left;
        }
        AllTookMore(ids, values, before, left, decr, at, server.st, r.value);
        InTurnMore(old(server.st), before, left, last, at, server.st);
        values, before, left := values + [r.value], before + [at], left + [server.st];
      }
    }

    /** One of its reads, after other workers' operations. */
    method ReadOne(id: Id, asked: Option<nat>, cached: bool, decr: nat) returns (r: Outcome, ghost at: CC.Store)
      requires Valid()
      modifies server, cache, cache.order
      ensures Valid() && CC.Later(old(server.st), server.st) && CC.Later(old(server.st), at) && !r.Died?
      ensures (r, server.st, cache.Contents()) ==
              ReadOutcome(at, old(cache.Contents()), cache.max_entries, id, asked, cached, false, decr)
      ensures forall e :: e in cache.order ==> e in old(cache.order)
      ensures r.Ok? ==> id in server.st.written && r.value == server.st.written[id].text
      ensures r.Ok? ==> Took(at, server.st, id, decr, r.value)
      ensures r.Error? ==> CC.Get(server.st, id, asked, decr).value.None?
    {
      hide Cache.Valid, IndexOf, Put, Touch, CC.Sound, Honest, CC.Decr, CC.Get, CC.ReadThrough, Took, Held;
      server.Others();
      HonestLater(cache.Contents(), old(server.st), server.st);
      at := server.st;
      ghost var held := if cached then Held(cache.Contents(), id) else None;
      if held.Some? { HeldIsWritten(cache.Contents(), at, id); }
      r := Read(id, asked, cached, false, decr);
      ReadTakes(at, held, id, asked, decr);
      LaterTrans(old(server.st), at, server.st);
    }
  }

  /** A read from `before` that left `left`: the value written, and `decr` references fewer. */
  predicate Took(before: CC.Store, left: CC.Store, id: Id, decr: nat, value: seq<byte>) {
    && id in before.written && value == before.written[id].text
    && CC.ReadersDropped(before, left, id, decr)
  }

  predicate AllTook(ids: seq<Id>, values: seq<seq<byte>>, before: seq<CC.Store>, left: seq<CC.Store>, decr: nat) {
    && |before| == |left| == |values| <= |ids|
    && forall k :: 0 <= k < |values| ==> Took(before[k], left[k], ids[k], decr, values[k])
  }

  /** Between one read and the next, and before the first, nothing written is lost. */
  predicate InTurn(first: CC.Store, before: seq<CC.Store>, left: seq<CC.Store>, last: CC.Store) {
    && |before| == |left|
    && (forall k :: 0 <= k < |before| ==> CC.Later(if k == 0 then first else left[k-1], before[k]))
    && CC.Later(if |left| == 0 then first else left[|left| - 1], last)
  }

  lemma {:induction false} InTurnLater(first: CC.Store, before: seq<CC.Store>, left: seq<CC.Store>, last: CC.Store,
                                       last': CC.Store)
    requires InTurn(first, before, left, last) && CC.Later(last, last')
    ensures InTurn(first, before, left, last')
  {
    LaterTrans(if |left| == 0 then first else left[|left| - 1], last, last');
    hide CC.Later;
  }

  lemma {:induction false} InTurnMore(first: CC.Store, before: seq<CC.Store>, left: seq<CC.Store>, last: CC.Store,
                                      at: CC.Store, after: CC.Store)
    requires InTurn(first, before, left, last) && CC.Later(last, at)
    ensures InTurn(first, before + [at], left + [after], after)
  {
    LaterTrans(if |left| == 0 then first else left[|left| - 1], last, at);
    LaterSelf(after);
    hide CC.Later;
  }

  lemma LaterSelf(st: CC.Store)
    ensures CC.Later(st, st)
  {
  }

  lemma {:induction false} AllTookMore(ids: seq<Id>, values: seq<seq<byte>>, before: seq<CC.Store>, left: seq<CC.Store>,
                                       decr: nat, at: CC.Store, after: CC.Store, value: seq<byte>)
    requires AllTook(ids, values, before, left, decr) && |values| < |ids|
    requires Took(at, after, ids[|values|], decr, value)
    ensures AllTook(ids, values + [value], before + [at], left + [after], decr)
  {
    hide Took;
  }

  /** A read that succeeds, cached or not, drops what it is to drop; none writes anything. */
  lemma {:induction false} ReadTakes(st: CC.Store, held: Option<CC.Written>, id: Id, asked: Option<nat>, decr: nat)
    requires CC.Sound(st) && (held.Some? ==> id in st.written && held.value == st.written[id])
    ensures var g := CC.ReadThrough(st, held, id, asked, decr);
      CC.Later(st, g.st) && (if g.value.Some? then Took(st, g.st, id, decr, g.value.value)
                           else CC.Get(g.st, id, asked, decr).value.None?)
  {
    if id in st.data && id in st.written && decr == 0 { assert CC.Get(st, id, asked, 0).st == st; }
  }

  /** The values are what was written under the names. */
  predicate AllWritten(ids: seq<Id>, values: seq<seq<byte>>, st: CC.Store) {
    |values| <= |ids| && forall k :: 0 <= k < |values| ==> ids[k] in st.written && values[k] == st.written[ids[k]].text
  }

  lemma NothingRead(ids: seq<Id>, st: CC.Store, decr: nat)
    ensures AllWritten(ids, [], st) && AllTook(ids, [], [], [], decr) && InTurn(st, [], [], st)
  {
  }

  lemma LaterAt(st: CC.Store, st': CC.Store, id: Id)
    requires CC.Later(st, st') && id in st.written
    ensures id in st'.written && st'.written[id] == st.written[id]
  {
  }

  lemma {:induction false} AllWrittenMore(ids: seq<Id>, values: seq<seq<byte>>, before: CC.Store, st: CC.Store, r: Outcome)
    requires AllWritten(ids, values, before) && CC.Later(before, st) && |values| < |ids|
    requires r.Ok? ==> ids[|values|] in st.written && r.value == st.written[ids[|values|]].text
    ensures AllWritten(ids, values, st) && (r.Ok? ==> AllWritten(ids, values + [r.value], st))
  {
    forall k | 0 <= k < |values| ensures ids[k] in st.written && values[k] == st.written[ids[k]].text {
      LaterAt(before, st, ids[k]);
    }
  }

  lemma HeldIff(items: seq<Item>, id: Id)
    ensures Held(items, id).Some? <==> IndexOf(items, id).Some?
  {
  }

  /** A datum that can still be stored is in no cache. */
  lemma NotHeld(items: seq<Item>, st: CC.Store, id: Id, kind: nat, v: seq<byte>)
    requires Honest(items, st) && CC.Sound(st) && CC.Put(st, id, kind, v).Some?
    ensures IndexOf(items, id).None?
  {
  }

  lemma HeldIsWritten(items: seq<Item>, st: CC.Store, id: Id)
    requires Honest(items, st) && Held(items, id).Some?
    ensures id in st.written && Held(items, id).value == st.written[id]
  {
  }
}
