/** Cached reads of write-once data by any number of workers, code/lib/data.tcl.  Each worker
    has a cache that may lose any entry at any time. */
module CacheClients {
  import opened Options
  import opened Bytes

  type Id = int
  type Text = seq<byte>

  /** What a datum was written to: a text of its type, as it reads back. */
  datatype Written = Written(kind: nat, text: Text)

  /** A datum of the data store: its type, its value, once stored, and the read references left. */
  datatype Datum = Datum(kind: nat, value: Option<Text>, readers: nat)

  /** `written` remembers every value ever stored; a datum is collected when it has a value and
      no read references. */
  datatype Store = Store(data: map<Id, Datum>, written: map<Id, Written>)

  function Keep(data: map<Id, Datum>, id: Id, d: Datum): map<Id, Datum> {
    if d.value.Some? && d.readers == 0 then data - {id} else data[id := d]
  }

  // ---------------------------------------------------------------- the data store alone

  /** `adlb::create`; ids are not used twice. */
  function Create(st: Store, id: Id, kind: nat, readers: nat): Option<Store> {
    if id in st.data || id in st.written then None
    else Some(st.(data := st.data[id := Datum(kind, None, readers)]))
  }

  /** `adlb::store`: an error when there is no such datum, it is of another type, or it has a
      value. */
  function Put(st: Store, id: Id, kind: nat, v: Text): Option<Store> {
    if id !in st.data || st.data[id].kind != kind || st.data[id].value.Some? then None
    else Some(Store(Keep(st.data, id, Datum(kind, Some(v), st.data[id].readers)), st.written[id := Written(kind, v)]))
  }

  /** `read_refcount_decr`. */
  function Decr(st: Store, id: Id, decr: nat): Option<Store> {
    if id !in st.data || decr > st.data[id].readers then None
    else Some(st.(data := Keep(st.data, id, st.data[id].(readers := st.data[id].readers - decr))))
  }

  /** The value read, or an error, and what is left. */
  datatype Read = Read(value: Option<Text>, st: Store)

  /** The datum is of the type that was asked for, if one was. */
  predicate IsKind(kind: Option<nat>, actual: nat) {
    kind.None? || kind.value == actual
  }

  /** `adlb::retrieve` and `adlb::retrieve_decr`.  The type is checked last: when it is another
      than was asked for, the references have been dropped already. */
  function Get(st: Store, id: Id, kind: Option<nat>, decr: nat): Read {
    if id !in st.data || st.data[id].value.None? then Read(None, st)
    else
      var next := Decr(st, id, decr);
      if next.None? then Read(None, st)
      else if !IsKind(kind, st.data[id].kind) then Read(None, next.value)
      else Read(st.data[id].value, next.value)
  }

  /** Values of live data are what was written; nothing unwritten has a value; a live datum
      with a value has read references. */
  predicate Sound(st: Store) {
    && (forall id :: id in st.data ==> (st.data[id].value.Some? <==> id in st.written))
    && (forall id :: id in st.data && id in st.written ==>
          st.written[id] == Written(st.data[id].kind, st.data[id].value.value))
    && (forall id :: id in st.data && id in st.written ==> st.data[id].readers > 0)
  }

  /** `decr` read references of the datum are gone, and with the last of them the datum, once it
      has a value; a datum that was collected before has none to lose.  Nothing else changes. */
  predicate ReadersDropped(before: Store, left: Store, id: Id, decr: nat) {
    && left.written == before.written
    && (forall x :: x in before.data && x != id ==> x in left.data && left.data[x] == before.data[x])
    && (forall x :: x in left.data ==> x in before.data)
    && (if id !in before.data then decr == 0
        else
          var d := before.data[id];
          if d.readers == decr && d.value.Some? then id !in left.data
          else id in left.data && left.data[id].kind == d.kind && left.data[id].value == d.value
               && left.data[id].readers + decr == d.readers)
  }

  /** A read takes its references exactly if there are so many: then, and not otherwise, it drops
      them, also when it fails because the datum is of another type. */
  lemma GetDrops(st: Store, id: Id, kind: Option<nat>, decr: nat)
    requires Sound(st)
    ensures var g := Get(st, id, kind, decr);
      if id in st.data && st.data[id].value.Some? && st.data[id].readers >= decr then
        ReadersDropped(st, g.st, id, decr)
        && (g.value.Some? <==> kind.None? || kind.value == st.data[id].kind)
        && (g.value.Some? ==> g.value == st.data[id].value)
      else g == Read(None, st)
  {
  }

  // ---------------------------------------------------------------- with a cache

  /** `retrieve_integer` and its like, with what the cache holds for the datum: a hit costs at
      most a decrement, and does not look at the type. */
  function ReadThrough(st: Store, held: Option<Written>, id: Id, kind: Option<nat>, decr: nat): Read {
    if held.None? then Get(st, id, kind, decr)
    else if decr == 0 then Read(Some(held.value.text), st)
    else
      var next := Decr(st, id, decr);
      if next.None? then Read(None, st) else Read(Some(held.value.text), next.value)
  }

  function HeldBy(cache: map<Id, Written>, id: Id): Option<Written> {
    if id in cache then Some(cache[id]) else None
  }

  /** What a cache holds was written. */
  predicate Honest(st: Store, cache: map<Id, Written>) {
    forall id :: id in cache ==> id in st.written && cache[id] == st.written[id]
  }

  /** The two cases in which a cached read and a plain read differ: the datum has been collected
      and nothing is to be dropped, or it is of another type than was asked for.  The plain read
      fails, the cached one returns the value. */
  predicate Shows(st: Store, id: Id, kind: Option<nat>, decr: nat) {
    id in st.written
    && if id in st.data then !IsKind(kind, st.data[id].kind) && decr <= st.data[id].readers else decr == 0
  }

  /** Otherwise value and error are the same; and the data store always is. */
  lemma {:induction false} CachedGetIsGet(st: Store, cache: map<Id, Written>, id: Id, kind: Option<nat>, decr: nat)
    requires Sound(st) && Honest(st, cache)
    ensures var c, g := ReadThrough(st, HeldBy(cache, id), id, kind, decr), Get(st, id, kind, decr);
      && c.st == g.st
      && (c.value == g.value <==> !(id in cache && Shows(st, id, kind, decr)))
      && (c.value != g.value ==> g.value.None? && c.value == Some(st.written[id].text))
  {
    if id in cache && id in st.data && decr == 0 { assert Get(st, id, kind, 0).st == st; }
  }

  // ---------------------------------------------------------------- runs of many workers

  datatype Op =
    | Created(id: Id, kind: nat, readers: nat)
    | Stored(w: nat, id: Id, kind: nat, v: Text, keep: bool)     // integers and refs are kept, floats and strings not
    | Retrieved(w: nat, id: Id, asked: Option<nat>, decr: nat, keep: bool)     // multi_retrieve keeps nothing
    | Uncached(id: Id, asked: Option<nat>, decr: nat)            // a read that asks for no caching
    | Evicted(w: nat, id: Id)                                    // a cache loses an entry

  /** What an operation hands back. */
  datatype Result = Nothing | Value(v: Text) | Error

  function ResultOf(value: Option<Text>): Result {
    if value.Some? then Value(value.value) else Error
  }

  type Caches = map<nat, map<Id, Written>>

  function CacheOf(caches: Caches, w: nat): map<Id, Written> {
    if w in caches then caches[w] else map[]
  }

  function PlainStep(st: Store, op: Op): (Result, Store) {
    match op
    case Created(id, k, n) => var r := Create(st, id, k, n); if r.None? then (Error, st) else (Nothing, r.value)
    case Stored(_, id, k, v, _) => var r := Put(st, id, k, v); if r.None? then (Error, st) else (Nothing, r.value)
    case Retrieved(_, id, k, n, _) => var r := Get(st, id, k, n); (ResultOf(r.value), r.st)
    case Uncached(id, k, n) => var r := Get(st, id, k, n); (ResultOf(r.value), r.st)
    case Evicted(_, _) => (Nothing, st)
  }

  /** A value that was stored or read is kept. */
  function CachedStep(st: Store, caches: Caches, op: Op): (Result, Store, Caches) {
    match op
    case Stored(w, id, k, v, keep) =>
      var r := Put(st, id, k, v);
      if r.None? then (Error, st, caches)
      else (Nothing, r.value, if keep then caches[w := CacheOf(caches, w)[id := Written(k, v)]] else caches)
    case Retrieved(w, id, k, n, keep) =>
      var cache := CacheOf(caches, w);
      var r := ReadThrough(st, HeldBy(cache, id), id, k, n);
      (ResultOf(r.value), r.st,
       if r.value.None? || id in cache || !keep || k.None? then caches
       else caches[w := cache[id := Written(k.value, r.value.value)]])
    case Evicted(w, id) => (Nothing, st, caches[w := CacheOf(caches, w) - {id}])
    case _ => var r := PlainStep(st, op); (r.0, r.1, caches)
  }

  ghost predicate AllHonest(st: Store, caches: Caches) {
    forall w :: Honest(st, CacheOf(caches, w))
  }

  /** The operation hits a cache and shows it. */
  predicate CacheShows(st: Store, caches: Caches, op: Op) {
    op.Retrieved? && op.id in CacheOf(caches, op.w) && Shows(st, op.id, op.asked, op.decr)
  }

  /** What was written stays written. */
  predicate Later(st: Store, st': Store) {
    forall id :: id in st.written ==> id in st'.written && st'.written[id] == st.written[id]
  }

  lemma StoredSound(st: Store, id: Id, kind: nat, v: seq<byte>)
    requires Sound(st) && Put(st, id, kind, v).Some?
    ensures Sound(Put(st, id, kind, v).value) && Later(st, Put(st, id, kind, v).value)
    ensures var w := Put(st, id, kind, v).value.written; id in w && w[id] == Written(kind, v)
  {
  }

  lemma DecrSound(st: Store, id: Id, decr: nat)
    requires Sound(st) && Decr(st, id, decr).Some?
    ensures Sound(Decr(st, id, decr).value) && Decr(st, id, decr).value.written == st.written
  {
  }

  /** A typed read that succeeds yields what was written, under that type. */
  lemma GetSound(st: Store, id: Id, asked: Option<nat>, decr: nat)
    requires Sound(st)
    ensures var r := Get(st, id, asked, decr);
      && Sound(r.st) && Later(st, r.st)
      && (r.value.Some? ==> id in r.st.written && r.st.written[id].text == r.value.value
                            && (asked.Some? ==> r.st.written[id].kind == asked.value))
  {
  }

  lemma CreateSound(st: Store, id: Id, kind: nat, readers: nat)
    requires Sound(st) && Create(st, id, kind, readers).Some?
    ensures Sound(Create(st, id, kind, readers).value) && Later(st, Create(st, id, kind, readers).value)
  {
  }

  lemma {:induction false} PlainStepSound(st: Store, op: Op)
    requires Sound(st)
    ensures Sound(PlainStep(st, op).1) && Later(st, PlainStep(st, op).1)
  {
    hide Sound, Create, Put, Get;
    assert Later(st, st);
    match op {
      case Created(id, k, n) => if Create(st, id, k, n).Some? { CreateSound(st, id, k, n); }
      case Stored(_, id, k, v, _) => if Put(st, id, k, v).Some? { StoredSound(st, id, k, v); }
      case Retrieved(_, id, k, n, _) => GetSound(st, id, k, n);
      case Uncached(id, k, n) => GetSound(st, id, k, n);
      case Evicted(_, _) =>
    }
  }

  /** One step with caches is the step without them, but for the value of a read that shows
      them. */
  lemma {:induction false} StepTransparent(st: Store, caches: Caches, op: Op)
    requires Sound(st) && AllHonest(st, caches)
    ensures CachedStep(st, caches, op).0 == PlainStep(st, op).0 <==> !CacheShows(st, caches, op)
    ensures CachedStep(st, caches, op).1 == PlainStep(st, op).1
    ensures Sound(CachedStep(st, caches, op).1) && AllHonest(CachedStep(st, caches, op).1, CachedStep(st, caches, op).2)
  {
    hide Sound, CachedStep, PlainStep, CacheShows;
    PlainStepSound(st, op);
    SameResult(st, caches, op);
    StaysHonest(st, caches, op);
  }

  lemma {:induction false} SameResult(st: Store, caches: Caches, op: Op)
    requires Sound(st) && AllHonest(st, caches)
    ensures CachedStep(st, caches, op).0 == PlainStep(st, op).0 <==> !CacheShows(st, caches, op)
    ensures CachedStep(st, caches, op).1 == PlainStep(st, op).1
  {
    if op.Retrieved? {
      assert Honest(st, CacheOf(caches, op.w));
      CachedGetIsGet(st, CacheOf(caches, op.w), op.id, op.asked, op.decr);
    }
    hide Sound, Shows, Get, ReadThrough, Put, Create;
  }

  lemma {:induction false} StaysHonest(st: Store, caches: Caches, op: Op)
    requires Sound(st) && AllHonest(st, caches)
    ensures AllHonest(CachedStep(st, caches, op).1, CachedStep(st, caches, op).2)
  {
    var r := CachedStep(st, caches, op);
    hide CachedStep;
    forall w ensures Honest(r.1, CacheOf(r.2, w)) {
      assert Honest(st, CacheOf(caches, w));
      HonestAfter(st, caches, op, w);
    }
  }

  lemma HonestAfter(st: Store, caches: Caches, op: Op, w: nat)
    requires Sound(st) && Honest(st, CacheOf(caches, w))
    ensures Honest(CachedStep(st, caches, op).1, CacheOf(CachedStep(st, caches, op).2, w))
  {
  }

  // ---------------------------------------------------------------- every run

  /** The data store after the first `k` operations, without caches. */
  function PlainAt(st: Store, ops: seq<Op>, k: nat): Store
    requires k <= |ops|
  {
    if k == 0 then st else PlainStep(PlainAt(st, ops, k - 1), ops[k-1]).1
  }

  /** The same, and the caches, with caches. */
  function CachedAt(st: Store, caches: Caches, ops: seq<Op>, k: nat): (Store, Caches)
    requires k <= |ops|
  {
    if k == 0 then (st, caches)
    else
      var r := CachedAt(st, caches, ops, k - 1);
      var s := CachedStep(r.0, r.1, ops[k-1]);
      (s.1, s.2)
  }

  /** What operation `k` hands back. */
  function PlainResult(st: Store, ops: seq<Op>, k: nat): Result
    requires k < |ops|
  {
    PlainStep(PlainAt(st, ops, k), ops[k]).0
  }

  function CachedResult(st: Store, caches: Caches, ops: seq<Op>, k: nat): Result
    requires k < |ops|
  {
    CachedStep(CachedAt(st, caches, ops, k).0, CachedAt(st, caches, ops, k).1, ops[k]).0
  }

  /** In any interleaving of the workers' operations and evictions the data and the read
      references are always what they are with no cache at all; and an operation returns the same
      value or error, exactly if it does not hit a cache after its datum was collected, or under
      another type. */
  lemma {:induction false} CachesAreInvisible(st: Store, caches: Caches, ops: seq<Op>, k: nat)
    requires Sound(st) && AllHonest(st, caches) && k <= |ops|
    ensures CachedAt(st, caches, ops, k).0 == PlainAt(st, ops, k)
    ensures Sound(PlainAt(st, ops, k)) && AllHonest(PlainAt(st, ops, k), CachedAt(st, caches, ops, k).1)
    ensures k < |ops| ==>
      (CachedResult(st, caches, ops, k) == PlainResult(st, ops, k)
       <==> !CacheShows(PlainAt(st, ops, k), CachedAt(st, caches, ops, k).1, ops[k]))
  {
    hide Sound, AllHonest, CachedStep, PlainStep, CacheShows;
    if k > 0 {
      CachesAreInvisible(st, caches, ops, k - 1);
      StepTransparent(PlainAt(st, ops, k - 1), CachedAt(st, caches, ops, k - 1).1, ops[k-1]);
    }
    if k < |ops| { StepTransparent(PlainAt(st, ops, k), CachedAt(st, caches, ops, k).1, ops[k]); }
  }

  /** A read of a datum that was collected, dropping nothing, or under another type. */
  predicate CouldShow(st: Store, op: Op) {
    op.Retrieved? && Shows(st, op.id, op.asked, op.decr)
  }

  /** Without looking at the caches: whatever they hold before it, operation `k` is the same with
      and without them, exactly if it is no such read. */
  lemma {:induction false} InvisibleFromAnyPoint(st: Store, ops: seq<Op>, k: nat)
    requires Sound(st) && k < |ops|
    ensures !CouldShow(PlainAt(st, ops, k), ops[k]) <==>
      forall caches :: AllHonest(PlainAt(st, ops, k), caches) ==>
        CachedStep(PlainAt(st, ops, k), caches, ops[k]).0 == PlainResult(st, ops, k)
  {
    PlainAtSound(st, ops, k);
    var now, op := PlainAt(st, ops, k), ops[k];
    assert PlainResult(st, ops, k) == PlainStep(now, op).0;
    hide Sound, AllHonest, CachedStep, PlainStep, CacheShows, CouldShow, PlainAt, PlainResult;
    forall caches | AllHonest(now, caches) && !CouldShow(now, op)
      ensures CachedStep(now, caches, op).0 == PlainStep(now, op).0 {
      StepTransparent(now, caches, op);
      OnlyThen(now, caches, op);
    }
    if CouldShow(now, op) {
      var caches := Showing(now, op);
      StepTransparent(now, caches, op);
    }
  }

  lemma OnlyThen(st: Store, caches: Caches, op: Op)
    ensures CacheShows(st, caches, op) ==> CouldShow(st, op)
  {
  }

  /** A cache that holds the datum gives the read away. */
  lemma {:induction false} Showing(st: Store, op: Op) returns (caches: Caches)
    requires CouldShow(st, op)
    ensures AllHonest(st, caches) && CacheShows(st, caches, op)
  {
    caches := map[op.w := map[op.id := st.written[op.id]]];
    hide Shows;
  }

  lemma {:induction false} PlainAtSound(st: Store, ops: seq<Op>, k: nat)
    requires Sound(st) && k <= |ops|
    ensures Sound(PlainAt(st, ops, k))
  {
    hide Sound, PlainStep;
    if k > 0 {
      PlainAtSound(st, ops, k - 1);
      PlainStepSound(PlainAt(st, ops, k - 1), ops[k-1]);
    }
  }

  /** An integer is stored and kept, and read as a string by the same worker, which succeeds; with
      no cache the read fails. */
  lemma OtherTypeExample()
    ensures var ops := [Created(7, 0, 1), Stored(1, 7, 0, [53], true), Retrieved(1, 7, Some(1), 0, true)];
      var st := Store(map[], map[]);
      Sound(st) && CachedResult(st, map[], ops, 2) == Value([53]) && PlainResult(st, ops, 2) == Error
  {
    var ops := [Created(7, 0, 1), Stored(1, 7, 0, [53], true), Retrieved(1, 7, Some(1), 0, true)];
    var st := Store(map[], map[]);
    assert PlainAt(st, ops, 1) == Store(map[7 := Datum(0, None, 1)], map[]);
    assert PlainAt(st, ops, 2) == Store(map[7 := Datum(0, Some([53]), 1)], map[7 := Written(0, [53])]);
    assert CachedAt(st, map[], ops, 1) == (PlainAt(st, ops, 1), map[]);
    assert CachedAt(st, map[], ops, 2) == (PlainAt(st, ops, 2), map[1 := map[7 := Written(0, [53])]]);
  }

  /** An integer is read, dropping its last reference, and read again by the same worker. */
  lemma LateReadExample()
    ensures var ops := [Created(7, 0, 1), Stored(1, 7, 0, [53], true), Retrieved(1, 7, Some(0), 1, true), Retrieved(1, 7, Some(0), 0, true)];
      var st := Store(map[], map[]);
      Sound(st) && CachedResult(st, map[], ops, 3) == Value([53]) && PlainResult(st, ops, 3) == Error
  {
    var ops := [Created(7, 0, 1), Stored(1, 7, 0, [53], true), Retrieved(1, 7, Some(0), 1, true), Retrieved(1, 7, Some(0), 0, true)];
    var st := Store(map[], map[]);
    assert PlainAt(st, ops, 1) == Store(map[7 := Datum(0, None, 1)], map[]);
    assert PlainAt(st, ops, 2) == Store(map[7 := Datum(0, Some([53]), 1)], map[7 := Written(0, [53])]);
    assert PlainAt(st, ops, 3) == Store(map[], map[7 := Written(0, [53])]);
    assert CachedAt(st, map[], ops, 1) == (PlainAt(st, ops, 1), map[]);
    assert CachedAt(st, map[], ops, 2) == (PlainAt(st, ops, 2), map[1 := map[7 := Written(0, [53])]]);
    assert CachedAt(st, map[], ops, 3) == (PlainAt(st, ops, 3), map[1 := map[7 := Written(0, [53])]]);
  }

  /** Whatever is stored into a worker's cache, after a store of a datum or after a miss, was
      not in it. */
  lemma NeverStoresCached(st: Store, caches: Caches, op: Op)
    requires Sound(st) && AllHonest(st, caches) && (op.Stored? || op.Retrieved?)
    ensures CacheOf(CachedStep(st, caches, op).2, op.w) != CacheOf(caches, op.w) ==> op.id !in CacheOf(caches, op.w)
  {
  }

  // ---------------------------------------------------------------- leading zeros

  /** `string trimleft $value "0"`. */
  function TrimZeros(v: Text): Text {
    if |v| > 0 && v[0] == 48 then TrimZeros(v[1..]) else v
  }

  /** What `store_integer` stores. */
  function IntegerText(v: Text): Text {
    if v == [48] then v else TrimZeros(v)
  }

  predicate AllZeros(v: Text) {
    forall i :: 0 <= i < |v| ==> v[i] == 48
  }

  function Digits(v: Text): int {
    if |v| == 0 then 0 else 10 * Digits(v[..|v| - 1]) + v[|v| - 1] as int - 48
  }

  lemma {:induction false} LeadingZero(v: Text)
    requires |v| > 0 && v[0] == 48
    ensures Digits(v[1..]) == Digits(v)
  {
    if |v| > 1 {
      var n := |v| - 1;
      assert v[..n][1..] == v[1..][..n - 1];
      LeadingZero(v[..n]);
    } else {
      assert v[..0] == [] && v[1..] == [];
    }
  }

  /** The number stays the same; but zero written with more than one digit becomes the empty
      text, which is no integer. */
  lemma {:induction false} TrimKeepsNumber(v: Text)
    ensures Digits(IntegerText(v)) == Digits(v)
    ensures IntegerText(v) == [] <==> AllZeros(v) && v != [48]
  {
    TrimZerosKeeps(v);
  }

  lemma {:induction false} TrimZerosKeeps(v: Text)
    ensures Digits(TrimZeros(v)) == Digits(v)
    ensures TrimZeros(v) == [] <==> AllZeros(v)
  {
    if |v| > 0 && v[0] == 48 {
      LeadingZero(v);
      TrimZerosKeeps(v[1..]);
      assert AllZeros(v) <==> AllZeros(v[1..]) by {
        assert forall i :: 0 < i < |v| ==> v[i] == v[1..][i-1];
      }
    }
  }
}
