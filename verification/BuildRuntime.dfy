/** `build_rec` and `enumerate_rec` as the source runs them. */
module BuildRuntime {
  import opened Options
  import opened Bytes
  import opened Sorting
  import opened Values
  import opened Build

  /** The type list from `pos` to its end. */
  predicate ListFrom(types: seq<Word>, pos: nat, rest: seq<Word>) {
    pos <= |types| && types[pos..] == rest
  }

  lemma ListSkip(types: seq<Word>, pos: nat, a: seq<Word>, b: seq<Word>)
    requires ListFrom(types, pos, a + b)
    ensures ListFrom(types, pos + |a|, b) && |types| == pos + |a| + |b|
    ensures forall i :: 0 <= i < |a| ==> pos + i < |types| && types[pos + i] == a[i]
  {
  }

  /** The data store after `decr` read references of a datum were dropped. */
  function Released(h: Heap, id: Id, decr: nat): Heap
    requires id in h
  {
    h[id := h[id].(readers := h[id].readers - decr)]
  }

  /** A member in place needs no other datum, and dropping nothing changes none. */
  lemma {:induction false} StandsAfterDrop(h: Heap, i: Inner, m: Member, v: Value, id: Id, decr: nat)
    requires id in h && MemberStands(h, i, m, v) && (i.Link? ==> decr == 0)
    ensures MemberStands(Released(h, id, decr), i, m, v)
  {
    if i.Link? { assert Released(h, id, decr) == h; }
  }

  function StoredVals(sc: Scalars, t: Type, vals: seq<Value>): (r: seq<Value>)
    ensures |r| == |vals| && forall k :: 0 <= k < |vals| ==> r[k] == AsStored(sc, t, vals[k])
  {
    seq(|vals|, k requires 0 <= k < |vals| => AsStored(sc, t, vals[k]))
  }

  class Store {
    var heap: Heap
    var next: Id
    const scalars: Scalars

    ghost predicate Valid()
      reads this
    {
      Below(heap, next)
    }

    constructor (scalars: Scalars)
      ensures Valid() && heap == map[] && this.scalars == scalars
    {
      heap, next, this.scalars := map[], 0, scalars;
    }

    /** `adlb::multicreate`, each datum with one read and one write reference. */
    method Multicreate(n: nat) returns (ids: seq<Id>)
      requires Valid()
      modifies this
      ensures Valid() && |ids| == n
      ensures forall x :: x in old(heap) ==> x in heap && heap[x] == old(heap)[x]
      ensures forall x :: x in heap && x !in old(heap) ==> x in ids
      ensures forall k :: 0 <= k < n ==> ids[k] !in old(heap) && ids[k] in heap && heap[ids[k]] == Node(None, 1, 1)
      ensures forall j, k :: 0 <= j < k < n ==> ids[j] != ids[k]
    {
      ids := [];
      for i := 0 to n
        invariant Valid() && |ids| == i
        invariant forall x :: x in old(heap) ==> x in heap && heap[x] == old(heap)[x]
        invariant forall x :: x in heap && x !in old(heap) ==> x in ids
        invariant forall k :: 0 <= k < i ==>
          ids[k] < next && ids[k] !in old(heap) && ids[k] in heap && heap[ids[k]] == Node(None, 1, 1)
        invariant forall j, k :: 0 <= j < k < i ==> ids[j] != ids[k]
      {
        heap := heap[next := Node(None, 1, 1)];
        ids := ids + [next];
        next := next + 1;
      }
    }

    /** `adlb::store`; storing twice is an error. */
    method StoreData(id: Id, c: Content, decr: nat)
      requires Valid() && id in heap && heap[id].content.None?
      modifies this
      ensures Valid() && next == old(next)
      ensures heap == old(heap)[id := Stored(old(heap)[id], c, decr)]
    {
      heap := heap[id := Stored(heap[id], c, decr)];
    }

    /** `read_refcount_decr`. */
    method ReadDecr(id: Id, decr: nat)
      requires id in heap
      modifies this
      ensures next == old(next) && heap == Released(old(heap), id, decr)
    {
      heap := heap[id := heap[id].(readers := heap[id].readers - decr)];
    }

    /** `build_rec`.  A scalar is stored without passing on how many write references to drop.  It
        fails exactly if some scalar cannot be stored. */
    method BuildRec(id: Id, v: Value, types: seq<Word>, pos: nat, decr: nat, ghost t: Type) returns (ok: bool)
      requires Valid() && id in heap && heap[id].content.None?
      requires ListFrom(types, pos, BuildList(t)) && HasShape(t, v)
      modifies this
      ensures Valid() && (ok <==> Storable(scalars, t, v))
      ensures ok ==> Built(old(heap), heap, id, t, AsStored(scalars, t, v), decr)
      ensures ok ==> Restored(scalars, t, v, AsStored(scalars, t, v))
      decreases |types| - pos, 1
    {
      hide Valid, Below, Built, Restored;
      assert types[pos] == types[pos..][0];
      var c: Content;
      var drops := decr;
      match types[pos] {
        case CONTAINER => ok, c := BuildContainer(v, types, pos, t);
        case MULTISET => ok, c := BuildMultiset(v, types, pos, t);
        case Scalar(n) => ok, c, drops := scalars(n, v.text).Some?, One(ScalarAs(scalars, n, v).text), 1;
        case REF =>
          assert false;
          ok, c := false, One([]);
      }
      if ok {
        StoredIsRestored(scalars, t, v);
        StoredIsBuilt(old(heap), heap, id, c, t, AsStored(scalars, t, v), decr);
        StoreData(id, c, drops);
      }
    }

    /** The container's dict: its scalars, or references to new data built from its values. */
    method BuildContainer(v: Value, types: seq<Word>, pos: nat, ghost t: Type) returns (ok: bool, c: Content)
      requires Valid() && ListFrom(types, pos, BuildList(t)) && t.Cont? && HasShape(t, v)
      modifies this
      ensures Valid() && (ok <==> Storable(scalars, t, v))
      ensures ok ==> Stands(heap, t, c, AsStored(scalars, t, v))
      ensures ok ==> forall x :: x in old(heap) ==> x in heap && heap[x] == old(heap)[x]
      ensures ok ==> forall x :: x in heap && x !in old(heap) ==> Closed(heap, x)
      decreases |types| - pos, 0
    {
      hide Valid;
      ListSkip(types, pos, [CONTAINER, Scalar(t.key)], InnerBuildList(t.inner));
      assert types[pos + 2] == types[pos + 2..][0];
      c := Keyed([]);
      if types[pos + 2].REF? {
        ListSkip(types, pos + 2, [REF], BuildList(t.inner.to));
        var ids;
        ok, ids := BuildMembers(Vals(v.entries), types, pos + 3, t.inner.to);
        if ok {
          LinksStand(old(heap), heap, ids, t.inner.to, StoredVals(scalars, t.inner.to, Vals(v.entries)));
          c := Keyed(KeyedRefs(v.entries, ids));
        }
      } else {
        ok := TextsStorable(types[pos + 2].name, Vals(v.entries));
        if ok { c := Keyed(KeyedTexts(EntriesAs(scalars, InPlace(types[pos + 2].name), v.entries))); }
      }
    }

    method BuildMultiset(v: Value, types: seq<Word>, pos: nat, ghost t: Type) returns (ok: bool, c: Content)
      requires Valid() && ListFrom(types, pos, BuildList(t)) && t.Bag? && HasShape(t, v)
      modifies this
      ensures Valid() && (ok <==> Storable(scalars, t, v))
      ensures ok ==> Stands(heap, t, c, AsStored(scalars, t, v))
      ensures ok ==> forall x :: x in old(heap) ==> x in heap && heap[x] == old(heap)[x]
      ensures ok ==> forall x :: x in heap && x !in old(heap) ==> Closed(heap, x)
      decreases |types| - pos, 0
    {
      hide Valid;
      ListSkip(types, pos, [MULTISET], InnerBuildList(t.inner));
      assert types[pos + 1] == types[pos + 1..][0];
      c := Listed([]);
      if types[pos + 1].REF? {
        ListSkip(types, pos + 1, [REF], BuildList(t.inner.to));
        var ids;
        ok, ids := BuildMembers(v.elems, types, pos + 2, t.inner.to);
        if ok {
          LinksStand(old(heap), heap, ids, t.inner.to, StoredVals(scalars, t.inner.to, v.elems));
          c := Listed(Refs(ids));
        }
      } else {
        ok := TextsStorable(types[pos + 1].name, v.elems);
        if ok { c := Listed(Texts(ElemsAs(scalars, InPlace(types[pos + 1].name), v.elems))); }
      }
    }

    /** Whether the scalars stored in place can all be stored. */
    method TextsStorable(n: nat, vals: seq<Value>) returns (ok: bool)
      requires forall k :: 0 <= k < |vals| ==> vals[k].Atom?
      ensures ok <==> forall k :: 0 <= k < |vals| ==> InnerStorable(scalars, InPlace(n), vals[k])
    {
      ok := true;
      for i := 0 to |vals|
        invariant ok <==> forall k :: 0 <= k < i ==> InnerStorable(scalars, InPlace(n), vals[k])
      {
        ok := ok && scalars(n, vals[i].text).Some?;
      }
    }

    /** One new datum for each value, created together and then built in turn. */
    method BuildMembers(vals: seq<Value>, types: seq<Word>, pos: nat, ghost t: Type)
      returns (ok: bool, ids: seq<Id>)
      requires Valid() && ListFrom(types, pos, BuildList(t))
      requires forall k :: 0 <= k < |vals| ==> HasShape(t, vals[k])
      modifies this
      ensures Valid() && (ok <==> forall k :: 0 <= k < |vals| ==> Storable(scalars, t, vals[k]))
      ensures ok ==> Building(old(heap), heap, ids, |ids|, t, StoredVals(scalars, t, vals))
      decreases |types| - pos, 2
    {
      hide *;
      ids := Multicreate(|vals|);
      ghost var stored := StoredVals(scalars, t, vals);
      NothingBuilt(old(heap), heap, ids, t, stored);
      for i := 0 to |vals|
        invariant Valid() && |ids| == |vals| && Building(old(heap), heap, ids, i, t, stored)
        invariant forall k :: 0 <= k < i ==> Storable(scalars, t, vals[k])
      {
        ghost var before := heap;
        OpenMember(old(heap), heap, ids, i, t, stored);
        ok := BuildRec(ids[i], vals[i], types, pos, 1, t);
        if !ok { return; }
        BuildingNext(old(heap), before, heap, ids, i, t, stored);
      }
      ok := true;
    }

    // -------------------------------------------------------------- reading back

    /** `adlb::enumerate` of a container or multiset: the members in any order, dropping read
        references. */
    method EnumerateDict(id: Id, decr: nat) returns (vals: seq<KeyMember>, q: seq<nat>)
      requires id in heap && heap[id].content.Some? && heap[id].content.value.Keyed?
      modifies this
      ensures next == old(next) && heap == Released(old(heap), id, decr)
      ensures var d := old(heap)[id].content.value.dict;
        IsOrder(q, |d|) && |vals| == |d| && forall k :: 0 <= k < |d| ==> vals[k] == d[q[k]]
    {
      var d := heap[id].content.value.dict;
      SomeOrder(|d|);
      q :| IsOrder(q, |d|);
      vals := seq(|d|, k requires 0 <= k < |d| => d[q[k]]);
      ReadDecr(id, decr);
    }

    method EnumerateMembers(id: Id, decr: nat) returns (vals: seq<Member>, q: seq<nat>)
      requires id in heap && heap[id].content.Some? && heap[id].content.value.Listed?
      modifies this
      ensures next == old(next) && heap == Released(old(heap), id, decr)
      ensures var d := old(heap)[id].content.value.list;
        IsOrder(q, |d|) && |vals| == |d| && forall k :: 0 <= k < |d| ==> vals[k] == d[q[k]]
    {
      var d := heap[id].content.value.list;
      SomeOrder(|d|);
      q :| IsOrder(q, |d|);
      vals := seq(|d|, k requires 0 <= k < |d| => d[q[k]]);
      ReadDecr(id, decr);
    }

    /** `enumerate_rec`.  It fails on a scalar, and on an empty multiset of references to
        containers or multisets anywhere inside: there the variable that is returned was never
        set.  Read references of the outer datum are dropped once its members have been read,
        so not if one of them fails, but before the unset variable is returned. */
    method EnumerateRec(id: Id, types: seq<Word>, depth: nat, readDecr: nat, ghost t: Type, ghost v: Value)
      returns (ok: bool, r: Value)
      requires Closed(heap, id) && Stands(heap, t, heap[id].content.value, v)
      requires ListFrom(types, depth, EnumList(t))
      modifies this
      ensures ok <==> !t.Leaf? && !EmptyBagInside(t, v)
      ensures ok ==> Same(v, r)
      ensures next == old(next)
      ensures heap == Released(old(heap), id, if ok || ResultUnset(t, v) then readDecr else 0)
      decreases |types| - depth, 1
    {
      assert types[depth] == types[depth..][0];
      match types[depth] {
        case CONTAINER => ok, r := EnumerateContainer(id, types, depth, readDecr, t, v);
        case MULTISET => ok, r := EnumerateMultiset(id, types, depth, readDecr, t, v);
        case _ => ok, r := false, Atom([]);
      }
    }

    method EnumerateContainer(id: Id, types: seq<Word>, depth: nat, readDecr: nat, ghost t: Type, ghost v: Value)
      returns (ok: bool, r: Value)
      requires Closed(heap, id) && Stands(heap, t, heap[id].content.value, v) && t.Cont?
      requires ListFrom(types, depth, EnumList(t))
      modifies this
      ensures ok <==> !EmptyBagInside(t, v)
      ensures ok ==> Same(v, r)
      ensures next == old(next) && heap == Released(old(heap), id, if ok then readDecr else 0)
      decreases |types| - depth, 0
    {
      ListSkip(types, depth, [CONTAINER], InnerEnumList(t.inner));
      assert types[depth + 1] == types[depth + 1..][0];
      var refValue := types[depth + 1].REF?;
      var vals, q := EnumerateDict(id, if refValue then 0 else readDecr);
      forall k | 0 <= k < |vals| ensures MemberStands(heap, t.inner, vals[k].member, v.entries[q[k]].val) {
        StandsAfterDrop(old(heap), t.inner, vals[k].member, v.entries[q[k]].val, id, if refValue then 0 else readDecr);
      }
      var res;
      ok, res := ReadEntries(vals, types, depth, t.inner, v.entries, q);
      if !ok { return false, Atom([]); }
      EveryEntry(t.inner, v.entries, q);
      if refValue { ReadDecr(id, readDecr); }
      r := Value.Dict(res);
    }

    /** Its loop. */
    method ReadEntries(vals: seq<KeyMember>, types: seq<Word>, depth: nat, ghost i: Inner, ghost es: seq<Entry>,
                       ghost q: seq<nat>)
      returns (ok: bool, res: seq<Entry>)
      requires ListFrom(types, depth + 1, InnerEnumList(i)) && |types| > depth + 1
      requires IsOrder(q, |es|) && |vals| == |es|
      requires forall k :: 0 <= k < |es| ==>
        vals[k].key == es[q[k]].key && MemberStands(heap, i, vals[k].member, es[q[k]].val)
      modifies this
      ensures ok <==> forall k :: 0 <= k < |es| ==> !EmptyBagBelow(i, es[q[k]].val)
      ensures ok ==> SameEntries(es, res, q)
      ensures next == old(next) && heap == old(heap)
      decreases |types| - depth - 1, 3
    {
      hide Same, EmptyBagBelow, MemberStands, InnerEnumList;
      res := [];
      for n := 0 to |vals|
        invariant |res| == n
        invariant forall k :: 0 <= k < n ==> res[k].key == es[q[k]].key && Same(es[q[k]].val, res[k].val)
        invariant forall k :: 0 <= k < n ==> !EmptyBagBelow(i, es[q[k]].val)
        invariant next == old(next) && heap == old(heap)
      {
        var val;
        ok, val := ReadMember(vals[n].member, types, depth + 1, i, es[q[n]].val);
        if !ok { return false, []; }
        res := res + [Entry(vals[n].key, val)];
      }
      ok := true;
    }

    method EnumerateMultiset(id: Id, types: seq<Word>, depth: nat, readDecr: nat, ghost t: Type, ghost v: Value)
      returns (ok: bool, r: Value)
      requires Closed(heap, id) && Stands(heap, t, heap[id].content.value, v) && t.Bag?
      requires ListFrom(types, depth, EnumList(t))
      modifies this
      ensures ok <==> !EmptyBagInside(t, v)
      ensures ok ==> Same(v, r)
      ensures next == old(next)
      ensures heap == Released(old(heap), id, if ok || ResultUnset(t, v) then readDecr else 0)
      decreases |types| - depth, 0
    {
      ListSkip(types, depth, [MULTISET], InnerEnumList(t.inner));
      assert types[depth + 1] == types[depth + 1..][0];
      var refValue := types[depth + 1].REF?;
      var vals, q := EnumerateMembers(id, if refValue then 0 else readDecr);
      forall k | 0 <= k < |vals| ensures MemberStands(heap, t.inner, vals[k], v.elems[q[k]]) {
        StandsAfterDrop(old(heap), t.inner, vals[k], v.elems[q[k]], id, if refValue then 0 else readDecr);
      }
      var result;
      ok, result := ReadMembers(vals, types, depth, t.inner, v.elems, q);
      if !ok { return false, Atom([]); }
      EveryElem(t.inner, v.elems, q);
      if refValue { ReadDecr(id, readDecr); }
      if result.None? { return false, Atom([]); }
      r := Value.List(result.value);
    }

    /** Its loop.  When the members have to be read in turn, the list of results comes into being
        with the first. */
    method ReadMembers(vals: seq<Member>, types: seq<Word>, depth: nat, ghost i: Inner, ghost vs: seq<Value>,
                       ghost q: seq<nat>)
      returns (ok: bool, result: Option<seq<Value>>)
      requires ListFrom(types, depth + 1, InnerEnumList(i)) && |types| > depth + 1
      requires IsOrder(q, |vs|) && |vals| == |vs|
      requires forall k :: 0 <= k < |vs| ==> MemberStands(heap, i, vals[k], vs[q[k]])
      modifies this
      ensures ok <==> forall k :: 0 <= k < |vs| ==> !EmptyBagBelow(i, vs[q[k]])
      ensures !ok ==> result.None?
      ensures ok ==> (result.None? <==> types[depth + 1].REF? && |types| > depth + 3 && |vs| == 0)
      ensures ok && result.Some? ==> SameElems(vs, result.value, q)
      ensures next == old(next) && heap == old(heap)
      decreases |types| - depth - 1, 3
    {
      hide Same, EmptyBagBelow, MemberStands, InnerEnumList;
      var recurse := types[depth + 1].REF? && |types| > depth + 3;
      result := if recurse then None else Some([]);
      for n := 0 to |vals|
        invariant result.None? <==> recurse && n == 0
        invariant result.Some? ==> |result.value| == n
        invariant forall k :: 0 <= k < n ==> Same(vs[q[k]], result.value[k])
        invariant forall k :: 0 <= k < n ==> !EmptyBagBelow(i, vs[q[k]])
        invariant next == old(next) && heap == old(heap)
      {
        var val;
        ok, val := ReadMember(vals[n], types, depth + 1, i, vs[q[n]]);
        if !ok { return false, None; }
        result := Some((if result.None? then [] else result.value) + [val]);     // lappend
      }
      ok := true;
    }

    /** One member: a scalar in place, the value of a scalar datum, or what is read from a
        container or multiset below. */
    method ReadMember(m: Member, types: seq<Word>, depth: nat, ghost i: Inner, ghost v: Value)
      returns (ok: bool, r: Value)
      requires MemberStands(heap, i, m, v) && ListFrom(types, depth, InnerEnumList(i))
      modifies this
      ensures next == old(next) && heap == old(heap)
      ensures ok <==> !EmptyBagBelow(i, v)
      ensures ok ==> Same(v, r)
      decreases |types| - depth, 2
    {
      assert types[depth] == types[depth..][0];
      if types[depth].REF? {
        ListSkip(types, depth, [REF], EnumList(i.to));
        if |types| > depth + 2 {
          ok, r := EnumerateRec(m.id, types, depth + 1, 0, i.to, v);
        } else {
          ok, r := true, Atom(heap[m.id].content.value.text);
        }
      } else {
        ok, r := true, Atom(m.text);
      }
    }
  }

  lemma {:induction false} NothingBuilt(h: Heap, h': Heap, ids: seq<Id>, t: Type, vals: seq<Value>)
    requires |ids| == |vals|
    requires forall x :: x in h ==> x in h' && h'[x] == h[x]
    requires forall x :: x in h' && x !in h ==> x in ids
    requires forall k :: 0 <= k < |ids| ==> ids[k] !in h && ids[k] in h' && h'[ids[k]] == Node(None, 1, 1)
    requires forall j, k :: 0 <= j < k < |ids| ==> ids[j] != ids[k]
    ensures Building(h, h', ids, 0, t, vals)
  {
    assert ids[0..] == ids;
  }

  lemma OpenMember(h: Heap, h': Heap, ids: seq<Id>, i: nat, t: Type, vals: seq<Value>)
    requires Building(h, h', ids, i, t, vals) && i < |ids|
    ensures ids[i] in h' && h'[ids[i]].content.None?
  {
  }

  lemma {:induction false} SomeOrder(n: nat)
    ensures exists q :: IsOrder(q, n)
  {
    var q: seq<nat> := seq(n, k requires 0 <= k < n => k);
    forall j | 0 <= j < n ensures j in q { assert q[j] == j; }
    assert IsOrder(q, n);
  }

  /** When no member fails in the order they were read, none does. */
  lemma {:induction false} EveryEntry(i: Inner, es: seq<Entry>, q: seq<nat>)
    requires IsOrder(q, |es|) && forall k :: 0 <= k < |es| ==> !EmptyBagBelow(i, es[q[k]].val)
    ensures forall j :: 0 <= j < |es| ==> !EmptyBagBelow(i, es[j].val)
  {
    forall j | 0 <= j < |es| ensures !EmptyBagBelow(i, es[j].val) {
      assert j in q;
      var k :| 0 <= k < |q| && q[k] == j;
    }
  }

  lemma {:induction false} EveryElem(i: Inner, vs: seq<Value>, q: seq<nat>)
    requires IsOrder(q, |vs|) && forall k :: 0 <= k < |vs| ==> !EmptyBagBelow(i, vs[q[k]])
    ensures forall j :: 0 <= j < |vs| ==> !EmptyBagBelow(i, vs[j])
  {
    forall j | 0 <= j < |vs| ensures !EmptyBagBelow(i, vs[j]) {
      assert j in q;
      var k :| 0 <= k < |q| && q[k] == j;
    }
  }

  /** A value of any nesting is built exactly if its scalars can be stored.  Built and read back it
      is the same, with its scalars as they read back, up to the order of dicts and bags, and just the same if every
      scalar reads back as it was given; the only
      values that do not come back are those with an empty multiset of references to containers or
      multisets inside, and scalars. */
  method RoundTrip(scalars: Scalars, t: Type, v: Value) returns (built: bool, ok: bool, r: Value)
    requires HasShape(t, v)
    ensures built <==> Storable(scalars, t, v)
    ensures ok <==> built && !t.Leaf? && !EmptyBagInside(t, v)
    ensures ok ==> exists w :: Restored(scalars, t, v, w) && Same(w, r)
    ensures ok && Faithful(scalars, t, v) ==> Same(v, r)
  {
    var store := new Store(scalars);
    var ids := store.Multicreate(1);
    assert BuildList(t)[0..] == BuildList(t) && EnumList(t)[0..] == EnumList(t);
    ok, r := false, Atom([]);
    built := store.BuildRec(ids[0], v, BuildList(t), 0, 1, t);
    if built {
      StoredIsAsEmpty(scalars, t, v);
      RestoredIsOne(scalars, t, v, AsStored(scalars, t, v), AsStored(scalars, t, v));
      ok, r := store.EnumerateRec(ids[0], EnumList(t), 0, 0, t, AsStored(scalars, t, v));
    }
  }
}
