/** Nested data built from, and read back into, Tcl values: `build_rec` and `enumerate_rec` of
    code/lib/container.tcl, for containers and multisets linked by references. */
module Build {
  import opened Options
  import opened Bytes
  import opened Sorting
  import opened Values

  type Id = nat

  // ---------------------------------------------------------------- types

  /** A scalar, or a container or multiset whose members are scalars in place (`None`) or
      references to data of a type. */
  datatype Type = Leaf(name: nat) | Cont(key: nat, inner: Inner) | Bag(inner: Inner)
  datatype Inner = InPlace(name: nat) | Link(to: Type)

  /** A word of a type list. */
  datatype Word = CONTAINER | MULTISET | REF | Scalar(name: nat)

  /** The type list of `build_rec`, with the key types. */
  function BuildList(t: Type): (r: seq<Word>)
    ensures |r| >= 1 && (|r| == 1 <==> t.Leaf?)
  {
    match t
    case Leaf(n) => [Scalar(n)]
    case Cont(k, i) => [CONTAINER, Scalar(k)] + InnerBuildList(i)
    case Bag(i) => [MULTISET] + InnerBuildList(i)
  }

  function InnerBuildList(i: Inner): (r: seq<Word>)
    ensures |r| >= 1
  {
    match i
    case InPlace(n) => [Scalar(n)]
    case Link(t) => [REF] + BuildList(t)
  }

  /** The type list of `enumerate_rec`, without them. */
  function EnumList(t: Type): (r: seq<Word>)
    ensures |r| >= 1 && (|r| == 1 <==> t.Leaf?)
  {
    match t
    case Leaf(n) => [Scalar(n)]
    case Cont(_, i) => [CONTAINER] + InnerEnumList(i)
    case Bag(i) => [MULTISET] + InnerEnumList(i)
  }

  function InnerEnumList(i: Inner): (r: seq<Word>)
    ensures |r| >= 1
  {
    match i
    case InPlace(n) => [Scalar(n)]
    case Link(t) => [REF] + EnumList(t)
  }

  // ---------------------------------------------------------------- the data store

  datatype Member = Plain(text: Text) | Ref(id: Id)
  datatype KeyMember = KeyMember(key: Text, member: Member)
  datatype Content = One(text: Text) | Keyed(dict: seq<KeyMember>) | Listed(list: seq<Member>)

  /** A datum: its content, once stored, and its write and read references.  It is closed when
      no write reference is left. */
  datatype Node = Node(content: Option<Content>, writes: int, readers: int)

  type Heap = map<Id, Node>

  predicate Closed(h: Heap, id: Id) {
    id in h && h[id].content.Some? && h[id].writes == 0
  }

  predicate HasShape(t: Type, v: Value) {
    match t
    case Leaf(_) => v.Atom?
    case Cont(_, i) => v.Dict? && UniqueKeys(v.entries) && forall k :: 0 <= k < |v.entries| ==> InnerShape(i, v.entries[k].val)
    case Bag(i) => v.List? && forall k :: 0 <= k < |v.elems| ==> InnerShape(i, v.elems[k])
  }

  predicate InnerShape(i: Inner, v: Value) {
    match i
    case InPlace(_) => v.Atom?
    case Link(t) => HasShape(t, v)
  }

  // ---------------------------------------------------------------- scalars

  /** What a text of a scalar type reads back as, if it can be stored at all: `1.50` as 1.5 when it
      is a float, and `abc` not as an integer. */
  type Scalars = (nat, Text) -> Option<Text>

  /** Every scalar of the value can be stored. */
  predicate Storable(sc: Scalars, t: Type, v: Value)
    decreases t
  {
    match t
    case Leaf(n) => v.Atom? && sc(n, v.text).Some?
    case Cont(_, i) => v.Dict? && forall k :: 0 <= k < |v.entries| ==> InnerStorable(sc, i, v.entries[k].val)
    case Bag(i) => v.List? && forall k :: 0 <= k < |v.elems| ==> InnerStorable(sc, i, v.elems[k])
  }

  predicate InnerStorable(sc: Scalars, i: Inner, v: Value)
    decreases i
  {
    match i
    case InPlace(n) => v.Atom? && sc(n, v.text).Some?
    case Link(t) => Storable(sc, t, v)
  }

  function ScalarAs(sc: Scalars, n: nat, v: Value): Value {
    if v.Atom? && sc(n, v.text).Some? then Atom(sc(n, v.text).value) else v
  }

  /** The value with every scalar as it reads back. */
  function AsStored(sc: Scalars, t: Type, v: Value): Value
    decreases t
  {
    match t
    case Leaf(n) => ScalarAs(sc, n, v)
    case Cont(_, i) => if v.Dict? then Dict(EntriesAs(sc, i, v.entries)) else v
    case Bag(i) => if v.List? then List(ElemsAs(sc, i, v.elems)) else v
  }

  function InnerAs(sc: Scalars, i: Inner, v: Value): Value
    decreases i, 0
  {
    match i
    case InPlace(n) => ScalarAs(sc, n, v)
    case Link(t) => AsStored(sc, t, v)
  }

  function EntriesAs(sc: Scalars, i: Inner, es: seq<Entry>): (r: seq<Entry>)
    ensures |r| == |es| && forall k :: 0 <= k < |es| ==> r[k] == Entry(es[k].key, InnerAs(sc, i, es[k].val))
    decreases i, 1
  {
    seq(|es|, k requires 0 <= k < |es| => Entry(es[k].key, InnerAs(sc, i, es[k].val)))
  }

  function ElemsAs(sc: Scalars, i: Inner, vs: seq<Value>): (r: seq<Value>)
    ensures |r| == |vs| && forall k :: 0 <= k < |vs| ==> r[k] == InnerAs(sc, i, vs[k])
    decreases i, 1
  {
    seq(|vs|, k requires 0 <= k < |vs| => InnerAs(sc, i, vs[k]))
  }

  /** `w` is `v` with every word of a scalar type as that type yields it: the same keys in the same
      order, the same lengths, the same nesting. */
  predicate Restored(sc: Scalars, t: Type, v: Value, w: Value)
    decreases t
  {
    match t
    case Leaf(n) => v.Atom? && w.Atom? && sc(n, v.text) == Some(w.text)
    case Cont(_, i) =>
      v.Dict? && w.Dict? && |w.entries| == |v.entries|
      && forall k :: 0 <= k < |v.entries| ==>
           w.entries[k].key == v.entries[k].key && InnerRestored(sc, i, v.entries[k].val, w.entries[k].val)
    case Bag(i) =>
      v.List? && w.List? && |w.elems| == |v.elems|
      && forall k :: 0 <= k < |v.elems| ==> InnerRestored(sc, i, v.elems[k], w.elems[k])
  }

  predicate InnerRestored(sc: Scalars, i: Inner, v: Value, w: Value)
    decreases i
  {
    match i
    case InPlace(n) => v.Atom? && w.Atom? && sc(n, v.text) == Some(w.text)
    case Link(t) => Restored(sc, t, v, w)
  }

  /** Every scalar reads back as it was given. */
  predicate Faithful(sc: Scalars, t: Type, v: Value)
    decreases t
  {
    match t
    case Leaf(n) => v.Atom? && sc(n, v.text) == Some(v.text)
    case Cont(_, i) => v.Dict? && forall k :: 0 <= k < |v.entries| ==> InnerFaithful(sc, i, v.entries[k].val)
    case Bag(i) => v.List? && forall k :: 0 <= k < |v.elems| ==> InnerFaithful(sc, i, v.elems[k])
  }

  predicate InnerFaithful(sc: Scalars, i: Inner, v: Value)
    decreases i
  {
    match i
    case InPlace(n) => v.Atom? && sc(n, v.text) == Some(v.text)
    case Link(t) => Faithful(sc, t, v)
  }

  /** What a value is stored as. */
  lemma {:induction false} StoredIsRestored(sc: Scalars, t: Type, v: Value)
    requires Storable(sc, t, v)
    ensures Restored(sc, t, v, AsStored(sc, t, v))
    decreases t, 0
  {
    match t {
      case Leaf(_) =>
      case Cont(_, i) =>
        forall k | 0 <= k < |v.entries| ensures InnerRestored(sc, i, v.entries[k].val, InnerAs(sc, i, v.entries[k].val)) {
          InnerIsRestored(sc, i, v.entries[k].val);
        }
      case Bag(i) =>
        forall k | 0 <= k < |v.elems| ensures InnerRestored(sc, i, v.elems[k], InnerAs(sc, i, v.elems[k])) {
          InnerIsRestored(sc, i, v.elems[k]);
        }
    }
  }

  lemma {:induction false} InnerIsRestored(sc: Scalars, i: Inner, v: Value)
    requires InnerStorable(sc, i, v)
    ensures InnerRestored(sc, i, v, InnerAs(sc, i, v))
    decreases i, 1
  {
    if i.Link? { StoredIsRestored(sc, i.to, v); }
  }

  /** There is only one such value; when every scalar reads back as it was given, it is the value
      itself. */
  lemma {:induction false} RestoredIsOne(sc: Scalars, t: Type, v: Value, w: Value, w': Value)
    requires Restored(sc, t, v, w) && Restored(sc, t, v, w')
    ensures w == w' && (Faithful(sc, t, v) ==> w == v)
    decreases t, 0
  {
    match t {
      case Leaf(_) =>
      case Cont(_, i) =>
        forall k | 0 <= k < |v.entries|
          ensures w.entries[k] == w'.entries[k] && (Faithful(sc, t, v) ==> w.entries[k] == v.entries[k]) {
          InnerIsOne(sc, i, v.entries[k].val, w.entries[k].val, w'.entries[k].val);
        }
        assert w.entries == w'.entries && (Faithful(sc, t, v) ==> w.entries == v.entries);
      case Bag(i) =>
        forall k | 0 <= k < |v.elems|
          ensures w.elems[k] == w'.elems[k] && (Faithful(sc, t, v) ==> w.elems[k] == v.elems[k]) {
          InnerIsOne(sc, i, v.elems[k], w.elems[k], w'.elems[k]);
        }
        assert w.elems == w'.elems && (Faithful(sc, t, v) ==> w.elems == v.elems);
    }
  }

  lemma {:induction false} InnerIsOne(sc: Scalars, i: Inner, v: Value, w: Value, w': Value)
    requires InnerRestored(sc, i, v, w) && InnerRestored(sc, i, v, w')
    ensures w == w' && (InnerFaithful(sc, i, v) ==> w == v)
    decreases i, 1
  {
    if i.Link? { RestoredIsOne(sc, i.to, v, w, w'); }
  }

  /** Reading back changes nothing about which lists are empty. */
  lemma {:induction false} StoredIsAsEmpty(sc: Scalars, t: Type, v: Value)
    ensures EmptyBagInside(t, AsStored(sc, t, v)) <==> EmptyBagInside(t, v)
    decreases t
  {
    match t {
      case Leaf(_) =>
      case Cont(_, i) =>
        if v.Dict? && i.Link? {
          forall k | 0 <= k < |v.entries|
            ensures EmptyBagInside(i.to, InnerAs(sc, i, v.entries[k].val)) <==> EmptyBagInside(i.to, v.entries[k].val) {
            StoredIsAsEmpty(sc, i.to, v.entries[k].val);
          }
        }
      case Bag(i) =>
        if v.List? && i.Link? {
          forall k | 0 <= k < |v.elems|
            ensures EmptyBagInside(i.to, InnerAs(sc, i, v.elems[k])) <==> EmptyBagInside(i.to, v.elems[k]) {
            StoredIsAsEmpty(sc, i.to, v.elems[k]);
          }
        }
    }
  }

  /** The content stands for the value, everything it links to being closed. */
  predicate Stands(h: Heap, t: Type, c: Content, v: Value)
    decreases t
  {
    match t
    case Leaf(_) => v.Atom? && c == One(v.text)
    case Cont(_, i) =>
      v.Dict? && c.Keyed? && |c.dict| == |v.entries|
      && forall k :: 0 <= k < |c.dict| ==>
           c.dict[k].key == v.entries[k].key && MemberStands(h, i, c.dict[k].member, v.entries[k].val)
    case Bag(i) =>
      v.List? && c.Listed? && |c.list| == |v.elems|
      && forall k :: 0 <= k < |c.list| ==> MemberStands(h, i, c.list[k], v.elems[k])
  }

  predicate MemberStands(h: Heap, i: Inner, m: Member, v: Value)
    decreases i
  {
    match i
    case InPlace(_) => v.Atom? && m == Plain(v.text)
    case Link(t) => m.Ref? && Closed(h, m.id) && Stands(h, t, h[m.id].content.value, v)
  }

  /** Closed data stay as they are. */
  ghost predicate Grows(h: Heap, h': Heap) {
    forall id :: Closed(h, id) ==> id in h' && h'[id] == h[id]
  }

  lemma {:induction false} StandsLater(h: Heap, h': Heap, t: Type, c: Content, v: Value)
    requires Grows(h, h') && Stands(h, t, c, v)
    ensures Stands(h', t, c, v)
    decreases t, 0
  {
    match t {
      case Leaf(_) =>
      case Cont(_, i) =>
        forall k | 0 <= k < |c.dict| ensures MemberStands(h', i, c.dict[k].member, v.entries[k].val) {
          MemberLater(h, h', i, c.dict[k].member, v.entries[k].val);
        }
      case Bag(i) =>
        forall k | 0 <= k < |c.list| ensures MemberStands(h', i, c.list[k], v.elems[k]) {
          MemberLater(h, h', i, c.list[k], v.elems[k]);
        }
    }
  }

  lemma {:induction false} MemberLater(h: Heap, h': Heap, i: Inner, m: Member, v: Value)
    requires Grows(h, h') && MemberStands(h, i, m, v)
    ensures MemberStands(h', i, m, v)
    decreases i, 1
  {
    match i {
      case InPlace(_) =>
      case Link(t) => StandsLater(h, h', t, h[m.id].content.value, v);
    }
  }

  // ---------------------------------------------------------------- equal up to order

  /** The same value, its dicts and bags listed in other orders, at every depth. */
  ghost predicate Same(v: Value, w: Value)
    decreases v
  {
    match v
    case Atom(_) => w == v
    case Dict(es) => w.Dict? && exists q :: IsOrder(q, |es|) && SameEntries(es, w.entries, q)
    case List(vs) => w.List? && exists q :: IsOrder(q, |vs|) && SameElems(vs, w.elems, q)
  }

  ghost predicate SameEntries(es: seq<Entry>, fs: seq<Entry>, q: seq<nat>)
    requires IsOrder(q, |es|)
    decreases es
  {
    |fs| == |es| && forall k :: 0 <= k < |es| ==> fs[k].key == es[q[k]].key && Same(es[q[k]].val, fs[k].val)
  }

  ghost predicate SameElems(vs: seq<Value>, ws: seq<Value>, q: seq<nat>)
    requires IsOrder(q, |vs|)
    decreases vs
  {
    |ws| == |vs| && forall k :: 0 <= k < |vs| ==> Same(vs[q[k]], ws[k])
  }

  /** What that means: as many entries and elements on both sides, and each has its partner on the
      other side, with the same key. */
  lemma {:induction false} SameFinds(v: Value, w: Value, i: nat)
    requires Same(v, w)
    ensures v.Atom? ==> w == v
    ensures v.Dict? ==> w.Dict? && |w.entries| == |v.entries|
    ensures v.List? ==> w.List? && |w.elems| == |v.elems|
    ensures v.Dict? && i < |v.entries| ==>
      && (exists k :: 0 <= k < |w.entries| && w.entries[k].key == v.entries[i].key
                      && Same(v.entries[i].val, w.entries[k].val))
      && (exists j :: 0 <= j < |v.entries| && v.entries[j].key == w.entries[i].key
                      && Same(v.entries[j].val, w.entries[i].val))
    ensures v.List? && i < |v.elems| ==>
      && (exists k :: 0 <= k < |w.elems| && Same(v.elems[i], w.elems[k]))
      && (exists j :: 0 <= j < |v.elems| && Same(v.elems[j], w.elems[i]))
  {
    match v {
      case Atom(_) =>
      case Dict(es) =>
        var q :| IsOrder(q, |es|) && SameEntries(es, w.entries, q);
        if i < |es| {
          assert i in q;
          var k :| 0 <= k < |q| && q[k] == i;
          assert w.entries[k].key == es[q[k]].key && Same(es[q[k]].val, w.entries[k].val);
          assert w.entries[i].key == es[q[i]].key && Same(es[q[i]].val, w.entries[i].val);
        }
      case List(vs) =>
        var q :| IsOrder(q, |vs|) && SameElems(vs, w.elems, q);
        if i < |vs| {
          assert i in q;
          var k :| 0 <= k < |q| && q[k] == i;
          assert Same(vs[q[k]], w.elems[k]);
          assert Same(vs[q[i]], w.elems[i]);
        }
    }
  }

  /** A multiset of references to containers or multisets is empty somewhere inside. */
  predicate EmptyBagInside(t: Type, v: Value)
    decreases t
  {
    match t
    case Leaf(_) => false
    case Cont(_, i) => v.Dict? && exists k :: 0 <= k < |v.entries| && EmptyBagBelow(i, v.entries[k].val)
    case Bag(i) =>
      v.List? && ((i.Link? && !i.to.Leaf? && |v.elems| == 0)
                  || exists k :: 0 <= k < |v.elems| && EmptyBagBelow(i, v.elems[k]))
  }

  predicate EmptyBagBelow(i: Inner, v: Value)
    decreases i
  {
    i.Link? && EmptyBagInside(i.to, v)
  }

  /** Nothing was put into the list of results that is returned. */
  predicate ResultUnset(t: Type, v: Value) {
    t.Bag? && t.inner.Link? && !t.inner.to.Leaf? && v.List? && |v.elems| == 0
  }

  // ---------------------------------------------------------------- what building leaves

  /** The write references dropped by the store: for a scalar always one, whatever was asked. */
  function Drops(t: Type, decr: nat): nat {
    if t.Leaf? then 1 else decr
  }

  /** The datum has the value, and has lost its write references; every new datum is closed; all
      others are as they were. */
  ghost predicate Built(h: Heap, h': Heap, id: Id, t: Type, v: Value, decr: nat) {
    && id in h && id in h' && h'[id].content.Some?
    && h'[id].writes == h[id].writes - Drops(t, decr) && h'[id].readers == h[id].readers
    && Stands(h', t, h'[id].content.value, v)
    && (forall x :: x in h && x != id ==> x in h' && h'[x] == h[x])
    && (forall x :: x in h' && x !in h ==> Closed(h', x))
  }

  ghost predicate Below(h: Heap, next: Id) {
    forall id :: id in h ==> id < next
  }

  /** The first `i` of the new data are built, the others are open, and nothing else changed. */
  ghost predicate Building(h: Heap, h': Heap, ids: seq<Id>, i: nat, t: Type, vals: seq<Value>) {
    && |ids| == |vals| && i <= |ids|
    && (forall x :: x in h ==> x in h' && h'[x] == h[x])
    && (forall x :: x in h' && x !in h ==> Closed(h', x) || x in ids[i..])
    && (forall k :: 0 <= k < |ids| ==> ids[k] !in h)
    && (forall j, k :: 0 <= j < k < |ids| ==> ids[j] != ids[k])
    && (forall k :: i <= k < |ids| ==> ids[k] in h' && h'[ids[k]] == Node(None, 1, 1))
    && (forall k :: 0 <= k < i ==> Closed(h', ids[k]) && Stands(h', t, h'[ids[k]].content.value, vals[k]))
  }

  lemma {:induction false} BuildingNext(h: Heap, h1: Heap, h2: Heap, ids: seq<Id>, i: nat, t: Type, vals: seq<Value>)
    requires Building(h, h1, ids, i, t, vals) && i < |ids| && Built(h1, h2, ids[i], t, vals[i], 1)
    ensures Building(h, h2, ids, i + 1, t, vals)
  {
    BuiltGrows(h1, h2, ids[i], t, vals[i]);
    forall k | 0 <= k < i + 1 ensures Closed(h2, ids[k]) && Stands(h2, t, h2[ids[k]].content.value, vals[k]) {
      if k < i { StandsLater(h1, h2, t, h1[ids[k]].content.value, vals[k]); }
    }
    hide Stands;
    forall x | x in h2 && x !in h ensures Closed(h2, x) || x in ids[i + 1..] {
      if x in h1 && x in ids[i..] {
        var k :| i <= k < |ids| && ids[k] == x;
        if k > i { assert ids[i + 1..][k - i - 1] == x; }
      }
    }
  }

  lemma BuiltGrows(h1: Heap, h2: Heap, id: Id, t: Type, v: Value)
    requires Built(h1, h2, id, t, v, 1) && h1[id].content.None?
    ensures Grows(h1, h2)
  {
  }

  function KeyedRefs(es: seq<Entry>, ids: seq<Id>): (r: seq<KeyMember>)
    requires |es| == |ids|
    ensures |r| == |es| && forall k :: 0 <= k < |es| ==> r[k] == KeyMember(es[k].key, Ref(ids[k]))
  {
    seq(|es|, k requires 0 <= k < |es| => KeyMember(es[k].key, Ref(ids[k])))
  }

  function KeyedTexts(es: seq<Entry>): (r: seq<KeyMember>)
    requires forall k :: 0 <= k < |es| ==> es[k].val.Atom?
    ensures |r| == |es| && forall k :: 0 <= k < |es| ==> r[k] == KeyMember(es[k].key, Plain(es[k].val.text))
  {
    seq(|es|, k requires 0 <= k < |es| => KeyMember(es[k].key, Plain(es[k].val.text)))
  }

  function Refs(ids: seq<Id>): (r: seq<Member>)
    ensures |r| == |ids| && forall k :: 0 <= k < |ids| ==> r[k] == Ref(ids[k])
  {
    seq(|ids|, k requires 0 <= k < |ids| => Ref(ids[k]))
  }

  function Texts(vs: seq<Value>): (r: seq<Member>)
    requires forall k :: 0 <= k < |vs| ==> vs[k].Atom?
    ensures |r| == |vs| && forall k :: 0 <= k < |vs| ==> r[k] == Plain(vs[k].text)
  {
    seq(|vs|, k requires 0 <= k < |vs| => Plain(vs[k].text))
  }

  function Vals(es: seq<Entry>): (r: seq<Value>)
    ensures |r| == |es| && forall k :: 0 <= k < |es| ==> r[k] == es[k].val
  {
    seq(|es|, k requires 0 <= k < |es| => es[k].val)
  }

  function Stored(node: Node, c: Content, decr: nat): Node {
    node.(content := Some(c), writes := node.writes - decr)
  }

  /** Storing the content closes the work: the links lead to closed data. */
  lemma {:induction false} StoredIsBuilt(h: Heap, h1: Heap, id: Id, c: Content, t: Type, v: Value, decr: nat)
    requires id in h && h[id].content.None? && Stands(h1, t, c, v)
    requires forall x :: x in h ==> x in h1 && h1[x] == h[x]
    requires forall x :: x in h1 && x !in h ==> Closed(h1, x)
    ensures Built(h, h1[id := Stored(h[id], c, Drops(t, decr))], id, t, v, decr)
  {
    var h2 := h1[id := Stored(h[id], c, Drops(t, decr))];
    assert Grows(h1, h2);
    StandsLater(h1, h2, t, c, v);
  }

  lemma LinksStand(h: Heap, h': Heap, ids: seq<Id>, t: Type, vals: seq<Value>)
    requires Building(h, h', ids, |ids|, t, vals)
    ensures forall k :: 0 <= k < |ids| ==> MemberStands(h', Link(t), Ref(ids[k]), vals[k])
    ensures forall x :: x in h ==> x in h' && h'[x] == h[x]
    ensures forall x :: x in h' && x !in h ==> Closed(h', x)
  {
  }
}
