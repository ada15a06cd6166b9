/** Canonical packing: equal maps and bags pack to the same bytes, unequal ones do not. */
module PackCanonical {
  import opened Options
  import opened Bytes
  import opened Sorting
  import opened Values
  import opened Pack
  import opened PackRoundTrip
  import opened PackTheorems

  /** Types without bags of compound values. */
  predicate SimpleBags(t: Type) {
    match t
    case Scalar(_) => true
    case Multiset(e) => e.Scalar?
    case Container(_, w) => SimpleBags(w)
  }

  predicate HasKey(es: seq<Entry>, key: Text) {
    exists i :: 0 <= i < |es| && es[i].key == key
  }

  /** Equality of values: dicts as maps, lists as bags. */
  ghost predicate Equal(t: Type, v: Value, w: Value)
    requires SimpleBags(t)
    decreases t
  {
    match t
    case Scalar(_) => v == w
    case Multiset(_) => v.List? && w.List? && multiset(v.elems) == multiset(w.elems)
    case Container(_, u) =>
      v.Dict? && w.Dict?
      && (forall key :: HasKey(v.entries, key) <==> HasKey(w.entries, key))
      && (forall i, j :: 0 <= i < |v.entries| && 0 <= j < |w.entries| && v.entries[i].key == w.entries[j].key
            ==> Equal(u, v.entries[i].val, w.entries[j].val))
  }

  // ------------------------------------------------- packing in order is packing the sorted value

  lemma {:induction false} AppendSorted(cd: Codec, t: Type, ts: seq<Code>, i: nat, v: Value, prefix: bool)
    requires WellFormed(t) && Spells(ts, i, t)
    ensures Append(cd, ts, i, v, prefix, true) == Append(cd, ts, i, Norm(cd, t, v, true), prefix, false)
    decreases t, 1, 0
  {
    match t {
      case Scalar(_) =>
      case Multiset(e) =>
        if v.List? { ListAppendSorted(cd, e, ts, i, v, prefix); }
      case Container(k, w) =>
        if v.Dict? { DictAppendSorted(cd, k, w, ts, i, v, prefix); }
    }
  }

  lemma {:induction false} ListAppendSorted(cd: Codec, e: Type, ts: seq<Code>, i: nat, v: Value, prefix: bool)
    requires WellFormed(Multiset(e)) && Spells(ts, i, Multiset(e)) && v.List?
    ensures Append(cd, ts, i, v, prefix, true) == Append(cd, ts, i, Norm(cd, Multiset(e), v, true), prefix, false)
    decreases e, 3
  {
    hide Framed, AppendElems, NormElems, TextOf, Append, AppendList;
    var vs := OrderedElems(cd, v.elems, true);
    SortPermutes(v => TextOf(cd, v), v.elems);
    NormList(cd, e, v, true);
    ElemsSorted(cd, e, ts, i + 2, vs);
    AppendListIs(cd, ts, i, e, v, prefix, true);
    AppendListIs(cd, ts, i, e, Norm(cd, Multiset(e), v, true), prefix, false);
  }

  lemma {:induction false} AppendListIs(cd: Codec, ts: seq<Code>, i: nat, e: Type, v: Value, prefix: bool, canon: bool)
    requires Spells(ts, i, Multiset(e)) && v.List?
    ensures var body := AppendElems(cd, ts, i + 2, OrderedElems(cd, v.elems, canon), canon);
      Append(cd, ts, i, v, prefix, canon) ==
      if body.None? then None
      else Some(Framed(MULTISET, MultisetHeader(|v.elems|, Outer(e)) + body.value, prefix))
  {
    hide Framed, AppendElems, TextOf, OrderedElems, MultisetHeader;
  }

  lemma {:induction false} DictAppendSorted(cd: Codec, k: Code, w: Type, ts: seq<Code>, i: nat, v: Value, prefix: bool)
    requires WellFormed(Container(k, w)) && Spells(ts, i, Container(k, w)) && v.Dict?
    ensures Append(cd, ts, i, v, prefix, true) == Append(cd, ts, i, Norm(cd, Container(k, w), v, true), prefix, false)
    decreases w, 3
  {
    hide Framed, AppendEntries, NormEntries, Append, AppendDict;
    var es := Ordered(v.entries, true);
    SortPermutes(EntryKey, v.entries);
    NormDict(cd, k, w, v, true);
    EntriesSorted(cd, k, w, ts, i + 3, es);
    AppendDictIs(cd, ts, i, k, w, v, prefix, true);
    AppendDictIs(cd, ts, i, k, w, Norm(cd, Container(k, w), v, true), prefix, false);
  }

  lemma {:induction false} AppendDictIs(cd: Codec, ts: seq<Code>, i: nat, k: Code, w: Type, v: Value, prefix: bool,
                                        canon: bool)
    requires Spells(ts, i, Container(k, w)) && v.Dict?
    ensures var body := AppendEntries(cd, ts, i + 3, k, Ordered(v.entries, canon), canon);
      Append(cd, ts, i, v, prefix, canon) ==
      if body.None? then None
      else Some(Framed(CONTAINER, ContainerHeader(|v.entries|, k, Outer(w)) + body.value, prefix))
  {
    hide Framed, AppendEntries, TextOf, Ordered, ContainerHeader;
  }

  lemma {:induction false} ElemsSorted(cd: Codec, e: Type, ts: seq<Code>, i: nat, vs: seq<Value>)
    requires WellFormed(e) && i >= 1 && Spells(ts, i - 1, e)
    ensures AppendElems(cd, ts, i, vs, true) == AppendElems(cd, ts, i, NormElems(cd, e, vs, true), false)
    decreases e, 2, |vs|
  {
    hide WellFormed, Spells, Append, Norm;
    var ns := NormElems(cd, e, vs, true);
    if |vs| > 0 {
      AppendSorted(cd, e, ts, i - 1, vs[0], true);
      ElemsSorted(cd, e, ts, i, vs[1..]);
      assert ns[1..] == NormElems(cd, e, vs[1..], true);
    }
  }

  lemma {:induction false} EntriesSorted(cd: Codec, k: Code, w: Type, ts: seq<Code>, i: nat, es: seq<Entry>)
    requires WellFormed(w) && i >= 1 && Spells(ts, i - 1, w)
    ensures AppendEntries(cd, ts, i, k, es, true) == AppendEntries(cd, ts, i, k, NormEntries(cd, w, es, true), false)
    decreases w, 2, |es|
  {
    hide WellFormed, Spells, Append, Norm, Framed;
    var ns := NormEntries(cd, w, es, true);
    if |es| > 0 {
      AppendSorted(cd, w, ts, i - 1, es[0].val, true);
      EntriesSorted(cd, k, w, ts, i, es[1..]);
      assert ns[1..] == NormEntries(cd, w, es[1..], true);
    }
  }

  /** For every type, two values have the same canonical bytes exactly if they are the same
      once sorted. */
  lemma {:induction false} SameBytesSameOrder(cd: Codec, t: Type, v: Value, w: Value)
    requires WellFormed(t) && HasType(cd, t, v) && HasType(cd, t, w)
    requires Packed(cd, t, v, true).Some? ==> |Packed(cd, t, v, true).value| < SIZE_LIMIT
    ensures Packed(cd, t, v, true) == Packed(cd, t, w, true) <==> Norm(cd, t, v, true) == Norm(cd, t, w, true)
  {
    hide *;
    WholeSpells(t);
    PackedIs(cd, t, v, true);
    PackedIs(cd, t, w, true);
    AppendSorted(cd, t, Flatten(t), 0, v, false);
    AppendSorted(cd, t, Flatten(t), 0, w, false);
    RoundTrip(cd, t, v, true);
    RoundTrip(cd, t, w, true);
  }

  // ---------------------------------------------------------------- sorted exactly if equal

  /** Equality for every type: dicts as maps, and lists element by element once each list has
      been sorted by the texts of its own elements. */
  ghost predicate SameInTextOrder(cd: Codec, t: Type, v: Value, w: Value)
    decreases t
  {
    match t
    case Scalar(_) => v == w
    case Multiset(e) =>
      v.List? && w.List? && |v.elems| == |w.elems|
      && var a, b := OrderedElems(cd, v.elems, true), OrderedElems(cd, w.elems, true);
         |a| == |b| && forall i :: 0 <= i < |a| ==> SameInTextOrder(cd, e, a[i], b[i])
    case Container(_, u) =>
      v.Dict? && w.Dict?
      && (forall key :: HasKey(v.entries, key) <==> HasKey(w.entries, key))
      && (forall i, j :: 0 <= i < |v.entries| && 0 <= j < |w.entries| && v.entries[i].key == w.entries[j].key
            ==> SameInTextOrder(cd, u, v.entries[i].val, w.entries[j].val))
  }

  /** Values have the same sorted form exactly if they are the same in this sense. */
  lemma {:induction false} NormIffTextOrder(cd: Codec, t: Type, v: Value, w: Value)
    requires HasType(cd, t, v) && HasType(cd, t, w)
    ensures Norm(cd, t, v, true) == Norm(cd, t, w, true) <==> SameInTextOrder(cd, t, v, w)
    decreases t, 1
  {
    match t {
      case Scalar(_) =>
      case Multiset(e) => ListsSorted(cd, e, v, w);
      case Container(k, u) =>
        DictType(cd, k, u, v);
        DictType(cd, k, u, w);
        NormDict(cd, k, u, v, true);
        NormDict(cd, k, u, w, true);
        DictsSorted(cd, u, v.entries, w.entries);
    }
  }

  lemma {:induction false} ListsSorted(cd: Codec, e: Type, v: Value, w: Value)
    requires HasType(cd, Multiset(e), v) && HasType(cd, Multiset(e), w)
    ensures Norm(cd, Multiset(e), v, true) == Norm(cd, Multiset(e), w, true)
            <==> SameInTextOrder(cd, Multiset(e), v, w)
    decreases e, 2
  {
    ListHasType(cd, e, v);
    ListHasType(cd, e, w);
    NormList(cd, e, v, true);
    NormList(cd, e, w, true);
    OrderedElemsHasType(cd, e, v.elems, true);
    OrderedElemsHasType(cd, e, w.elems, true);
    var a, b := OrderedElems(cd, v.elems, true), OrderedElems(cd, w.elems, true);
    hide HasType, OrderedElems, Norm;
    if |a| == |b| {
      forall i | 0 <= i < |a|
        ensures Norm(cd, e, a[i], true) == Norm(cd, e, b[i], true) <==> SameInTextOrder(cd, e, a[i], b[i]) {
        NormIffTextOrder(cd, e, a[i], b[i]);
      }
      SameNorms(cd, e, a, b);
    }
  }

  lemma ListHasType(cd: Codec, e: Type, v: Value)
    requires HasType(cd, Multiset(e), v)
    ensures v.List? && ElemsHaveType(cd, e, v.elems)
  {
  }

  lemma {:induction false} SameNorms(cd: Codec, e: Type, a: seq<Value>, b: seq<Value>)
    requires |a| == |b|
    ensures NormElems(cd, e, a, true) == NormElems(cd, e, b, true)
            <==> forall i :: 0 <= i < |a| ==> Norm(cd, e, a[i], true) == Norm(cd, e, b[i], true)
  {
    hide Norm;
    var m, n := NormElems(cd, e, a, true), NormElems(cd, e, b, true);
    assert forall i :: 0 <= i < |a| ==> m[i] == Norm(cd, e, a[i], true) && n[i] == Norm(cd, e, b[i], true);
    if forall i :: 0 <= i < |a| ==> Norm(cd, e, a[i], true) == Norm(cd, e, b[i], true) { assert m == n; }
  }

  /** Without bags of compound values this is equality of maps and bags. */
  lemma {:induction false} TextOrderIffEqual(cd: Codec, t: Type, v: Value, w: Value)
    requires SimpleBags(t) && HasType(cd, t, v) && HasType(cd, t, w)
    ensures SameInTextOrder(cd, t, v, w) <==> Equal(t, v, w)
    decreases t
  {
    match t {
      case Scalar(_) =>
      case Multiset(e) =>
        BagsSorted(cd, e, v, w);
        ListsSorted(cd, e, v, w);
      case Container(k, u) =>
        DictType(cd, k, u, v);
        DictType(cd, k, u, w);
        forall i, j | 0 <= i < |v.entries| && 0 <= j < |w.entries| && v.entries[i].key == w.entries[j].key
          ensures SameInTextOrder(cd, u, v.entries[i].val, w.entries[j].val)
                  <==> Equal(u, v.entries[i].val, w.entries[j].val) {
          TextOrderIffEqual(cd, u, v.entries[i].val, w.entries[j].val);
        }
        hide HasType;
    }
  }

  lemma {:induction false} SortedIffEqual(cd: Codec, t: Type, v: Value, w: Value)
    requires SimpleBags(t) && HasType(cd, t, v) && HasType(cd, t, w)
    ensures Norm(cd, t, v, true) == Norm(cd, t, w, true) <==> Equal(t, v, w)
  {
    hide *;
    NormIffTextOrder(cd, t, v, w);
    TextOrderIffEqual(cd, t, v, w);
  }

  lemma {:induction false} BagsSorted(cd: Codec, e: Type, v: Value, w: Value)
    requires e.Scalar? && HasType(cd, Multiset(e), v) && HasType(cd, Multiset(e), w)
    ensures Norm(cd, Multiset(e), v, true) == Norm(cd, Multiset(e), w, true)
            <==> multiset(v.elems) == multiset(w.elems)
  {
    var key := (x: Value) => TextOf(cd, x);
    var a, b := Sort(key, v.elems), Sort(key, w.elems);
    SortPermutes(key, v.elems);
    SortPermutes(key, w.elems);
    SortSorted(key, v.elems);
    SortSorted(key, w.elems);
    NormBag(cd, e, v);
    NormBag(cd, e, w);
    if multiset(a) == multiset(b) {
      forall x | x in a ensures x.Atom? {
        SortMember(key, v.elems, x);
        assert x in v.elems;
      }
      SortedUnique(key, a, b);
    }
  }

  lemma NormBag(cd: Codec, e: Type, v: Value)
    requires e.Scalar? && v.List?
    ensures Norm(cd, Multiset(e), v, true) == List(Sort(x => TextOf(cd, x), v.elems))
  {
  }

  /** Dicts: the sorted forms are equal exactly if the keys are the same and their values agree. */
  ghost predicate SameMap(cd: Codec, u: Type, es: seq<Entry>, fs: seq<Entry>) {
    (forall key :: HasKey(es, key) <==> HasKey(fs, key))
    && forall i, j :: 0 <= i < |es| && 0 <= j < |fs| && es[i].key == fs[j].key ==>
         SameInTextOrder(cd, u, es[i].val, fs[j].val)
  }

  function SortedForm(cd: Codec, u: Type, es: seq<Entry>): seq<Entry> {
    NormEntries(cd, u, Ordered(es, true), true)
  }

  function NormEntry(cd: Codec, u: Type, e: Entry): Entry {
    Entry(e.key, Norm(cd, u, e.val, true))
  }

  lemma {:induction false} DictsSorted(cd: Codec, u: Type, es: seq<Entry>, fs: seq<Entry>)
    requires UniqueKeys(es) && UniqueKeys(fs)
    requires EntriesHaveType(cd, u, es) && EntriesHaveType(cd, u, fs)
    ensures SortedForm(cd, u, es) == SortedForm(cd, u, fs) <==> SameMap(cd, u, es, fs)
    decreases u, 3
  {
    if SortedForm(cd, u, es) == SortedForm(cd, u, fs) {
      forall i, j | 0 <= i < |es| && 0 <= j < |fs| && es[i].key == fs[j].key
        ensures SameInTextOrder(cd, u, es[i].val, fs[j].val)
      {
        hide *;
        SameKeySameValue(cd, u, es, fs, i, j);
        HasTypeAt(cd, u, es, i);
        HasTypeAt(cd, u, fs, j);
        NormIffTextOrder(cd, u, es[i].val, fs[j].val);
      }
      SameKeys(cd, u, es, fs);
      SameKeys(cd, u, fs, es);
    }
    if SameMap(cd, u, es, fs) {
      forall i, j | 0 <= i < |es| && 0 <= j < |fs| && es[i].key == fs[j].key
        ensures NormEntry(cd, u, es[i]) == NormEntry(cd, u, fs[j])
      {
        NormIffTextOrder(cd, u, es[i].val, fs[j].val);
      }
      SameEntriesSorted(cd, u, es, fs);
    }
  }

  lemma HasTypeAt(cd: Codec, u: Type, es: seq<Entry>, i: nat)
    requires EntriesHaveType(cd, u, es) && i < |es|
    ensures HasType(cd, u, es[i].val)
  {
  }

  /** An entry of the sorted form is the form of an entry, and the other way round. */
  lemma {:induction false} SortedFormMembers(cd: Codec, u: Type, es: seq<Entry>, x: Entry)
    ensures x in SortedForm(cd, u, es) <==> exists i :: 0 <= i < |es| && x == NormEntry(cd, u, es[i])
  {
    hide Norm, Ordered;
    var s := Ordered(es, true);
    var n := SortedForm(cd, u, es);
    if x in n {
      var p :| 0 <= p < |n| && n[p] == x;
      assert s[p] in es by { OrderedMember(es, s[p]); }
      var i :| 0 <= i < |es| && es[i] == s[p];
      assert x == NormEntry(cd, u, es[i]);
    }
    if i :| 0 <= i < |es| && x == NormEntry(cd, u, es[i]) {
      OrderedMember(es, es[i]);
      var p :| 0 <= p < |s| && s[p] == es[i];
      assert n[p] == x;
    }
  }

  lemma {:induction false} OrderedMember(es: seq<Entry>, e: Entry)
    ensures e in Ordered(es, true) <==> e in es
  {
    SortMember(EntryKey, es, e);
  }

  lemma {:induction false} SortedFormUnique(cd: Codec, u: Type, es: seq<Entry>)
    requires UniqueKeys(es)
    ensures UniqueKeys(SortedForm(cd, u, es)) && IsSorted(EntryKey, SortedForm(cd, u, es))
  {
    hide Norm;
    OrderedUnique(es, true);
    SortSorted(EntryKey, es);
    var s, n := Ordered(es, true), SortedForm(cd, u, es);
    assert |n| == |s| && forall i :: 0 <= i < |s| ==> n[i].key == s[i].key;
    forall i | 0 < i < |n| ensures Le(EntryKey(n[i-1]), EntryKey(n[i])) {
      assert Le(EntryKey(s[i-1]), EntryKey(s[i]));
    }
  }

  lemma {:induction false} SameKeySameValue(cd: Codec, u: Type, es: seq<Entry>, fs: seq<Entry>, i: nat, j: nat)
    requires UniqueKeys(es) && i < |es| && j < |fs| && es[i].key == fs[j].key
    requires SortedForm(cd, u, es) == SortedForm(cd, u, fs)
    ensures Norm(cd, u, es[i].val, true) == Norm(cd, u, fs[j].val, true)
  {
    hide Norm, SortedForm;
    var n := SortedForm(cd, u, es);
    SortedFormMembers(cd, u, es, NormEntry(cd, u, es[i]));
    SortedFormMembers(cd, u, fs, NormEntry(cd, u, fs[j]));
    SortedFormUnique(cd, u, es);
    var p :| 0 <= p < |n| && n[p] == NormEntry(cd, u, es[i]);
    var q :| 0 <= q < |n| && n[q] == NormEntry(cd, u, fs[j]);
    assert p == q;
  }

  lemma {:induction false} SameKeys(cd: Codec, u: Type, es: seq<Entry>, fs: seq<Entry>)
    requires SortedForm(cd, u, es) == SortedForm(cd, u, fs)
    ensures forall key :: HasKey(es, key) ==> HasKey(fs, key)
  {
    hide Norm, SortedForm;
    forall key | HasKey(es, key) ensures HasKey(fs, key) {
      var i :| 0 <= i < |es| && es[i].key == key;
      SortedFormMembers(cd, u, es, NormEntry(cd, u, es[i]));
      SortedFormMembers(cd, u, fs, NormEntry(cd, u, es[i]));
      var j :| 0 <= j < |fs| && NormEntry(cd, u, es[i]) == NormEntry(cd, u, fs[j]);
      assert fs[j].key == key;
    }
  }

  lemma {:induction false} SameEntriesSorted(cd: Codec, u: Type, es: seq<Entry>, fs: seq<Entry>)
    requires UniqueKeys(es) && UniqueKeys(fs)
    requires forall key :: HasKey(es, key) <==> HasKey(fs, key)
    requires forall i, j :: 0 <= i < |es| && 0 <= j < |fs| && es[i].key == fs[j].key
               ==> NormEntry(cd, u, es[i]) == NormEntry(cd, u, fs[j])
    ensures SortedForm(cd, u, es) == SortedForm(cd, u, fs)
  {
    hide Norm, SortedForm;
    var m, n := SortedForm(cd, u, es), SortedForm(cd, u, fs);
    forall x ensures x in m <==> x in n {
      SortedFormMembers(cd, u, es, x);
      SortedFormMembers(cd, u, fs, x);
      if i :| 0 <= i < |es| && x == NormEntry(cd, u, es[i]) {
        assert HasKey(es, es[i].key);
        var j :| 0 <= j < |fs| && fs[j].key == es[i].key;
        assert x == NormEntry(cd, u, fs[j]);
      }
      if j :| 0 <= j < |fs| && x == NormEntry(cd, u, fs[j]) {
        assert HasKey(fs, fs[j].key);
        var i :| 0 <= i < |es| && es[i].key == fs[j].key;
        assert x == NormEntry(cd, u, es[i]);
      }
    }
    SortedFormUnique(cd, u, es);
    SortedFormUnique(cd, u, fs);
    SameMembersSameBag(m, n);
    KeysTellApart(m);
    SortedUnique(EntryKey, m, n);
  }

  lemma KeysTellApart(m: seq<Entry>)
    requires UniqueKeys(m)
    ensures forall x, y {:trigger EntryKey(x), EntryKey(y)} :: x in m && y in m && EntryKey(x) == EntryKey(y) ==> x == y
  {
  }

  lemma {:induction false} SameMembersSameBag(a: seq<Entry>, b: seq<Entry>)
    requires UniqueKeys(a) && UniqueKeys(b) && forall x :: x in a <==> x in b
    ensures multiset(a) == multiset(b)
  {
    forall x ensures multiset(a)[x] == multiset(b)[x] {
      if x in a {
        UniqueAsMultiset(a, x);
        UniqueAsMultiset(b, x);
      } else {
        assert x !in multiset(a) && x !in multiset(b);
      }
    }
  }

  // ---------------------------------------------------------------- the theorem

  /** For every type: canonical bytes are the same exactly if dicts are the same as maps and
      bags agree element by element in the order of their texts. */
  lemma {:induction false} SameBytesIff(cd: Codec, t: Type, v: Value, w: Value)
    requires WellFormed(t) && HasType(cd, t, v) && HasType(cd, t, w)
    requires Packed(cd, t, v, true).Some? ==> |Packed(cd, t, v, true).value| < SIZE_LIMIT
    ensures Packed(cd, t, v, true) == Packed(cd, t, w, true) <==> SameInTextOrder(cd, t, v, w)
  {
    hide *;
    SameBytesSameOrder(cd, t, v, w);
    NormIffTextOrder(cd, t, v, w);
  }

  /** With a canonical order asked for, two values equal as maps and bags, whatever the order
      in which they were built, pack to identical bytes, and unequal ones to different bytes. */
  lemma {:induction false} CanonicalPacking(cd: Codec, t: Type, v: Value, w: Value)
    requires WellFormed(t) && SimpleBags(t) && HasType(cd, t, v) && HasType(cd, t, w)
    requires Packed(cd, t, v, true).Some? ==> |Packed(cd, t, v, true).value| < SIZE_LIMIT
    ensures Packed(cd, t, v, true) == Packed(cd, t, w, true) <==> Equal(t, v, w)
  {
    hide *;
    SameBytesSameOrder(cd, t, v, w);
    SortedIffEqual(cd, t, v, w);
  }
}
