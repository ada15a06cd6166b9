/** What the serializer guarantees: round trips, canonical bytes, and where it falls short. */
module PackTheorems {
  import opened Options
  import opened Bytes
  import opened Sorting
  import opened Values
  import opened Pack
  import opened PackRoundTrip

  // ---------------------------------------------------------------- the type list

  /** Packing looks at the type's own codes only: whatever surrounds them, and whatever the
      value, well typed or not, the outcome is the same; so it never runs past their end. */
  lemma {:induction false} AppendReadsOneType(cd: Codec, t: Type, ts: seq<Code>, i: nat, us: seq<Code>, j: nat,
                                              v: Value, prefix: bool, canon: bool)
    requires WellFormed(t) && Spells(ts, i, t) && Spells(us, j, t)
    ensures Append(cd, ts, i, v, prefix, canon) == Append(cd, us, j, v, prefix, canon)
    decreases t, 1, 0
  {
    match t {
      case Scalar(_) =>
      case Multiset(e) =>
        if v.List? { ElemsReadOneType(cd, e, ts, i + 2, us, j + 2, OrderedElems(cd, v.elems, canon), canon); }
      case Container(k, w) =>
        if v.Dict? { EntriesReadOneType(cd, k, w, ts, i + 3, us, j + 3, Ordered(v.entries, canon), canon); }
    }
  }

  lemma {:induction false} EntriesReadOneType(cd: Codec, k: Code, w: Type, ts: seq<Code>, i: nat,
                                              us: seq<Code>, j: nat, es: seq<Entry>, canon: bool)
    requires WellFormed(w) && i >= 1 && j >= 1 && Spells(ts, i - 1, w) && Spells(us, j - 1, w)
    ensures AppendEntries(cd, ts, i, k, es, canon) == AppendEntries(cd, us, j, k, es, canon)
    decreases w, 2, |es|
  {
    hide WellFormed, Spells, Append;
    if |es| > 0 {
      AppendReadsOneType(cd, w, ts, i - 1, us, j - 1, es[0].val, true, canon);
      EntriesReadOneType(cd, k, w, ts, i, us, j, es[1..], canon);
    }
  }

  lemma {:induction false} ElemsReadOneType(cd: Codec, e: Type, ts: seq<Code>, i: nat,
                                            us: seq<Code>, j: nat, vs: seq<Value>, canon: bool)
    requires WellFormed(e) && i >= 1 && j >= 1 && Spells(ts, i - 1, e) && Spells(us, j - 1, e)
    ensures AppendElems(cd, ts, i, vs, canon) == AppendElems(cd, us, j, vs, canon)
    decreases e, 2, |vs|
  {
    hide WellFormed, Spells, Append;
    if |vs| > 0 {
      AppendReadsOneType(cd, e, ts, i - 1, us, j - 1, vs[0], true, canon);
      ElemsReadOneType(cd, e, ts, i, us, j, vs[1..], canon);
    }
  }

  /** The packed form of a value of type `t`, without its own length: `adlb_tclobj2bin_compound`. */
  function Packed(cd: Codec, t: Type, v: Value, canon: bool): Option<seq<byte>> {
    Append(cd, Flatten(t), 0, v, false, canon)
  }

  lemma {:induction false} WholeSpells(t: Type)
    ensures Spells(Flatten(t), 0, t)
  {
    FlattenSpells([], t, []);
    assert [] + Flatten(t) + [] == Flatten(t);
  }

  // ---------------------------------------------------------------- the canonical order

  /** `w` is `v` as `lsort` leaves it at every level: dicts in the order of their keys, lists in
      that of the texts of their elements, as they were before they were sorted themselves. */
  ghost predicate Lsorted(cd: Codec, t: Type, v: Value, w: Value)
    decreases t, 0
  {
    match t
    case Scalar(_) => w == v
    case Multiset(e) =>
      v.List? && w.List? && |w.elems| == |v.elems|
      && exists q :: IsOrder(q, |v.elems|) && ElemsLsorted(cd, e, v.elems, w.elems, q)
    case Container(_, u) =>
      v.Dict? && w.Dict? && |w.entries| == |v.entries|
      && exists q :: IsOrder(q, |v.entries|) && EntriesLsorted(cd, u, v.entries, w.entries, q)
  }

  ghost predicate ElemsLsorted(cd: Codec, e: Type, vs: seq<Value>, ws: seq<Value>, q: seq<nat>)
    requires IsOrder(q, |vs|) && |ws| == |vs|
    decreases e, 1
  {
    && (forall k :: 0 <= k < |vs| ==> Lsorted(cd, e, vs[q[k]], ws[k]))
    && (forall i, j :: 0 <= i < j < |vs| ==> Le(TextOf(cd, vs[q[i]]), TextOf(cd, vs[q[j]])))
    && (forall i, j :: 0 <= i < j < |vs| && TextOf(cd, vs[q[i]]) == TextOf(cd, vs[q[j]]) ==> q[i] < q[j])
  }

  ghost predicate EntriesLsorted(cd: Codec, u: Type, es: seq<Entry>, fs: seq<Entry>, q: seq<nat>)
    requires IsOrder(q, |es|) && |fs| == |es|
    decreases u, 1
  {
    && (forall k :: 0 <= k < |es| ==> fs[k].key == es[q[k]].key && Lsorted(cd, u, es[q[k]].val, fs[k].val))
    && (forall i, j :: 0 <= i < j < |es| ==> Le(fs[i].key, fs[j].key))
  }

  lemma {:induction false} NormIsLsorted(cd: Codec, t: Type, v: Value)
    requires HasType(cd, t, v)
    ensures Lsorted(cd, t, v, Norm(cd, t, v, true))
    decreases t, 0
  {
    match t {
      case Scalar(_) =>
      case Multiset(e) =>
        NormList(cd, e, v, true);
        var q := SortIsStable(x => TextOf(cd, x), v.elems);
        ListIsLsorted(cd, e, v.elems, q);
      case Container(k, u) =>
        DictType(cd, k, u, v);
        NormDict(cd, k, u, v, true);
        var q := SortIsStable(EntryKey, v.entries);
        DictIsLsorted(cd, u, v.entries, q);
    }
  }

  lemma {:induction false} ListIsLsorted(cd: Codec, e: Type, vs: seq<Value>, q: seq<nat>)
    requires ElemsHaveType(cd, e, vs) && SortedStably(x => TextOf(cd, x), vs, OrderedElems(cd, vs, true), q)
    ensures var ws := NormElems(cd, e, OrderedElems(cd, vs, true), true);
      IsOrder(q, |vs|) && |ws| == |vs| && ElemsLsorted(cd, e, vs, ws, q)
    decreases e, 1
  {
    hide OrderedElems, Le, TextOf, Norm, HasType;
    var os := OrderedElems(cd, vs, true);
    forall k | 0 <= k < |vs| ensures Lsorted(cd, e, vs[q[k]], Norm(cd, e, os[k], true)) {
      NormIsLsorted(cd, e, vs[q[k]]);
    }
  }

  lemma {:induction false} DictIsLsorted(cd: Codec, u: Type, es: seq<Entry>, q: seq<nat>)
    requires EntriesHaveType(cd, u, es) && SortedStably(EntryKey, es, Ordered(es, true), q)
    ensures var fs := NormEntries(cd, u, Ordered(es, true), true);
      IsOrder(q, |es|) && |fs| == |es| && EntriesLsorted(cd, u, es, fs, q)
    decreases u, 1
  {
    hide Ordered, Le, Norm, HasType;
    var os := Ordered(es, true);
    forall k | 0 <= k < |es| ensures Lsorted(cd, u, es[q[k]].val, Norm(cd, u, os[k].val, true)) {
      NormIsLsorted(cd, u, es[q[k]].val);
    }
  }

  // ---------------------------------------------------------------- the round trip

  /** A value comes back from its packed bytes: itself when the order was kept, and with its
      dicts and lists sorted when a canonical order was asked for. */
  lemma {:induction false} RoundTrip(cd: Codec, t: Type, v: Value, canon: bool)
    requires WellFormed(t) && HasType(cd, t, v)
    ensures Packed(cd, t, v, canon).Some?
    ensures var b := Packed(cd, t, v, canon).value;
      |b| < SIZE_LIMIT ==> Unpack(cd, Outer(t), b) == Done(Norm(cd, t, v, canon))
    ensures Norm(cd, t, v, false) == v && Lsorted(cd, t, v, Norm(cd, t, v, true))
  {
    hide *;
    NormIsLsorted(cd, t, v);
    WholeSpells(t);
    AppendSucceeds(cd, Flatten(t), 0, t, v, false, canon);
    NormKeepsOrder(cd, t, v);
    PackedIs(cd, t, v, canon);
    var b := Packed(cd, t, v, canon).value;
    if |b| < SIZE_LIMIT { UnpackOfAppend(cd, Flatten(t), 0, t, v, canon, b); }
  }

  lemma PackedIs(cd: Codec, t: Type, v: Value, canon: bool)
    ensures Packed(cd, t, v, canon) == Append(cd, Flatten(t), 0, v, false, canon)
  {
  }

  lemma {:induction false} NormKeepsOrder(cd: Codec, t: Type, v: Value)
    requires HasType(cd, t, v)
    ensures Norm(cd, t, v, false) == v
    decreases t
  {
    match t {
      case Scalar(_) =>
      case Multiset(e) =>
        forall i | 0 <= i < |v.elems| ensures Norm(cd, e, v.elems[i], false) == v.elems[i] {
          NormKeepsOrder(cd, e, v.elems[i]);
        }
        assert Norm(cd, t, v, false).elems == v.elems;
      case Container(_, w) =>
        forall i | 0 <= i < |v.entries| ensures Norm(cd, w, v.entries[i].val, false) == v.entries[i].val {
          NormKeepsOrder(cd, w, v.entries[i].val);
        }
        assert Norm(cd, t, v, false).entries == v.entries;
    }
  }
}
