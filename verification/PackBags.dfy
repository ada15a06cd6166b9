/** Bags of dicts and bags of bags in canonical order: when equal ones have the same bytes. */
module PackBags {
  import opened Options
  import opened Bytes
  import opened Sorting
  import opened Values
  import opened Pack
  import opened PackRoundTrip
  import opened PackTheorems
  import opened PackCanonical

  /** The text of `v` does not sort after that of `w`. */
  predicate Before(cd: Codec, v: Value, w: Value) {
    Le(TextOf(cd, v), TextOf(cd, w))
  }

  predicate InOrder(cd: Codec, vs: seq<Value>) {
    forall i, j :: 0 <= i < j < |vs| ==> Before(cd, vs[i], vs[j])
  }

  lemma {:induction false} OrderedInOrder(cd: Codec, vs: seq<Value>)
    ensures InOrder(cd, OrderedElems(cd, vs, true))
  {
    var key := (v: Value) => TextOf(cd, v);
    SortSorted(key, vs);
    var s := OrderedElems(cd, vs, true);
    assert IsSorted(key, s);
    forall i, j | 0 <= i < j < |s| ensures Before(cd, s[i], s[j]) {
      SortedFrom(key, s, i);
      HeadIsLeast(key, s[i..], j - i);
    }
  }

  lemma SortedFrom<T>(key: T -> Text, s: seq<T>, i: nat)
    requires IsSorted(key, s) && i <= |s|
    ensures IsSorted(key, s[i..])
  {
  }

  // ---------------------------------------------------------------- two elements

  lemma {:induction false} SortTwo(cd: Codec, d: Value, x: Value)
    ensures OrderedElems(cd, [d, x], true) == if Before(cd, d, x) then [d, x] else [x, d]
  {
    var key := (v: Value) => TextOf(cd, v);
    hide Le, TextOf;
    assert [d, x][1..] == [x] && [x][1..] == [];
    assert Sort(key, []) == [];
    assert Sort(key, [x]) == Insert(key, x, []) == [x];
    assert Sort(key, [d, x]) == Insert(key, d, [x]);
    assert Insert(key, d, []) == [d];
  }

  lemma PairHasType(cd: Codec, e: Type, d: Value, x: Value)
    requires HasType(cd, e, d) && HasType(cd, e, x)
    ensures HasType(cd, Multiset(e), List([d, x]))
  {
  }

  lemma WellFormedBag(e: Type)
    requires WellFormed(e)
    ensures WellFormed(Multiset(e))
  {
  }

  lemma {:induction false} NormTwo(cd: Codec, e: Type, d: Value, x: Value)
    ensures var n, m := Norm(cd, e, d, true), Norm(cd, e, x, true);
      Norm(cd, Multiset(e), List([d, x]), true) == List(if Before(cd, d, x) then [n, m] else [m, n])
  {
    hide Norm, OrderedElems, Before;
    SortTwo(cd, d, x);
    NormList(cd, e, List([d, x]), true);
    var s := OrderedElems(cd, [d, x], true);
    var r := NormElems(cd, e, s, true);
    assert r == [Norm(cd, e, s[0], true), Norm(cd, e, s[1], true)];
  }

  /** One element of a bag of two is exchanged for an equal one, built in another order.  The
      bytes stay the same exactly if its text still sorts on the same side of the other. */
  lemma {:induction false} PairCanonicalIff(cd: Codec, e: Type, d: Value, d': Value, x: Value)
    requires WellFormed(e) && SimpleBags(e)
    requires HasType(cd, e, d) && HasType(cd, e, d') && HasType(cd, e, x)
    requires Equal(e, d, d') && !Equal(e, x, d)
    requires var b := Packed(cd, Multiset(e), List([d, x]), true); b.Some? ==> |b.value| < SIZE_LIMIT
    ensures Packed(cd, Multiset(e), List([d, x]), true) == Packed(cd, Multiset(e), List([d', x]), true)
            <==> (Before(cd, d, x) <==> Before(cd, d', x))
  {
    hide *;
    PairHasType(cd, e, d, x);
    PairHasType(cd, e, d', x);
    WellFormedBag(e);
    SameBytesSameOrder(cd, Multiset(e), List([d, x]), List([d', x]));
    SortedIffEqual(cd, e, d, d');
    SortedIffEqual(cd, e, x, d);
    NormTwo(cd, e, d, x);
    NormTwo(cd, e, d', x);
    TwoOrders(Norm(cd, e, d, true), Norm(cd, e, x, true));
  }

  lemma {:induction false} TwoOrders(n: Value, m: Value)
    requires n != m
    ensures List([n, m]) != List([m, n])
  {
    assert [n, m][0] != [m, n][0];
  }

  // ---------------------------------------------------------------- bags of any size

  /** How many elements are equal to `x`. */
  ghost function Count(e: Type, vs: seq<Value>, x: Value): nat
    requires SimpleBags(e)
  {
    if |vs| == 0 then 0 else (if Equal(e, vs[0], x) then 1 else 0) + Count(e, vs[1..], x)
  }

  /** Equality of bags whose elements are compared as maps and bags. */
  ghost predicate SameBag(cd: Codec, e: Type, vs: seq<Value>, ws: seq<Value>)
    requires SimpleBags(e)
  {
    forall x :: HasType(cd, e, x) ==> Count(e, vs, x) == Count(e, ws, x)
  }

  /** Different values have different texts, as in Tcl, where a value is its text. */
  ghost predicate TextTells(cd: Codec, e: Type) {
    forall v, w {:trigger HasType(cd, e, v), HasType(cd, e, w)} ::
      HasType(cd, e, v) && HasType(cd, e, w) && TextOf(cd, v) == TextOf(cd, w) ==> v == w
  }

  /** A quarter of the numbers of a `size_t`: two such values and their lengths fit. */
  const QUARTER: nat := 0x4000_0000_0000_0000

  /** A value of the type whose bytes take no more than that. */
  predicate Element(cd: Codec, e: Type, v: Value) {
    HasType(cd, e, v) && (Packed(cd, e, v, true).Some? ==> |Packed(cd, e, v, true).value| < QUARTER)
  }

  predicate AllElements(cd: Codec, e: Type, vs: seq<Value>) {
    forall i :: 0 <= i < |vs| ==> Element(cd, e, vs[i])
  }

  /** Equal values sort on the same side of every other value. */
  ghost predicate TextFollowsEqual(cd: Codec, e: Type)
    requires SimpleBags(e)
  {
    forall d, d', x ::
      Element(cd, e, d) && Element(cd, e, d') && Element(cd, e, x) && Equal(e, d, d') && !Equal(e, x, d)
      ==> (Before(cd, d, x) <==> Before(cd, d', x))
  }

  lemma FollowsAt(cd: Codec, e: Type, d: Value, d': Value, x: Value)
    requires SimpleBags(e) && TextFollowsEqual(cd, e)
    requires Element(cd, e, d) && Element(cd, e, d') && Element(cd, e, x) && Equal(e, d, d') && !Equal(e, x, d)
    ensures Before(cd, d, x) <==> Before(cd, d', x)
  {
  }

  /** Equal bags of such values have the same bytes. */
  ghost predicate CanonicalBags(cd: Codec, e: Type)
    requires SimpleBags(e)
  {
    forall vs, ws {:trigger AllElements(cd, e, vs), AllElements(cd, e, ws)} ::
      AllElements(cd, e, vs) && AllElements(cd, e, ws) && SameBag(cd, e, vs, ws)
      ==> Packed(cd, Multiset(e), List(vs), true) == Packed(cd, Multiset(e), List(ws), true)
  }

  lemma {:induction false} ElementsHaveType(cd: Codec, e: Type, vs: seq<Value>)
    requires AllElements(cd, e, vs)
    ensures ElemsHaveType(cd, e, vs) && HasType(cd, Multiset(e), List(vs))
    ensures |vs| > 0 ==> AllElements(cd, e, vs[1..])
  {
    hide Packed;
  }

  /** The elements equal to `x` are those with its sorted form. */
  lemma {:induction false} CountNorms(cd: Codec, e: Type, vs: seq<Value>, x: Value)
    requires SimpleBags(e) && ElemsHaveType(cd, e, vs) && HasType(cd, e, x)
    ensures Count(e, vs, x) == multiset(NormElems(cd, e, vs, true))[Norm(cd, e, x, true)]
  {
    hide HasType, Norm, Equal, SimpleBags, ElemsHaveType;
    if |vs| == 0 {
      assert NormElems(cd, e, vs, true) == [];
    } else {
      FirstHasType(cd, e, vs);
      SortedIffEqual(cd, e, vs[0], x);
      CountNorms(cd, e, vs[1..], x);
      NormElemsSplit(cd, e, vs);
    }
  }

  lemma {:induction false} NormElemsSplit(cd: Codec, e: Type, vs: seq<Value>)
    requires |vs| > 0
    ensures NormElems(cd, e, vs, true) == [Norm(cd, e, vs[0], true)] + NormElems(cd, e, vs[1..], true)
    ensures multiset(NormElems(cd, e, vs, true))
            == multiset{Norm(cd, e, vs[0], true)} + multiset(NormElems(cd, e, vs[1..], true))
  {
    hide Norm;
    assert NormElems(cd, e, vs, true) == [Norm(cd, e, vs[0], true)] + NormElems(cd, e, vs[1..], true);
  }

  /** Equal bags have the same sorted forms of elements, in some order. */
  lemma {:induction false} SameBagNorms(cd: Codec, e: Type, vs: seq<Value>, ws: seq<Value>)
    requires SimpleBags(e) && ElemsHaveType(cd, e, vs) && ElemsHaveType(cd, e, ws) && SameBag(cd, e, vs, ws)
    ensures multiset(NormElems(cd, e, vs, true)) == multiset(NormElems(cd, e, ws, true))
  {
    var m, n := NormElems(cd, e, vs, true), NormElems(cd, e, ws, true);
    forall y ensures multiset(m)[y] == multiset(n)[y] {
      hide Norm, HasType, Equal, Count;
      if y in m {
        var i :| 0 <= i < |m| && m[i] == y;
        NormAgrees(cd, e, vs, ws, vs[i]);
      } else if y in n {
        var i :| 0 <= i < |n| && n[i] == y;
        NormAgrees(cd, e, vs, ws, ws[i]);
      } else {
        assert y !in multiset(m) && y !in multiset(n);
      }
    }
  }

  lemma {:induction false} NormAgrees(cd: Codec, e: Type, vs: seq<Value>, ws: seq<Value>, x: Value)
    requires SimpleBags(e) && ElemsHaveType(cd, e, vs) && ElemsHaveType(cd, e, ws) && SameBag(cd, e, vs, ws)
    requires HasType(cd, e, x)
    ensures multiset(NormElems(cd, e, vs, true))[Norm(cd, e, x, true)]
            == multiset(NormElems(cd, e, ws, true))[Norm(cd, e, x, true)]
  {
    hide HasType, Norm, NormElems, Equal, Count, ElemsHaveType;
    CountNorms(cd, e, vs, x);
    CountNorms(cd, e, ws, x);
  }

  /** Sorting keeps the sorted forms of the elements. */
  lemma {:induction false} NormsOfInsert(cd: Codec, e: Type, key: Value -> Text, x: Value, s: seq<Value>)
    ensures multiset(NormElems(cd, e, Insert(key, x, s), true))
            == multiset{Norm(cd, e, x, true)} + multiset(NormElems(cd, e, s, true))
  {
    hide Norm, Le, NormElems;
    var r := Insert(key, x, s);
    NormElemsSplit(cd, e, r);
    if |s| == 0 || Le(key(x), key(s[0])) {
      assert r[1..] == s;
    } else {
      assert r[1..] == Insert(key, x, s[1..]);
      NormsOfInsert(cd, e, key, x, s[1..]);
      NormElemsSplit(cd, e, s);
    }
  }

  lemma {:induction false} NormsOfSort(cd: Codec, e: Type, key: Value -> Text, s: seq<Value>)
    ensures multiset(NormElems(cd, e, Sort(key, s), true)) == multiset(NormElems(cd, e, s, true))
  {
    hide Norm, NormElems, Insert;
    if |s| > 0 {
      NormsOfSort(cd, e, key, s[1..]);
      NormsOfInsert(cd, e, key, s[0], Sort(key, s[1..]));
      NormElemsSplit(cd, e, s);
    }
  }

  /** Two lists in the order of their texts, with the same sorted forms: when texts follow
      equality, the sorted forms come in the same order. */
  lemma {:induction false} SameFormsSameOrder(cd: Codec, e: Type, s: seq<Value>, u: seq<Value>)
    requires SimpleBags(e) && AllElements(cd, e, s) && AllElements(cd, e, u)
    requires InOrder(cd, s) && InOrder(cd, u) && TextTells(cd, e) && TextFollowsEqual(cd, e)
    requires multiset(NormElems(cd, e, s, true)) == multiset(NormElems(cd, e, u, true))
    ensures NormElems(cd, e, s, true) == NormElems(cd, e, u, true)
    decreases |s|
  {
    hide *;
    SameSize(cd, e, s, u);
    if |s| > 0 {
      ElementsHaveType(cd, e, s);
      ElementsHaveType(cd, e, u);
      SameFirst(cd, e, s, u);
      TailInOrder(cd, s);
      TailInOrder(cd, u);
      NormElemsSplit(cd, e, s);
      NormElemsSplit(cd, e, u);
      SameRest(multiset(NormElems(cd, e, s[1..], true)), multiset(NormElems(cd, e, u[1..], true)),
               Norm(cd, e, s[0], true));
      SameFormsSameOrder(cd, e, s[1..], u[1..]);
    } else {
      assert s == u;
    }
  }

  lemma {:induction false} SameRest(a: multiset<Value>, b: multiset<Value>, x: Value)
    requires multiset{x} + a == multiset{x} + b
    ensures a == b
  {
    forall y ensures a[y] == b[y] { assert (multiset{x} + a)[y] == (multiset{x} + b)[y]; }
  }

  lemma {:induction false} SameSize(cd: Codec, e: Type, s: seq<Value>, u: seq<Value>)
    requires multiset(NormElems(cd, e, s, true)) == multiset(NormElems(cd, e, u, true))
    ensures |s| == |u|
  {
    hide Norm;
    assert |multiset(NormElems(cd, e, s, true))| == |s| && |multiset(NormElems(cd, e, u, true))| == |u|;
  }

  lemma {:induction false} TailInOrder(cd: Codec, s: seq<Value>)
    requires InOrder(cd, s) && |s| > 0
    ensures InOrder(cd, s[1..])
  {
    hide Before;
  }

  /** The first elements are equal: otherwise each would have to sort before the other. */
  lemma {:induction false} SameFirst(cd: Codec, e: Type, s: seq<Value>, u: seq<Value>)
    requires SimpleBags(e) && AllElements(cd, e, s) && AllElements(cd, e, u) && |s| > 0 && |u| > 0
    requires InOrder(cd, s) && InOrder(cd, u) && TextTells(cd, e) && TextFollowsEqual(cd, e)
    requires multiset(NormElems(cd, e, s, true)) == multiset(NormElems(cd, e, u, true))
    ensures Norm(cd, e, s[0], true) == Norm(cd, e, u[0], true)
  {
    hide *;
    if Norm(cd, e, s[0], true) != Norm(cd, e, u[0], true) {
      var i := FormAt(cd, e, u, s);
      var j := FormAt(cd, e, s, u);
      ElementAt(cd, e, s, 0);
      ElementAt(cd, e, u, 0);
      ElementAt(cd, e, s, i);
      ElementAt(cd, e, u, j);
      NotBefore(cd, e, s, i, u[0]);
      NotBefore(cd, e, u, j, s[0]);
      OneIsBefore(cd, s[0], u[0]);
      assert false;
    }
  }

  lemma {:induction false} OneIsBefore(cd: Codec, v: Value, w: Value)
    ensures Before(cd, v, w) || Before(cd, w, v)
  {
    LeTotal(TextOf(cd, v), TextOf(cd, w));
  }

  lemma ElementAt(cd: Codec, e: Type, vs: seq<Value>, i: nat)
    requires AllElements(cd, e, vs) && i < |vs|
    ensures Element(cd, e, vs[i]) && HasType(cd, e, vs[i])
  {
  }

  /** The form of the first element of `a` occurs in `b`. */
  lemma {:induction false} FormAt(cd: Codec, e: Type, a: seq<Value>, b: seq<Value>) returns (i: nat)
    requires |a| > 0 && multiset(NormElems(cd, e, a, true)) == multiset(NormElems(cd, e, b, true))
    ensures i < |b| && Norm(cd, e, b[i], true) == Norm(cd, e, a[0], true)
  {
    hide Norm;
    var m, n := NormElems(cd, e, a, true), NormElems(cd, e, b, true);
    assert m[0] in multiset(m);
    assert m[0] in n;
    i :| 0 <= i < |n| && n[i] == m[0];
  }

  /** `s[i]` is equal to `y` and sorts after `s[0]`, which is not: so `y` is not before `s[0]`. */
  lemma {:induction false} NotBefore(cd: Codec, e: Type, s: seq<Value>, i: nat, y: Value)
    requires SimpleBags(e) && i < |s| && InOrder(cd, s) && TextTells(cd, e) && TextFollowsEqual(cd, e)
    requires Element(cd, e, s[0]) && Element(cd, e, s[i]) && Element(cd, e, y)
    requires Norm(cd, e, s[i], true) == Norm(cd, e, y, true) && Norm(cd, e, s[0], true) != Norm(cd, e, y, true)
    ensures !Before(cd, y, s[0])
  {
    assert HasType(cd, e, s[0]) && HasType(cd, e, s[i]) && HasType(cd, e, y);
    hide *;
    SortedIffEqual(cd, e, s[i], y);
    SortedIffEqual(cd, e, s[0], s[i]);
    FirstBefore(cd, s, i);
    StrictlyBefore(cd, e, s[0], s[i]);
    FollowsAt(cd, e, s[i], y, s[0]);
  }

  lemma FirstBefore(cd: Codec, s: seq<Value>, i: nat)
    requires InOrder(cd, s) && i < |s|
    ensures i > 0 ==> Before(cd, s[0], s[i])
  {
  }

  lemma {:induction false} StrictlyBefore(cd: Codec, e: Type, a: Value, b: Value)
    requires TextTells(cd, e) && HasType(cd, e, a) && HasType(cd, e, b) && a != b && Before(cd, a, b)
    ensures !Before(cd, b, a)
  {
    hide Le, HasType;
    if Before(cd, b, a) { LeAntisymmetric(TextOf(cd, a), TextOf(cd, b)); }
  }

  /** Equal bags, of any size, pack to the same bytes when texts follow equality. */
  lemma {:induction false} FollowingTextsAreCanonical(cd: Codec, e: Type, vs: seq<Value>, ws: seq<Value>)
    requires WellFormed(e) && SimpleBags(e) && TextTells(cd, e) && TextFollowsEqual(cd, e)
    requires AllElements(cd, e, vs) && AllElements(cd, e, ws) && SameBag(cd, e, vs, ws)
    ensures Packed(cd, Multiset(e), List(vs), true) == Packed(cd, Multiset(e), List(ws), true)
  {
    hide *;
    var t, v, w := Multiset(e), List(vs), List(ws);
    ElementsHaveType(cd, e, vs);
    ElementsHaveType(cd, e, ws);
    SameBagNorms(cd, e, vs, ws);
    SortedForms(cd, e, vs);
    SortedForms(cd, e, ws);
    SameFormsSameOrder(cd, e, OrderedElems(cd, vs, true), OrderedElems(cd, ws, true));
    NormList(cd, e, v, true);
    NormList(cd, e, w, true);
    WellFormedBag(e);
    WholeSpells(t);
    PackedIs(cd, t, v, true);
    PackedIs(cd, t, w, true);
    AppendSorted(cd, t, Flatten(t), 0, v, false);
    AppendSorted(cd, t, Flatten(t), 0, w, false);
  }

  lemma {:induction false} SortedForms(cd: Codec, e: Type, vs: seq<Value>)
    requires AllElements(cd, e, vs)
    ensures AllElements(cd, e, OrderedElems(cd, vs, true)) && InOrder(cd, OrderedElems(cd, vs, true))
    ensures multiset(NormElems(cd, e, OrderedElems(cd, vs, true), true)) == multiset(NormElems(cd, e, vs, true))
  {
    hide Element, InOrder, NormElems;
    var s := OrderedElems(cd, vs, true);
    forall i | 0 <= i < |s| ensures Element(cd, e, s[i]) { SortMember(v => TextOf(cd, v), vs, s[i]); }
    OrderedInOrder(cd, vs);
    NormsOfSort(cd, e, v => TextOf(cd, v), vs);
  }

  // ---------------------------------------------------------------- the size of a pair

  lemma {:induction false} FrameSize(c: Code, b: seq<byte>)
    requires |b| < SIZE_LIMIT
    ensures |Framed(c, b, true)| <= VINT_MAX_BYTES + |b|
  {
    VintFits(|b|);
  }

  /** An element inside a list takes its own bytes and its length. */
  lemma {:induction false} ElementBytes(cd: Codec, e: Type, v: Value) returns (b: seq<byte>)
    requires WellFormed(e) && HasType(cd, e, v)
    ensures Packed(cd, e, v, true) == Some(b)
    ensures Append(cd, Flatten(Multiset(e)), 1, v, true, true) == Some(Framed(Outer(e), b, true))
  {
    hide *;
    WholeSpells(e);
    BagSpells(e);
    PackedIs(cd, e, v, true);
    AppendSucceeds(cd, Flatten(Multiset(e)), 1, e, v, true, true);
    b := AppendFrames(cd, Flatten(Multiset(e)), 1, e, v, true);
    AppendReadsOneType(cd, e, Flatten(Multiset(e)), 1, Flatten(e), 0, v, false, true);
  }

  lemma {:induction false} BagSpells(e: Type)
    ensures Spells(Flatten(Multiset(e)), 1, e) && |Flatten(Multiset(e))| > 1
    ensures Flatten(Multiset(e))[0] == MULTISET && Flatten(Multiset(e))[1] == Outer(e)
  {
    WholeSpells(Multiset(e));
  }

  lemma {:induction false} PairBytes(cd: Codec, e: Type, d: Value, x: Value)
    requires WellFormed(e) && HasType(cd, e, d) && HasType(cd, e, x)
    requires Packed(cd, e, d, true).Some? ==> |Packed(cd, e, d, true).value| < QUARTER
    requires Packed(cd, e, x, true).Some? ==> |Packed(cd, e, x, true).value| < QUARTER
    ensures Packed(cd, Multiset(e), List([d, x]), true).Some?
    ensures |Packed(cd, Multiset(e), List([d, x]), true).value| < SIZE_LIMIT
  {
    hide *;
    var p := ElementBytes(cd, e, d);
    var q := ElementBytes(cd, e, x);
    Sizes();
    FrameSize(Outer(e), p);
    FrameSize(Outer(e), q);
    BagSpells(e);
    SortTwo(cd, d, x);
    PackedIs(cd, Multiset(e), List([d, x]), true);
    var s := OrderedElems(cd, [d, x], true);
    TwoAppended(cd, Flatten(Multiset(e)), s,
                if Before(cd, d, x) then Framed(Outer(e), p, true) else Framed(Outer(e), q, true),
                if Before(cd, d, x) then Framed(Outer(e), q, true) else Framed(Outer(e), p, true));
    ListAppended(cd, Flatten(Multiset(e)), e, [d, x]);
    TwoHeader(Outer(e));
  }

  lemma Sizes()
    ensures QUARTER < SIZE_LIMIT && 2 * QUARTER + 2 * VINT_MAX_BYTES + 2 < SIZE_LIMIT
  {
  }

  lemma TwoHeader(c: Code)
    ensures |MultisetHeader(2, c)| == 2
  {
  }

  lemma {:induction false} TwoAppended(cd: Codec, ts: seq<Code>, s: seq<Value>, p: seq<byte>, q: seq<byte>)
    requires |s| == 2 && Append(cd, ts, 1, s[0], true, true) == Some(p) && Append(cd, ts, 1, s[1], true, true) == Some(q)
    ensures AppendElems(cd, ts, 2, s, true) == Some(p + q)
  {
    hide Append;
    assert s[1..] == [s[1]] && s[1..][1..] == [];
    assert AppendElems(cd, ts, 2, [], true) == Some([]);
    assert AppendElems(cd, ts, 2, s[1..], true) == Some(q + []);
    assert q + [] == q;
  }

  lemma {:induction false} ListAppended(cd: Codec, ts: seq<Code>, e: Type, vs: seq<Value>)
    requires |ts| > 1 && ts[0] == MULTISET && ts[1] == Outer(e)
    requires AppendElems(cd, ts, 2, OrderedElems(cd, vs, true), true).Some?
    ensures Append(cd, ts, 0, List(vs), false, true) ==
            Some(MultisetHeader(|vs|, Outer(e)) + AppendElems(cd, ts, 2, OrderedElems(cd, vs, true), true).value)
  {
    hide AppendElems, OrderedElems, MultisetHeader;
  }

  // ---------------------------------------------------------------- the theorem

  /** Bags of `e` have canonical bytes, whatever their size, if and only if the texts of equal
      elements sort on the same side of every other element. */
  lemma {:induction false} CanonicalBagsIff(cd: Codec, e: Type)
    requires WellFormed(e) && SimpleBags(e) && TextTells(cd, e)
    ensures CanonicalBags(cd, e) <==> TextFollowsEqual(cd, e)
  {
    if TextFollowsEqual(cd, e) {
      forall vs, ws {:trigger AllElements(cd, e, vs), AllElements(cd, e, ws)}
        | AllElements(cd, e, vs) && AllElements(cd, e, ws) && SameBag(cd, e, vs, ws)
        ensures Packed(cd, Multiset(e), List(vs), true) == Packed(cd, Multiset(e), List(ws), true)
      {
        FollowingTextsAreCanonical(cd, e, vs, ws);
      }
    }
    if CanonicalBags(cd, e) {
      forall d, d', x
        | Element(cd, e, d) && Element(cd, e, d') && Element(cd, e, x) && Equal(e, d, d') && !Equal(e, x, d)
        ensures Before(cd, d, x) <==> Before(cd, d', x)
      {
        CanonicalPairs(cd, e, d, d', x);
      }
    }
  }

  lemma {:induction false} CanonicalPairs(cd: Codec, e: Type, d: Value, d': Value, x: Value)
    requires WellFormed(e) && SimpleBags(e) && CanonicalBags(cd, e)
    requires Element(cd, e, d) && Element(cd, e, d') && Element(cd, e, x) && Equal(e, d, d') && !Equal(e, x, d)
    ensures Before(cd, d, x) <==> Before(cd, d', x)
  {
    ElementParts(cd, e, d);
    ElementParts(cd, e, d');
    ElementParts(cd, e, x);
    TwoElements(cd, e, d, x);
    TwoElements(cd, e, d', x);
    CanonicalAt(cd, e, [d, x], [d', x]) by { PairsAreEqual(cd, e, d, d', x); }
    hide *;
    PairBytes(cd, e, d, x);
    PairCanonicalIff(cd, e, d, d', x);
  }

  lemma ElementParts(cd: Codec, e: Type, v: Value)
    requires Element(cd, e, v)
    ensures HasType(cd, e, v)
    ensures Packed(cd, e, v, true).Some? ==> |Packed(cd, e, v, true).value| < QUARTER
  {
  }

  lemma {:induction false} TwoElements(cd: Codec, e: Type, d: Value, x: Value)
    requires Element(cd, e, d) && Element(cd, e, x)
    ensures AllElements(cd, e, [d, x])
  {
    hide Element;
  }

  lemma {:induction false} CanonicalAt(cd: Codec, e: Type, vs: seq<Value>, ws: seq<Value>)
    requires SimpleBags(e) && CanonicalBags(cd, e)
    requires AllElements(cd, e, vs) && AllElements(cd, e, ws) && SameBag(cd, e, vs, ws)
    ensures Packed(cd, Multiset(e), List(vs), true) == Packed(cd, Multiset(e), List(ws), true)
  {
    hide AllElements, SameBag, Packed;
  }

  /** Exchanging an element for an equal one leaves the bag the same. */
  lemma {:induction false} PairsAreEqual(cd: Codec, e: Type, d: Value, d': Value, x: Value)
    requires SimpleBags(e) && HasType(cd, e, d) && HasType(cd, e, d') && Equal(e, d, d')
    ensures SameBag(cd, e, [d, x], [d', x])
  {
    forall y | HasType(cd, e, y) ensures Count(e, [d, x], y) == Count(e, [d', x], y) {
      hide *;
      SortedIffEqual(cd, e, d, d');
      SortedIffEqual(cd, e, d, y);
      SortedIffEqual(cd, e, d', y);
      CountTwo(e, d, x, y);
      CountTwo(e, d', x, y);
    }
  }

  lemma {:induction false} CountTwo(e: Type, d: Value, x: Value, y: Value)
    requires SimpleBags(e)
    ensures Count(e, [d, x], y) == (if Equal(e, d, y) then 1 else 0) + (if Equal(e, x, y) then 1 else 0)
  {
    hide Equal;
    assert [d, x][1..] == [x] && [x][1..] == [];
    assert Count(e, [], y) == 0;
    assert Count(e, [x], y) == if Equal(e, x, y) then 1 else 0;
  }

  // ---------------------------------------------------------------- a bag that is not

  /** A codec of words that are their own bytes, with texts that put spaces between words. */
  function Spaced(): Codec {
    Codec((c: Code, t: Text) => Some(t), (c: Code, b: seq<byte>) => Some(b), v => Words(v))
  }

  function Words(v: Value): Text {
    match v
    case Atom(t) => t
    case Dict(es) => EntryWords(es)
    case List(vs) => ElemWords(vs)
  }

  function EntryWords(es: seq<Entry>): Text {
    if |es| == 0 then []
    else es[0].key + [32] + Words(es[0].val) + (if |es| == 1 then [] else [32] + EntryWords(es[1..]))
  }

  function ElemWords(vs: seq<Value>): Text {
    if |vs| == 0 then [] else Words(vs[0]) + (if |vs| == 1 then [] else [32] + ElemWords(vs[1..]))
  }

  // The dict {a 1 b 2}, the same dict built as {b 2 a 1}, and {a 5}.
  function AB(): Value { Dict([Entry([97], Atom([49])), Entry([98], Atom([50]))]) }
  function BA(): Value { Dict([Entry([98], Atom([50])), Entry([97], Atom([49]))]) }
  function A5(): Value { Dict([Entry([97], Atom([53]))]) }
  function WordDict(): Type { Container(STRING, Scalar(STRING)) }

  predicate ShortWords(es: seq<Entry>) {
    forall i :: 0 <= i < |es| ==> |es[i].key| <= 1 && es[i].val.Atom? && |es[i].val.text| <= 1
  }

  lemma {:induction false} ShortFrame(c: Code, b: seq<byte>)
    requires |b| <= 2
    ensures |Framed(c, b, true)| <= 12
  {
    FrameSize(c, b);
  }

  lemma {:induction false} WordAppended(ts: seq<Code>, pos: nat, text: Text)
    requires pos < |ts| && ts[pos] == STRING
    ensures Append(Spaced(), ts, pos, Atom(text), true, true) == Some(Framed(STRING, text, true))
  {
    hide Framed;
  }

  lemma {:induction false} ShortEntries(ts: seq<Code>, es: seq<Entry>)
    requires |ts| == 3 && ts[2] == STRING && ShortWords(es)
    ensures AppendEntries(Spaced(), ts, 3, STRING, es, true).Some?
    ensures |AppendEntries(Spaced(), ts, 3, STRING, es, true).value| <= 24 * |es|
  {
    hide Append, Framed;
    if |es| > 0 {
      ShortEntries(ts, es[1..]);
      WordAppended(ts, 2, es[0].val.text);
      ShortFrame(STRING, es[0].val.text);
      ShortFrame(STRING, es[0].key + [0]);
    }
  }

  lemma {:induction false} ShortDict(es: seq<Entry>)
    requires ShortWords(es) && |es| <= 2
    ensures var b := Packed(Spaced(), WordDict(), Dict(es), true); b.Some? && |b.value| < 100
  {
    var ts := Flatten(WordDict());
    assert ts == [CONTAINER, STRING, STRING];
    OrderedShort(es);
    ShortEntries(ts, Ordered(es, true));
    hide AppendEntries, Ordered, ShortWords;
  }

  lemma {:induction false} OrderedShort(es: seq<Entry>)
    requires ShortWords(es)
    ensures ShortWords(Ordered(es, true)) && |Ordered(es, true)| == |es|
  {
    SortPermutes(EntryKey, es);
    forall i | 0 <= i < |Ordered(es, true)| ensures Ordered(es, true)[i] in es {
      SortMember(EntryKey, es, Ordered(es, true)[i]);
    }
  }

  lemma {:induction false} WordsHaveType(es: seq<Entry>)
    requires ShortWords(es) && UniqueKeys(es)
    ensures HasType(Spaced(), WordDict(), Dict(es))
  {
    forall i | 0 <= i < |es| ensures HasType(Spaced(), Scalar(STRING), es[i].val) {}
  }

  lemma {:induction false} ExampleTexts()
    ensures TextOf(Spaced(), AB()) == [97, 32, 49, 32, 98, 32, 50]
    ensures TextOf(Spaced(), BA()) == [98, 32, 50, 32, 97, 32, 49]
    ensures TextOf(Spaced(), A5()) == [97, 32, 53]
  {
    assert AB().entries[1..] == [Entry([98], Atom([50]))];
    assert BA().entries[1..] == [Entry([97], Atom([49]))];
    assert EntryWords([Entry([98], Atom([50]))]) == [98, 32, 50];
    assert EntryWords([Entry([97], Atom([49]))]) == [97, 32, 49];
    assert EntryWords([Entry([97], Atom([53]))]) == [97, 32, 53];
    assert EntryWords(AB().entries) == [97] + [32] + [49] + ([32] + [98, 32, 50]);
    assert EntryWords(BA().entries) == [98] + [32] + [50] + ([32] + [97, 32, 49]);
  }

  lemma {:induction false} ExampleOrder()
    ensures Before(Spaced(), AB(), A5()) && !Before(Spaced(), BA(), A5())
  {
    ExampleTexts();
    hide TextOf;
    var s, t, u: Text := [97, 32, 49, 32, 98, 32, 50], [97, 32, 53], [98, 32, 50, 32, 97, 32, 49];
    assert s[1..] == [32, 49, 32, 98, 32, 50] && t[1..] == [32, 53];
    assert s[1..][1..] == [49, 32, 98, 32, 50] && t[1..][1..] == [53];
    assert Le(s[1..][1..], t[1..][1..]);
    assert Le(s[1..], t[1..]);
    assert Le(s, t);
    assert !Le(u, t);
  }

  lemma {:induction false} ExampleEqual()
    ensures Equal(WordDict(), AB(), BA()) && !Equal(WordDict(), A5(), AB())
  {
    assert AB().entries[0].key == [97] && BA().entries[1].key == [97];
    assert AB().entries[1].key == [98] && BA().entries[0].key == [98];
    assert [97] != [98] by { assert [97][0] != [98][0]; }
    assert HasKey(AB().entries, [98]) && !HasKey(A5().entries, [98]) by {
      assert A5().entries[0].key == [97];
    }
  }

  lemma {:induction false} ExampleShort()
    ensures ShortWords(AB().entries) && ShortWords(BA().entries) && ShortWords(A5().entries)
    ensures UniqueKeys(AB().entries) && UniqueKeys(BA().entries) && UniqueKeys(A5().entries)
  {
    assert [97] != [98] by { assert [97][0] != [98][0]; }
  }

  /** The bags {{a 1 b 2} {a 5}} and {{b 2 a 1} {a 5}} are equal and have different canonical
      bytes. */
  lemma {:induction false} SuchBagsExist()
    ensures var t, v, w := Multiset(WordDict()), List([AB(), A5()]), List([BA(), A5()]);
      && WellFormed(t) && SimpleBags(WordDict())
      && HasType(Spaced(), t, v) && HasType(Spaced(), t, w) && SameBag(Spaced(), WordDict(), v.elems, w.elems)
      && Packed(Spaced(), t, v, true) != Packed(Spaced(), t, w, true)
  {
    ExampleTypes();
    hide *;
    ExampleShort();
    ExampleEqual();
    ExampleOrder();
    Sizes();
    Hundred();
    DictIs();
    ShortDict(AB().entries);
    ShortDict(A5().entries);
    WordsHaveType(AB().entries);
    WordsHaveType(BA().entries);
    WordsHaveType(A5().entries);
    PairHasType(Spaced(), WordDict(), AB(), A5());
    PairHasType(Spaced(), WordDict(), BA(), A5());
    PairBytes(Spaced(), WordDict(), AB(), A5());
    PairsAreEqual(Spaced(), WordDict(), AB(), BA(), A5());
    PairCanonicalIff(Spaced(), WordDict(), AB(), BA(), A5());
  }

  lemma Hundred()
    ensures 100 < QUARTER
  {
  }

  lemma ExampleTypes()
    ensures WellFormed(WordDict()) && WellFormed(Multiset(WordDict())) && SimpleBags(WordDict())
  {
  }

  lemma DictIs()
    ensures AB().Dict? && BA().Dict? && A5().Dict? && |AB().entries| == 2 && |A5().entries| == 1
    ensures AB() == Dict(AB().entries) && BA() == Dict(BA().entries) && A5() == Dict(A5().entries)
  {
  }
}
