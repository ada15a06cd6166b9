/** Round trips of the serializer: a value of any compound type, at any depth, comes back
    from its packed form, although the lengths of compound values are written afterwards. */
module PackRoundTrip {
  import opened Options
  import opened Bytes
  import opened Sorting
  import opened Values
  import opened Pack

  // ---------------------------------------------------------------- types in a flat list

  /** The flat list spells type `t` from `pos` on. */
  predicate Spells(types: seq<Code>, pos: nat, t: Type)
    decreases t
  {
    pos < |types| && types[pos] == Outer(t) &&
    match t
    case Scalar(_) => true
    case Multiset(e) => Spells(types, pos + 1, e)
    case Container(k, v) => pos + 1 < |types| && types[pos + 1] == k && Spells(types, pos + 2, v)
  }

  lemma {:induction false} FlattenSpells(pre: seq<Code>, t: Type, post: seq<Code>)
    ensures Spells(pre + Flatten(t) + post, |pre|, t)
    decreases t
  {
    match t {
      case Scalar(_) =>
      case Multiset(e) =>
        FlattenSpells(pre + [MULTISET], e, post);
        assert pre + [MULTISET] + Flatten(e) + post == pre + Flatten(t) + post;
      case Container(k, v) =>
        FlattenSpells(pre + [CONTAINER, k], v, post);
        assert pre + [CONTAINER, k] + Flatten(v) + post == pre + Flatten(t) + post;
    }
  }

  lemma ByteOfCode(c: Code)
    ensures ByteCode(CodeByte(c)) == Some(c)
  {
  }

  // ---------------------------------------------------------------- single entries

  /** The bytes `b` stand in `data` at `pos`. */
  predicate At(data: seq<byte>, pos: nat, b: seq<byte>) {
    pos + |b| <= |data| && data[pos..pos + |b|] == b
  }

  lemma {:induction false} AtParts(data: seq<byte>, pos: nat, a: seq<byte>, b: seq<byte>)
    requires At(data, pos, a + b)
    ensures At(data, pos, a) && At(data, pos + |a|, b)
  {
    var w := data[pos..pos + |a + b|];
    assert w[..|a|] == a && w[|a|..] == b;
  }

  lemma {:induction false} ReadFramed(c: Code, data: seq<byte>, pos: nat, payload: seq<byte>)
    requires |payload| < SIZE_LIMIT && At(data, pos, Framed(c, payload, true))
    ensures ReadEntry(c, data, pos) == Some((payload, pos + |Framed(c, payload, true)|))
    ensures IsCompound(c) ==> |Framed(c, payload, true)| == 10 + |payload|
  {
    var n := |Framed(c, payload, true)|;
    var pre, post := data[..pos], data[pos + n..];
    assert data == pre + Framed(c, payload, true) + post;
    if IsCompound(c) { ReadPadded(c, pre, payload, post); } else { ReadPrefixed(c, pre, payload, post); }
  }

  lemma {:induction false} ReadPadded(c: Code, pre: seq<byte>, payload: seq<byte>, post: seq<byte>)
    requires |payload| < SIZE_LIMIT && IsCompound(c)
    ensures var data := pre + (PadVint(|payload|) + payload) + post;
      ReadEntry(c, data, |pre|) == Some((payload, |pre| + VINT_MAX_BYTES + |payload|))
  {
    hide PadVint, VintDecode;
    var data := pre + (PadVint(|payload|) + payload) + post;
    assert data[|pre|..] == PadVint(|payload|) + (payload + post);
    PadVintRoundTrip(|payload|, payload + post);
    assert data[|pre| + VINT_MAX_BYTES..|pre| + VINT_MAX_BYTES + |payload|] == payload;
  }

  lemma {:induction false} ReadPrefixed(c: Code, pre: seq<byte>, payload: seq<byte>, post: seq<byte>)
    requires !IsCompound(c)
    ensures var e := VintEncode(|payload|); var data := pre + (e + payload) + post;
      ReadEntry(c, data, |pre|) == Some((payload, |pre| + |e| + |payload|))
  {
    hide VintEncode, VintDecode;
    var e := VintEncode(|payload|);
    var data := pre + (e + payload) + post;
    assert data[|pre|..] == e + (payload + post);
    VintRoundTrip(|payload|, payload + post);
    assert data[|pre| + |e|..|pre| + |e| + |payload|] == payload;
  }

  lemma {:induction false} ReadContainerHeader(n: nat, key: Code, val: Code, body: seq<byte>)
    ensures ReadHeader(ContainerHeader(n, key, val) + body, 2) ==
            Some((n, [key, val], |ContainerHeader(n, key, val)|))
  {
    var e := VintEncode(n);
    var data := ContainerHeader(n, key, val) + body;
    assert data == e + ([CodeByte(key), CodeByte(val)] + body);
    VintRoundTrip(n, [CodeByte(key), CodeByte(val)] + body);
    assert data[|e|] == CodeByte(key) && data[|e| + 1] == CodeByte(val);
    ByteOfCode(key);
    ByteOfCode(val);
  }

  lemma {:induction false} ReadMultisetHeader(n: nat, elem: Code, body: seq<byte>)
    ensures ReadHeader(MultisetHeader(n, elem) + body, 1) ==
            Some((n, [elem], |MultisetHeader(n, elem)|))
  {
    var e := VintEncode(n);
    var data := MultisetHeader(n, elem) + body;
    assert data == e + ([CodeByte(elem)] + body);
    VintRoundTrip(n, [CodeByte(elem)] + body);
    assert data[|e|] == CodeByte(elem);
    ByteOfCode(elem);
  }

  // ---------------------------------------------------------------- dicts

  predicate KeyAbsent(es: seq<Entry>, key: Text) {
    forall i :: 0 <= i < |es| ==> es[i].key != key
  }

  lemma {:induction false} PutAppends(es: seq<Entry>, key: Text, val: Value)
    requires KeyAbsent(es, key)
    ensures DictPut(es, key, val) == es + [Entry(key, val)]
  {
    if |es| > 0 {
      PutAppends(es[1..], key, val);
      assert es + [Entry(key, val)] == [es[0]] + (es[1..] + [Entry(key, val)]);
    }
  }

  function NormEntries(cd: Codec, w: Type, es: seq<Entry>, canon: bool): (r: seq<Entry>)
    ensures |r| == |es|
  {
    seq(|es|, i requires 0 <= i < |es| => Entry(es[i].key, Norm(cd, w, es[i].val, canon)))
  }

  function NormElems(cd: Codec, e: Type, vs: seq<Value>, canon: bool): (r: seq<Value>)
    ensures |r| == |vs|
  {
    seq(|vs|, i requires 0 <= i < |vs| => Norm(cd, e, vs[i], canon))
  }

  predicate EntriesHaveType(cd: Codec, w: Type, es: seq<Entry>) {
    forall i :: 0 <= i < |es| ==> HasType(cd, w, es[i].val)
  }

  predicate ElemsHaveType(cd: Codec, e: Type, vs: seq<Value>) {
    forall i :: 0 <= i < |vs| ==> HasType(cd, e, vs[i])
  }

  lemma {:induction false} OrderedHasType(cd: Codec, w: Type, es: seq<Entry>, canon: bool)
    requires EntriesHaveType(cd, w, es)
    ensures EntriesHaveType(cd, w, Ordered(es, canon)) && |Ordered(es, canon)| == |es|
  {
    var s := Ordered(es, canon);
    SortPermutes(EntryKey, es);
    forall i | 0 <= i < |s| ensures HasType(cd, w, s[i].val) {
      SortMember(EntryKey, es, s[i]);
    }
  }

  lemma {:induction false} OrderedElemsHasType(cd: Codec, e: Type, vs: seq<Value>, canon: bool)
    requires ElemsHaveType(cd, e, vs)
    ensures ElemsHaveType(cd, e, OrderedElems(cd, vs, canon)) && |OrderedElems(cd, vs, canon)| == |vs|
  {
    var s := OrderedElems(cd, vs, canon);
    SortPermutes(v => TextOf(cd, v), vs);
    forall i | 0 <= i < |s| ensures HasType(cd, e, s[i]) {
      SortMember(v => TextOf(cd, v), vs, s[i]);
    }
  }

  lemma {:induction false} UniqueAsMultiset(es: seq<Entry>, e: Entry)
    requires UniqueKeys(es) && e in es
    ensures multiset(es)[e] == 1
  {
    assert es == [es[0]] + es[1..];
    if es[0] == e {
      assert e !in es[1..];
    } else {
      assert e in es[1..];
      UniqueAsMultiset(es[1..], e);
    }
  }

  lemma {:induction false} OrderedUnique(es: seq<Entry>, canon: bool)
    requires UniqueKeys(es)
    ensures UniqueKeys(Ordered(es, canon))
  {
    if canon {
      var s := Sort(EntryKey, es);
      SortPermutes(EntryKey, es);
      forall i, j | 0 <= i < j < |s| ensures s[i].key != s[j].key {
        SortMember(EntryKey, es, s[i]);
        SortMember(EntryKey, es, s[j]);
        if s[i] == s[j] {
          UniqueAsMultiset(es, s[i]);
          TwiceInSeq(s, i, j);
          assert false;
        }
      }
    }
  }

  lemma {:induction false} TwiceInSeq<T>(s: seq<T>, i: nat, j: nat)
    requires i < j < |s| && s[i] == s[j]
    ensures multiset(s)[s[i]] >= 2
  {
    assert s == s[..j] + s[j..];
    assert s[i] in s[..j] && s[j] in s[j..];
    assert s[i] in multiset(s[..j]) && s[j] in multiset(s[j..]);
  }

  // ---------------------------------------------------------------- the round trip

  /** Packing succeeds on every value of the type. */
  lemma {:induction false} AppendSucceeds(cd: Codec, types: seq<Code>, pos: nat, t: Type, v: Value,
                                          prefix: bool, canon: bool)
    requires WellFormed(t) && Spells(types, pos, t) && HasType(cd, t, v)
    ensures Append(cd, types, pos, v, prefix, canon).Some?
    decreases t, 1, 0
  {
    match t {
      case Scalar(_) =>
      case Multiset(e) =>
        OrderedElemsHasType(cd, e, v.elems, canon);
        ElemsSucceed(cd, types, pos + 2, e, OrderedElems(cd, v.elems, canon), canon);
      case Container(k, w) =>
        OrderedHasType(cd, w, v.entries, canon);
        EntriesSucceed(cd, types, pos + 3, w, k, Ordered(v.entries, canon), canon);
    }
  }

  lemma {:induction false} EntriesSucceed(cd: Codec, types: seq<Code>, cpos: nat, w: Type, key: Code,
                                          es: seq<Entry>, canon: bool)
    requires cpos >= 1 && WellFormed(w) && Spells(types, cpos - 1, w) && EntriesHaveType(cd, w, es)
    ensures AppendEntries(cd, types, cpos, key, es, canon).Some?
    decreases w, 2, |es|
  {
    if |es| > 0 {
      AppendSucceeds(cd, types, cpos - 1, w, es[0].val, true, canon);
      EntriesSucceed(cd, types, cpos, w, key, es[1..], canon);
    }
  }

  lemma {:induction false} ElemsSucceed(cd: Codec, types: seq<Code>, cpos: nat, e: Type,
                                        vs: seq<Value>, canon: bool)
    requires cpos >= 1 && WellFormed(e) && Spells(types, cpos - 1, e) && ElemsHaveType(cd, e, vs)
    ensures AppendElems(cd, types, cpos, vs, canon).Some?
    decreases e, 2, |vs|
  {
    if |vs| > 0 {
      AppendSucceeds(cd, types, cpos - 1, e, vs[0], true, canon);
      ElemsSucceed(cd, types, cpos, e, vs[1..], canon);
    }
  }

  /** Unpacking the packed bytes returns the value, at every nesting depth. */
  lemma {:induction false} UnpackOfAppend(cd: Codec, types: seq<Code>, pos: nat, t: Type, v: Value,
                                          canon: bool, b: seq<byte>)
    requires WellFormed(t) && Spells(types, pos, t) && HasType(cd, t, v)
    requires Append(cd, types, pos, v, false, canon) == Some(b) && |b| < SIZE_LIMIT
    ensures Unpack(cd, Outer(t), b) == Done(Norm(cd, t, v, canon))
    decreases t, 4, 0
  {
    match t {
      case Scalar(_) =>
      case Multiset(e) => UnpackOfList(cd, types, pos, e, v, canon, b);
      case Container(k, w) =>
        DictType(cd, k, w, v);
        UnpackOfDict(cd, types, pos, k, w, v, canon, b);
    }
  }

  lemma {:induction false} UnpackOfList(cd: Codec, types: seq<Code>, pos: nat, e: Type, v: Value,
                                        canon: bool, b: seq<byte>)
    requires WellFormed(e) && Spells(types, pos, Multiset(e)) && HasType(cd, Multiset(e), v)
    requires Append(cd, types, pos, v, false, canon) == Some(b) && |b| < SIZE_LIMIT
    ensures Unpack(cd, MULTISET, b) == Done(Norm(cd, Multiset(e), v, canon))
    decreases e, 6, 0
  {
    assert v.List?;
    hide WellFormed, HasType, Norm, OrderedElems, MultisetHeader, Append, Spells, Unpack, UnpackElems;
    var body := UnpackListPart(cd, types, pos, e, v, canon, b, b + [], 0);
    NothingAfter(b);
    ListDone(cd, e, v, canon, b, body, []);
  }

  lemma {:induction false} UnpackListHeader(cd: Codec, n: nat, elem: Code, rest: seq<byte>)
    ensures var h := MultisetHeader(n, elem);
      Unpack(cd, MULTISET, h + rest) == UnpackElems(cd, elem, h + rest, |h|, n, [])
  {
    hide MultisetHeader, ReadHeader, UnpackElems;
    ReadMultisetHeader(n, elem, rest);
  }

  lemma {:induction false} UnpackDictHeader(cd: Codec, n: nat, key: Code, val: Code, rest: seq<byte>)
    ensures var h := ContainerHeader(n, key, val);
      Unpack(cd, CONTAINER, h + rest) == UnpackEntries(cd, key, val, h + rest, |h|, n, [])
  {
    hide ContainerHeader, ReadHeader, UnpackEntries;
    ReadContainerHeader(n, key, val, rest);
  }

  lemma {:induction false} DictDone(cd: Codec, k: Code, w: Type, v: Value, canon: bool, b: seq<byte>, body: seq<byte>, junk: seq<byte>)
    requires v.Dict? && b == ContainerHeader(|v.entries|, k, Outer(w)) + body
    requires UnpackEntries(cd, k, Outer(w), b + junk, |b| - |body|, |v.entries| + 0, []) ==
             UnpackEntries(cd, k, Outer(w), b + junk, |b|, 0, NormEntries(cd, w, Ordered(v.entries, canon), canon))
    ensures Unpack(cd, CONTAINER, b + junk) == Done(Norm(cd, Container(k, w), v, canon))
  {
    hide *;
    var h, n := ContainerHeader(|v.entries|, k, Outer(w)), |v.entries|;
    assert h + (body + junk) == b + junk;
    UnpackDictHeader(cd, n, k, Outer(w), body + junk);
    NormDict(cd, k, w, v, canon);
    NoMoreEntries(cd, k, Outer(w), b + junk, |b|, NormEntries(cd, w, Ordered(v.entries, canon), canon));
  }

  lemma NoMoreEntries(cd: Codec, key: Code, val: Code, data: seq<byte>, pos: nat, acc: seq<Entry>)
    requires 1 <= pos <= |data|
    ensures UnpackEntries(cd, key, val, data, pos, 0, acc) == Done(Dict(acc))
  {
  }

  lemma {:induction false} ListDone(cd: Codec, e: Type, v: Value, canon: bool, b: seq<byte>, body: seq<byte>, junk: seq<byte>)
    requires v.List? && b == MultisetHeader(|v.elems|, Outer(e)) + body
    requires UnpackElems(cd, Outer(e), b + junk, |b| - |body|, |v.elems| + 0, []) ==
             UnpackElems(cd, Outer(e), b + junk, |b|, 0, NormElems(cd, e, OrderedElems(cd, v.elems, canon), canon))
    ensures Unpack(cd, MULTISET, b + junk) == Done(Norm(cd, Multiset(e), v, canon))
  {
    hide MultisetHeader, OrderedElems, Unpack, Norm;
    assert MultisetHeader(|v.elems|, Outer(e)) + (body + junk) == b + junk;
    UnpackListHeader(cd, |v.elems|, Outer(e), body + junk);
    NormList(cd, e, v, canon);
  }

  lemma AtWhole(b: seq<byte>)
    ensures At(b + [], 0, b)
  {
  }

  lemma NothingAfter(b: seq<byte>)
    ensures b + [] == b
  {
  }

  lemma NoKeys(es: seq<Entry>)
    ensures KeysAbsent([], es)
  {
  }

  lemma DictType(cd: Codec, k: Code, w: Type, v: Value)
    requires HasType(cd, Container(k, w), v)
    ensures v.Dict? && UniqueKeys(v.entries) && EntriesHaveType(cd, w, v.entries)
  {
  }

  lemma {:induction false} AppendDictParts(cd: Codec, types: seq<Code>, pos: nat, k: Code, w: Type, v: Value,
                        canon: bool, b: seq<byte>) returns (body: seq<byte>)
    requires v.Dict? && Spells(types, pos, Container(k, w)) && Append(cd, types, pos, v, false, canon) == Some(b)
    ensures b == ContainerHeader(|v.entries|, k, Outer(w)) + body
    ensures AppendEntries(cd, types, pos + 3, k, Ordered(v.entries, canon), canon) == Some(body)
    ensures Spells(types, pos + 2, w)
  {
    hide Ordered, ContainerHeader, AppendEntries;
    body := AppendEntries(cd, types, pos + 3, k, Ordered(v.entries, canon), canon).value;
  }

  lemma NormList(cd: Codec, e: Type, v: Value, canon: bool)
    requires v.List?
    ensures Norm(cd, Multiset(e), v, canon) == List(NormElems(cd, e, OrderedElems(cd, v.elems, canon), canon))
  {
  }

  lemma NormDict(cd: Codec, k: Code, w: Type, v: Value, canon: bool)
    requires v.Dict?
    ensures Norm(cd, Container(k, w), v, canon) == Dict(NormEntries(cd, w, Ordered(v.entries, canon), canon))
  {
  }

  /** The elements of a packed list, wherever the packed bytes stand. */
  lemma {:induction false} UnpackListPart(cd: Codec, types: seq<Code>, pos: nat, e: Type, v: Value,
                                          canon: bool, b: seq<byte>, data: seq<byte>, n: nat)
    returns (body: seq<byte>)
    requires WellFormed(e) && Spells(types, pos, Multiset(e)) && HasType(cd, Multiset(e), v)
    requires Append(cd, types, pos, v, false, canon) == Some(b) && |b| < SIZE_LIMIT && At(data, 0, b)
    ensures b == MultisetHeader(|v.elems|, Outer(e)) + body
    ensures UnpackElems(cd, Outer(e), data, |b| - |body|, |v.elems| + n, []) ==
            UnpackElems(cd, Outer(e), data, |b|, n, NormElems(cd, e, OrderedElems(cd, v.elems, canon), canon))
    decreases e, 5, |v.elems| + 3
  {
    hide WellFormed, Norm, OrderedElems, MultisetHeader, UnpackElems, At;
    var vs := OrderedElems(cd, v.elems, canon);
    OrderedElemsHasType(cd, e, v.elems, canon);
    body := AppendElems(cd, types, pos + 2, vs, canon).value;
    var h := MultisetHeader(|vs|, Outer(e));
    AtParts(data, 0, h, body);
    UnpackAllElems(cd, types, pos + 2, e, vs, canon, data, |h|, body, n);
  }

  lemma {:induction false} UnpackOfDict(cd: Codec, types: seq<Code>, pos: nat, k: Code, w: Type, v: Value,
                                        canon: bool, b: seq<byte>)
    requires WellFormed(w) && Spells(types, pos, Container(k, w))
    requires v.Dict? && UniqueKeys(v.entries) && EntriesHaveType(cd, w, v.entries)
    requires Append(cd, types, pos, v, false, canon) == Some(b) && |b| < SIZE_LIMIT
    ensures Unpack(cd, CONTAINER, b) == Done(Norm(cd, Container(k, w), v, canon))
    decreases w, 6, 0
  {
    AtWhole(b);
    hide *;
    var body := UnpackDictPart(cd, types, pos, k, w, v, canon, b, b + [], 0);
    NothingAfter(b);
    DictDone(cd, k, w, v, canon, b, body, []);
  }

  /** The entries of a packed dict, wherever the packed bytes stand. */
  lemma {:induction false} UnpackDictPart(cd: Codec, types: seq<Code>, pos: nat, k: Code, w: Type, v: Value,
                                          canon: bool, b: seq<byte>, data: seq<byte>, n: nat)
    returns (body: seq<byte>)
    requires WellFormed(w) && Spells(types, pos, Container(k, w))
    requires v.Dict? && UniqueKeys(v.entries) && EntriesHaveType(cd, w, v.entries)
    requires Append(cd, types, pos, v, false, canon) == Some(b) && |b| < SIZE_LIMIT && At(data, 0, b)
    ensures b == ContainerHeader(|v.entries|, k, Outer(w)) + body
    ensures UnpackEntries(cd, k, Outer(w), data, |b| - |body|, |v.entries| + n, []) ==
            UnpackEntries(cd, k, Outer(w), data, |b|, n, NormEntries(cd, w, Ordered(v.entries, canon), canon))
    decreases w, 5, |v.entries| + 3
  {
    hide *;
    var es := Ordered(v.entries, canon);
    OrderedHasType(cd, w, v.entries, canon);
    OrderedUnique(v.entries, canon);
    body := AppendDictParts(cd, types, pos, k, w, v, canon, b);
    var h := ContainerHeader(|es|, k, Outer(w));
    AtParts(data, 0, h, body);
    UnpackAllEntries(cd, types, pos + 3, w, k, es, canon, data, |h|, body, n);
  }

  lemma {:induction false} UnpackAllEntries(cd: Codec, types: seq<Code>, cpos: nat, w: Type, key: Code,
                                            es: seq<Entry>, canon: bool, data: seq<byte>, pos: nat,
                                            body: seq<byte>, n: nat)
    requires cpos >= 1 && WellFormed(w) && Spells(types, cpos - 1, w) && EntriesHaveType(cd, w, es)
    requires UniqueKeys(es)
    requires AppendEntries(cd, types, cpos, key, es, canon) == Some(body)
    requires pos >= 1 && At(data, pos, body) && |body| < SIZE_LIMIT
    ensures pos + |body| <= |data|
    ensures UnpackEntries(cd, key, Outer(w), data, pos, |es| + n, []) ==
            UnpackEntries(cd, key, Outer(w), data, pos + |body|, n, NormEntries(cd, w, es, canon))
    decreases w, 5, |es| + 2
  {
    NoKeys(es);
    UnpackOfEntries(cd, types, cpos, w, key, es, canon, data, pos, body, [], n);
    assert [] + NormEntries(cd, w, es, canon) == NormEntries(cd, w, es, canon);
  }

  lemma NormEntriesCons(cd: Codec, w: Type, es: seq<Entry>, canon: bool, dict: seq<Entry>)
    requires |es| > 0
    ensures dict + [Entry(es[0].key, Norm(cd, w, es[0].val, canon))] + NormEntries(cd, w, es[1..], canon)
            == dict + NormEntries(cd, w, es, canon)
  {
  }

  lemma NormElemsCons(cd: Codec, e: Type, vs: seq<Value>, canon: bool, list: seq<Value>)
    requires |vs| > 0
    ensures list + [Norm(cd, e, vs[0], canon)] + NormElems(cd, e, vs[1..], canon)
            == list + NormElems(cd, e, vs, canon)
  {
  }

  predicate KeysAbsent(dict: seq<Entry>, es: seq<Entry>) {
    forall i :: 0 <= i < |es| ==> KeyAbsent(dict, es[i].key)
  }

  lemma KeysAbsentNext(dict: seq<Entry>, es: seq<Entry>, v: Value)
    requires |es| > 0 && UniqueKeys(es) && KeysAbsent(dict, es)
    ensures UniqueKeys(es[1..]) && KeysAbsent(dict + [Entry(es[0].key, v)], es[1..])
  {
  }

  lemma TailHasType(cd: Codec, w: Type, es: seq<Entry>)
    requires |es| > 0 && EntriesHaveType(cd, w, es)
    ensures EntriesHaveType(cd, w, es[1..]) && HasType(cd, w, es[0].val)
  {
  }

  lemma {:induction false} UnpackAllElems(cd: Codec, types: seq<Code>, cpos: nat, e: Type,
                                          vs: seq<Value>, canon: bool, data: seq<byte>, pos: nat,
                                          body: seq<byte>, n: nat)
    requires cpos >= 1 && WellFormed(e) && Spells(types, cpos - 1, e) && ElemsHaveType(cd, e, vs)
    requires AppendElems(cd, types, cpos, vs, canon) == Some(body)
    requires pos >= 1 && At(data, pos, body) && |body| < SIZE_LIMIT
    ensures pos + |body| <= |data|
    ensures UnpackElems(cd, Outer(e), data, pos, |vs| + n, []) ==
            UnpackElems(cd, Outer(e), data, pos + |body|, n, NormElems(cd, e, vs, canon))
    decreases e, 5, |vs| + 2
  {
    UnpackOfElems(cd, types, cpos, e, vs, canon, data, pos, body, [], n);
    assert [] + NormElems(cd, e, vs, canon) == NormElems(cd, e, vs, canon);
  }

  lemma NoEntries(cd: Codec, types: seq<Code>, cpos: nat, w: Type, key: Code, canon: bool, dict: seq<Entry>)
    requires cpos >= 1
    ensures AppendEntries(cd, types, cpos, key, [], canon) == Some([])
    ensures dict + NormEntries(cd, w, [], canon) == dict
  {
  }

  lemma NoElems(cd: Codec, types: seq<Code>, cpos: nat, e: Type, canon: bool, list: seq<Value>)
    requires cpos >= 1
    ensures AppendElems(cd, types, cpos, [], canon) == Some([])
    ensures list + NormElems(cd, e, [], canon) == list
  {
  }

  /** The unpacker's loop over packed entries that stand anywhere in a buffer: it takes
      exactly their bytes, with `n` entries still to come. */
  lemma {:induction false} UnpackOfEntries(cd: Codec, types: seq<Code>, cpos: nat, w: Type, key: Code,
                                           es: seq<Entry>, canon: bool, data: seq<byte>, pos: nat,
                                           body: seq<byte>, dict: seq<Entry>, n: nat)
    requires cpos >= 1 && WellFormed(w) && Spells(types, cpos - 1, w) && EntriesHaveType(cd, w, es)
    requires UniqueKeys(es) && KeysAbsent(dict, es)
    requires AppendEntries(cd, types, cpos, key, es, canon) == Some(body)
    requires pos >= 1 && At(data, pos, body) && |body| < SIZE_LIMIT
    ensures UnpackEntries(cd, key, Outer(w), data, pos, |es| + n, dict) ==
            UnpackEntries(cd, key, Outer(w), data, pos + |body|, n, dict + NormEntries(cd, w, es, canon))
    decreases w, 5, |es| + 1
  {
    hide *;
    if |es| == 0 {
      NoEntries(cd, types, cpos, w, key, canon, dict);
    } else {
      TailHasType(cd, w, es);
      var pos', rest := UnpackFirstEntry(cd, types, cpos, w, key, es, canon, data, pos, body, dict, n);
      var v := Norm(cd, w, es[0].val, canon);
      KeysAbsentNext(dict, es, v);
      UnpackOfEntries(cd, types, cpos, w, key, es[1..], canon, data, pos', rest, dict + [Entry(es[0].key, v)], n);
      NormEntriesCons(cd, w, es, canon, dict);
    }
  }

  lemma {:induction false} UnpackFirstEntry(cd: Codec, types: seq<Code>, cpos: nat, w: Type, key: Code,
                                            es: seq<Entry>, canon: bool, data: seq<byte>, pos: nat,
                                            body: seq<byte>, dict: seq<Entry>, n: nat)
    returns (pos': nat, rest: seq<byte>)
    requires cpos >= 1 && WellFormed(w) && Spells(types, cpos - 1, w) && EntriesHaveType(cd, w, es)
    requires |es| > 0 && KeysAbsent(dict, es)
    requires AppendEntries(cd, types, cpos, key, es, canon) == Some(body)
    requires pos >= 1 && At(data, pos, body) && |body| < SIZE_LIMIT
    ensures pos' >= pos && At(data, pos', rest) && pos' + |rest| == pos + |body|
    ensures AppendEntries(cd, types, cpos, key, es[1..], canon) == Some(rest)
    ensures UnpackEntries(cd, key, Outer(w), data, pos, |es| + n, dict) ==
            UnpackEntries(cd, key, Outer(w), data, pos', |es| - 1 + n,
                          dict + [Entry(es[0].key, Norm(cd, w, es[0].val, canon))])
    decreases w, 5, |es|
  {
    hide HasType, Norm, Unpack, Framed, WellFormed, KeysAbsent, KeyAbsent, Spells, Outer, AppendEntries, UnpackEntries, At;
    var b: seq<byte>;
    b, rest := AppendEntriesParts(cd, types, cpos, w, key, es, canon, body);
    UnpackOfAppend(cd, types, cpos - 1, w, es[0].val, canon, b);
    KeyAbsentAt(dict, es);
    pos' := EntryStep(cd, key, Outer(w), data, pos, es[0].key, b, Norm(cd, w, es[0].val, canon), rest, body, |es| - 1 + n, dict);
  }

  lemma KeyAbsentAt(dict: seq<Entry>, es: seq<Entry>)
    requires |es| > 0 && KeysAbsent(dict, es)
    ensures KeyAbsent(dict, es[0].key)
  {
  }

  lemma {:induction false} AppendEntriesParts(cd: Codec, types: seq<Code>, cpos: nat, w: Type, key: Code, es: seq<Entry>,
                           canon: bool, body: seq<byte>) returns (b: seq<byte>, rest: seq<byte>)
    requires 1 <= cpos && Spells(types, cpos - 1, w) && |es| > 0
    requires AppendEntries(cd, types, cpos, key, es, canon) == Some(body)
    ensures Append(cd, types, cpos - 1, es[0].val, false, canon) == Some(b)
    ensures AppendEntries(cd, types, cpos, key, es[1..], canon) == Some(rest)
    ensures body == Framed(key, es[0].key + [0], true) + Framed(Outer(w), b, true) + rest
    ensures |b| <= |body| && |es[0].key| + 1 <= |body|
  {
    b := AppendFrames(cd, types, cpos - 1, w, es[0].val, canon);
    rest := AppendEntries(cd, types, cpos, key, es[1..], canon).value;
    FramedLength(key, es[0].key + [0]);
    FramedLength(Outer(w), b);
  }

  lemma {:induction false} AppendFrames(cd: Codec, types: seq<Code>, pos: nat, w: Type, v: Value, canon: bool)
    returns (b: seq<byte>)
    requires Spells(types, pos, w) && Append(cd, types, pos, v, true, canon).Some?
    ensures Append(cd, types, pos, v, false, canon) == Some(b)
    ensures Append(cd, types, pos, v, true, canon) == Some(Framed(Outer(w), b, true))
  {
    hide AppendDict, AppendList;
    b := Append(cd, types, pos, v, false, canon).value;
  }

  lemma FramedLength(c: Code, b: seq<byte>)
    ensures |b| < |Framed(c, b, true)|
  {
  }

  /** The unpacker reads one entry. */
  lemma {:induction false} EntryStep(cd: Codec, key: Code, val: Code, data: seq<byte>, pos: nat, k: Text, b: seq<byte>, v: Value,
                  rest: seq<byte>, body: seq<byte>, n: nat, dict: seq<Entry>)
    returns (pos': nat)
    requires pos >= 1 && |b| < SIZE_LIMIT && |k| + 1 < SIZE_LIMIT && KeyAbsent(dict, k)
    requires body == Framed(key, k + [0], true) + Framed(val, b, true) + rest && At(data, pos, body)
    requires Unpack(cd, val, b) == Done(v)
    ensures pos' >= pos && At(data, pos', rest) && pos' + |rest| == pos + |body|
    ensures UnpackEntries(cd, key, val, data, pos, n + 1, dict) ==
            UnpackEntries(cd, key, val, data, pos', n, dict + [Entry(k, v)])
  {
    hide Unpack, Framed, KeyAbsent, ReadEntry, UnpackEntries, At;
    var kf, vf := Framed(key, k + [0], true), Framed(val, b, true);
    AtParts(data, pos, kf + vf, rest);
    AtParts(data, pos, kf, vf);
    ReadFramed(key, data, pos, k + [0]);
    ReadFramed(val, data, pos + |kf|, b);
    PutAppends(dict, k, v);
    pos' := pos + |kf| + |vf|;
    UnpackOneEntry(cd, key, val, data, pos, k + [0], pos + |kf|, b, pos', v, n, dict);
    assert KeyText(k + [0]) == k;
  }

  lemma UnpackOneEntry(cd: Codec, key: Code, val: Code, data: seq<byte>, pos: nat, k: seq<byte>, pos1: nat,
                       b: seq<byte>, pos2: nat, v: Value, n: nat, dict: seq<Entry>)
    requires pos >= 1 && ReadEntry(key, data, pos) == Some((k, pos1))
    requires ReadEntry(val, data, pos1) == Some((b, pos2)) && Unpack(cd, val, b) == Done(v)
    ensures pos < pos2 <= |data|
    ensures UnpackEntries(cd, key, val, data, pos, n + 1, dict) ==
            UnpackEntries(cd, key, val, data, pos2, n, DictPut(dict, KeyText(k), v))
  {
  }

  /** The unpacker reads one element. */
  lemma {:induction false} ElemStep(cd: Codec, elem: Code, data: seq<byte>, pos: nat, b: seq<byte>, v: Value,
                 n: nat, list: seq<Value>)
    requires pos >= 1 && |b| < SIZE_LIMIT && Unpack(cd, elem, b) == Done(v)
    requires At(data, pos, Framed(elem, b, true))
    ensures pos + |Framed(elem, b, true)| <= |data|
    ensures UnpackElems(cd, elem, data, pos, n + 1, list) ==
            UnpackElems(cd, elem, data, pos + |Framed(elem, b, true)|, n, list + [v])
  {
    hide Unpack, ReadEntry, Framed;
    ReadFramed(elem, data, pos, b);
  }

  lemma FirstHasType(cd: Codec, e: Type, vs: seq<Value>)
    requires |vs| > 0 && ElemsHaveType(cd, e, vs)
    ensures HasType(cd, e, vs[0]) && ElemsHaveType(cd, e, vs[1..])
  {
  }

  lemma {:induction false} UnpackOfElems(cd: Codec, types: seq<Code>, cpos: nat, e: Type, vs: seq<Value>,
                                         canon: bool, data: seq<byte>, pos: nat, body: seq<byte>,
                                         list: seq<Value>, n: nat)
    requires cpos >= 1 && WellFormed(e) && Spells(types, cpos - 1, e) && ElemsHaveType(cd, e, vs)
    requires AppendElems(cd, types, cpos, vs, canon) == Some(body)
    requires pos >= 1 && At(data, pos, body) && |body| < SIZE_LIMIT
    ensures UnpackElems(cd, Outer(e), data, pos, |vs| + n, list) ==
            UnpackElems(cd, Outer(e), data, pos + |body|, n, list + NormElems(cd, e, vs, canon))
    decreases e, 5, |vs| + 1
  {
    hide *;
    if |vs| == 0 {
      NoElems(cd, types, cpos, e, canon, list);
    } else {
      FirstHasType(cd, e, vs);
      var pos', rest := UnpackFirstElem(cd, types, cpos, e, vs, canon, data, pos, body, list, n);
      UnpackOfElems(cd, types, cpos, e, vs[1..], canon, data, pos', rest, list + [Norm(cd, e, vs[0], canon)], n);
      NormElemsCons(cd, e, vs, canon, list);
    }
  }

  lemma {:induction false} UnpackFirstElem(cd: Codec, types: seq<Code>, cpos: nat, e: Type, vs: seq<Value>,
                                           canon: bool, data: seq<byte>, pos: nat, body: seq<byte>,
                                           list: seq<Value>, n: nat)
    returns (pos': nat, rest: seq<byte>)
    requires cpos >= 1 && WellFormed(e) && Spells(types, cpos - 1, e) && |vs| > 0 && HasType(cd, e, vs[0])
    requires AppendElems(cd, types, cpos, vs, canon) == Some(body)
    requires pos >= 1 && At(data, pos, body) && |body| < SIZE_LIMIT
    ensures pos' >= pos && At(data, pos', rest) && pos' + |rest| == pos + |body|
    ensures AppendElems(cd, types, cpos, vs[1..], canon) == Some(rest)
    ensures UnpackElems(cd, Outer(e), data, pos, |vs| + n, list) ==
            UnpackElems(cd, Outer(e), data, pos', |vs| - 1 + n, list + [Norm(cd, e, vs[0], canon)])
    decreases e, 5, |vs|
  {
    hide HasType, Norm, Unpack, Framed, WellFormed, Spells, Outer, UnpackElems, AppendElems, At;
    var b: seq<byte>;
    b, rest := AppendElemsParts(cd, types, cpos, e, vs, canon, body);
    UnpackOfAppend(cd, types, cpos - 1, e, vs[0], canon, b);
    AtParts(data, pos, Framed(Outer(e), b, true), rest);
    ElemStep(cd, Outer(e), data, pos, b, Norm(cd, e, vs[0], canon), |vs| - 1 + n, list);
    pos' := pos + |Framed(Outer(e), b, true)|;
  }

  lemma {:induction false} AppendElemsParts(cd: Codec, types: seq<Code>, cpos: nat, e: Type, vs: seq<Value>,
                         canon: bool, body: seq<byte>) returns (b: seq<byte>, rest: seq<byte>)
    requires 1 <= cpos && Spells(types, cpos - 1, e) && |vs| > 0
    requires AppendElems(cd, types, cpos, vs, canon) == Some(body)
    ensures Append(cd, types, cpos - 1, vs[0], false, canon) == Some(b)
    ensures AppendElems(cd, types, cpos, vs[1..], canon) == Some(rest)
    ensures body == Framed(Outer(e), b, true) + rest && |b| <= |body|
  {
    b := AppendFrames(cd, types, cpos - 1, e, vs[0], canon);
    rest := AppendElems(cd, types, cpos, vs[1..], canon).value;
    FramedLength(Outer(e), b);
  }
}
