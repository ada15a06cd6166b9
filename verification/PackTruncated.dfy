/** What the unpacker makes of a packed dict or list of which only the first bytes are left. */
module PackTruncated {
  import opened Options
  import opened Bytes
  import opened Sorting
  import opened Values
  import opened Pack
  import opened PackRoundTrip
  import opened PackTheorems
  import opened PackLimits

  // ---------------------------------------------------------------- reading does not look ahead

  lemma {:induction false} VintDecodeGrows(b: seq<byte>, rest: seq<byte>)
    requires VintDecode(b).Some?
    ensures VintDecode(b + rest) == VintDecode(b)
  {
    if b[0] >= 128 {
      assert (b + rest)[1..] == b[1..] + rest;
      VintDecodeGrows(b[1..], rest);
    }
  }

  lemma {:induction false} ReadEntryGrows(c: Code, data: seq<byte>, rest: seq<byte>, pos: nat)
    requires ReadEntry(c, data, pos).Some?
    ensures ReadEntry(c, data + rest, pos) == ReadEntry(c, data, pos)
  {
    hide VintDecode;
    assert (data + rest)[pos..] == data[pos..] + rest;
    VintDecodeGrows(data[pos..], rest);
    var (x, end) := ReadEntry(c, data, pos).value;
    assert (data + rest)[end - |x|..end] == data[end - |x|..end];
  }

  lemma {:induction false} ReadHeaderGrows(data: seq<byte>, rest: seq<byte>, ncodes: nat)
    requires ncodes <= 2 && ReadHeader(data, ncodes).Some?
    ensures ReadHeader(data + rest, ncodes) == ReadHeader(data, ncodes)
  {
    hide VintDecode;
    VintDecodeGrows(data, rest);
  }

  lemma Rejoin(b: seq<byte>, cut: nat)
    requires cut <= |b|
    ensures b[..cut] + b[cut..] == b
  {
  }

  /** An entry that the cut goes through cannot be read. */
  lemma {:induction false} CutEntry(c: Code, b: seq<byte>, cut: nat, pos: nat, payload: seq<byte>)
    requires cut <= |b| && |payload| < SIZE_LIMIT && At(b, pos, Framed(c, payload, true))
    requires cut < pos + |Framed(c, payload, true)|
    ensures ReadEntry(c, b[..cut], pos).None?
  {
    hide ReadEntry, Framed, At;
    ReadFramed(c, b, pos, payload);
    Rejoin(b, cut);
    if ReadEntry(c, b[..cut], pos).Some? { ReadEntryGrows(c, b[..cut], b[cut..], pos); }
  }

  lemma AtBeforeCut(b: seq<byte>, cut: nat, pos: nat, x: seq<byte>)
    requires cut <= |b| && At(b, pos, x) && pos + |x| <= cut
    ensures At(b[..cut], pos, x)
  {
  }

  // ---------------------------------------------------------------- dicts

  /** How many entries lie wholly within `room` bytes. */
  function Fit(cd: Codec, types: seq<Code>, cpos: nat, key: Code, es: seq<Entry>, canon: bool, room: nat): (n: nat)
    requires cpos >= 1
    ensures n <= |es|
    decreases |es|
  {
    if |es| == 0 then 0
    else
      var one := AppendEntries(cd, types, cpos, key, es[..1], canon);
      if one.None? || |one.value| > room then 0
      else 1 + Fit(cd, types, cpos, key, es[1..], canon, room - |one.value|)
  }

  /** The bytes of the first entry. */
  lemma {:induction false} FirstEntry(cd: Codec, types: seq<Code>, cpos: nat, w: Type, key: Code, es: seq<Entry>,
                                      canon: bool, b: seq<byte>)
    requires cpos >= 1 && Spells(types, cpos - 1, w) && |es| > 0
    requires Append(cd, types, cpos - 1, es[0].val, false, canon) == Some(b)
    ensures AppendEntries(cd, types, cpos, key, es[..1], canon)
            == Some(Framed(key, es[0].key + [0], true) + Framed(Outer(w), b, true))
  {
    hide Framed, Append, Spells, Outer;
    var kf, vf := Framed(key, es[0].key + [0], true), Framed(Outer(w), b, true);
    AppendPrefixed(cd, types, cpos - 1, w, es[0].val, canon, b);
    assert es[..1][1..] == [];
    assert AppendEntries(cd, types, cpos, key, [], canon) == Some([]);
    assert kf + vf + [] == kf + vf;
  }

  lemma {:induction false} AppendPrefixed(cd: Codec, types: seq<Code>, pos: nat, w: Type, v: Value, canon: bool,
                                          b: seq<byte>)
    requires Spells(types, pos, w) && Append(cd, types, pos, v, false, canon) == Some(b)
    ensures Append(cd, types, pos, v, true, canon) == Some(Framed(Outer(w), b, true))
  {
    hide AppendDict, AppendList;
  }

  /** The unpacker's loop over entries that are cut off: it yields those that are whole. */
  lemma {:induction false} UnpackCutEntries(cd: Codec, types: seq<Code>, cpos: nat, w: Type, key: Code,
                                            es: seq<Entry>, canon: bool, b: seq<byte>, cut: nat, pos: nat,
                                            body: seq<byte>, dict: seq<Entry>)
    requires cpos >= 1 && WellFormed(w) && Spells(types, cpos - 1, w) && EntriesHaveType(cd, w, es)
    requires UniqueKeys(es) && KeysAbsent(dict, es)
    requires AppendEntries(cd, types, cpos, key, es, canon) == Some(body) && |body| < SIZE_LIMIT
    requires 1 <= pos <= cut < pos + |body| && cut <= |b| && At(b, pos, body)
    ensures UnpackEntries(cd, key, Outer(w), b[..cut], pos, |es|, dict) ==
            Done(Dict(dict + NormEntries(cd, w, es[..Fit(cd, types, cpos, key, es, canon, cut - pos)], canon)))
    decreases |es|
  {
    hide *;
    NotEmpty(cd, types, cpos, key, es, canon, body);
    TailHasType(cd, w, es);
    var p, rest := AppendEntriesParts(cd, types, cpos, w, key, es, canon, body);
    UnpackOfAppend(cd, types, cpos - 1, w, es[0].val, canon, p);
    var v := Norm(cd, w, es[0].val, canon);
    var kf, vf := Framed(key, es[0].key + [0], true), Framed(Outer(w), p, true);
    AtParts(b, pos, kf + vf, rest);
    FirstEntry(cd, types, cpos, w, key, es, canon, p);
    FitStep(cd, types, cpos, key, es, canon, cut - pos);
    if |kf + vf| <= cut - pos {
      AtBeforeCut(b, cut, pos, kf + vf);
      WholeEntry(cd, key, Outer(w), b[..cut], pos, es[0].key, p, v, |es| - 1, dict, es);
      KeysAbsentNext(dict, es, v);
      var pos' := pos + |kf + vf|;
      UnpackCutEntries(cd, types, cpos, w, key, es[1..], canon, b, cut, pos', rest, dict + [Entry(es[0].key, v)]);
      FitNorm(cd, w, es, canon, dict, Fit(cd, types, cpos, key, es[1..], canon, cut - pos'));
    } else {
      EntryIsCut(key, Outer(w), b, cut, pos, es[0].key + [0], p);
      StopsAtCut(cd, key, Outer(w), b[..cut], pos, |es|, dict);
      FitNone(cd, w, es, canon, dict);
    }
  }

  lemma NotEmpty(cd: Codec, types: seq<Code>, cpos: nat, key: Code, es: seq<Entry>, canon: bool,
                                    body: seq<byte>)
    requires cpos >= 1 && AppendEntries(cd, types, cpos, key, es, canon) == Some(body) && |body| > 0
    ensures |es| > 0
  {
  }

  lemma {:induction false} FitStep(cd: Codec, types: seq<Code>, cpos: nat, key: Code, es: seq<Entry>, canon: bool,
                                   room: nat)
    requires cpos >= 1 && |es| > 0
    ensures var one := AppendEntries(cd, types, cpos, key, es[..1], canon);
      Fit(cd, types, cpos, key, es, canon, room) ==
      if one.None? || |one.value| > room then 0
      else 1 + Fit(cd, types, cpos, key, es[1..], canon, room - |one.value|)
  {
    hide AppendEntries;
  }

  lemma {:induction false} FitNorm(cd: Codec, w: Type, es: seq<Entry>, canon: bool, dict: seq<Entry>, n: nat)
    requires |es| > 0 && n <= |es[1..]|
    ensures dict + [Entry(es[0].key, Norm(cd, w, es[0].val, canon))] + NormEntries(cd, w, es[1..][..n], canon)
            == dict + NormEntries(cd, w, es[..1 + n], canon)
  {
    hide Norm;
    assert es[..1 + n][1..] == es[1..][..n];
    NormEntriesCons(cd, w, es[..1 + n], canon, dict);
  }

  lemma FitNone(cd: Codec, w: Type, es: seq<Entry>, canon: bool, dict: seq<Entry>)
    ensures dict + NormEntries(cd, w, es[..0], canon) == dict
  {
  }

  lemma {:induction false} WholeEntry(cd: Codec, key: Code, val: Code, data: seq<byte>, pos: nat, k: Text,
                                      p: seq<byte>, v: Value, n: nat, dict: seq<Entry>, es: seq<Entry>)
    requires pos >= 1 && |p| < SIZE_LIMIT && |k| + 1 < SIZE_LIMIT && |es| > 0 && es[0].key == k && KeysAbsent(dict, es)
    requires At(data, pos, Framed(key, k + [0], true) + Framed(val, p, true)) && Unpack(cd, val, p) == Done(v)
    ensures var pos' := pos + |Framed(key, k + [0], true) + Framed(val, p, true)|;
      pos' <= |data| &&
      UnpackEntries(cd, key, val, data, pos, n + 1, dict) ==
      UnpackEntries(cd, key, val, data, pos', n, dict + [Entry(k, v)])
  {
    hide Framed, Unpack, UnpackEntries, KeyAbsent, KeysAbsent, ReadEntry;
    KeyAbsentAt(dict, es);
    var body := Framed(key, k + [0], true) + Framed(val, p, true);
    assert body == body + [];
    var pos' := EntryStep(cd, key, val, data, pos, k, p, v, [], body, n, dict);
  }

  lemma {:induction false} EntryIsCut(key: Code, val: Code, b: seq<byte>, cut: nat, pos: nat, k: seq<byte>, p: seq<byte>)
    requires pos <= cut <= |b| && |k| < SIZE_LIMIT && |p| < SIZE_LIMIT
    requires At(b, pos, Framed(key, k, true) + Framed(val, p, true))
    requires cut < pos + |Framed(key, k, true) + Framed(val, p, true)|
    ensures EntryCutOff(key, val, b[..cut], pos)
  {
    hide Framed, ReadEntry, At;
    var kf, vf := Framed(key, k, true), Framed(val, p, true);
    AtParts(b, pos, kf, vf);
    if cut < pos + |kf| {
      CutEntry(key, b, cut, pos, k);
    } else {
      AtBeforeCut(b, cut, pos, kf);
      ReadFramed(key, b[..cut], pos, k);
      CutEntry(val, b, cut, pos + |kf|, p);
    }
  }

  // ---------------------------------------------------------------- lists

  /** The loop over elements that are cut off leaves elements unset. */
  lemma {:induction false} UnpackCutElems(cd: Codec, types: seq<Code>, cpos: nat, e: Type, vs: seq<Value>,
                                          canon: bool, b: seq<byte>, cut: nat, pos: nat, body: seq<byte>,
                                          list: seq<Value>)
    requires cpos >= 1 && WellFormed(e) && Spells(types, cpos - 1, e) && ElemsHaveType(cd, e, vs)
    requires AppendElems(cd, types, cpos, vs, canon) == Some(body) && |body| < SIZE_LIMIT
    requires 1 <= pos <= cut < pos + |body| && cut <= |b| && At(b, pos, body)
    ensures UnpackElems(cd, Outer(e), b[..cut], pos, |vs|, list) == Undefined
    decreases |vs|
  {
    hide *;
    NotEmptyList(cd, types, cpos, vs, canon, body);
    FirstHasType(cd, e, vs);
    var p, rest := AppendElemsParts(cd, types, cpos, e, vs, canon, body);
    UnpackOfAppend(cd, types, cpos - 1, e, vs[0], canon, p);
    var v := Norm(cd, e, vs[0], canon);
    var f := Framed(Outer(e), p, true);
    AtParts(b, pos, f, rest);
    if |f| <= cut - pos {
      AtBeforeCut(b, cut, pos, f);
      ElemStep(cd, Outer(e), b[..cut], pos, p, v, |vs| - 1, list);
      UnpackCutElems(cd, types, cpos, e, vs[1..], canon, b, cut, pos + |f|, rest, list + [v]);
    } else {
      CutEntry(Outer(e), b, cut, pos, p);
      ListStopsAtCut(cd, Outer(e), b[..cut], pos, |vs|, list);
    }
  }

  lemma NotEmptyList(cd: Codec, types: seq<Code>, cpos: nat, vs: seq<Value>, canon: bool,
                                        body: seq<byte>)
    requires cpos >= 1 && AppendElems(cd, types, cpos, vs, canon) == Some(body) && |body| > 0
    ensures |vs| > 0
  {
  }

  // ---------------------------------------------------------------- headers

  lemma {:induction false} CutDictHeader(cd: Codec, n: nat, key: Code, val: Code, body: seq<byte>, cut: nat)
    requires cut < |ContainerHeader(n, key, val)|
    ensures Unpack(cd, CONTAINER, (ContainerHeader(n, key, val) + body)[..cut]) == Error
  {
    hide ContainerHeader, ReadHeader;
    var b := ContainerHeader(n, key, val) + body;
    ReadContainerHeader(n, key, val, body);
    Rejoin(b, cut);
    if ReadHeader(b[..cut], 2).Some? { ReadHeaderGrows(b[..cut], b[cut..], 2); }
  }

  lemma {:induction false} CutListHeader(cd: Codec, n: nat, elem: Code, body: seq<byte>, cut: nat)
    requires cut < |MultisetHeader(n, elem)|
    ensures Unpack(cd, MULTISET, (MultisetHeader(n, elem) + body)[..cut]) == Error
  {
    hide MultisetHeader, ReadHeader;
    var b := MultisetHeader(n, elem) + body;
    ReadMultisetHeader(n, elem, body);
    Rejoin(b, cut);
    if ReadHeader(b[..cut], 1).Some? { ReadHeaderGrows(b[..cut], b[cut..], 1); }
  }

  /** The number of bytes before the first entry or element. */
  function HeaderLength(t: Type, v: Value): nat {
    match t
    case Container(k, w) => if v.Dict? then |ContainerHeader(|v.entries|, k, Outer(w))| else 0
    case Multiset(e) => if v.List? then |MultisetHeader(|v.elems|, Outer(e))| else 0
    case Scalar(_) => 0
  }

  // ---------------------------------------------------------------- every truncation

  /** A dict cut within its header is refused; cut anywhere later it is returned, with success,
      as the dict of the entries that are whole. */
  lemma {:induction false} CutDict(cd: Codec, k: Code, w: Type, v: Value, canon: bool, b: seq<byte>, cut: nat)
    requires WellFormed(Container(k, w)) && HasType(cd, Container(k, w), v)
    requires Packed(cd, Container(k, w), v, canon) == Some(b) && cut < |b| < SIZE_LIMIT
    ensures var h := HeaderLength(Container(k, w), v);
      v.Dict? && Unpack(cd, CONTAINER, b[..cut]) ==
      if cut < h then Error
      else
        var es := Ordered(v.entries, canon);
        Done(Dict(NormEntries(cd, w, es[..Fit(cd, Flatten(Container(k, w)), 3, k, es, canon, cut - h)], canon)))
  {
    hide *;
    DictType(cd, k, w, v);
    WellFormedValue(k, w);
    var t, ts := Container(k, w), Flatten(Container(k, w));
    WholeSpells(t);
    PackedIs(cd, t, v, canon);
    var body := AppendDictParts(cd, ts, 0, k, w, v, canon, b);
    HeaderIs(k, w, v);
    if cut < |ContainerHeader(|v.entries|, k, Outer(w))| {
      CutDictHeader(cd, |v.entries|, k, Outer(w), body, cut);
    } else {
      CutDictBody(cd, ts, k, w, v, canon, b, body, cut);
    }
  }

  lemma {:induction false} CutDictBody(cd: Codec, ts: seq<Code>, k: Code, w: Type, v: Value, canon: bool,
                                       b: seq<byte>, body: seq<byte>, cut: nat)
    requires WellFormed(w) && Spells(ts, 2, w) && v.Dict? && UniqueKeys(v.entries) && EntriesHaveType(cd, w, v.entries)
    requires AppendEntries(cd, ts, 3, k, Ordered(v.entries, canon), canon) == Some(body)
    requires b == ContainerHeader(|v.entries|, k, Outer(w)) + body
    requires |ContainerHeader(|v.entries|, k, Outer(w))| <= cut < |b| < SIZE_LIMIT
    ensures var es := Ordered(v.entries, canon);
      var h := ContainerHeader(|v.entries|, k, Outer(w));
      Unpack(cd, CONTAINER, b[..cut]) ==
      Done(Dict(NormEntries(cd, w, es[..Fit(cd, ts, 3, k, es, canon, cut - |h|)], canon)))
  {
    hide *;
    var es := Ordered(v.entries, canon);
    var h := ContainerHeader(|v.entries|, k, Outer(w));
    OrderedHasType(cd, w, v.entries, canon);
    OrderedUnique(v.entries, canon);
    SplitAt(h, body);
    NoKeys(es);
    UnpackCutEntries(cd, ts, 3, w, k, es, canon, b, cut, |h|, body, []);
    HeaderKept(h, body, cut);
    UnpackDictHeader(cd, |v.entries|, k, Outer(w), b[|h|..cut]);
    NilBefore(NormEntries(cd, w, es[..Fit(cd, ts, 3, k, es, canon, cut - |h|)], canon));
  }

  lemma WellFormedValue(k: Code, w: Type)
    requires WellFormed(Container(k, w))
    ensures WellFormed(w)
  {
  }

  lemma HeaderIs(k: Code, w: Type, v: Value)
    requires v.Dict?
    ensures HeaderLength(Container(k, w), v) == |ContainerHeader(|v.entries|, k, Outer(w))|
  {
  }

  lemma SplitAt(h: seq<byte>, body: seq<byte>)
    ensures At(h + body, |h|, body)
  {
  }

  lemma HeaderKept(h: seq<byte>, body: seq<byte>, cut: nat)
    requires |h| <= cut <= |h + body|
    ensures (h + body)[..cut] == h + (h + body)[|h|..cut]
  {
  }

  lemma NilBefore(es: seq<Entry>)
    ensures [] + es == es
  {
  }

  /** A list cut within its header is refused; cut anywhere later it is returned, with success,
      although elements were never set. */
  lemma {:induction false} CutListBytes(cd: Codec, e: Type, v: Value, canon: bool, b: seq<byte>, cut: nat)
    requires WellFormed(Multiset(e)) && HasType(cd, Multiset(e), v)
    requires Packed(cd, Multiset(e), v, canon) == Some(b) && cut < |b| < SIZE_LIMIT
    ensures Unpack(cd, MULTISET, b[..cut]) == if cut < HeaderLength(Multiset(e), v) then Error else Undefined
  {
    ListType(cd, e, v);
    hide *;
    WellFormedElem(e);
    var t, ts, vs := Multiset(e), Flatten(Multiset(e)), OrderedElems(cd, v.elems, canon);
    WholeSpells(t);
    PackedIs(cd, t, v, canon);
    OrderedElemsHasType(cd, e, v.elems, canon);
    var body := AppendListParts(cd, ts, 0, e, v, canon, b);
    var h := MultisetHeader(|v.elems|, Outer(e));
    ListHeaderIs(e, v);
    if cut < |h| {
      CutListHeader(cd, |v.elems|, Outer(e), body, cut);
    } else {
      SplitAt(h, body);
      UnpackCutElems(cd, ts, 2, e, vs, canon, b, cut, |h|, body, []);
      HeaderKept(h, body, cut);
      UnpackListHeader(cd, |v.elems|, Outer(e), b[|h|..cut]);
    }
  }

  lemma WellFormedElem(e: Type)
    requires WellFormed(Multiset(e))
    ensures WellFormed(e)
  {
  }

  lemma ListHeaderIs(e: Type, v: Value)
    requires v.List?
    ensures HeaderLength(Multiset(e), v) == |MultisetHeader(|v.elems|, Outer(e))|
  {
  }

  lemma {:induction false} AppendListParts(cd: Codec, types: seq<Code>, pos: nat, e: Type, v: Value,
                                           canon: bool, b: seq<byte>) returns (body: seq<byte>)
    requires v.List? && Spells(types, pos, Multiset(e)) && Append(cd, types, pos, v, false, canon) == Some(b)
    ensures b == MultisetHeader(|v.elems|, Outer(e)) + body
    ensures AppendElems(cd, types, pos + 2, OrderedElems(cd, v.elems, canon), canon) == Some(body)
    ensures Spells(types, pos + 1, e)
  {
    hide OrderedElems, MultisetHeader, AppendElems;
    body := AppendElems(cd, types, pos + 2, OrderedElems(cd, v.elems, canon), canon).value;
  }

  /** So a truncation of a packed dict or list is noticed if and only if it reaches into the
      header. */
  lemma {:induction false} TruncationNoticedIff(cd: Codec, t: Type, v: Value, canon: bool, b: seq<byte>, cut: nat)
    requires WellFormed(t) && IsCompound(Outer(t)) && HasType(cd, t, v)
    requires Packed(cd, t, v, canon) == Some(b) && cut < |b| < SIZE_LIMIT
    ensures Unpack(cd, Outer(t), b[..cut]) == Error <==> cut < HeaderLength(t, v)
  {
    NotScalar(t);
    hide HasType, Unpack, Packed, HeaderLength, WellFormed;
    if t.Container? {
      CutDict(cd, t.key, t.val, v, canon, b, cut);
    } else {
      CutListBytes(cd, t.elem, v, canon, b, cut);
    }
  }

  lemma NotScalar(t: Type)
    requires WellFormed(t) && IsCompound(Outer(t))
    ensures !t.Scalar?
  {
  }

  /** The first `n` entries can be packed, and take `size` bytes. */
  predicate Takes(cd: Codec, types: seq<Code>, cpos: nat, key: Code, es: seq<Entry>, canon: bool, n: nat, size: nat)
    requires cpos >= 1 && n <= |es|
  {
    var b := AppendEntries(cd, types, cpos, key, es[..n], canon);
    b.Some? && |b.value| == size
  }

  /** `Fit` counts the most entries whose bytes lie within the room. */
  lemma {:induction false} FitIsMost(cd: Codec, types: seq<Code>, cpos: nat, key: Code, es: seq<Entry>, canon: bool,
                                     room: nat) returns (size: nat, more: nat)
    requires cpos >= 1 && AppendEntries(cd, types, cpos, key, es, canon).Some?
    ensures var n := Fit(cd, types, cpos, key, es, canon, room);
      Takes(cd, types, cpos, key, es, canon, n, size) && size <= room
      && (n < |es| ==> Takes(cd, types, cpos, key, es, canon, n + 1, more) && more > room)
    decreases |es|
  {
    hide AppendEntries, Takes, Fit;
    TakesNone(cd, types, cpos, key, es, canon);
    size, more := 0, 0;
    if |es| == 0 {
      FitNothing(cd, types, cpos, key, es, canon, room);
    } else {
      var one := TakesOne(cd, types, cpos, key, es, canon);
      FitStep(cd, types, cpos, key, es, canon, room);
      if one <= room {
        var n := Fit(cd, types, cpos, key, es[1..], canon, room - one);
        size, more := FitIsMost(cd, types, cpos, key, es[1..], canon, room - one);
        TakesMore(cd, types, cpos, key, es, canon, n, one, size);
        if n < |es[1..]| { TakesMore(cd, types, cpos, key, es, canon, n + 1, one, more); }
        size, more := one + size, one + more;
      } else {
        more := one;
      }
    }
  }

  lemma FitNothing(cd: Codec, types: seq<Code>, cpos: nat, key: Code, es: seq<Entry>, canon: bool,
                                      room: nat)
    requires cpos >= 1 && |es| == 0
    ensures Fit(cd, types, cpos, key, es, canon, room) == 0
  {
  }

  lemma TakesNone(cd: Codec, types: seq<Code>, cpos: nat, key: Code, es: seq<Entry>, canon: bool)
    requires cpos >= 1
    ensures Takes(cd, types, cpos, key, es, canon, 0, 0)
  {
  }

  lemma {:induction false} TakesOne(cd: Codec, types: seq<Code>, cpos: nat, key: Code, es: seq<Entry>, canon: bool)
    returns (one: nat)
    requires cpos >= 1 && |es| > 0 && AppendEntries(cd, types, cpos, key, es, canon).Some?
    ensures Takes(cd, types, cpos, key, es, canon, 1, one)
    ensures AppendEntries(cd, types, cpos, key, es[..1], canon).Some?
    ensures one == |AppendEntries(cd, types, cpos, key, es[..1], canon).value|
    ensures AppendEntries(cd, types, cpos, key, es[1..], canon).Some?
  {
    OneAndRest(cd, types, cpos, key, es, canon, |es|);
    assert es[..|es|] == es && es[1..][..|es| - 1] == es[1..];
    hide AppendEntries;
    one := |AppendEntries(cd, types, cpos, key, es[..1], canon).value|;
  }

  lemma {:induction false} TakesMore(cd: Codec, types: seq<Code>, cpos: nat, key: Code, es: seq<Entry>, canon: bool,
                                     n: nat, one: nat, size: nat)
    requires cpos >= 1 && |es| > 0 && n <= |es[1..]|
    requires Takes(cd, types, cpos, key, es, canon, 1, one) && Takes(cd, types, cpos, key, es[1..], canon, n, size)
    ensures Takes(cd, types, cpos, key, es, canon, n + 1, one + size)
  {
    hide AppendEntries;
    OneAndRest(cd, types, cpos, key, es, canon, n + 1);
  }

  /** The first `m` entries are the first one and those after it. */
  lemma {:induction false} OneAndRest(cd: Codec, types: seq<Code>, cpos: nat, key: Code, es: seq<Entry>, canon: bool,
                                      m: nat)
    requires cpos >= 1 && 1 <= m <= |es|
    ensures var one := AppendEntries(cd, types, cpos, key, es[..1], canon);
      var rest := AppendEntries(cd, types, cpos, key, es[1..][..m - 1], canon);
      AppendEntries(cd, types, cpos, key, es[..m], canon) ==
      if one.None? || rest.None? then None else Some(one.value + rest.value)
  {
    hide Append, Framed;
    assert es[..m][1..] == es[1..][..m - 1] && es[..1][1..] == [];
    assert AppendEntries(cd, types, cpos, key, [], canon) == Some([]);
    var val := Append(cd, types, cpos - 1, es[0].val, true, canon);
    if val.Some? {
      var kf := Framed(key, es[0].key + [0], true);
      assert kf + val.value + [] == kf + val.value;
    }
  }
}
