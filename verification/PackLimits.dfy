/** Where the serializer falls short, and exactly when. */
module PackLimits {
  import opened Options
  import opened Bytes
  import opened Sorting
  import opened Values
  import opened Pack
  import opened PackRoundTrip
  import opened PackTheorems

  // ---------------------------------------------------------------- damaged input

  lemma AtFront(b: seq<byte>, rest: seq<byte>)
    ensures At(b + rest, 0, b)
  {
  }

  /** Bytes left over after a dict or list are not noticed: the check for them jumps to the
      exit with the return code still set to success. */
  lemma {:induction false} LeftOverBytesAccepted(cd: Codec, t: Type, v: Value, canon: bool, b: seq<byte>, junk: seq<byte>)
    requires WellFormed(t) && HasType(cd, t, v) && IsCompound(Outer(t))
    requires Packed(cd, t, v, canon) == Some(b) && |b| < SIZE_LIMIT
    ensures Unpack(cd, Outer(t), b + junk) == Done(Norm(cd, t, v, canon))
  {
    WholeSpells(t);
    AtFront(b, junk);
    match t {
      case Multiset(e) => ListThenJunk(cd, e, v, canon, b, junk);
      case Container(k, w) => DictThenJunk(cd, k, w, v, canon, b, junk);
    }
  }

  lemma {:induction false} DictThenJunk(cd: Codec, k: Code, w: Type, v: Value, canon: bool, b: seq<byte>, junk: seq<byte>)
    requires WellFormed(w) && HasType(cd, Container(k, w), v)
    requires Packed(cd, Container(k, w), v, canon) == Some(b) && |b| < SIZE_LIMIT
    ensures Unpack(cd, CONTAINER, b + junk) == Done(Norm(cd, Container(k, w), v, canon))
  {
    hide *;
    DictType(cd, k, w, v);
    WholeSpells(Container(k, w));
    AtFront(b, junk);
    PackedIs(cd, Container(k, w), v, canon);
    var body := UnpackDictPart(cd, Flatten(Container(k, w)), 0, k, w, v, canon, b, b + junk, 0);
    DictDone(cd, k, w, v, canon, b, body, junk);
  }

  lemma {:induction false} ListThenJunk(cd: Codec, e: Type, v: Value, canon: bool, b: seq<byte>, junk: seq<byte>)
    requires WellFormed(e) && HasType(cd, Multiset(e), v)
    requires Packed(cd, Multiset(e), v, canon) == Some(b) && |b| < SIZE_LIMIT
    ensures Unpack(cd, MULTISET, b + junk) == Done(Norm(cd, Multiset(e), v, canon))
  {
    assert v.List?;
    WholeSpells(Multiset(e));
    AtFront(b, junk);
    PackedIs(cd, Multiset(e), v, canon);
    hide *;
    var body := UnpackListPart(cd, Flatten(Multiset(e)), 0, e, v, canon, b, b + junk, 0);
    ListDone(cd, e, v, canon, b, body, junk);
  }

  /** No whole entry can be read at `pos`. */
  predicate EntryCutOff(key: Code, val: Code, data: seq<byte>, pos: nat) {
    var k := ReadEntry(key, data, pos);
    k.None? || ReadEntry(val, data, k.value.1).None?
  }

  /** A dict whose header announces `n` more entries than the bytes hold is read, with
      success, as the dict of the entries that are there. */
  lemma {:induction false} CutOffDictAccepted(cd: Codec, k: Code, w: Type, v: Value, n: nat, body: seq<byte>, part: seq<byte>,
                           data: seq<byte>)
    requires WellFormed(w) && HasType(cd, Container(k, w), v) && n > 0
    requires |body| < SIZE_LIMIT
    requires AppendEntries(cd, Flatten(w), 1, k, v.entries, false) == Some(body)
    requires data == ContainerHeader(|v.entries| + n, k, Outer(w)) + body + part
    requires EntryCutOff(k, Outer(w), data, |data| - |part|)
    ensures Unpack(cd, CONTAINER, data) == Done(v)
  {
    hide *;
    DictType(cd, k, w, v);
    CutOffDict(cd, k, w, v, n, body, part, data);
    NormKeepsOrder(cd, Container(k, w), v);
    DictInOrder(cd, k, w, v);
  }

  lemma {:induction false} CutOffDict(cd: Codec, k: Code, w: Type, v: Value, n: nat, body: seq<byte>, part: seq<byte>,
                   data: seq<byte>)
    requires WellFormed(w) && n > 0 && |body| < SIZE_LIMIT
    requires v.Dict? && UniqueKeys(v.entries) && EntriesHaveType(cd, w, v.entries)
    requires AppendEntries(cd, Flatten(w), 1, k, v.entries, false) == Some(body)
    requires data == ContainerHeader(|v.entries| + n, k, Outer(w)) + body + part
    requires EntryCutOff(k, Outer(w), data, |data| - |part|)
    ensures Unpack(cd, CONTAINER, data) == Done(Dict(NormEntries(cd, w, v.entries, false)))
  {
    hide *;
    var h := ContainerHeader(|v.entries| + n, k, Outer(w));
    WholeSpells(w);
    Middle(h, body, part);
    CutDict(cd, k, w, v, data, |h|, body, n);
    UnpackDictHeader(cd, |v.entries| + n, k, Outer(w), body + part);
  }

  lemma DictInOrder(cd: Codec, k: Code, w: Type, v: Value)
    requires v.Dict?
    ensures Norm(cd, Container(k, w), v, false) == Dict(NormEntries(cd, w, v.entries, false))
  {
  }

  lemma {:induction false} CutDict(cd: Codec, k: Code, w: Type, v: Value, data: seq<byte>, pos: nat, body: seq<byte>, n: nat)
    requires WellFormed(w) && Spells(Flatten(w), 0, w) && n > 0
    requires v.Dict? && UniqueKeys(v.entries) && EntriesHaveType(cd, w, v.entries)
    requires AppendEntries(cd, Flatten(w), 1, k, v.entries, false) == Some(body)
    requires pos >= 1 && At(data, pos, body) && |body| < SIZE_LIMIT
    requires EntryCutOff(k, Outer(w), data, pos + |body|)
    ensures UnpackEntries(cd, k, Outer(w), data, pos, |v.entries| + n, []) ==
            Done(Dict(NormEntries(cd, w, v.entries, false)))
  {
    hide *;
    UnpackAllEntries(cd, Flatten(w), 1, w, k, v.entries, false, data, pos, body, n);
    StopsAtCut(cd, k, Outer(w), data, pos + |body|, n, NormEntries(cd, w, v.entries, false));
  }

  lemma Middle(h: seq<byte>, body: seq<byte>, part: seq<byte>)
    ensures At(h + body + part, |h|, body)
    ensures h + body + part == h + (body + part)
  {
  }

  lemma StopsAtCut(cd: Codec, key: Code, val: Code, data: seq<byte>, pos: nat, n: nat, dict: seq<Entry>)
    requires 1 <= pos <= |data| && n > 0 && EntryCutOff(key, val, data, pos)
    ensures UnpackEntries(cd, key, val, data, pos, n, dict) == Done(Dict(dict))
  {
  }

  /** A list cut off in the same way is also reported as a success, with elements that were
      never set. */
  lemma {:induction false} CutOffListUndefined(cd: Codec, e: Type, v: Value, n: nat, body: seq<byte>, part: seq<byte>,
                            data: seq<byte>)
    requires WellFormed(e) && HasType(cd, Multiset(e), v) && n > 0
    requires |body| < SIZE_LIMIT
    requires AppendElems(cd, Flatten(e), 1, v.elems, false) == Some(body)
    requires data == MultisetHeader(|v.elems| + n, Outer(e)) + body + part
    requires ReadEntry(Outer(e), data, |data| - |part|).None?
    ensures Unpack(cd, MULTISET, data) == Undefined
  {
    hide *;
    ListType(cd, e, v);
    var h := MultisetHeader(|v.elems| + n, Outer(e));
    WholeSpells(e);
    Middle(h, body, part);
    CutList(cd, e, v, data, |h|, body, n);
    UnpackListHeader(cd, |v.elems| + n, Outer(e), body + part);
  }

  lemma ListType(cd: Codec, e: Type, v: Value)
    requires HasType(cd, Multiset(e), v)
    ensures v.List? && ElemsHaveType(cd, e, v.elems)
  {
  }

  lemma {:induction false} CutList(cd: Codec, e: Type, v: Value, data: seq<byte>, pos: nat, body: seq<byte>, n: nat)
    requires WellFormed(e) && Spells(Flatten(e), 0, e) && n > 0 && v.List? && ElemsHaveType(cd, e, v.elems)
    requires AppendElems(cd, Flatten(e), 1, v.elems, false) == Some(body)
    requires pos >= 1 && At(data, pos, body) && |body| < SIZE_LIMIT
    requires ReadEntry(Outer(e), data, pos + |body|).None?
    ensures UnpackElems(cd, Outer(e), data, pos, |v.elems| + n, []) == Undefined
  {
    hide *;
    UnpackAllElems(cd, Flatten(e), 1, e, v.elems, false, data, pos, body, n);
    ListStopsAtCut(cd, Outer(e), data, pos + |body|, n, NormElems(cd, e, v.elems, false));
  }

  lemma ListStopsAtCut(cd: Codec, elem: Code, data: seq<byte>, pos: nat, n: nat, list: seq<Value>)
    requires 1 <= pos <= |data| && n > 0 && ReadEntry(elem, data, pos).None?
    ensures UnpackElems(cd, elem, data, pos, n, list) == Undefined
  {
  }

  // ---------------------------------------------------------------- the one-code type list

  /** `adlb_tclobj2bin`: packs with a type list that holds the outermost code alone. */
  function ToBinary(cd: Codec, c: Code, v: Value, canon: bool): Option<seq<byte>> {
    if IsCompound(c) then Append(cd, [c], 0, v, false, canon) else (cd.pack)(c, TextOf(cd, v))
  }

  /** So it packs every scalar that can be packed, and no dict or list at all. */
  lemma {:induction false} ToBinaryOnlyScalars(cd: Codec, c: Code, v: Value, canon: bool)
    ensures ToBinary(cd, c, v, canon).Some? <==> !IsCompound(c) && (cd.pack)(c, TextOf(cd, v)).Some?
    ensures !IsCompound(c) ==> ToBinary(cd, c, v, canon) == Packed(cd, Scalar(c), v, canon)
  {
    if c.CONTAINER? { assert AppendDict(cd, [c], 1, v, canon).None?; }
    if c.MULTISET? { assert AppendList(cd, [c], 1, v, canon).None?; }
  }
}
