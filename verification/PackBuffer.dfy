/** The packer as the source runs it: a growing buffer, with the length of a compound value
    written into space reserved before the value was appended. */
module PackBuffer {
  import opened Options
  import opened Bytes
  import opened Sorting
  import opened Values
  import opened Pack

  /** The packed form exists and there is room for it. */
  predicate Fits(r: Option<seq<byte>>, used: nat, limit: nat) {
    r.Some? && used + |r.value| <= limit
  }

  /** Bytes already written, followed by what is still to come. */
  function Prepend(done: seq<byte>, r: Option<seq<byte>>): Option<seq<byte>> {
    if r.None? then None else Some(done + r.value)
  }

  lemma {:induction false} PrependTwice(a: seq<byte>, b: seq<byte>, r: Option<seq<byte>>)
    ensures Prepend(a, Prepend(b, r)) == Prepend(a + b, r)
  {
    if r.Some? { assert a + (b + r.value) == a + b + r.value; }
  }

  /** The number, and what is left of the zeros. */
  lemma {:induction false} PadIsNumberAndZeros(n: nat)
    requires n < SIZE_LIMIT
    ensures |VintEncode(n)| <= VINT_MAX_BYTES
    ensures PadVint(n) == VintEncode(n) + Zeros(VINT_MAX_BYTES)[|VintEncode(n)|..]
  {
    VintFits(n);
    hide VintEncode;
    assert PadVint(n) == VintEncode(n) + Zeros(VINT_MAX_BYTES)[|VintEncode(n)|..];
  }

  lemma Overwrite(before: seq<byte>, e: seq<byte>, zeros: seq<byte>, payload: seq<byte>)
    requires |e| <= |zeros|
    ensures var reserved := before + zeros + payload;
      reserved[..|before|] == before && reserved[|before| + |e|..] == zeros[|e|..] + payload
  {
  }

  /** Writing the length over the reserved zeros leaves the framed value. */
  lemma {:induction false} PatchedIsFramed(before: seq<byte>, c: Code, payload: seq<byte>)
    requires IsCompound(c) && |payload| < SIZE_LIMIT
    ensures var e := VintEncode(|payload|);
      var reserved := before + Zeros(VINT_MAX_BYTES) + payload;
      |e| <= VINT_MAX_BYTES &&
      reserved[..|before|] + e + reserved[|before| + |e|..] == before + Framed(c, payload, true)
  {
    hide VintEncode, Zeros, PadVint;
    PadIsNumberAndZeros(|payload|);
    var e, zeros := VintEncode(|payload|), Zeros(VINT_MAX_BYTES);
    Overwrite(before, e, zeros, payload);
    assert before + e + (zeros[|e|..] + payload) == before + (e + zeros[|e|..] + payload);
  }

  lemma FramedPayload(c: Code, payload: seq<byte>)
    requires IsCompound(c)
    ensures Framed(c, payload, false) == payload
    ensures |Framed(c, payload, true)| == VINT_MAX_BYTES + |payload|
  {
  }

  /** `adlb_buffer` and the position up to which it is filled.  Growing it beyond `limit`
      fails, as `ADLB_Resize_buf` does when memory runs out. */
  class Buffer {
    var data: seq<byte>
    const limit: nat

    ghost predicate Valid()
      reads this
    {
      |data| <= limit < SIZE_LIMIT
    }

    constructor (limit: nat)
      requires limit < SIZE_LIMIT
      ensures Valid() && data == [] && this.limit == limit
    {
      this.limit := limit;
      data := [];
    }

    method Extend(b: seq<byte>) returns (ok: bool)
      requires Valid()
      modifies this
      ensures Valid()
      ensures ok == (|old(data)| + |b| <= limit)
      ensures data == if ok then old(data) + b else old(data)
    {
      ok := |data| + |b| <= limit;
      if ok { data := data + b; }
    }

    /** `vint_encode_size_t` into the space reserved at `start`. */
    method WriteLength(start: nat, n: nat, ghost c: Code, ghost before: seq<byte>, ghost payload: seq<byte>)
      requires Valid() && IsCompound(c) && |payload| == n && |before| == start
      requires data == before + Zeros(VINT_MAX_BYTES) + payload
      modifies this
      ensures Valid()
      ensures data == before + Framed(c, payload, true)
    {
      hide Framed, VintEncode;
      PatchedIsFramed(before, c, payload);
      FramedPayload(c, payload);
      data := data[..start] + VintEncode(n) + data[start + |VintEncode(n)|..];
    }

    /** `adlb_tclobj_bin_append`. */
    method BinAppend(cd: Codec, types: seq<Code>, pos: nat, v: Value, prefix: bool, canon: bool) returns (ok: bool)
      requires Valid()
      modifies this
      ensures Valid()
      ensures ok == Fits(Append(cd, types, pos, v, prefix, canon), |old(data)|, limit)
      ensures ok ==> data == old(data) + Append(cd, types, pos, v, prefix, canon).value
      decreases |types| - pos, 2, 0
    {
      hide AppendDict, AppendList, VintEncode, Framed;
      if pos >= |types| { return false; }
      var c := types[pos];
      if !IsCompound(c) {
        var b := (cd.pack)(c, TextOf(cd, v));
        if b.None? { return false; }
        ok := Extend(Framed(c, b.value, prefix));
        return;
      }
      ghost var r := if c.CONTAINER? then AppendDict(cd, types, pos + 1, v, canon)
                     else AppendList(cd, types, pos + 1, v, canon);
      if r.Some? { FramedPayload(c, r.value); }
      var start := |data|;
      if prefix {
        ok := Extend(Zeros(VINT_MAX_BYTES));
        if !ok { return; }
      }
      if c.CONTAINER? {
        ok := DictToPacked(cd, types, pos + 1, v, canon);
      } else {
        ok := ListToPacked(cd, types, pos + 1, v, canon);
      }
      if ok && prefix {
        WriteLength(start, |data| - start - VINT_MAX_BYTES, c, old(data), r.value);
      }
    }

    /** `tcl_dict_to_packed_container`. */
    method DictToPacked(cd: Codec, types: seq<Code>, cpos: nat, v: Value, canon: bool) returns (ok: bool)
      requires Valid()
      modifies this
      ensures Valid()
      ensures ok == Fits(AppendDict(cd, types, cpos, v, canon), |old(data)|, limit)
      ensures ok ==> data == old(data) + AppendDict(cd, types, cpos, v, canon).value
      decreases |types| - cpos, 4, 0
    {
      hide AppendEntries, ContainerHeader, Ordered;
      if !v.Dict? || cpos + 2 > |types| { return false; }
      var h := ContainerHeader(|v.entries|, types[cpos], types[cpos + 1]);
      ok := Extend(h);
      if !ok { return; }
      ok := EntriesToPacked(cd, types, cpos + 2, types[cpos], Ordered(v.entries, canon), canon);
    }

    /** Its loop over the entries. */
    method EntriesToPacked(cd: Codec, types: seq<Code>, cpos: nat, key: Code, es: seq<Entry>, canon: bool)
      returns (ok: bool)
      requires Valid() && cpos >= 1
      modifies this
      ensures Valid()
      ensures var r := AppendEntries(cd, types, cpos, key, es, canon);
        ok == Fits(r, |old(data)|, limit) && (ok ==> data == old(data) + r.value)
      decreases |types| - (cpos - 1), 3, 1
    {
      hide Append, AppendEntries, Framed;
      ghost var all := Prepend(data, AppendEntries(cd, types, cpos, key, es, canon));
      FitsWhole(data, AppendEntries(cd, types, cpos, key, es, canon), limit);
      var i := 0;
      assert es[0..] == es;
      while i < |es|
        invariant 0 <= i <= |es| && Valid()
        invariant all == Prepend(data, AppendEntries(cd, types, cpos, key, es[i..], canon))
      {
        EntriesUnfold(cd, types, cpos, key, es, i, canon, data);
        KeyValOverflow(cd, types, cpos, key, es, i, canon, data, limit);
        ok := AppendKeyVal(cd, types, cpos, key, es[i].key, es[i].val, canon);
        if !ok { return; }
        i := i + 1;
      }
      assert es[i..] == [];
      EntriesNil(cd, types, cpos, key, canon, data);
      ok := true;
    }

    /** `tcl_append_key_val`. */
    method AppendKeyVal(cd: Codec, types: seq<Code>, cpos: nat, key: Code, k: Text, v: Value, canon: bool)
      returns (ok: bool)
      requires Valid() && cpos >= 1
      modifies this
      ensures Valid()
      ensures var r := Append(cd, types, cpos - 1, v, true, canon);
        var kf := Framed(key, k + [0], true);
        ok == Fits(Prepend(kf, r), |old(data)|, limit) && (ok ==> data == old(data) + kf + r.value)
      decreases |types| - (cpos - 1), 3, 0
    {
      hide Append, Framed;
      ok := Extend(Framed(key, k + [0], true));
      if !ok { return; }
      ok := BinAppend(cd, types, cpos - 1, v, true, canon);
    }

    /** `tcl_list_to_packed_multiset`. */
    method ListToPacked(cd: Codec, types: seq<Code>, cpos: nat, v: Value, canon: bool) returns (ok: bool)
      requires Valid()
      modifies this
      ensures Valid()
      ensures ok == Fits(AppendList(cd, types, cpos, v, canon), |old(data)|, limit)
      ensures ok ==> data == old(data) + AppendList(cd, types, cpos, v, canon).value
      decreases |types| - cpos, 4, 0
    {
      hide AppendElems, MultisetHeader, OrderedElems;
      if !v.List? || cpos >= |types| { return false; }
      var h := MultisetHeader(|v.elems|, types[cpos]);
      ok := Extend(h);
      if !ok { return; }
      ok := ElemsToPacked(cd, types, cpos + 1, OrderedElems(cd, v.elems, canon), canon);
    }

    /** Its loop over the elements. */
    method ElemsToPacked(cd: Codec, types: seq<Code>, cpos: nat, vs: seq<Value>, canon: bool)
      returns (ok: bool)
      requires Valid() && cpos >= 1
      modifies this
      ensures Valid()
      ensures var r := AppendElems(cd, types, cpos, vs, canon);
        ok == Fits(r, |old(data)|, limit) && (ok ==> data == old(data) + r.value)
      decreases |types| - (cpos - 1), 3, 1
    {
      hide Append, AppendElems;
      ghost var all := Prepend(data, AppendElems(cd, types, cpos, vs, canon));
      FitsWhole(data, AppendElems(cd, types, cpos, vs, canon), limit);
      var i := 0;
      assert vs[0..] == vs;
      while i < |vs|
        invariant 0 <= i <= |vs| && Valid()
        invariant all == Prepend(data, AppendElems(cd, types, cpos, vs[i..], canon))
      {
        ElemsUnfold(cd, types, cpos, vs, i, canon, data);
        ElemOverflow(cd, types, cpos, vs, i, canon, data, limit);
        ok := BinAppend(cd, types, cpos - 1, vs[i], true, canon);
        if !ok { return; }
        i := i + 1;
      }
      assert vs[i..] == [];
      ElemsNil(cd, types, cpos, canon, data);
      ok := true;
    }
  }

  /** Room for what is to come, said of all the bytes. */
  lemma FitsWhole(data: seq<byte>, r: Option<seq<byte>>, limit: nat)
    ensures Fits(r, |data|, limit) <==> Fits(Prepend(data, r), 0, limit)
    ensures r.Some? ==> Prepend(data, r) == Some(data + r.value)
  {
  }

  /** When the next entry does not fit, or cannot be packed, neither can the whole. */
  lemma KeyValOverflow(cd: Codec, types: seq<Code>, cpos: nat, key: Code, es: seq<Entry>, i: nat, canon: bool,
                       data: seq<byte>, limit: nat)
    requires cpos >= 1 && i < |es|
    ensures var r := Append(cd, types, cpos - 1, es[i].val, true, canon);
      var kf := Framed(key, es[i].key + [0], true);
      !Fits(Prepend(kf, r), |data|, limit)
      ==> !Fits(Prepend(data, AppendEntries(cd, types, cpos, key, es[i..], canon)), 0, limit)
  {
  }

  lemma ElemOverflow(cd: Codec, types: seq<Code>, cpos: nat, vs: seq<Value>, i: nat, canon: bool,
                     data: seq<byte>, limit: nat)
    requires cpos >= 1 && i < |vs|
    ensures !Fits(Append(cd, types, cpos - 1, vs[i], true, canon), |data|, limit)
      ==> !Fits(Prepend(data, AppendElems(cd, types, cpos, vs[i..], canon)), 0, limit)
  {
  }

  lemma {:induction false} EntriesNil(cd: Codec, types: seq<Code>, cpos: nat, key: Code, canon: bool, data: seq<byte>)
    requires cpos >= 1
    ensures Prepend(data, AppendEntries(cd, types, cpos, key, [], canon)) == Some(data)
  {
    assert data + [] == data;
  }

  lemma {:induction false} ElemsNil(cd: Codec, types: seq<Code>, cpos: nat, canon: bool, data: seq<byte>)
    requires cpos >= 1
    ensures Prepend(data, AppendElems(cd, types, cpos, [], canon)) == Some(data)
  {
    assert data + [] == data;
  }

  /** What is still to come after entry `i` has been written. */
  lemma {:induction false} EntriesUnfold(cd: Codec, types: seq<Code>, cpos: nat, key: Code, es: seq<Entry>, i: nat, canon: bool,
                      done: seq<byte>)
    requires cpos >= 1 && i < |es|
    ensures var val := Append(cd, types, cpos - 1, es[i].val, true, canon);
      Prepend(done, AppendEntries(cd, types, cpos, key, es[i..], canon)) ==
      if val.None? then None
      else Prepend(done + Framed(key, es[i].key + [0], true) + val.value,
                   AppendEntries(cd, types, cpos, key, es[i + 1..], canon))
  {
    hide Append, Framed;
    assert es[i..][1..] == es[i + 1..];
    var val := Append(cd, types, cpos - 1, es[i].val, true, canon);
    var rest := AppendEntries(cd, types, cpos, key, es[i + 1..], canon);
    if val.Some? && rest.Some? {
      var kf := Framed(key, es[i].key + [0], true);
      assert done + (kf + val.value + rest.value) == done + kf + val.value + rest.value;
    }
  }

  lemma {:induction false} ElemsUnfold(cd: Codec, types: seq<Code>, cpos: nat, vs: seq<Value>, i: nat, canon: bool,
                    done: seq<byte>)
    requires cpos >= 1 && i < |vs|
    ensures var val := Append(cd, types, cpos - 1, vs[i], true, canon);
      Prepend(done, AppendElems(cd, types, cpos, vs[i..], canon)) ==
      if val.None? then None
      else Prepend(done + val.value, AppendElems(cd, types, cpos, vs[i + 1..], canon))
  {
    hide Append;
    assert vs[i..][1..] == vs[i + 1..];
    var val := Append(cd, types, cpos - 1, vs[i], true, canon);
    var rest := AppendElems(cd, types, cpos, vs[i + 1..], canon);
    if val.Some? && rest.Some? { assert done + (val.value + rest.value) == done + val.value + rest.value; }
  }
}
