/** The commands around the serializer: reading a compound type from the arguments, and
    packing and unpacking a sequence of fields. */
module PackFields {
  import opened Options
  import opened Bytes
  import opened Sorting
  import opened Values
  import opened Pack
  import opened PackRoundTrip
  import opened PackTheorems
  import opened PackBuffer

  /** A command argument: the type its text names, if any, and its value. */
  datatype Arg = Arg(code: Option<Code>, val: Value)

  // ---------------------------------------------------------------- reading a type

  /** `Crash` is the failed assertion of `get_compound_type`. */
  datatype Parsed = Ok(t: Type, next: nat) | Bad | Crash

  /** One type of the grammar at the front of the arguments from `pos` on. */
  function Parse(args: seq<Arg>, pos: nat): (r: Parsed)
    ensures r.Ok? ==> pos < r.next <= |args|
    decreases |args| - pos
  {
    if pos >= |args| || args[pos].code.None? then Bad
    else match args[pos].code.value
      case MULTISET => (match Parse(args, pos + 1)
        case Ok(t, n) => Ok(Multiset(t), n)
        case r => r)
      case CONTAINER =>
        if pos + 1 >= |args| || args[pos + 1].code.None? then Bad
        else if IsCompound(args[pos + 1].code.value) then Crash
        else (match Parse(args, pos + 2)
          case Ok(t, n) => Ok(Container(args[pos + 1].code.value, t), n)
          case r => r)
      case c => Ok(Scalar(c), pos + 1)
  }

  /** The arguments from `pos` on name the codes in order. */
  predicate Names(args: seq<Arg>, pos: nat, codes: seq<Code>) {
    pos + |codes| <= |args| && forall i :: 0 <= i < |codes| ==> args[pos + i].code == Some(codes[i])
  }

  /** Reading inverts flattening, takes exactly the tokens of one type, and finds every type
      there is. */
  lemma {:induction false} ParseIffFlattened(args: seq<Arg>, pos: nat, t: Type, next: nat)
    ensures Parse(args, pos) == Ok(t, next)
            <==> WellFormed(t) && Names(args, pos, Flatten(t)) && next == pos + |Flatten(t)|
    decreases t
  {
    match t {
      case Scalar(c) =>
        if Names(args, pos, Flatten(t)) { assert args[pos + 0].code == Some(Flatten(t)[0]); }
      case Multiset(e) =>
        ParseIffFlattened(args, pos + 1, e, next);
        NamesSplit(args, pos, [MULTISET], Flatten(e));
      case Container(k, w) =>
        ParseIffFlattened(args, pos + 2, w, next);
        NamesSplit(args, pos, [CONTAINER, k], Flatten(w));
    }
  }

  lemma {:induction false} NamesSplit(args: seq<Arg>, pos: nat, a: seq<Code>, b: seq<Code>)
    ensures Names(args, pos, a + b) <==> Names(args, pos, a) && Names(args, pos + |a|, b)
    ensures |a| == 1 ==> (Names(args, pos, a) <==> pos < |args| && args[pos].code == Some(a[0]))
    ensures |a| == 2 ==> (Names(args, pos, a) <==>
      pos + 1 < |args| && args[pos].code == Some(a[0]) && args[pos + 1].code == Some(a[1]))
  {
    if Names(args, pos, a + b) {
      forall i | 0 <= i < |a| ensures args[pos + i].code == Some(a[i]) { assert (a + b)[i] == a[i]; }
      forall i | 0 <= i < |b| ensures args[pos + |a| + i].code == Some(b[i]) {
        assert (a + b)[|a| + i] == b[i];
        assert args[pos + (|a| + i)].code == Some(b[i]);
      }
    }
    if Names(args, pos, a) && |a| >= 1 { assert args[pos + 0].code == Some(a[0]); }
    if Names(args, pos, a) && |a| >= 2 { assert args[pos + 1].code == Some(a[1]); }
    if Names(args, pos, a) && Names(args, pos + |a|, b) {
      forall i | 0 <= i < |a + b| ensures args[pos + i].code == Some((a + b)[i]) {
        if i >= |a| { assert args[pos + |a| + (i - |a|)].code == Some(b[i - |a|]); }
      }
    }
  }

  /** What the loop has still to read, as codes. */
  datatype Tokens = Got(codes: seq<Code>, next: nat) | NoType | Crashed

  function TokensOf(p: Parsed): Tokens {
    match p
    case Ok(t, n) => Got(Flatten(t), n)
    case Bad => NoType
    case Crash => Crashed
  }

  function After(codes: seq<Code>, k: Tokens): Tokens {
    if k.Got? then Got(codes + k.codes, k.next) else k
  }

  function Rest(args: seq<Arg>, pos: nat, need: nat): Tokens {
    if need == 0 then Got([], pos)
    else if need == 1 then TokensOf(Parse(args, pos))
    else if pos >= |args| || args[pos].code.None? then NoType
    else if IsCompound(args[pos].code.value) then Crashed
    else After([args[pos].code.value], TokensOf(Parse(args, pos + 1)))
  }

  lemma RestStep(args: seq<Arg>, pos: nat, need: nat, codes: seq<Code>)
    requires need == 1 || need == 2
    ensures var k := After(codes, Rest(args, pos, need));
      if pos >= |args| || args[pos].code.None? then k == NoType
      else
        var c := args[pos].code.value;
        if IsCompound(c) && need == 2 then k == Crashed
        else
          var need' := if c.CONTAINER? then 2 else if c.MULTISET? then 1 else need - 1;
          k == After(codes + [c], Rest(args, pos + 1, need'))
  {
  }

  /** `get_compound_type`. */
  method GetCompoundType(args: seq<Arg>, start: nat) returns (types: seq<Code>, argpos: nat, status: Parsed)
    ensures var p := Parse(args, start);
      if p.Ok? then status.Ok? && types == Flatten(p.t) && argpos == p.next else status == p
  {
    types := [];
    argpos := start;
    status := Ok(Scalar(INTEGER), 0);
    var need := 1;
    assert After([], Rest(args, start, 1)) == TokensOf(Parse(args, start)) by { AfterNil(TokensOf(Parse(args, start))); }
    while need > 0
      invariant 0 <= need <= 2 && start <= argpos
      invariant TokensOf(Parse(args, start)) == After(types, Rest(args, argpos, need))
      decreases |args| - argpos, need
    {
      hide Parse, Rest;
      RestStep(args, argpos, need, types);
      if argpos >= |args| || args[argpos].code.None? { return types, argpos, Bad; }
      var c := args[argpos].code.value;
      if IsCompound(c) && need != 1 { return types, argpos, Crash; }
      types := types + [c];
      need := if c.CONTAINER? then 2 else if c.MULTISET? then 1 else need - 1;
      argpos := argpos + 1;
    }
    assert types + [] == types;
  }

  lemma AfterNil(k: Tokens)
    ensures After([], k) == k
  {
  }

  // ---------------------------------------------------------------- packing fields

  /** `adlb::xpt_pack`: a type and a value, again and again.  A failed assertion counts as a
      failure here. */
  function PackArgs(cd: Codec, args: seq<Arg>, pos: nat): Option<seq<byte>>
    decreases |args| - pos
  {
    if pos >= |args| then Some([])
    else match Parse(args, pos)
      case Ok(t, n) =>
        if n >= |args| then None
        else
          var b := Append(cd, Flatten(t), 0, args[n].val, true, true);
          if b.None? then None else Prepend(b.value, PackArgs(cd, args, n + 1))
      case _ => None
  }

  /** `adlb::xpt_unpack`: one entry for each type name. */
  function UnpackFields(cd: Codec, codes: seq<Code>, data: seq<byte>, pos: nat): Option<(seq<Result>, nat)> {
    if |codes| == 0 then Some(([], pos))
    else
      match ReadEntry(codes[0], data, pos)
      case None => None
      case Some((b, pos1)) =>
        var r := Unpack(cd, codes[0], b);
        if r.Error? then None
        else match UnpackFields(cd, codes[1..], data, pos1)
          case None => None
          case Some((rs, end)) => Some(([r] + rs, end))
  }

  datatype Field = Field(t: Type, val: Value)

  /** The arguments from `pos` on are these fields, written as type names and values. */
  predicate AreFields(args: seq<Arg>, pos: nat, fields: seq<Field>)
    decreases |fields|
  {
    if |fields| == 0 then pos == |args|
    else
      var n := pos + |Flatten(fields[0].t)|;
      Names(args, pos, Flatten(fields[0].t)) && n < |args| && args[n].val == fields[0].val
      && AreFields(args, n + 1, fields[1..])
  }

  predicate WellTyped(cd: Codec, f: Field) {
    WellFormed(f.t) && HasType(cd, f.t, f.val)
  }

  function Outers(fields: seq<Field>): seq<Code> {
    seq(|fields|, i requires 0 <= i < |fields| => Outer(fields[i].t))
  }

  function Sorted(cd: Codec, fields: seq<Field>): seq<Result> {
    seq(|fields|, i requires 0 <= i < |fields| => Done(Norm(cd, fields[i].t, fields[i].val, true)))
  }

  predicate AllWellTyped(cd: Codec, fields: seq<Field>) {
    forall i :: 0 <= i < |fields| ==> WellTyped(cd, fields[i])
  }

  lemma FirstWellTyped(cd: Codec, fields: seq<Field>)
    requires |fields| > 0 && AllWellTyped(cd, fields)
    ensures WellTyped(cd, fields[0]) && AllWellTyped(cd, fields[1..])
  {
  }

  lemma {:induction false} PackOneField(cd: Codec, args: seq<Arg>, pos: nat, fields: seq<Field>)
    returns (b: seq<byte>, n: nat)
    requires |fields| > 0 && AreFields(args, pos, fields) && WellTyped(cd, fields[0])
    ensures AreFields(args, n, fields[1..])
    ensures PackArgs(cd, args, pos) == Prepend(Framed(Outer(fields[0].t), b, true), PackArgs(cd, args, n))
    ensures |b| < SIZE_LIMIT ==> Unpack(cd, Outer(fields[0].t), b)
                                 == Done(Norm(cd, fields[0].t, fields[0].val, true))
  {
    hide HasType, Norm, Unpack, Framed, Append, Spells, Outer;
    var t, v := fields[0].t, fields[0].val;
    WholeSpells(t);
    AppendSucceeds(cd, Flatten(t), 0, t, v, true, true);
    b := AppendFrames(cd, Flatten(t), 0, t, v, true);
    if |b| < SIZE_LIMIT { UnpackOfAppend(cd, Flatten(t), 0, t, v, true, b); }
    ParseIffFlattened(args, pos, t, pos + |Flatten(t)|);
    n := pos + |Flatten(t)| + 1;
  }

  /** The bytes `r`, standing in `data` at `at`, unpack to the fields. */
  predicate ComeBack(cd: Codec, fields: seq<Field>, data: seq<byte>, at: nat, r: Option<seq<byte>>) {
    r.Some?
    && (|r.value| < SIZE_LIMIT && At(data, at, r.value) ==>
        UnpackFields(cd, Outers(fields), data, at) == Some((Sorted(cd, fields), at + |r.value|)))
  }

  lemma {:induction false} FieldsComeBack(cd: Codec, args: seq<Arg>, pos: nat, fields: seq<Field>,
                                          data: seq<byte>, at: nat)
    requires AreFields(args, pos, fields) && AllWellTyped(cd, fields)
    ensures ComeBack(cd, fields, data, at, PackArgs(cd, args, pos))
    decreases |fields|
  {
    hide *;
    if |fields| == 0 {
      NoFields(cd, args, pos, fields, data, at);
    } else {
      FirstWellTyped(cd, fields);
      var b, n := PackOneField(cd, args, pos, fields);
      FieldsComeBack(cd, args, n, fields[1..], data, at + |Framed(Outer(fields[0].t), b, true)|);
      ConsFields(cd, fields, data, at, b, PackArgs(cd, args, n));
    }
  }

  lemma {:induction false} NoFields(cd: Codec, args: seq<Arg>, pos: nat, fields: seq<Field>, data: seq<byte>, at: nat)
    requires |fields| == 0 && AreFields(args, pos, fields)
    ensures ComeBack(cd, fields, data, at, PackArgs(cd, args, pos))
  {
    assert Outers(fields) == [] && Sorted(cd, fields) == [];
  }

  lemma {:induction false} ConsFields(cd: Codec, fields: seq<Field>, data: seq<byte>, at: nat, b: seq<byte>, rest: Option<seq<byte>>)
    requires |fields| > 0
    requires |b| < SIZE_LIMIT ==>
      Unpack(cd, Outer(fields[0].t), b) == Done(Norm(cd, fields[0].t, fields[0].val, true))
    requires ComeBack(cd, fields[1..], data, at + |Framed(Outer(fields[0].t), b, true)|, rest)
    ensures ComeBack(cd, fields, data, at, Prepend(Framed(Outer(fields[0].t), b, true), rest))
  {
    hide Unpack, Norm, Outer, Framed, At, UnpackFields, Outers, Sorted;
    var c := Outer(fields[0].t);
    var f := Framed(c, b, true);
    if |f + rest.value| < SIZE_LIMIT && At(data, at, f + rest.value) {
      AtParts(data, at, f, rest.value);
      FramedLength(c, b);
      ReadFramed(c, data, at, b);
      OneFieldMore(cd, fields, data, at, b, at + |f|, at + |f| + |rest.value|);
    }
  }

  /** Any sequence of fields, of any types at any depth, comes back from its packed bytes,
      and the unpacker stops exactly at their end. */
  lemma {:induction false} FieldsRoundTrip(cd: Codec, args: seq<Arg>, fields: seq<Field>)
    requires AreFields(args, 0, fields) && AllWellTyped(cd, fields)
    ensures PackArgs(cd, args, 0).Some?
    ensures var b := PackArgs(cd, args, 0).value;
      |b| < SIZE_LIMIT ==> UnpackFields(cd, Outers(fields), b, 0) == Some((Sorted(cd, fields), |b|))
  {
    FieldsComeBack(cd, args, 0, fields, [], 0);
    var b := PackArgs(cd, args, 0).value;
    FieldsComeBack(cd, args, 0, fields, b, 0);
    assert At(b, 0, b);
  }

  lemma {:induction false} OneFieldMore(cd: Codec, fields: seq<Field>, data: seq<byte>, at: nat, b: seq<byte>, next: nat, end: nat)
    requires |fields| > 0 && ReadEntry(Outer(fields[0].t), data, at) == Some((b, next))
    requires Unpack(cd, Outer(fields[0].t), b) == Done(Norm(cd, fields[0].t, fields[0].val, true))
    requires UnpackFields(cd, Outers(fields[1..]), data, next) == Some((Sorted(cd, fields[1..]), end))
    ensures UnpackFields(cd, Outers(fields), data, at) == Some((Sorted(cd, fields), end))
  {
    hide ReadEntry, Unpack, Norm, Outer;
    assert Outers(fields)[1..] == Outers(fields[1..]);
    assert Sorted(cd, fields) == [Done(Norm(cd, fields[0].t, fields[0].val, true))] + Sorted(cd, fields[1..]);
  }

  lemma {:induction false} PackArgsStep(cd: Codec, args: seq<Arg>, pos: nat, done: seq<byte>)
    requires pos < |args|
    ensures var p := Parse(args, pos);
      Prepend(done, PackArgs(cd, args, pos)) ==
      if !p.Ok? || p.next >= |args| then None
      else
        var b := Append(cd, Flatten(p.t), 0, args[p.next].val, true, true);
        if b.None? then None else Prepend(done + b.value, PackArgs(cd, args, p.next + 1))
  {
    hide Parse, Append, Flatten;
    var p := Parse(args, pos);
    if p.Ok? && p.next < |args| {
      var b := Append(cd, Flatten(p.t), 0, args[p.next].val, true, true);
      if b.Some? { PrependTwice(done, b.value, PackArgs(cd, args, p.next + 1)); }
    }
  }

  lemma {:induction false} PackArgsEnd(cd: Codec, args: seq<Arg>, pos: nat, done: seq<byte>)
    requires pos >= |args|
    ensures Prepend(done, PackArgs(cd, args, pos)) == Some(done)
  {
    assert done + [] == done;
  }

  /** The body of its loop: one type and one value. */
  method PackField(packed: Buffer, cd: Codec, args: seq<Arg>, argpos: nat) returns (ok: bool, next: nat)
    requires packed.Valid() && argpos < |args|
    modifies packed
    ensures packed.Valid()
    ensures var all := Prepend(old(packed.data), PackArgs(cd, args, argpos));
      if ok then argpos < next && all == Prepend(packed.data, PackArgs(cd, args, next))
      else !Fits(all, 0, packed.limit)
  {
    hide Parse, Append, PackArgs, Flatten;
    PackArgsStep(cd, args, argpos, packed.data);
    var types, n, status := GetCompoundType(args, argpos);
    if !status.Ok? || n >= |args| { return false, argpos; }
    ok := packed.BinAppend(cd, types, 0, args[n].val, true, true);
    next := n + 1;
  }

  /** `ADLB_Xpt_Pack_Cmd`. */
  method XptPack(cd: Codec, args: seq<Arg>, limit: nat) returns (r: Option<seq<byte>>)
    requires limit < SIZE_LIMIT
    ensures r.Some? ==> r == PackArgs(cd, args, 0)
    ensures r.None? ==> !Fits(PackArgs(cd, args, 0), 0, limit)
  {
    var packed := new Buffer(limit);
    ghost var all := PackArgs(cd, args, 0);
    assert all == Prepend([], all) by { if all.Some? { assert [] + all.value == all.value; } }
    hide PackArgs;
    var argpos := 0;
    while argpos < |args|
      invariant packed.Valid() && fresh(packed) && packed.limit == limit
      invariant all == Prepend(packed.data, PackArgs(cd, args, argpos))
      decreases |args| - argpos
    {
      var ok;
      ok, argpos := PackField(packed, cd, args, argpos);
      if !ok { return None; }
    }
    PackArgsEnd(cd, args, argpos, packed.data);
    r := Some(packed.data);
  }

  // ---------------------------------------------------------------- the unpacking loops

  /** `adlb_datum2tclobj`. */
  method DatumToObj(cd: Codec, c: Code, data: seq<byte>) returns (r: Result)
    ensures r == Unpack(cd, c, data)
    decreases |data|, 2
  {
    hide UnpackEntries, UnpackElems, ReadHeader;
    match c {
      case CONTAINER => r := PackedContainerToDict(cd, data);
      case MULTISET => r := PackedMultisetToList(cd, data);
      case _ =>
        var t := (cd.unpack)(c, data);
        r := if t.None? then Error else Done(Atom(t.value));
    }
  }

  method PackedContainerToDict(cd: Codec, data: seq<byte>) returns (r: Result)
    ensures r == Unpack(cd, CONTAINER, data)
    decreases |data|, 1
  {
    hide ReadHeader, ReadEntry, DictPut;
    var h := ReadHeader(data, 2);
    if h.None? { return Error; }
    var (n, codes, start) := h.value;
    var key, val, pos := codes[0], codes[1], start;
    var dict: seq<Entry> := [];
    for i := 0 to n
      invariant 1 <= pos <= |data|
      invariant Unpack(cd, CONTAINER, data) == UnpackEntries(cd, key, val, data, pos, n - i, dict)
    {
      hide Unpack;
      var k := ReadEntry(key, data, pos);
      if k.None? { return Done(Dict(dict)); }
      var v := ReadEntry(val, data, k.value.1);
      if v.None? { return Done(Dict(dict)); }
      var obj := DatumToObj(cd, val, v.value.0);
      if !obj.Done? { return obj; }
      pos := v.value.1;
      dict := DictPut(dict, KeyText(k.value.0), obj.value);
    }
    r := Done(Dict(dict));
  }

  method PackedMultisetToList(cd: Codec, data: seq<byte>) returns (r: Result)
    ensures r == Unpack(cd, MULTISET, data)
    decreases |data|, 1
  {
    hide ReadHeader, ReadEntry;
    var h := ReadHeader(data, 1);
    if h.None? { return Error; }
    var (n, codes, start) := h.value;
    var elem, pos := codes[0], start;
    var list: seq<Value> := [];
    for i := 0 to n
      invariant 1 <= pos <= |data|
      invariant Unpack(cd, MULTISET, data) == UnpackElems(cd, elem, data, pos, n - i, list)
    {
      hide Unpack;
      var b := ReadEntry(elem, data, pos);
      if b.None? { return Undefined; }
      var obj := DatumToObj(cd, elem, b.value.0);
      if !obj.Done? { return obj; }
      pos := b.value.1;
      list := list + [obj.value];
    }
    r := Done(List(list));
  }

  /** `ADLB_Xpt_Unpack_Cmd`. */
  method XptUnpack(cd: Codec, codes: seq<Code>, data: seq<byte>) returns (r: Option<seq<Result>>)
    ensures var u := UnpackFields(cd, codes, data, 0);
      r == if u.None? then None else Some(u.value.0)
  {
    var pos := 0;
    var vars: seq<Result> := [];
    ghost var all := UnpackFields(cd, codes, data, 0);
    assert codes[0..] == codes;
    assert all == Stored([], all) by { if all.Some? { assert [] + all.value.0 == all.value.0; } }
    for field := 0 to |codes|
      invariant |vars| == field
      invariant all == Stored(vars, UnpackFields(cd, codes[field..], data, pos))
    {
      hide Unpack, ReadEntry;
      assert codes[field..][1..] == codes[field + 1..];
      var b := ReadEntry(codes[field], data, pos);
      if b.None? { return None; }
      var obj := DatumToObj(cd, codes[field], b.value.0);
      if obj.Error? { return None; }
      pos := b.value.1;
      StoredTwice(vars, obj, UnpackFields(cd, codes[field + 1..], data, pos));
      vars := vars + [obj];
    }
    assert vars + [] == vars;
    r := Some(vars);
  }

  function Stored(vars: seq<Result>, r: Option<(seq<Result>, nat)>): Option<(seq<Result>, nat)> {
    match r
    case None => None
    case Some((rs, end)) => Some((vars + rs, end))
  }

  lemma {:induction false} StoredTwice(vars: seq<Result>, x: Result, r: Option<(seq<Result>, nat)>)
    ensures Stored(vars, Stored([x], r)) == Stored(vars + [x], r)
  {
    if r.Some? { assert vars + ([x] + r.value.0) == vars + [x] + r.value.0; }
  }
}
