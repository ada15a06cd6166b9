/** The compound-type serializer of code/src/tcl/adlb/tcl-adlb.c.  A type is written in
    prefix notation as a flat list of type codes; a packed value describes itself. */
module Pack {
  import opened Options
  import opened Bytes
  import opened Sorting
  import opened Values

  /** The ADLB data types, without `struct`. */
  datatype Code = INTEGER | FLOAT | STRING | BLOB | REF | CONTAINER | MULTISET

  /** `ADLB_pack_pad_size`: the length of the packed form is not known in advance. */
  predicate IsCompound(c: Code) {
    c.CONTAINER? || c.MULTISET?
  }

  function CodeByte(c: Code): byte {
    match c
    case INTEGER => 1 case FLOAT => 2 case STRING => 3 case BLOB => 4
    case REF => 5 case CONTAINER => 6 case MULTISET => 7
  }

  function ByteCode(b: byte): Option<Code> {
    if b == 1 then Some(INTEGER) else if b == 2 then Some(FLOAT) else if b == 3 then Some(STRING)
    else if b == 4 then Some(BLOB) else if b == 5 then Some(REF)
    else if b == 6 then Some(CONTAINER) else if b == 7 then Some(MULTISET) else None
  }

  /** A type of the grammar T = scalar | multiset T | container scalar T. */
  datatype Type =
    | Scalar(code: Code)
    | Multiset(elem: Type)
    | Container(key: Code, val: Type)

  predicate WellFormed(t: Type) {
    match t
    case Scalar(c) => !IsCompound(c)
    case Multiset(e) => WellFormed(e)
    case Container(k, v) => !IsCompound(k) && WellFormed(v)
  }

  function Outer(t: Type): Code {
    match t
    case Scalar(c) => c
    case Multiset(_) => MULTISET
    case Container(_, _) => CONTAINER
  }

  function Flatten(t: Type): (r: seq<Code>)
    ensures |r| > 0 && r[0] == Outer(t)
  {
    match t
    case Scalar(c) => [c]
    case Multiset(e) => [MULTISET] + Flatten(e)
    case Container(k, v) => [CONTAINER, k] + Flatten(v)
  }

  // ---------------------------------------------------------------- values

  /** What the serializer takes from the ADLB library and the Tcl interpreter: packing and
      unpacking of scalars, and the text of a dict or list. */
  datatype Codec = Codec(pack: (Code, Text) -> Option<seq<byte>>,
                         unpack: (Code, seq<byte>) -> Option<Text>,
                         text: Value -> Text)

  function TextOf(cd: Codec, v: Value): Text {
    if v.Atom? then v.text else (cd.text)(v)
  }

  function EntryKey(e: Entry): Text { e.key }

  /** The keys of a dict in the order in which they are packed. */
  function Ordered(es: seq<Entry>, canon: bool): seq<Entry> {
    if canon then Sort(EntryKey, es) else es
  }

  function OrderedElems(cd: Codec, vs: seq<Value>, canon: bool): seq<Value> {
    if canon then Sort(v => TextOf(cd, v), vs) else vs
  }

  // ---------------------------------------------------------------- the packer

  /** A packed value preceded by its length, which for a compound type is written into a
      space reserved before the value is packed. */
  function Framed(c: Code, payload: seq<byte>, prefix: bool): seq<byte> {
    if !prefix then payload
    else (if IsCompound(c) then PadVint(|payload|) else VintEncode(|payload|)) + payload
  }

  /** `adlb_tclobj_bin_append`: pack `v` with the type that starts at `pos` of the flat list.
      The result is `None` when the source returns an error. */
  function Append(cd: Codec, types: seq<Code>, pos: nat, v: Value, prefix: bool, canon: bool): Option<seq<byte>>
    decreases |types| - pos, 2
  {
    if pos >= |types| then None
    else
      var payload :=
        match types[pos]
        case CONTAINER => AppendDict(cd, types, pos + 1, v, canon)
        case MULTISET => AppendList(cd, types, pos + 1, v, canon)
        case c => (cd.pack)(c, TextOf(cd, v));
      if payload.None? then None else Some(Framed(types[pos], payload.value, prefix))
  }

  function ContainerHeader(n: nat, key: Code, val: Code): (r: seq<byte>)
    ensures |r| > 2
  {
    VintEncode(n) + [CodeByte(key), CodeByte(val)]
  }

  function MultisetHeader(n: nat, elem: Code): (r: seq<byte>)
    ensures |r| > 1
  {
    VintEncode(n) + [CodeByte(elem)]
  }

  /** `tcl_dict_to_packed_container`: `cpos` is past the container's own type code. */
  function AppendDict(cd: Codec, types: seq<Code>, cpos: nat, v: Value, canon: bool): Option<seq<byte>>
    decreases |types| - cpos, 4
  {
    if !v.Dict? || cpos + 2 > |types| then None
    else
      var body := AppendEntries(cd, types, cpos + 2, types[cpos], Ordered(v.entries, canon), canon);
      if body.None? then None
      else Some(ContainerHeader(|v.entries|, types[cpos], types[cpos + 1]) + body.value)
  }

  /** `tcl_append_key_val` for each entry; the value type is the one before `cpos`. */
  function AppendEntries(cd: Codec, types: seq<Code>, cpos: nat, key: Code, es: seq<Entry>, canon: bool): Option<seq<byte>>
    requires 1 <= cpos
    decreases |types| - (cpos - 1), 3, |es|
  {
    if |es| == 0 then Some([])
    else
      var val := Append(cd, types, cpos - 1, es[0].val, true, canon);
      var rest := AppendEntries(cd, types, cpos, key, es[1..], canon);
      if val.None? || rest.None? then None
      else Some(Framed(key, es[0].key + [0], true) + val.value + rest.value)
  }

  /** `tcl_list_to_packed_multiset`. */
  function AppendList(cd: Codec, types: seq<Code>, cpos: nat, v: Value, canon: bool): Option<seq<byte>>
    decreases |types| - cpos, 4
  {
    if !v.List? || cpos >= |types| then None
    else
      var body := AppendElems(cd, types, cpos + 1, OrderedElems(cd, v.elems, canon), canon);
      if body.None? then None else Some(MultisetHeader(|v.elems|, types[cpos]) + body.value)
  }

  function AppendElems(cd: Codec, types: seq<Code>, cpos: nat, vs: seq<Value>, canon: bool): Option<seq<byte>>
    requires 1 <= cpos
    decreases |types| - (cpos - 1), 3, |vs|
  {
    if |vs| == 0 then Some([])
    else
      var val := Append(cd, types, cpos - 1, vs[0], true, canon);
      var rest := AppendElems(cd, types, cpos, vs[1..], canon);
      if val.None? || rest.None? then None else Some(val.value + rest.value)
  }

  // ---------------------------------------------------------------- the unpacker

  /** What an unpacking routine hands back.  `Undefined` is a list with elements that were
      never written, reported as success. */
  datatype Result = Done(value: Value) | Error | Undefined

  /** `ADLB_Unpack_buffer`: the next entry of a buffer and the position after it. */
  function ReadEntry(c: Code, data: seq<byte>, pos: nat): (r: Option<(seq<byte>, nat)>)
    ensures r.Some? ==> pos + |r.value.0| < r.value.1 <= |data|
  {
    if pos > |data| then None
    else match VintDecode(data[pos..])
      case None => None
      case Some((n, k)) =>
        var start := pos + (if IsCompound(c) then VINT_MAX_BYTES else k);
        if start + n > |data| then None else Some((data[start..start + n], start + n))
  }

  /** The text of a key without its terminator. */
  function KeyText(b: seq<byte>): Text {
    if |b| == 0 then [] else b[..|b| - 1]
  }

  /** `Tcl_DictObjPut`. */
  function DictPut(es: seq<Entry>, key: Text, val: Value): seq<Entry> {
    if |es| == 0 then [Entry(key, val)]
    else if es[0].key == key then [Entry(key, val)] + es[1..]
    else [es[0]] + DictPut(es[1..], key, val)
  }

  function ReadHeader(data: seq<byte>, ncodes: nat): (r: Option<(nat, seq<Code>, nat)>)
    requires ncodes <= 2
    ensures r.Some? ==> |r.value.1| == ncodes && 1 <= r.value.2 <= |data|
  {
    match VintDecode(data)
    case None => None
    case Some((n, k)) =>
      if k + ncodes > |data| then None
      else if ncodes == 0 then Some((n, [], k))
      else if ncodes == 1 then
        (var c := ByteCode(data[k]); if c.None? then None else Some((n, [c.value], k + 1)))
      else
        (var c, d := ByteCode(data[k]), ByteCode(data[k + 1]);
         if c.None? || d.None? then None else Some((n, [c.value, d.value], k + 2)))
  }

  /** `adlb_datum2tclobj`. */
  function Unpack(cd: Codec, c: Code, data: seq<byte>): Result
    decreases |data|, 2, 0
  {
    match c
    case CONTAINER =>
      (match ReadHeader(data, 2)
       case None => Error
       case Some((n, codes, pos)) => UnpackEntries(cd, codes[0], codes[1], data, pos, n, []))
    case MULTISET =>
      (match ReadHeader(data, 1)
       case None => Error
       case Some((n, codes, pos)) => UnpackElems(cd, codes[0], data, pos, n, []))
    case _ =>
      (match (cd.unpack)(c, data)
       case None => Error
       case Some(t) => Done(Atom(t)))
  }

  /** The loop of `packed_container_to_dict`.  When an entry cannot be parsed, or when bytes
      are left over, the source jumps to its exit with the return code still set to success,
      and hands back the entries found so far. */
  function UnpackEntries(cd: Codec, key: Code, val: Code, data: seq<byte>, pos: nat, n: nat,
                         dict: seq<Entry>): Result
    requires 1 <= pos <= |data|
    decreases |data|, 1, n
  {
    if n == 0 then Done(Dict(dict))
    else
      match ReadEntry(key, data, pos)
      case None => Done(Dict(dict))
      case Some((k, pos1)) =>
        match ReadEntry(val, data, pos1)
        case None => Done(Dict(dict))
        case Some((b, pos2)) =>
          match Unpack(cd, val, b)
          case Done(v) => UnpackEntries(cd, key, val, data, pos2, n - 1, DictPut(dict, KeyText(k), v))
          case r => r
  }

  /** The loop of `packed_multiset_to_list`.  An entry that cannot be parsed leads to the
      same exit, where a list of `n` elements is built although some were never set. */
  function UnpackElems(cd: Codec, elem: Code, data: seq<byte>, pos: nat, n: nat,
                       list: seq<Value>): Result
    requires 1 <= pos <= |data|
    decreases |data|, 1, n
  {
    if n == 0 then Done(List(list))
    else
      match ReadEntry(elem, data, pos)
      case None => Undefined
      case Some((b, pos1)) =>
        match Unpack(cd, elem, b)
        case Done(v) => UnpackElems(cd, elem, data, pos1, n - 1, list + [v])
        case r => r
  }

  // ---------------------------------------------------------------- well-typed values

  /** `v` is a value of type `t` whose words are the canonical texts of their scalars. */
  predicate HasType(cd: Codec, t: Type, v: Value)
    decreases t
  {
    match t
    case Scalar(c) =>
      v.Atom? && var b := (cd.pack)(c, v.text); b.Some? && (cd.unpack)(c, b.value) == Some(v.text)
    case Multiset(e) => v.List? && forall i :: 0 <= i < |v.elems| ==> HasType(cd, e, v.elems[i])
    case Container(_, w) =>
      v.Dict? && UniqueKeys(v.entries)
      && forall i :: 0 <= i < |v.entries| ==> HasType(cd, w, v.entries[i].val)
  }

  /** The value with its dicts and lists in packing order. */
  function Norm(cd: Codec, t: Type, v: Value, canon: bool): Value
    decreases t
  {
    match t
    case Scalar(_) => v
    case Multiset(e) =>
      if !v.List? then v
      else
        var vs := OrderedElems(cd, v.elems, canon);
        List(seq(|vs|, i requires 0 <= i < |vs| => Norm(cd, e, vs[i], canon)))
    case Container(_, w) =>
      if !v.Dict? then v
      else
        var es := Ordered(v.entries, canon);
        Dict(seq(|es|, i requires 0 <= i < |es| => Entry(es[i].key, Norm(cd, w, es[i].val, canon))))
  }
}
