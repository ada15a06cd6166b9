/** Bytes, and variable-length integers.  The wire format of `vint_encode_size_t` belongs to
    the ADLB library; any self-delimiting code serves, and groups of seven bits are used. */
module Bytes {
  import opened Options

  type byte = x: nat | x < 256

  /** VINT_MAX_BYTES: enough groups of seven bits for any `size_t`. */
  const VINT_MAX_BYTES: nat := 10

  /** The number of values of a `size_t`. */
  const SIZE_LIMIT: nat := 0x1_0000_0000_0000_0000

  function VintEncode(n: nat): (r: seq<byte>)
    ensures |r| >= 1
  {
    if n < 128 then [n] else [n % 128 + 128] + VintEncode(n / 128)
  }

  /** The number at the start of `b`, and how many bytes it takes. */
  function VintDecode(b: seq<byte>): (r: Option<(nat, nat)>)
    ensures r.Some? ==> 1 <= r.value.1 <= |b|
  {
    if |b| == 0 then None
    else if b[0] < 128 then Some((b[0], 1))
    else match VintDecode(b[1..])
      case None => None
      case Some((n, k)) => Some((b[0] - 128 + 128 * n, k + 1))
  }

  lemma {:induction false} VintRoundTrip(n: nat, rest: seq<byte>)
    ensures VintDecode(VintEncode(n) + rest) == Some((n, |VintEncode(n)|))
  {
    var b := VintEncode(n) + rest;
    if n >= 128 {
      assert b[1..] == VintEncode(n / 128) + rest;
      VintRoundTrip(n / 128, rest);
    }
  }

  function Pow128(k: nat): nat {
    if k == 0 then 1 else 128 * Pow128(k - 1)
  }

  lemma {:induction false} VintLength(n: nat, k: nat)
    requires k >= 1 && n < Pow128(k)
    ensures |VintEncode(n)| <= k
  {
    if n >= 128 {
      assert Pow128(1) == 128;
      assert n / 128 < Pow128(k - 1);
      VintLength(n / 128, k - 1);
    }
  }

  lemma {:induction false} VintFits(n: nat)
    requires n < SIZE_LIMIT
    ensures |VintEncode(n)| <= VINT_MAX_BYTES
  {
    assert Pow128(2) == 16384;
    assert Pow128(4) == 16384 * 16384;
    assert Pow128(6) == 16384 * 16384 * 16384;
    assert Pow128(8) == 16384 * 16384 * 16384 * 16384;
    assert Pow128(10) == 16384 * 16384 * 16384 * 16384 * 16384;
    VintLength(n, 10);
  }

  function Zeros(n: nat): (r: seq<byte>)
    ensures |r| == n && forall i :: 0 <= i < n ==> r[i] == 0
  {
    seq(n, _ => 0)
  }

  /** A length in the space reserved for it: the number, then zeros. */
  function PadVint(n: nat): (r: seq<byte>)
    ensures |r| == VINT_MAX_BYTES
  {
    (VintEncode(n) + Zeros(VINT_MAX_BYTES))[..VINT_MAX_BYTES]
  }

  lemma {:induction false} PadVintRoundTrip(n: nat, rest: seq<byte>)
    requires n < SIZE_LIMIT
    ensures VintDecode(PadVint(n) + rest).Some?
    ensures VintDecode(PadVint(n) + rest).value.0 == n
  {
    VintFits(n);
    var e := VintEncode(n);
    var pad := Zeros(VINT_MAX_BYTES - |e|);
    assert PadVint(n) == e + pad;
    assert PadVint(n) + rest == e + (pad + rest);
    VintRoundTrip(n, pad + rest);
  }
}
