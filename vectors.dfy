/**
 * The deterministic fallback embedding both services share: the SHA-256 digest of the
 * text, read byte by byte in a cycle, each byte mapped onto [-1, 1] by `(b / 255) * 2 - 1`.
 * The arithmetic is exact rational arithmetic here; the engine's doubles round it.
 */
module Vectors {
  import opened Js

  type Byte = b: int | 0 <= b < 256

  /** A SHA-256 digest: 32 bytes. */
  type Digest = h: seq<Byte> | |h| == 32 witness seq(32, i => 0)

  /** `(b / 255) * 2 - 1` */
  function ByteValue(b: Byte): (r: real)
    ensures -1.0 <= r <= 1.0
    ensures b == 0 ==> r == -1.0
    ensures b == 255 ==> r == 1.0
  {
    (b as real / 255.0) * 2.0 - 1.0
  }

  /** The byte a vector entry came from. */
  function ByteOf(r: real): real
  {
    (r + 1.0) / 2.0 * 255.0
  }

  /** No two bytes give the same entry: the byte can be read back from its value. */
  lemma ByteValueRoundTrip(b: Byte)
    ensures ByteOf(ByteValue(b)) == b as real
  {
    calc {
      ByteOf(ByteValue(b));
      ((b as real / 255.0) * 2.0 - 1.0 + 1.0) / 2.0 * 255.0;
      (b as real / 255.0) * 255.0;
      b as real;
    }
  }

  /** `new Array(dim).fill(0).map((_, i) => value of hash[i % hash.length])` */
  function Spread(h: Digest, dim: nat): (v: seq<real>)
    ensures |v| == dim
  {
    seq(dim, i requires 0 <= i < dim => ByteValue(h[i % 32]))
  }

  /** Every entry lies in [-1, 1], entry `i` comes from byte `i mod 32`, and the vector
      repeats with period 32. */
  lemma SpreadShape(h: Digest, dim: nat)
    ensures forall i :: 0 <= i < dim ==> -1.0 <= Spread(h, dim)[i] <= 1.0
    ensures forall i :: 0 <= i < dim ==> ByteOf(Spread(h, dim)[i]) == h[i % 32] as real
    ensures forall i :: 0 <= i < dim - 32 ==> Spread(h, dim)[i + 32] == Spread(h, dim)[i]
  {
    forall i | 0 <= i < dim
      ensures ByteOf(Spread(h, dim)[i]) == h[i % 32] as real
    {
      ByteValueRoundTrip(h[i % 32]);
    }
    forall i | 0 <= i < dim - 32
      ensures Spread(h, dim)[i + 32] == Spread(h, dim)[i]
    {
      assert (i + 32) % 32 == i % 32;
    }
  }

  /** Two lengths of the same digest agree on their common prefix. */
  lemma SpreadPrefix(h: Digest, m: nat, n: nat)
    requires m <= n
    ensures Spread(h, m) == Spread(h, n)[..m]
  {
  }

  /** A vector as the JavaScript array of numbers it is returned as. */
  function AsJson(v: seq<real>): (r: Json)
    ensures r.JArr? && |r.items| == |v|
    ensures forall i :: 0 <= i < |v| ==> r.items[i] == JNum(v[i])
  {
    JArr(seq(|v|, i requires 0 <= i < |v| => JNum(v[i])))
  }

  /** The fallback vector of a text value: the digest of `String(text || "")`, spread. */
  function LocalVector(text: Json, dim: nat, sha256: string -> Digest, rt: Runtime): seq<real>
  {
    Spread(sha256(Display(Or(text, JStr("")), rt)), dim)
  }

  /** The fallback vector depends on the text only through `String(text || "")`: two texts
      that print alike (a falsy text prints as "") get the same vector. */
  lemma LocalVectorOfText(a: Json, b: Json, dim: nat, sha256: string -> Digest, rt: Runtime)
    requires Display(Or(a, JStr("")), rt) == Display(Or(b, JStr("")), rt)
    ensures LocalVector(a, dim, sha256, rt) == LocalVector(b, dim, sha256, rt)
    ensures !Truthy(a) ==> LocalVector(a, dim, sha256, rt) == Spread(sha256(""), dim)
  {
  }
}
