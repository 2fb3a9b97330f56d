/** Cryptographic primitives as arbitrary functions, hexadecimal text, and collisions.
    Every theorem of the project is stated for all such functions: nothing is assumed of
    SHA-256 beyond its 32-byte output. */
module Crypto {
  import opened Prelude

  type Digest = b: Bytes | |b| == 32 witness seq(32, _ => 0)

  type Sha256 = Bytes -> Digest

  type Hmac = (Bytes, Bytes) -> Digest

  /** Two different inputs with one digest, the first taken from `xs` and the second from `ys`.
      Both sets are always finite sets of inputs that a computation really hashed. */
  ghost predicate Collision(sha: Sha256, xs: set<Bytes>, ys: set<Bytes>) {
    exists x, y :: x in xs && y in ys && x != y && sha(x) == sha(y)
  }

  lemma CollisionMonotone(sha: Sha256, xs: set<Bytes>, ys: set<Bytes>, xs': set<Bytes>, ys': set<Bytes>)
    requires Collision(sha, xs, ys) && xs <= xs' && ys <= ys'
    ensures Collision(sha, xs', ys')
  {
  }

  // ---------- hexadecimal text ----------

  function HexDigit(n: nat): (c: byte)
    requires n < 16
  {
    if n < 10 then 48 + n else 87 + n
  }

  /** Value of a digit character; both letter cases are accepted. */
  function HexValue(c: byte): (v: Option<nat>)
    ensures v.Some? ==> v.value < 16
  {
    if 48 <= c <= 57 then Some(c - 48)
    else if 97 <= c <= 102 then Some(c - 87)
    else if 65 <= c <= 70 then Some(c - 55)
    else None
  }

  function HexEncode(b: Bytes): (s: Str)
    ensures |s| == 2 * |b|
  {
    seq(2 * |b|, i requires 0 <= i < 2 * |b| => HexDigit(if i % 2 == 0 then b[i / 2] / 16 else b[i / 2] % 16))
  }

  function HexDecode(s: Str): (b: Option<Bytes>)
    ensures b.Some? ==> |s| == 2 * |b.value|
  {
    if s == [] then Some([])
    else if |s| == 1 then None
    else match (HexValue(s[0]), HexValue(s[1]), HexDecode(s[2..]))
      case (Some(hi), Some(lo), Some(rest)) => Some([16 * hi + lo] + rest)
      case (_, _, _) => None
  }

  /** Decoding inverts encoding on every byte string. */
  lemma {:induction false} HexRoundTrip(b: Bytes)
    ensures HexDecode(HexEncode(b)) == Some(b)
  {
    if b != [] {
      HexRoundTrip(b[1..]);
      var s := HexEncode(b);
      assert s[2..] == HexEncode(b[1..]);
      assert s[0] == HexDigit(b[0] / 16) && s[1] == HexDigit(b[0] % 16);
      assert HexValue(HexDigit(b[0] / 16)) == Some(b[0] / 16);
      assert HexValue(HexDigit(b[0] % 16)) == Some(b[0] % 16);
      assert [b[0]] + b[1..] == b;
    }
  }

  /** Encoded text consists of digits and lower-case letters. */
  lemma HexIsLowerCase(b: Bytes)
    ensures forall i :: 0 <= i < |HexEncode(b)| ==> 48 <= HexEncode(b)[i] <= 57 || 97 <= HexEncode(b)[i] <= 102
  {
  }

  lemma HexInjective(a: Bytes, b: Bytes)
    requires HexEncode(a) == HexEncode(b)
    ensures a == b
  {
    HexRoundTrip(a);
    HexRoundTrip(b);
  }
}
