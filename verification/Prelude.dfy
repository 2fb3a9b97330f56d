/** Shared value types: optional values, results, bytes and strings as UTF-8 bytes. */
module Prelude {

  datatype Option<+T> = None | Some(value: T)

  datatype Result<+T, +E> = Ok(value: T) | Err(error: E)

  type byte = x: int | 0 <= x < 256

  type Bytes = seq<byte>

  /** A Rust `String` is modelled by its UTF-8 bytes, so `as_bytes` is the identity. */
  type Str = Bytes

  function Pow2(k: nat): (p: nat)
    ensures p >= 1
  {
    if k == 0 then 1 else 2 * Pow2(k - 1)
  }

  /** `n.to_le_bytes()` for a 64-bit `n`: eight bytes, least significant first. */
  function LittleEndian(n: nat, width: nat): (b: Bytes)
    ensures |b| == width
  {
    if width == 0 then [] else [n % 256] + LittleEndian(n / 256, width - 1)
  }

  lemma {:induction false} LittleEndianInjective(m: nat, n: nat, width: nat)
    requires m < Pow2(8 * width) && n < Pow2(8 * width) && LittleEndian(m, width) == LittleEndian(n, width)
    ensures m == n
  {
    if width > 0 {
      var a, b := LittleEndian(m, width), LittleEndian(n, width);
      assert m % 256 == a[0] == b[0] == n % 256;
      assert LittleEndian(m / 256, width - 1) == a[1..] && LittleEndian(n / 256, width - 1) == b[1..];
      Pow2Byte(8 * (width - 1));
      LittleEndianInjective(m / 256, n / 256, width - 1);
    }
  }

  lemma Pow2Byte(k: nat)
    ensures Pow2(k + 8) == 256 * Pow2(k)
  {
    assert Pow2(k + 4) == 16 * Pow2(k) by { assert Pow2(k + 2) == 4 * Pow2(k); }
    assert Pow2(k + 6) == 4 * Pow2(k + 4);
  }

  lemma DivByProduct(n: nat, m: nat)
    requires m > 0
    ensures n / 256 / m == n / (256 * m)
  {
    var t, u, r := n / 256 / m, n / 256 % m, n % 256;
    assert n == 256 * (m * t + u) + r;
    assert n == (256 * m) * t + (256 * u + r) && 256 * u + r < 256 * m;
    QuotientIs(n, 256 * m, t, 256 * u + r);
  }

  lemma QuotientIs(n: nat, d: nat, q: nat, r: nat)
    requires n == d * q + r && r < d
    ensures n / d == q
  {
    var x := q - n / d;
    assert x * d == n % d - r;
    assert x >= 1 ==> x * d >= d;
    assert x <= -1 ==> x * d + d <= 0;
  }

  /** Byte `i` is the i-th digit to base 256. */
  lemma {:induction false} LittleEndianDigit(n: nat, width: nat, i: nat)
    requires i < width
    ensures LittleEndian(n, width)[i] == n / Pow2(8 * i) % 256
  {
    if i > 0 {
      LittleEndianDigit(n / 256, width - 1, i - 1);
      Pow2Byte(8 * (i - 1));
      DivByProduct(n, Pow2(8 * (i - 1)));
    }
  }

  function Flatten<T>(xss: seq<seq<T>>): (xs: seq<T>)
  {
    if xss == [] then [] else xss[0] + Flatten(xss[1..])
  }

  lemma Associative<T>(xs: seq<T>, ys: seq<T>, zs: seq<T>)
    ensures xs + (ys + zs) == xs + ys + zs
  {
  }

  lemma {:induction false} FlattenAppend<T>(xss: seq<seq<T>>, yss: seq<seq<T>>)
    ensures Flatten(xss + yss) == Flatten(xss) + Flatten(yss)
  {
    if xss == [] {
      assert xss + yss == yss;
    } else {
      FlattenAppend(xss[1..], yss);
      assert (xss + yss)[1..] == xss[1..] + yss && (xss + yss)[0] == xss[0];
      Associative(xss[0], Flatten(xss[1..]), Flatten(yss));
    }
  }

  /** Exchanging one part shows in the whole exactly when the part changes. */
  lemma FlattenUpdate<T>(xss: seq<seq<T>>, i: nat, ys: seq<T>)
    requires i < |xss|
    ensures Flatten(xss[i := ys]) == Flatten(xss) <==> ys == xss[i]
  {
    FlattenAround(xss, i);
    FlattenAround(xss[i := ys], i);
    assert xss[i := ys][..i] == xss[..i] && xss[i := ys][i + 1..] == xss[i + 1..];
    SameMiddle(Flatten(xss[..i]), ys, xss[i], Flatten(xss[i + 1..]));
  }

  lemma FlattenAround<T>(xss: seq<seq<T>>, i: nat)
    requires i < |xss|
    ensures Flatten(xss) == Flatten(xss[..i]) + xss[i] + Flatten(xss[i + 1..])
  {
    FlattenAppend(xss[..i], xss[i..]);
    assert xss == xss[..i] + xss[i..] && xss[i..][1..] == xss[i + 1..];
    Associative(Flatten(xss[..i]), xss[i], Flatten(xss[i + 1..]));
  }

  lemma SameMiddle<T>(a: seq<T>, x: seq<T>, y: seq<T>, b: seq<T>)
    ensures a + x + b == a + y + b <==> x == y
  {
    if a + x + b == a + y + b {
      assert |x| == |y|;
      assert x == (a + x + b)[|a|..|a| + |x|] && y == (a + y + b)[|a|..|a| + |y|];
    }
  }
}
