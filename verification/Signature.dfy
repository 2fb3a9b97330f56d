/** Conversion of ECDSA signatures between the raw form R || S and DER, for 256-bit curves. */
module Signature {
  import opened Prelude

  /** `Panic`: an index or slice bound is out of range, which ends the program. */
  datatype Conversion = Converted(bytes: Bytes) | InvalidDer | Panic

  // ---------- integers ----------

  /** Drops leading zero bytes that a non-negative INTEGER does not need. */
  function Trim(x: Bytes): (t: Bytes)
    requires x != []
    ensures t != []
  {
    if |x| > 1 && x[0] == 0 && x[1] < 128 then Trim(x[1..]) else x
  }

  /** Content octets of the INTEGER whose big-endian magnitude is `x`. */
  function IntegerOctets(x: Bytes): (v: Bytes)
    requires x != []
  {
    var t := Trim(x);
    if t[0] >= 128 then [0] + t else t
  }

  /** Non-negative, with the first nine bits not all zero: section 8.3 of X.690. */
  predicate CanonicalInteger(v: Bytes) {
    v != [] && v[0] < 128 && (|v| > 1 && v[0] == 0 ==> v[1] >= 128)
  }

  /** The value fits in 256 bits. */
  predicate Fits(v: Bytes) {
    |v| <= 32 || (|v| == 33 && v[0] == 0)
  }

  function Value(x: Bytes): (n: nat) {
    if x == [] then 0 else 256 * Value(x[..|x| - 1]) + x[|x| - 1]
  }

  function Zeros(n: nat): (z: Bytes)
    ensures |z| == n && forall i :: 0 <= i < n ==> z[i] == 0
  {
    seq(n, _ => 0)
  }

  function Strip(x: Bytes): (y: Bytes) {
    if |x| > 32 && x[0] == 0 then x[1..] else x
  }

  function LeftPad(x: Bytes): (y: Bytes)
    requires |x| <= 32
    ensures |y| == 32
  {
    Zeros(32 - |x|) + x
  }

  lemma {:induction false} TrimFacts(x: Bytes)
    requires x != []
    ensures var t := Trim(x);
            && |t| <= |x| && x == Zeros(|x| - |t|) + t
            && (|t| > 1 && t[0] == 0 ==> t[1] >= 128)
            && (|t| < |x| ==> t[0] < 128)
  {
    if |x| > 1 && x[0] == 0 && x[1] < 128 {
      TrimFacts(x[1..]);
      var t := Trim(x[1..]);
      assert x == [0] + x[1..];
      assert Zeros(|x| - |t|) == [0] + Zeros(|x| - 1 - |t|);
    } else {
      assert Zeros(0) + x == x;
    }
  }

  /** The emitted octets are canonical, fit, and lose nothing of a 32-byte number. */
  lemma IntegerOctetsCanonical(x: Bytes)
    requires |x| == 32
    ensures var v := IntegerOctets(x);
            CanonicalInteger(v) && Fits(v) && |v| <= 33 && |Strip(v)| <= 32 && LeftPad(Strip(v)) == x
  {
    TrimFacts(x);
    var t, v := Trim(x), IntegerOctets(x);
    if t[0] >= 128 {
      assert |t| == 32 && t == x by { assert Zeros(0) + t == t; }
      assert v[1..] == t && Zeros(0) + x == x;
    }
  }

  lemma IntegerOctetsShort(x: Bytes)
    requires |x| == 32
    ensures |IntegerOctets(x)| <= 33
  {
    TrimFacts(x);
  }

  lemma {:induction false} TrimPadded(k: nat, v: Bytes)
    requires CanonicalInteger(v)
    ensures Trim(Zeros(k) + v) == v
  {
    if k == 0 {
      assert Zeros(0) + v == v;
    } else {
      TrimPadded(k - 1, v);
      var x := Zeros(k) + v;
      assert x[1..] == Zeros(k - 1) + v;
      assert x[1] == if k == 1 then v[0] else 0;
    }
  }

  /** The converse: canonical octets come back from the padded number. */
  lemma PaddedIntegerOctets(v: Bytes)
    requires CanonicalInteger(v) && Fits(v)
    ensures |Strip(v)| <= 32 && IntegerOctets(LeftPad(Strip(v))) == v
  {
    if |v| == 33 {
      var y := v[1..];
      assert Strip(v) == y && LeftPad(y) == y by { assert Zeros(0) + y == y; }
      assert v == [0] + y;
    } else {
      TrimPadded(32 - |v|, v);
    }
  }

  lemma {:induction false} LeadingZeroValue(x: Bytes)
    ensures Value([0] + x) == Value(x)
  {
    if x != [] {
      var n := |x| - 1;
      LeadingZeroValue(x[..n]);
      assert ([0] + x)[..n + 1] == [0] + x[..n];
    }
  }

  lemma {:induction false} TrimValue(x: Bytes)
    requires x != []
    ensures Value(Trim(x)) == Value(x)
  {
    if |x| > 1 && x[0] == 0 && x[1] < 128 {
      TrimValue(x[1..]);
      LeadingZeroValue(x[1..]);
      assert x == [0] + x[1..];
    }
  }

  /** The INTEGER has the value of the number it was made from. */
  lemma IntegerOctetsValue(x: Bytes)
    requires x != []
    ensures Value(IntegerOctets(x)) == Value(x)
  {
    TrimValue(x);
    LeadingZeroValue(Trim(x));
  }

  // ---------- signatures ----------

  /** The SEQUENCE of two INTEGERs with content octets `r` and `s`: section 2.2.3 of RFC 3279. */
  function EncodeSig(r: Bytes, s: Bytes): (der: Bytes)
    requires |r| <= 33 && |s| <= 33
  {
    [0x30, 4 + |r| + |s|] + [0x02, |r|] + r + [0x02, |s|] + s
  }

  /** Bytes `at..end` are an INTEGER in DER whose value fits in 256 bits: tag, length, content. */
  predicate IntegerAt(der: Bytes, at: nat, end: nat) {
    && at + 2 <= end <= |der|
    && der[at] == 0x02 && der[at + 1] == end - at - 2
    && CanonicalInteger(der[at + 2..end]) && Fits(der[at + 2..end])
  }

  /** A DER signature: a SEQUENCE whose length byte counts the bytes after it, filled exactly by two
      INTEGERs that fit in 256 bits. */
  predicate CanonicalSig(der: Bytes) {
    && |der| >= 4
    && der[0] == 0x30 && der[1] == |der| - 2
    && var m: nat := 4 + (der[3] as int);
       IntegerAt(der, 2, m) && IntegerAt(der, m, |der|)
  }

  lemma ThreeParts(a: Bytes, b: Bytes, c: Bytes)
    ensures var all := a + b + c; all[..|a|] == a && all[|a|..|a| + |b|] == b && all[|a| + |b|..] == c
  {
  }

  lemma EncodingCanonical(r: Bytes, s: Bytes)
    requires CanonicalInteger(r) && CanonicalInteger(s) && Fits(r) && Fits(s)
    ensures CanonicalSig(EncodeSig(r, s))
  {
    var der, m := EncodeSig(r, s), 4 + |r|;
    var head, second := [0x30, 4 + |r| + |s|] + [0x02, |r|], [0x02, |s|];
    assert der == head + r + (second + s);
    ThreeParts(head, r, second + s);
    assert der[2] == head[2] && der[3] == head[3] && der[4..m] == r;
    var front := head + r + second;
    assert der == front + s + [];
    ThreeParts(front, s, []);
    assert der[m] == front[m] == second[0] && der[m + 1] == front[m + 1] == second[1];
    assert |front| == m + 2 && |der| == m + 2 + |s|;
  }

  lemma CanonicalIsEncoding(der: Bytes) returns (r: Bytes, s: Bytes)
    requires CanonicalSig(der)
    ensures CanonicalInteger(r) && CanonicalInteger(s) && Fits(r) && Fits(s) && der == EncodeSig(r, s)
  {
    var m: nat := 4 + (der[3] as int);
    r, s := der[4..m], der[m + 2..];
    assert der[m + 2..|der|] == s;
    assert der == [der[0], der[1]] + [der[2], der[3]] + r + [der[m], der[m + 1]] + s;
  }

  function RawToDer(raw: Bytes): (der: Bytes)
    ensures |raw| != 64 ==> der == raw
  {
    if |raw| != 64 then raw
    else
      IntegerOctetsShort(raw[..32]);
      IntegerOctetsShort(raw[32..]);
      EncodeSig(IntegerOctets(raw[..32]), IntegerOctets(raw[32..]))
  }

  /** An INTEGER read at `offset`. */
  datatype Field = Field(octets: Bytes, next: nat) | BadTag | OutOfRange

  /** `spare` are the bytes between the length and the capacity of the slice `der`: indexing stops at
      the length, slicing at the capacity. */
  function ReadInteger(der: Bytes, spare: Bytes, offset: nat): (f: Field) {
    if offset >= |der| then OutOfRange
    else if der[offset] != 0x02 then BadTag
    else if offset + 1 >= |der| || offset + 2 + der[offset + 1] > |der + spare| then OutOfRange
    else
      var next := offset + 2 + der[offset + 1];
      Field((der + spare)[offset + 2..next], next)
  }

  function DerToRaw(der: Bytes, spare: Bytes): (c: Conversion) {
    if der == [] || der[0] != 0x30 then Converted(der)
    else
      match ReadInteger(der, spare, 2)
      case OutOfRange => Panic
      case BadTag => InvalidDer
      case Field(r, next) =>
        match ReadInteger(der, spare, next)
        case OutOfRange => Panic
        case BadTag => InvalidDer
        case Field(s, _) =>
          if |Strip(r)| > 32 || |Strip(s)| > 32 then Panic else Converted(LeftPad(Strip(r)) + LeftPad(Strip(s)))
  }

  /** The octets `bytes[at..at + n]` do not fit into 32 bytes after one leading zero is dropped. */
  predicate TooLong(bytes: Bytes, at: nat, n: nat) {
    n > 33 || (n == 33 && (at >= |bytes| || bytes[at] != 0))
  }

  /** The bytes where the second INTEGER is expected stop the program, given the size `n` of the
      first one. */
  predicate SecondStops(der: Bytes, spare: Bytes, n: nat) {
    var q := 4 + n;
    || q >= |der|
    || (&& der[q] == 0x02
        && (|| q + 1 >= |der|
            || q + 2 + der[q + 1] > |der| + |spare|
            || TooLong(der + spare, 4, n)
            || TooLong(der + spare, q + 2, der[q + 1])))
  }

  /** Exactly which inputs stop the program, byte by byte. */
  lemma StopsExactly(der: Bytes, spare: Bytes)
    ensures DerToRaw(der, spare) == Panic <==>
      && der != [] && der[0] == 0x30
      && (|| |der| <= 2
          || (&& der[2] == 0x02
              && (|| |der| == 3
                  || 4 + der[3] > |der| + |spare|
                  || SecondStops(der, spare, der[3]))))
  {
    if |der| > 3 && der[0] == 0x30 && der[2] == 0x02 && 4 + der[3] <= |der| + |spare| {
      var q: nat := 4 + (der[3] as int);
      StripTooLong(der + spare, 4, q);
      if q + 1 < |der| && der[q] == 0x02 && q + 2 + der[q + 1] <= |der| + |spare| {
        StripTooLong(der + spare, q + 2, q + 2 + der[q + 1]);
      }
    }
  }

  /** And which it refuses: a byte other than the INTEGER tag where one must stand. */
  lemma RefusesExactly(der: Bytes, spare: Bytes)
    ensures DerToRaw(der, spare) == InvalidDer <==>
      && |der| > 2 && der[0] == 0x30
      && (|| der[2] != 0x02
          || (&& |der| > 3
              && var q: nat := 4 + (der[3] as int);
                 q < |der| && der[q] != 0x02))
  {
  }

  lemma {:induction false} PaddedValue(k: nat, x: Bytes)
    ensures Value(Zeros(k) + x) == Value(x)
  {
    if k == 0 {
      assert Zeros(0) + x == x;
    } else {
      PaddedValue(k - 1, x);
      LeadingZeroValue(Zeros(k - 1) + x);
      assert Zeros(k) + x == [0] + (Zeros(k - 1) + x);
    }
  }

  lemma HalfValue(v: Bytes)
    requires |Strip(v)| <= 32
    ensures Value(LeftPad(Strip(v))) == Value(v)
  {
    PaddedValue(32 - |Strip(v)|, Strip(v));
    if Strip(v) != v {
      LeadingZeroValue(Strip(v));
      assert v == [0] + Strip(v);
    }
  }

  /** Whatever else is converted, canonical or not, the two halves have the values of the contents of
      the two INTEGERs. */
  lemma ConversionKeepsValues(der: Bytes, spare: Bytes)
    requires der != [] && der[0] == 0x30 && DerToRaw(der, spare).Converted?
    ensures var raw := DerToRaw(der, spare).bytes;
            && |raw| == 64 && |der| > 3
            && var q: nat := 4 + (der[3] as int);
               && q + 1 < |der| && q + 2 + der[q + 1] <= |der + spare|
               && Value(raw[..32]) == Value((der + spare)[4..q])
               && Value(raw[32..]) == Value((der + spare)[q + 2..q + 2 + der[q + 1]])
  {
    var raw, q: nat := DerToRaw(der, spare).bytes, 4 + (der[3] as int);
    var r, s := (der + spare)[4..q], (der + spare)[q + 2..q + 2 + der[q + 1]];
    assert ReadInteger(der, spare, 2) == Field(r, q) && ReadInteger(der, spare, q).octets == s;
    HalfValue(r);
    HalfValue(s);
    assert raw[..32] == LeftPad(Strip(r)) && raw[32..] == LeftPad(Strip(s));
  }

  lemma StripTooLong(bytes: Bytes, at: nat, next: nat)
    requires at <= next <= |bytes|
    ensures |Strip(bytes[at..next])| > 32 <==> TooLong(bytes, at, next - at)
  {
  }

  lemma ReadIntegerAt(prefix: Bytes, v: Bytes, suffix: Bytes, spare: Bytes)
    requires |v| < 256
    ensures ReadInteger(prefix + [0x02, |v|] + v + suffix, spare, |prefix|) == Field(v, |prefix| + 2 + |v|)
  {
    var der := prefix + [0x02, |v|] + v + suffix;
    assert der[|prefix|] == 0x02 && der[|prefix| + 1] == |v|;
    assert (der + spare)[|prefix| + 2..|prefix| + 2 + |v|] == v;
  }

  lemma FirstField(r: Bytes, s: Bytes, spare: Bytes)
    requires |r| <= 33 && |s| <= 33
    ensures ReadInteger(EncodeSig(r, s), spare, 2) == Field(r, 4 + |r|)
  {
    var head: Bytes := [0x30, 4 + |r| + |s|];
    var rest := [0x02, |s|] + s;
    ReadIntegerAt(head, r, rest, spare);
    assert EncodeSig(r, s) == head + [0x02, |r|] + r + rest;
  }

  lemma SecondField(r: Bytes, s: Bytes, spare: Bytes)
    requires |r| <= 33 && |s| <= 33
    ensures ReadInteger(EncodeSig(r, s), spare, 4 + |r|) == Field(s, 6 + |r| + |s|)
  {
    var head := [0x30, 4 + |r| + |s|] + [0x02, |r|] + r;
    ReadIntegerAt(head, s, [], spare);
    assert EncodeSig(r, s) == head + [0x02, |s|] + s + [];
  }

  lemma DerToRawOfFields(der: Bytes, spare: Bytes, r: Bytes, s: Bytes, next: nat)
    requires der != [] && der[0] == 0x30 && |Strip(r)| <= 32 && |Strip(s)| <= 32
    requires ReadInteger(der, spare, 2) == Field(r, next)
    requires ReadInteger(der, spare, next).Field? && ReadInteger(der, spare, next).octets == s
    ensures DerToRaw(der, spare) == Converted(LeftPad(Strip(r)) + LeftPad(Strip(s)))
  {
  }

  lemma DerToRawOfEncoding(r: Bytes, s: Bytes, spare: Bytes)
    requires |r| <= 33 && |s| <= 33 && |Strip(r)| <= 32 && |Strip(s)| <= 32
    ensures DerToRaw(EncodeSig(r, s), spare) == Converted(LeftPad(Strip(r)) + LeftPad(Strip(s)))
  {
    FirstField(r, s, spare);
    SecondField(r, s, spare);
    DerToRawOfFields(EncodeSig(r, s), spare, r, s, 4 + |r|);
  }

  /** Raw to DER and back, for every 64-byte signature; the DER form is canonical. */
  lemma RawRoundTrip(raw: Bytes, spare: Bytes)
    requires |raw| == 64
    ensures DerToRaw(RawToDer(raw), spare) == Converted(raw) && CanonicalSig(RawToDer(raw))
  {
    var r, s := IntegerOctets(raw[..32]), IntegerOctets(raw[32..]);
    IntegerOctetsCanonical(raw[..32]);
    IntegerOctetsCanonical(raw[32..]);
    DerToRawOfEncoding(r, s, spare);
    assert raw == raw[..32] + raw[32..];
    assert RawToDer(raw) == EncodeSig(r, s);
    EncodingCanonical(r, s);
  }

  /** DER to raw and back: exactly the canonical encodings survive. */
  lemma DerRoundTrip(der: Bytes, spare: Bytes)
    requires der != [] && der[0] == 0x30
    ensures CanonicalSig(der) <==>
      DerToRaw(der, spare).Converted? && |DerToRaw(der, spare).bytes| == 64 && RawToDer(DerToRaw(der, spare).bytes) == der
  {
    if CanonicalSig(der) {
      var r, s := CanonicalIsEncoding(der);
      PaddedIntegerOctets(r);
      PaddedIntegerOctets(s);
      DerToRawOfEncoding(r, s, spare);
      var raw := LeftPad(Strip(r)) + LeftPad(Strip(s));
      assert raw[..32] == LeftPad(Strip(r)) && raw[32..] == LeftPad(Strip(s));
    } else if DerToRaw(der, spare).Converted? && |DerToRaw(der, spare).bytes| == 64 {
      RawRoundTrip(DerToRaw(der, spare).bytes, spare);
    }
  }

  // ---------- the conversions as written ----------

  /** The loop over leading zeros, then a zero in front of a set high bit. */
  method MinimalInteger(x: Bytes) returns (v: Bytes)
    requires x != []
    ensures v == IntegerOctets(x)
  {
    v := x;
    while |v| > 1 && v[0] == 0 && v[1] < 128
      invariant v != [] && Trim(v) == Trim(x)
    {
      v := v[1..];
    }
    if v[0] >= 128 {
      v := [0] + v;
    }
  }

  method ConvertRawToDer(raw: Bytes) returns (der: Bytes)
    ensures der == RawToDer(raw)
  {
    if |raw| != 64 {
      return raw;
    }
    var r := MinimalInteger(raw[..32]);
    var s := MinimalInteger(raw[32..]);
    IntegerOctetsShort(raw[..32]);
    IntegerOctetsShort(raw[32..]);
    var totalLen := 4 + |r| + |s|;
    der := [0x30, totalLen];
    der := der + [0x02, |r|] + r;
    der := der + [0x02, |s|] + s;
  }

  /** A zeroed 32-byte buffer with `x` copied to its end. */
  method PadBuffer(x: Bytes) returns (y: Bytes)
    requires |x| <= 32
    ensures y == LeftPad(x)
  {
    var buffer := new byte[32](_ => 0);
    for i := 0 to |x|
      invariant forall j :: 0 <= j < 32 - |x| ==> buffer[j] == 0
      invariant forall j :: 0 <= j < i ==> buffer[32 - |x| + j] == x[j]
    {
      buffer[32 - |x| + i] := x[i];
    }
    y := buffer[..];
    assert forall j :: 0 <= j < |x| ==> y[32 - |x| + j] == x[j];
    assert y == Zeros(32 - |x|) + x by {
      assert y[32 - |x|..] == x && y[..32 - |x|] == Zeros(32 - |x|);
    }
  }

  method ConvertDerToRaw(der: Bytes, spare: Bytes) returns (c: Conversion)
    ensures c == DerToRaw(der, spare)
  {
    if |der| == 0 || der[0] != 0x30 {
      return Converted(der);
    }
    var offset := 2;
    var first := ReadInteger(der, spare, offset);
    match first
    case OutOfRange => return Panic;
    case BadTag => return InvalidDer;
    case Field(_, next) => offset := next;
    var second := ReadInteger(der, spare, offset);
    match second
    case OutOfRange => return Panic;
    case BadTag => return InvalidDer;
    case Field(_, _) =>
    var r, s := first.octets, second.octets;
    if |r| > 32 && r[0] == 0 {
      r := r[1..];
    }
    if |s| > 32 && s[0] == 0 {
      s := s[1..];
    }
    if |r| > 32 || |s| > 32 {
      return Panic;
    }
    var rPadded := PadBuffer(r);
    var sPadded := PadBuffer(s);
    return Converted(rPadded + sPadded);
  }
}
