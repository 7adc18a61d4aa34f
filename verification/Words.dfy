/** 64-bit words as numbers: wrap-around, two's complement, powers and their divisions. */
module Words {
  const TWO63 := 0x8000_0000_0000_0000
  const TWO64 := 0x1_0000_0000_0000_0000

  type U64 = x: int | 0 <= x < TWO64
  type I64 = x: int | -TWO63 <= x < TWO63

  /** int64 arithmetic wraps around. */
  function Wrap64(x: int): (r: I64) { (x + TWO63) % TWO64 - TWO63 }

  /** Reading a word as signed, and a signed number as a word. */
  function ToI64(u: U64): I64 { if u < TWO63 then u else u - TWO64 }
  function ToU64(i: I64): U64 { if i >= 0 then i else i + TWO64 }

  lemma WrapAdd(a: int, x: int)
    ensures Wrap64(a + Wrap64(x)) == Wrap64(a + x)
    ensures Wrap64(Wrap64(a) + x) == Wrap64(a + x)
  {
    WrapIs(x);
    WrapIs(a);
    var k := (x - Wrap64(x)) / TWO64;
    var l := (a - Wrap64(a)) / TWO64;
    WrapShift(a + x, -k);
    WrapShift(a + x, -l);
  }

  lemma WrapIs(x: int)
    ensures (x - Wrap64(x)) % TWO64 == 0
  {}

  lemma WrapShift(x: int, k: int)
    ensures Wrap64(x + k * TWO64) == Wrap64(x)
  {}

  lemma WrapNone(x: I64)
    ensures Wrap64(x) == x
  {}

  // ---- powers ----

  function Pow(b: nat, n: nat): nat { if n == 0 then 1 else b * Pow(b, n - 1) }

  function Pow2(n: nat): nat { Pow(2, n) }
  function Pow10(n: nat): nat { Pow(10, n) }

  lemma {:induction false} PowPositive(b: nat, n: nat)
    requires b > 0
    ensures Pow(b, n) > 0
    decreases n
  {
    if n > 0 { PowPositive(b, n - 1); }
  }

  lemma {:induction false} PowAdd(b: nat, m: nat, n: nat)
    ensures Pow(b, m + n) == Pow(b, m) * Pow(b, n)
    decreases m
  {
    if m > 0 {
      PowAdd(b, m - 1, n);
      assert Pow(b, m + n) == b * Pow(b, m - 1 + n);
      MulAssoc(b, Pow(b, m - 1), Pow(b, n));
    }
  }

  lemma MulAssoc(a: int, b: int, c: int)
    ensures (a * b) * c == a * (b * c)
  {}

  // ---- zig-zag ----

  /** Bitwise exclusive or of two words of w bits. */
  function Xor(a: nat, b: nat, w: nat): nat {
    if w == 0 then 0 else (if a % 2 == b % 2 then 0 else 1) + 2 * Xor(a / 2, b / 2, w - 1)
  }

  lemma {:induction false} XorZeros(a: nat, w: nat)
    requires a < Pow2(w)
    ensures Xor(a, 0, w) == a
    decreases w
  {
    if w > 0 { XorZeros(a / 2, w - 1); }
  }

  lemma {:induction false} XorOnes(a: nat, w: nat)
    requires a < Pow2(w)
    ensures Xor(a, Pow2(w) - 1, w) == Pow2(w) - 1 - a
    decreases w
  {
    if w > 0 {
      assert (Pow2(w) - 1) / 2 == Pow2(w - 1) - 1 && (Pow2(w) - 1) % 2 == 1;
      XorOnes(a / 2, w - 1);
    }
  }

  lemma Pow2Of64()
    ensures Pow2(63) == TWO63 && Pow2(64) == TWO64
  {
    assert Pow2(1) == 2 && Pow2(3) == 8 && Pow2(4) == 16;
    PowAdd(2, 4, 4);
    PowAdd(2, 8, 8);
    PowAdd(2, 16, 16);
    PowAdd(2, 32, 32);
    assert Pow2(64) == 2 * Pow2(63);
  }

  /** Half the word, its bits flipped if the lowest bit of the word is set. */
  function ZigZagDecode(v: U64): I64 {
    Pow2Of64();
    assert Xor(v / 2, ToU64(-(v % 2)), 64) < TWO64 by {
      if v % 2 == 0 { XorZeros(v / 2, 64); } else { XorOnes(v / 2, 64); }
    }
    ToI64(Xor(v / 2, ToU64(-(v % 2)), 64))
  }

  function ZigZag(i: I64): U64 { if i >= 0 then 2 * i else -2 * i - 1 }

  /** Flipping every bit of h gives -h - 1. */
  lemma ZigZagMeaning(v: U64)
    ensures ZigZagDecode(v) == if v % 2 == 0 then v / 2 else -(v / 2) - 1
  {
    Pow2Of64();
    if v % 2 == 0 { XorZeros(v / 2, 64); } else { XorOnes(v / 2, 64); }
  }

  lemma ZigZagRoundTrip(i: I64, v: U64)
    ensures ZigZagDecode(ZigZag(i)) == i
    ensures ZigZag(ZigZagDecode(v)) == v
  {
    hide ZigZagDecode;
    ZigZagMeaning(ZigZag(i));
    ZigZagMeaning(v);
  }

  // ---- division ----

  lemma DivUnique(v: int, d: int, q: int, r: int)
    requires d > 0 && v == d * q + r && 0 <= r < d
    ensures v / d == q && v % d == r
  {
    var q', r' := v / d, v % d;
    assert v == d * q' + r';
    if q < q' { MulMono(d, q + 1, q'); }
    if q' < q { MulMono(d, q' + 1, q); }
  }

  lemma MulMono(d: int, a: int, b: int)
    requires d >= 0 && a <= b
    ensures d * a <= d * b
  {}

  lemma DivDiv(v: nat, b: nat, c: nat)
    requires b > 0 && c > 0
    ensures b * c > 0 && (v / b) / c == v / (b * c)
  {
    var q, r := v / b, v % b;
    var s, t := q / c, q % c;
    assert b * c > 0 by { MulMono(b, 1, c); }
    assert v == b * q + r && q == c * s + t;
    assert b * q == b * (c * s) + b * t;
    MulAssoc(b, c, s);
    MulMono(b, t, c - 1);
    assert b * (c - 1) == b * c - b;
    DivUnique(v, b * c, s, b * t + r);
  }

  /** Digit i of v in base b. */
  function Digit(v: nat, b: nat, i: nat): nat
    requires b > 0
  {
    PowPositive(b, i);
    (v / Pow(b, i)) % b
  }

  /** Little-endian digits in base b, in front of a tail. */
  function Horner(ds: seq<nat>, b: nat, tail: nat): nat {
    if ds == [] then tail else ds[0] + b * Horner(ds[1..], b, tail)
  }

  /** Every digit can be read back. */
  lemma {:induction false} HornerDigit(ds: seq<nat>, b: nat, tail: nat, i: nat)
    requires b > 0 && i < |ds| && forall k :: 0 <= k < |ds| ==> ds[k] < b
    ensures Digit(Horner(ds, b, tail), b, i) == ds[i]
    decreases i
  {
    var v, w := Horner(ds, b, tail), Horner(ds[1..], b, tail);
    DivUnique(v, b, w, ds[0]);
    if i > 0 {
      HornerDigit(ds[1..], b, tail, i - 1);
      PowPositive(b, i - 1);
      DivDiv(v, b, Pow(b, i - 1));
    }
  }

  /** The tail is what is left above the digits. */
  lemma {:induction false} HornerTail(ds: seq<nat>, b: nat, tail: nat)
    requires b > 0 && forall k :: 0 <= k < |ds| ==> ds[k] < b
    ensures Pow(b, |ds|) > 0 && Horner(ds, b, tail) / Pow(b, |ds|) == tail
    decreases |ds|
  {
    PowPositive(b, |ds|);
    if ds != [] {
      var w := Horner(ds[1..], b, tail);
      DivUnique(Horner(ds, b, tail), b, w, ds[0]);
      HornerTail(ds[1..], b, tail);
      PowPositive(b, |ds| - 1);
      DivDiv(Horner(ds, b, tail), b, Pow(b, |ds| - 1));
    }
  }

  lemma {:induction false} PowPow(b: nat, m: nat, n: nat)
    ensures Pow(Pow(b, m), n) == Pow(b, m * n)
    decreases n
  {
    if n > 0 {
      PowPow(b, m, n - 1);
      PowAdd(b, m, m * (n - 1));
      assert m * n == m + m * (n - 1);
    } else {
      assert m * n == 0;
    }
  }
}

/** Integers in byte strings: big-endian words and Go's variable-length encoding. */
module Bytes64 {
  import opened Orders
  import opened Words

  function BigEndian(s: Str): nat {
    if s == [] then 0 else 256 * BigEndian(s[..|s| - 1]) + s[|s| - 1]
  }

  function PutBytes(u: nat, n: nat): (s: Str)
    ensures |s| == n
  {
    if n == 0 then [] else PutBytes(u / 256, n - 1) + [u % 256]
  }

  lemma {:induction false} BigEndianBound(s: Str)
    ensures BigEndian(s) < Pow(256, |s|)
    decreases |s|
  {
    if s != [] { BigEndianBound(s[..|s| - 1]); }
  }

  lemma Pow256Of8()
    ensures Pow(256, 8) == TWO64
  {
    assert Pow(256, 4) == 0x1_0000_0000;
    PowAdd(256, 4, 4);
  }

  /** The word at the start of eight bytes. */
  function Word64(s: Str): U64
    requires |s| == 8
  {
    BigEndianBound(s);
    Pow256Of8();
    BigEndian(s)
  }

  function Put64(u: U64): (s: Str)
    ensures |s| == 8
  {
    PutBytes(u, 8)
  }

  lemma {:induction false} PutBytesRoundTrip(u: nat, n: nat)
    requires u < Pow(256, n)
    ensures BigEndian(PutBytes(u, n)) == u
    decreases n
  {
    if n > 0 {
      PutBytesRoundTrip(u / 256, n - 1);
      assert PutBytes(u, n)[..n - 1] == PutBytes(u / 256, n - 1);
    }
  }

  /** The first byte is the most significant. */
  lemma Word64Meaning(s: Str)
    requires |s| == 8
    ensures Word64(s) == 0x100_0000_0000_0000 * (s[0] as int) + 0x1_0000_0000_0000 * (s[1] as int) + 0x100_0000_0000 * (s[2] as int)
      + 0x1_0000_0000 * (s[3] as int) + 0x100_0000 * (s[4] as int) + 0x1_0000 * (s[5] as int) + 0x100 * (s[6] as int) + s[7]
  {
    hide BigEndian;
    BigEndianUpTo(s, 8);
    BigEndianUpTo(s, 7);
    BigEndianUpTo(s, 6);
    BigEndianUpTo(s, 5);
    BigEndianUpTo(s, 4);
    BigEndianUpTo(s, 3);
    BigEndianUpTo(s, 2);
    BigEndianUpTo(s, 1);
    assert s[..8] == s;
  }

  lemma BigEndianUpTo(s: Str, n: nat)
    requires 0 < n <= |s|
    ensures BigEndian(s[..n]) == 256 * BigEndian(s[..n - 1]) + s[n - 1] && (n == 1 ==> BigEndian(s[..n - 1]) == 0)
  {
    assert s[..n][..n - 1] == s[..n - 1];
  }

  lemma Word64RoundTrip(u: U64)
    ensures Word64(Put64(u)) == u
  {
    Pow256Of8();
    PutBytesRoundTrip(u, 8);
  }

  // ---- variable length ----

  /** What reading a uvarint yields: input too short, more than 64 bits, or a value and the bytes used. */
  datatype Var = Short | Overflow | Got(x: nat, n: nat)

  const MAX_VARINT_LEN := 10

  /** Reading from byte i on. */
  function VarFrom(b: Str, i: nat): Var
    requires i <= |b|
    decreases |b| - i
  {
    if i == |b| then Short
    else if i == MAX_VARINT_LEN then Overflow
    else if b[i] < 0x80 then (if i == MAX_VARINT_LEN - 1 && b[i] > 1 then Overflow else Got(b[i], i + 1))
    else
      match VarFrom(b, i + 1)
      case Got(x, n) => Got(b[i] - 0x80 + 128 * x, n)
      case other => other
  }

  /** The values that fit above the bytes already read. */
  function Room(i: nat): nat
    requires i < MAX_VARINT_LEN
    decreases MAX_VARINT_LEN - i
  {
    if i == MAX_VARINT_LEN - 1 then 2 else 128 * Room(i + 1)
  }

  lemma RoomAtStart()
    ensures Room(0) == TWO64
  {
    assert Room(5) == 2 * 128 * 128 * 128 * 128;
  }

  lemma {:induction false} VarFits(b: Str, i: nat)
    requires i <= |b| && i <= MAX_VARINT_LEN
    ensures VarFrom(b, i).Got? ==> i < VarFrom(b, i).n <= |b| && i < MAX_VARINT_LEN && VarFrom(b, i).x < Room(i)
    decreases |b| - i
  {
    if i < |b| && i < MAX_VARINT_LEN && b[i] >= 0x80 { VarFits(b, i + 1); }
    if i < MAX_VARINT_LEN - 1 { assert Room(i) >= 256 by { RoomMin(i); } }
  }

  lemma {:induction false} RoomMin(i: nat)
    requires i < MAX_VARINT_LEN - 1
    ensures Room(i) >= 256
    decreases MAX_VARINT_LEN - i
  {
    if i < MAX_VARINT_LEN - 2 { RoomMin(i + 1); }
  }

  function Uvarint(b: Str): Var { VarFrom(b, 0) }

  lemma UvarintFits(b: Str)
    ensures Uvarint(b).Got? ==> 0 < Uvarint(b).n <= |b| && Uvarint(b).x < TWO64
  {
    VarFits(b, 0);
    RoomAtStart();
  }

  function LowBits(s: Str): (ds: seq<nat>) { seq(|s|, i requires 0 <= i < |s| => s[i] % 128) }

  /** Bytes i..n-1 ask for more. */
  predicate GoesOn(b: Str, i: nat, n: nat)
    requires n <= |b|
  {
    forall k :: i <= k < n ==> b[k] >= 0x80
  }

  /** Bytes i..n-1 are one number, read least significant first. */
  lemma {:induction false} VarGot(b: Str, i: nat)
    requires i <= |b| && i <= MAX_VARINT_LEN && VarFrom(b, i).Got?
    ensures var Got(x, n) := VarFrom(b, i);
      && i < n <= |b| && n <= MAX_VARINT_LEN && b[n - 1] < 0x80 && (n == MAX_VARINT_LEN ==> b[n - 1] <= 1)
      && GoesOn(b, i, n - 1) && x == Horner(LowBits(b[i..n]), 128, 0)
    decreases |b| - i
  {
    var n := VarFrom(b, i).n;
    if b[i] >= 0x80 {
      VarGot(b, i + 1);
      assert LowBits(b[i..n])[1..] == LowBits(b[i + 1..n]);
    } else {
      assert LowBits(b[i..i + 1]) == [b[i] % 128];
    }
  }

  lemma {:induction false} VarFailed(b: Str, i: nat)
    requires i <= |b| && i <= MAX_VARINT_LEN
    ensures VarFrom(b, i).Short? ==> |b| <= MAX_VARINT_LEN && GoesOn(b, i, |b|)
    ensures VarFrom(b, i).Overflow? ==>
      && |b| >= MAX_VARINT_LEN && GoesOn(b, i, MAX_VARINT_LEN - 1)
      && (|b| > MAX_VARINT_LEN || (i < MAX_VARINT_LEN && 1 < b[MAX_VARINT_LEN - 1] < 0x80))
      && (i < MAX_VARINT_LEN ==> b[MAX_VARINT_LEN - 1] > 1)
    decreases |b| - i
  {
    if i < |b| && i < MAX_VARINT_LEN && b[i] >= 0x80 { VarFailed(b, i + 1); }
  }

  /** A value of n bytes: all but the last have the high bit set, and the low seven bits of byte k are digit k of
      the value in base 128. Ten bytes hold 64 bits, and no value has more. */
  lemma UvarintMeaning(b: Str)
    ensures Uvarint(b).Got? ==>
      var Got(x, n) := Uvarint(b);
      && 0 < n <= |b| && n <= MAX_VARINT_LEN && GoesOn(b, 0, n - 1) && b[n - 1] < 0x80 && (n == MAX_VARINT_LEN ==> b[n - 1] <= 1)
      && (forall k :: 0 <= k < n ==> Digit(x, 128, k) == b[k] % 128) && 0 < Pow(128, n) && x / Pow(128, n) == 0
    ensures Uvarint(b).Short? <==> |b| <= MAX_VARINT_LEN && GoesOn(b, 0, |b|)
    ensures Uvarint(b).Overflow? <==>
      && |b| >= MAX_VARINT_LEN && GoesOn(b, 0, MAX_VARINT_LEN - 1)
      && b[MAX_VARINT_LEN - 1] > 1 && (|b| > MAX_VARINT_LEN || b[MAX_VARINT_LEN - 1] < 0x80)
  {
    hide Horner;
    VarFailed(b, 0);
    if Uvarint(b).Got? {
      VarGot(b, 0);
      var Got(x, n) := Uvarint(b);
      var ds := LowBits(b[0..n]);
      forall k | 0 <= k < n ensures Digit(x, 128, k) == b[k] % 128 { HornerDigit(ds, 128, 0, k); }
      HornerTail(ds, 128, 0);
    }
  }

  /** A value read above `x`, `s` times as significant. */
  function Above(r: Var, x: nat, s: nat): Var {
    match r
    case Got(y, n) => MulNat(s, y); Got(x + s * y, n)
    case other => other
  }

  lemma MulNat(a: nat, b: nat)
    ensures a * b >= 0
  {}

  lemma AboveStep(b: Str, i: nat, x: nat, s: nat)
    requires i < |b| && i < MAX_VARINT_LEN && b[i] >= 0x80
    ensures s * (b[i] - 0x80) >= 0
    ensures Above(VarFrom(b, i), x, s) == Above(VarFrom(b, i + 1), x + s * (b[i] - 0x80), s * 128)
  {
    MulNat(s, b[i] - 0x80);
    match VarFrom(b, i + 1)
    case Got(y, n) => Distribute(s, b[i] - 0x80, y);
    case _ =>
  }

  lemma Distribute(s: nat, d: nat, y: nat)
    ensures s * (d + 128 * y) == s * d + (s * 128) * y
  {}

  /** The reading loop: seven bits a byte, least significant first. */
  method ReadUvarint(b: Str) returns (r: Var)
    ensures r == Uvarint(b)
  {
    var x: nat, s: nat, i: nat := 0, 1, 0;
    while i < |b|
      invariant i <= |b| && i <= MAX_VARINT_LEN
      invariant Uvarint(b) == Above(VarFrom(b, i), x, s)
    {
      if i == MAX_VARINT_LEN { return Overflow; }
      MulNat(s, b[i]);
      if b[i] < 0x80 {
        if i == MAX_VARINT_LEN - 1 && b[i] > 1 { return Overflow; }
        return Got(x + s * b[i], i + 1);
      }
      AboveStep(b, i, x, s);
      x, s := x + s * (b[i] - 0x80), s * 128;
      i := i + 1;
    }
    r := Short;
  }

  function PutUvarint(x: nat): Str {
    if x < 0x80 then [x] else [0x80 + x % 128] + PutUvarint(x / 128)
  }

  lemma {:induction false} VarRoundTrip(p: Str, x: nat, rest: Str)
    requires |p| < MAX_VARINT_LEN && x < Room(|p|)
    ensures VarFrom(p + PutUvarint(x) + rest, |p|) == Got(x, |p| + |PutUvarint(x)|)
    decreases x
  {
    var b := p + PutUvarint(x) + rest;
    if x < 0x80 {
      assert b[|p|] == x;
    } else {
      assert |p| < MAX_VARINT_LEN - 1;
      var q := p + [0x80 + x % 128];
      assert b == q + PutUvarint(x / 128) + rest && b[|p|] == 0x80 + x % 128;
      VarRoundTrip(q, x / 128, rest);
    }
  }

  lemma UvarintRoundTrip(x: U64, rest: Str)
    ensures Uvarint(PutUvarint(x) + rest) == Got(x, |PutUvarint(x)|)
  {
    RoomAtStart();
    VarRoundTrip([], x, rest);
    assert [] + PutUvarint(x) + rest == PutUvarint(x) + rest;
  }
}
