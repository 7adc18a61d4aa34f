/** Running sums over 64-bit arithmetic, and words in byte strings: what the two block codecs share. */
module Sums {
  import opened Orders
  import opened Words
  import opened Bytes64

  /** The running sums of ds from acc on, wrapping around. */
  function PrefixSums(acc: I64, ds: seq<int>): seq<I64>
    decreases |ds|
  {
    if ds == [] then [] else [Wrap64(acc + ds[0])] + PrefixSums(Wrap64(acc + ds[0]), ds[1..])
  }

  /** n values from v on, in constant steps. */
  function Steps(v: I64, step: int, n: nat): seq<I64>
    decreases n
  {
    if n == 0 then [] else [v] + Steps(Wrap64(v + step), step, n - 1)
  }

  /** The wrapping differences of vs, the first one to prev. */
  function Deltas(prev: I64, vs: seq<I64>): (ds: seq<I64>)
    ensures |ds| == |vs|
    decreases |vs|
  {
    if vs == [] then [] else [Wrap64(vs[0] - prev)] + Deltas(vs[0], vs[1..])
  }

  /** Running sums undo wrapping differences, for every int64 sequence. */
  lemma {:induction false} SumsOfDeltas(prev: I64, vs: seq<I64>)
    ensures PrefixSums(prev, Deltas(prev, vs)) == vs
    decreases |vs|
  {
    hide Wrap64;
    if vs != [] {
      var d := Wrap64(vs[0] - prev);
      WrapAdd(prev, vs[0] - prev);
      WrapNone(vs[0]);
      assert Deltas(prev, vs)[0] == d && Deltas(prev, vs)[1..] == Deltas(vs[0], vs[1..]);
      SumsOfDeltas(vs[0], vs[1..]);
    }
  }

  lemma {:induction false} DeltaAt(prev: I64, vs: seq<I64>, i: nat)
    requires i < |vs|
    ensures Deltas(prev, vs)[i] == Wrap64(vs[i] - (if i == 0 then prev else vs[i - 1]))
    decreases i
  {
    hide Wrap64;
    if i > 0 { DeltaAt(vs[0], vs[1..], i - 1); }
  }

  /** A sequence with one constant difference is a run of steps. */
  lemma {:induction false} ConstantSteps(vs: seq<I64>, step: int)
    requires vs != [] && forall i :: 0 < i < |vs| ==> Wrap64(vs[i - 1] + step) == vs[i]
    ensures vs == Steps(vs[0], step, |vs|)
    decreases |vs|
  {
    hide Wrap64;
    var t := vs[1..];
    assert vs == [vs[0]] + t;
    if t != [] {
      assert forall i :: 0 < i < |t| ==> t[i - 1] == vs[i] && t[i] == vs[i + 1];
      assert Wrap64(vs[0] + step) == t[0];
      ConstantSteps(t, step);
    } else {
      assert Steps(Wrap64(vs[0] + step), step, 0) == [];
    }
  }

  /** The total of the first n. */
  function Total(ds: seq<int>, n: nat): int
    requires n <= |ds|
  {
    if n == 0 then 0 else Total(ds, n - 1) + ds[n - 1]
  }

  lemma {:induction false} TotalTail(ds: seq<int>, n: nat)
    requires 0 < n <= |ds|
    ensures Total(ds, n) == ds[0] + Total(ds[1..], n - 1)
    decreases n
  {
    if n > 1 { TotalTail(ds, n - 1); }
  }

  /** Value i is the start plus the first i + 1 summands, wrapped around. */
  lemma {:induction false} PrefixSumsMeaning(acc: I64, ds: seq<int>, i: nat)
    requires i < |ds|
    ensures |PrefixSums(acc, ds)| == |ds| && PrefixSums(acc, ds)[i] == Wrap64(acc + Total(ds, i + 1))
    decreases |ds|
  {
    hide Wrap64;
    var next := Wrap64(acc + ds[0]);
    TotalTail(ds, i + 1);
    assert Total(ds[1..], 0) == 0;
    if |ds| > 1 { PrefixSumsMeaning(next, ds[1..], if i > 0 then i - 1 else 0); }
    if i > 0 { WrapAdd(acc + ds[0], Total(ds[1..], i)); }
  }

  /** Value i of a run is first + i * step, wrapped around. */
  lemma {:induction false} StepsMeaning(v: I64, step: int, n: nat, i: nat)
    requires i < n
    ensures |Steps(v, step, n)| == n && Steps(v, step, n)[i] == Wrap64(v + i * step)
    decreases n
  {
    hide Wrap64;
    WrapNone(v);
    if n > 1 { StepsMeaning(Wrap64(v + step), step, n - 1, if i > 0 then i - 1 else 0); }
    if i > 0 {
      WrapAdd(v + step, (i - 1) * step);
      assert v + step + (i - 1) * step == v + i * step;
    }
  }

  method SumUp(acc0: I64, ds: seq<int>) returns (vs: seq<I64>)
    ensures vs == PrefixSums(acc0, ds)
  {
    hide Wrap64, PrefixSums;
    var out := new I64[|ds|](_ => 0);
    var acc: I64 := acc0;
    assert ds[0..] == ds;
    for i := 0 to |ds|
      invariant out[..i] + PrefixSums(acc, ds[i..]) == PrefixSums(acc0, ds)
    {
      PrefixSumsStep(acc, ds, i);
      acc := Wrap64(acc + ds[i]);
      out[i] := acc;
      assert out[..i + 1] == out[..i] + [acc];
    }
    PrefixSumsStep(acc, ds, |ds|);
    assert out[..|ds|] + [] == out[..];
    vs := out[..];
  }

  lemma PrefixSumsStep(acc: I64, ds: seq<int>, i: nat)
    requires i <= |ds|
    ensures PrefixSums(acc, ds[i..]) == if i == |ds| then [] else [Wrap64(acc + ds[i])] + PrefixSums(Wrap64(acc + ds[i]), ds[i + 1..])
  {
    assert i < |ds| ==> ds[i..][1..] == ds[i + 1..];
  }

  method StepUp(v0: I64, step: int, n: nat) returns (vs: seq<I64>)
    ensures vs == Steps(v0, step, n)
  {
    hide Wrap64;
    var out := new I64[n](_ => 0);
    var v: I64 := v0;
    for i := 0 to n
      invariant out[..i] + Steps(v, step, n - i) == Steps(v0, step, n)
    {
      out[i] := v;
      assert out[..i + 1] == out[..i] + [v];
      v := Wrap64(v + step);
    }
    assert out[..n] + [] == out[..];
    vs := out[..];
  }

  // ---- words ----

  /** The big-endian words of a byte string of whole words. */
  function WordsOf(b: Str): (ws: seq<U64>)
    requires |b| % 8 == 0
    ensures |ws| == |b| / 8
  {
    if b == [] then [] else WordsOf(b[..|b| - 8]) + [Word64(b[|b| - 8..])]
  }

  function PutWords(ws: seq<U64>): (b: Str)
    ensures |b| == 8 * |ws|
  {
    if ws == [] then [] else PutWords(ws[..|ws| - 1]) + Put64(ws[|ws| - 1])
  }

  lemma WordsOneMore(b: Str, w: Str)
    requires |b| % 8 == 0 && |w| == 8
    ensures |b + w| % 8 == 0 && WordsOf(b + w) == WordsOf(b) + [Word64(w)]
  {
    hide Word64;
    var c := b + w;
    assert c[..|c| - 8] == b && c[|c| - 8..] == w;
  }

  lemma {:induction false} WordsRoundTrip(ws: seq<U64>)
    ensures WordsOf(PutWords(ws)) == ws
    decreases |ws|
  {
    hide Word64, Put64, WordsOf;
    if ws == [] {
      assert WordsOf([]) == [] by { NoWords(); }
    } else {
      var n := |ws| - 1;
      WordsRoundTrip(ws[..n]);
      Word64RoundTrip(ws[n]);
      WordsOneMore(PutWords(ws[..n]), Put64(ws[n]));
      assert ws == ws[..n] + [ws[n]];
    }
  }

  lemma NoWords()
    ensures WordsOf([]) == []
  {}

  method ReadWords(b: Str) returns (ws: seq<U64>)
    requires |b| % 8 == 0
    ensures ws == WordsOf(b)
  {
    hide Word64, WordsOf;
    ws := [];
    assert b[..0] == [] && WordsOf([]) == [] by { NoWords(); }
    for i := 0 to |b| / 8
      invariant ws == WordsOf(b[..8 * i])
    {
      var w := b[8 * i..8 * i + 8];
      WordsOneMore(b[..8 * i], w);
      assert b[..8 * i] + w == b[..8 * (i + 1)];
      ws := ws + [Word64(w)];
    }
    assert b[..8 * (|b| / 8)] == b;
  }

  /** The outcome of decoding; Crash is a run-time panic. */
  datatype Decoded = Decoded(vs: seq<I64>) | BadEncoding | Crash

  /** A slice of n elements can be allocated: n is within the int range. */
  predicate Allocatable(n: nat) { n < TWO63 }

  /** A first word and whole words behind it. */
  predicate Framed(r: Str) { |r| >= 8 && |r| % 8 == 0 }

  lemma FrameRoundTrip(h: Byte, u: U64, ws: seq<U64>)
    ensures var b := [h] + Put64(u) + PutWords(ws);
      b[0] == h && Framed(b[1..]) && Word64(b[1..][..8]) == u && WordsOf(b[1..][8..]) == ws
  {
    hide Word64, Put64, WordsOf, PutWords;
    var b := [h] + Put64(u) + PutWords(ws);
    Word64RoundTrip(u);
    WordsRoundTrip(ws);
    assert b[1..] == Put64(u) + PutWords(ws);
    assert b[1..][..8] == Put64(u) && b[1..][8..] == PutWords(ws);
  }

  /** The two counts of a run-length block. */
  datatype Rle = NoRle | Rle(first: U64, delta: U64, count: U64)

  function RleOf(r: Str): Rle {
    if |r| < 8 then NoRle
    else
      UvarintFits(r[8..]);
      match Uvarint(r[8..])
      case Got(d, n) =>
        UvarintFits(r[8..][n..]);
        (match Uvarint(r[8..][n..])
         case Got(c, m) => Rle(Word64(r[..8]), d, c)
         case _ => NoRle)
      case _ => NoRle
  }

  function PutRle(h: Byte, first: U64, delta: U64, count: U64): Str {
    [h] + Put64(first) + PutUvarint(delta) + PutUvarint(count)
  }

  lemma RleRoundTrip(h: Byte, first: U64, delta: U64, count: U64)
    ensures var b := PutRle(h, first, delta, count); b != [] && b[0] == h && RleOf(b[1..]) == Rle(first, delta, count)
  {
    hide Word64, Put64, Uvarint, PutUvarint;
    var d, c := PutUvarint(delta), PutUvarint(count);
    var r := PutRle(h, first, delta, count)[1..];
    assert r == Put64(first) + d + c;
    assert r[..8] == Put64(first) && r[8..] == d + c && (d + c)[|d|..] == c && c + [] == c;
    Word64RoundTrip(first);
    UvarintRoundTrip(delta, c);
    UvarintRoundTrip(count, []);
  }

  method ReadRle(r: Str) returns (x: Rle)
    ensures x == RleOf(r)
  {
    if |r| < 8 { return NoRle; }
    UvarintFits(r[8..]);
    var d := ReadUvarint(r[8..]);
    if !d.Got? { return NoRle; }
    UvarintFits(r[8..][d.n..]);
    var c := ReadUvarint(r[8..][d.n..]);
    if !c.Got? { return NoRle; }
    x := Rle(Word64(r[..8]), d.x, c.x);
  }
}

/** Integer blocks: zig-zagged wrapping differences, raw, packed or run-length encoded. */
module IntegerCodec {
  import opened Orders
  import opened Words
  import opened Bytes64
  import opened Simple8b
  import opened Sums

  function UnZig(us: seq<U64>): (ds: seq<int>)
    ensures |ds| == |us|
  {
    seq(|us|, i requires 0 <= i < |us| => ZigZagDecode(us[i]))
  }

  function Zig(ds: seq<I64>): (us: seq<U64>)
    ensures |us| == |ds|
  {
    seq(|ds|, i requires 0 <= i < |ds| => ZigZag(ds[i]))
  }

  lemma UnZigZig(ds: seq<I64>)
    ensures UnZig(Zig(ds)) == ds
  {
    forall i | 0 <= i < |ds| ensures UnZig(Zig(ds))[i] == ds[i] { ZigZagRoundTrip(ds[i], 0); }
  }

  /** What a block decodes to. */
  function IntegersOf(b: Str): Decoded {
    if b == [] then Decoded([])
    else
      var enc, r := b[0] / 16, b[1..];
      if enc == 0 then
        if |r| % 8 != 0 then BadEncoding else Decoded(PrefixSums(0, UnZig(WordsOf(r))))
      else if enc == 1 then
        if !Framed(r) then BadEncoding
        else
          var first := ZigZagDecode(Word64(r[..8]));
          Decoded([first] + PrefixSums(first, UnZig(Unpacked(WordsOf(r[8..])))))
      else if enc == 2 then
        match RleOf(r)
        case NoRle => BadEncoding
        case Rle(first, delta, count) =>
          var n := (count + 1) % TWO64;
          if !Allocatable(n) || n == 0 then Crash else Decoded(Steps(ZigZagDecode(first), ZigZagDecode(delta), n))
      else BadEncoding
  }

  method DecodeIntegers(b: Str) returns (r: Decoded)
    ensures r == IntegersOf(b)
  {
    hide PrefixSums, Steps, WordsOf, Unpacked, RleOf, Word64, ZigZagDecode, UnZig;
    if |b| == 0 { return Decoded([]); }
    var enc, rest := b[0] / 16, b[1..];
    if enc == 0 {
      if |rest| % 8 != 0 { return BadEncoding; }
      var ws := ReadWords(rest);
      var vs := SumUp(0, UnZig(ws));
      r := Decoded(vs);
    } else if enc == 2 {
      var x := ReadRle(rest);
      if x.NoRle? { return BadEncoding; }
      var n := (x.count + 1) % TWO64;
      if !Allocatable(n) { return Crash; }
      if n == 0 { return Crash; } // there is no first element to write to
      var vs := StepUp(ZigZagDecode(x.first), ZigZagDecode(x.delta), n);
      r := Decoded(vs);
    } else if enc == 1 {
      if |rest| < 8 { return BadEncoding; }
      var packed := rest[8..];
      if |packed| % 8 != 0 { return BadEncoding; }
      var ws := ReadWords(packed);
      var raw := DecodeSized(ws);
      var first := ZigZagDecode(Word64(rest[..8]));
      var vs := SumUp(first, UnZig(raw));
      r := Decoded([first] + vs);
    } else {
      r := BadEncoding;
    }
  }

  // ---- a model encoder, and its round trips ----

  function EncodeRaw(vs: seq<I64>): Str { [0x00] + PutWords(Zig(Deltas(0, vs))) }

  /** The differences behind the first value are narrow enough to pack. */
  predicate Packable(vs: seq<I64>) {
    vs != [] && forall i :: 0 <= i < |vs| - 1 ==> Zig(Deltas(vs[0], vs[1..]))[i] < TWO60
  }

  function EncodePacked(vs: seq<I64>): Str
    requires Packable(vs)
  {
    [0x10] + Put64(ZigZag(vs[0])) + PutWords(Pack(Zig(Deltas(vs[0], vs[1..]))))
  }

  function EncodeRle(first: I64, delta: I64, count: U64): Str { PutRle(0x20, ZigZag(first), ZigZag(delta), count) }

  /** The raw form recovers every int64 sequence. */
  lemma RawRoundTrip(vs: seq<I64>)
    ensures EncodeRaw(vs)[0] == 0x00 && IntegersOf(EncodeRaw(vs)) == Decoded(vs)
  {
    hide PrefixSums, WordsOf, PutWords, Deltas, Zig, UnZig;
    var us := Zig(Deltas(0, vs));
    assert EncodeRaw(vs)[1..] == PutWords(us);
    WordsRoundTrip(us);
    UnZigZig(Deltas(0, vs));
    SumsOfDeltas(0, vs);
  }

  /** The packed form recovers every sequence it can represent. */
  lemma PackedRoundTrip(vs: seq<I64>)
    requires Packable(vs)
    ensures EncodePacked(vs)[0] == 0x10 && IntegersOf(EncodePacked(vs)) == Decoded(vs)
  {
    hide PrefixSums, WordsOf, PutWords, Deltas, Unpacked, Pack, Word64, Put64, Zig, UnZig;
    var ds := Deltas(vs[0], vs[1..]);
    FrameRoundTrip(0x10, ZigZag(vs[0]), Pack(Zig(ds)));
    PackRoundTrip(Zig(ds));
    ZigZagRoundTrip(vs[0], 0);
    UnZigZig(ds);
    SumsOfDeltas(vs[0], vs[1..]);
    assert vs == [vs[0]] + vs[1..];
  }

  /** The run-length form recovers every sequence with one constant wrapping difference. */
  lemma RleIntegersRoundTrip(vs: seq<I64>, delta: I64)
    requires 0 < |vs| < TWO63 && forall i :: 0 < i < |vs| ==> Wrap64(vs[i - 1] + delta) == vs[i]
    ensures var b := EncodeRle(vs[0], delta, |vs| - 1); b != [] && b[0] == 0x20 && IntegersOf(b) == Decoded(vs)
  {
    hide Steps, RleOf, PutRle, Wrap64;
    RleRoundTrip(0x20, ZigZag(vs[0]), ZigZag(delta), |vs| - 1);
    ZigZagRoundTrip(vs[0], 0);
    ZigZagRoundTrip(delta, 0);
    ConstantSteps(vs, delta);
  }

  /** Decoding panics exactly when the length count + 1 leaves the int range: the allocation fails, or the
      length wraps around to zero and the first element cannot be written. */
  lemma RleIntegersCrash(first: I64, delta: I64, count: U64)
    ensures IntegersOf(EncodeRle(first, delta, count)).Crash? <==> count + 1 >= TWO63
  {
    hide Steps, RleOf, PutRle;
    RleRoundTrip(0x20, ZigZag(first), ZigZag(delta), count);
  }
}

/** Timestamp blocks: differences (not zig-zagged), divided by a power of ten in the packed and run-length
    forms. */
module TimeCodec {
  import opened Orders
  import opened Words
  import opened Bytes64
  import opened Simple8b
  import opened Sums

  method TenTo(n: nat) returns (v: I64)
    requires n < 16
    ensures v == Pow10(n)
  {
    Pow10Small();
    v := 1;
    for i := 0 to n
      invariant v == Pow10(i)
    {
      v := Wrap64(v * 10);
    }
  }

  lemma Pow10Small()
    ensures forall i: nat :: i < 16 ==> 0 < Pow10(i) <= 1_000_000_000_000_000
  {
    forall i: nat | i < 16 ensures 0 < Pow10(i) <= 1_000_000_000_000_000 { Pow10Grows(i, 15); PowPositive(10, i); }
    assert Pow10(5) == 100_000;
    PowAdd(10, 5, 5);
    PowAdd(10, 10, 5);
  }

  lemma {:induction false} Pow10Grows(i: nat, n: nat)
    requires i <= n
    ensures Pow10(i) <= Pow10(n)
    decreases n
  {
    if i < n { Pow10Grows(i, n - 1); }
  }

  function Signed(us: seq<U64>): (ds: seq<int>)
    ensures |ds| == |us|
  {
    seq(|us|, i requires 0 <= i < |us| => ToI64(us[i]))
  }

  function Scaled(us: seq<U64>, scale: int): (ds: seq<int>)
    ensures |ds| == |us|
  {
    seq(|us|, i requires 0 <= i < |us| => Wrap64(ToI64(us[i]) * scale))
  }

  /** What a block decodes to. */
  function TimesOf(b: Str): Decoded {
    if b == [] then Decoded([])
    else
      var enc, scale, r := b[0] / 16, Pow10(b[0] % 16), b[1..];
      if enc == 0 then
        if |r| % 8 != 0 then BadEncoding else Decoded(PrefixSums(0, Signed(WordsOf(r))))
      else if enc == 1 then
        if !Framed(r) then BadEncoding
        else
          var first := ToI64(Word64(r[..8]));
          Decoded([first] + PrefixSums(first, Scaled(Unpacked(WordsOf(r[8..])), scale)))
      else if enc == 2 then
        match RleOf(r)
        case NoRle => BadEncoding
        case Rle(first, delta, count) =>
          if !Allocatable(count) then Crash else Decoded(Steps(ToI64(first), Wrap64(ToI64(delta) * scale), count))
      else BadEncoding
  }

  method DecodeTimestamps(b: Str) returns (r: Decoded)
    ensures r == TimesOf(b)
  {
    hide PrefixSums, Steps, WordsOf, Unpacked, RleOf, Word64, Pow10, Wrap64;
    if |b| == 0 { return Decoded([]); }
    var enc := b[0] / 16;
    var scale := TenTo(b[0] % 16);
    var rest := b[1..];
    if enc == 0 {
      if |rest| % 8 != 0 { return BadEncoding; }
      var ws := ReadWords(rest);
      var vs := SumUp(0, Signed(ws));
      r := Decoded(vs);
    } else if enc == 2 {
      var x := ReadRle(rest);
      if x.NoRle? { return BadEncoding; }
      if !Allocatable(x.count) { return Crash; }
      var vs := StepUp(ToI64(x.first), Wrap64(ToI64(x.delta) * scale), x.count);
      r := Decoded(vs);
    } else if enc == 1 {
      if |rest| < 8 { return BadEncoding; }
      var packed := rest[8..];
      if |packed| % 8 != 0 { return BadEncoding; }
      var ws := ReadWords(packed);
      var deltas := DecodeSized(ws);
      var first := ToI64(Word64(rest[..8]));
      var vs := SumUp(first, Scaled(deltas, scale));
      r := Decoded([first] + vs);
    } else {
      r := BadEncoding;
    }
  }

  // ---- a model encoder, and its round trips ----

  function Unsigned(ds: seq<I64>): (us: seq<U64>)
    ensures |us| == |ds|
  {
    seq(|ds|, i requires 0 <= i < |ds| => ToU64(ds[i]))
  }

  lemma SignedUnsigned(ds: seq<I64>)
    ensures Signed(Unsigned(ds)) == ds
  {
    forall i | 0 <= i < |ds| ensures Signed(Unsigned(ds))[i] == ds[i] {}
  }

  /** Not scaled, whatever the header's exponent. */
  function EncodeRaw(vs: seq<I64>, e: nat): Str
    requires e < 16
  {
    [e] + PutWords(Unsigned(Deltas(0, vs)))
  }

  lemma RawTimesRoundTrip(vs: seq<I64>, e: nat)
    requires e < 16
    ensures EncodeRaw(vs, e)[0] == e && TimesOf(EncodeRaw(vs, e)) == Decoded(vs)
  {
    hide PrefixSums, WordsOf, PutWords, Deltas, Signed, Unsigned, Pow10;
    var us := Unsigned(Deltas(0, vs));
    assert EncodeRaw(vs, e)[1..] == PutWords(us);
    WordsRoundTrip(us);
    SignedUnsigned(Deltas(0, vs));
    SumsOfDeltas(0, vs);
  }

  /** v and the next value are q units apart, in wrapping arithmetic. */
  predicate Apart(v: I64, next: I64, q: I64, unit: int) { Wrap64(v + q * unit) == next }

  /** qs are the wrapping differences of vs in units of 10^e, small enough to pack. */
  predicate Divides(vs: seq<I64>, e: nat, qs: seq<U64>) {
    && vs != [] && |qs| == |vs| - 1
    && forall i :: 0 <= i < |qs| ==> qs[i] < TWO60 && Apart(vs[i], vs[i + 1], qs[i], Pow10(e))
  }

  function EncodePacked(vs: seq<I64>, e: nat, qs: seq<U64>): Str
    requires e < 16 && Divides(vs, e, qs)
  {
    [0x10 + e] + Put64(ToU64(vs[0])) + PutWords(Pack(qs))
  }

  lemma DividesTail(vs: seq<I64>, e: nat, qs: seq<U64>)
    requires Divides(vs, e, qs) && qs != []
    ensures Divides(vs[1..], e, qs[1..])
  {
    hide Pow10;
    var ws, rs := vs[1..], qs[1..];
    forall i | 0 <= i < |rs| ensures rs[i] < TWO60 && Apart(ws[i], ws[i + 1], rs[i], Pow10(e)) {
      assert rs[i] == qs[i + 1] && ws[i] == vs[i + 1] && ws[i + 1] == vs[i + 1 + 1];
    }
  }

  lemma {:induction false} SumsOfScaled(vs: seq<I64>, e: nat, qs: seq<U64>)
    requires Divides(vs, e, qs)
    ensures [vs[0]] + PrefixSums(vs[0], Scaled(qs, Pow10(e))) == vs
    decreases |qs|
  {
    hide Wrap64, Pow10;
    var ds := Scaled(qs, Pow10(e));
    if qs == [] {
      assert vs == [vs[0]];
    } else {
      WrapAdd(vs[0], qs[0] * Pow10(e));
      assert Apart(vs[0], vs[1], qs[0], Pow10(e));
      assert ds[0] == Wrap64(qs[0] * Pow10(e)) && Wrap64(vs[0] + ds[0]) == vs[1];
      assert ds[1..] == Scaled(qs[1..], Pow10(e));
      DividesTail(vs, e, qs);
      SumsOfScaled(vs[1..], e, qs[1..]);
      assert vs == [vs[0]] + vs[1..];
    }
  }

  /** The packed form recovers every sequence whose differences are multiples of the scale. */
  lemma PackedTimesRoundTrip(vs: seq<I64>, e: nat, qs: seq<U64>)
    requires e < 16 && Divides(vs, e, qs)
    ensures EncodePacked(vs, e, qs)[0] == 0x10 + e && TimesOf(EncodePacked(vs, e, qs)) == Decoded(vs)
  {
    hide PrefixSums, WordsOf, PutWords, Unpacked, Pack, Word64, Put64, Scaled, Pow10;
    FrameRoundTrip(0x10 + e, ToU64(vs[0]), Pack(qs));
    PackRoundTrip(qs);
    SumsOfScaled(vs, e, qs);
  }

  function EncodeRle(first: I64, e: nat, q: I64, count: U64): Str
    requires e < 16
  {
    PutRle(0x20 + e, ToU64(first), ToU64(q), count)
  }

  /** The run-length form recovers every sequence in constant steps of a multiple of the scale, upwards or
      downwards. */
  lemma RleTimesRoundTrip(vs: seq<I64>, e: nat, q: I64)
    requires e < 16 && 0 < |vs| < TWO63
    requires forall i :: 0 < i < |vs| ==> Apart(vs[i - 1], vs[i], q, Pow10(e))
    ensures var b := EncodeRle(vs[0], e, q, |vs|); b != [] && b[0] == 0x20 + e && TimesOf(b) == Decoded(vs)
  {
    hide Steps, RleOf, PutRle, Pow10, Wrap64;
    RleRoundTrip(0x20 + e, ToU64(vs[0]), ToU64(q), |vs|);
    var step: int := Wrap64(q * Pow10(e));
    forall i | 0 < i < |vs| ensures Wrap64(vs[i - 1] + step) == vs[i] {
      WrapAdd(vs[i - 1], q * Pow10(e));
      assert Apart(vs[i - 1], vs[i], q, Pow10(e));
    }
    ConstantSteps(vs, step);
  }

  /** Decoding panics exactly when the count leaves the int range. */
  lemma RleTimesCrash(first: I64, e: nat, q: I64, count: U64)
    requires e < 16
    ensures TimesOf(EncodeRle(first, e, q, count)).Crash? <==> count >= TWO63
  {
    hide Steps, RleOf, PutRle, Pow10, Wrap64;
    RleRoundTrip(0x20 + e, ToU64(first), ToU64(q), count);
  }
}
