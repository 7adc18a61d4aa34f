/** The InfluxDB 3 sort keys: strings whose byte order is the order of tag tuples and of chunk times. */
module OrderKey {
  import opened Orders
  import opened Values
  import opened Words

  /** A series-key column: a tag value, or NULL. */
  datatype Col = Null | Val(v: Str)

  predicate ColLess(a: Col, b: Col) {
    if a.Null? then b.Val? else b.Val? && StrLess(a.v, b.v)
  }

  /** Column by column, NULL before any value. */
  predicate TupleLess(a: seq<Col>, b: seq<Col>)
    requires |a| == |b|
  {
    a != [] && (ColLess(a[0], b[0]) || (a[0] == b[0] && TupleLess(a[1..], b[1..])))
  }

  // ---- the encoding ----

  function Escaped(s: Str): Str {
    if s == [] then [] else (if s[0] == 0 then [0, 255] else [s[0]]) + Escaped(s[1..])
  }

  function ColBytes(c: Col): Str { if c.Null? then [0] else [1] + Escaped(c.v) + [0] }

  function TupleBytes(vals: seq<Col>): Str {
    if vals == [] then [] else ColBytes(vals[0]) + TupleBytes(vals[1..])
  }

  function HexDigit(d: nat): Byte
    requires d < 16
  {
    if d < 10 then 48 + d else 87 + d
  }

  function HexByte(c: Byte): Str { [HexDigit(c / 16), HexDigit(c % 16)] }

  function Hex(s: Str): Str {
    if s == [] then [] else HexByte(s[0]) + Hex(s[1..])
  }

  function OrderKeyOf(vals: seq<Col>): Str { Hex(TupleBytes(vals)) }

  lemma {:induction false} HexConcat(a: Str, b: Str)
    ensures Hex(a + b) == Hex(a) + Hex(b)
    decreases |a|
  {
    if a == [] {
      assert a + b == b;
    } else {
      assert (a + b)[1..] == a[1..] + b;
      HexConcat(a[1..], b);
    }
  }

  lemma HexOne(c: Byte)
    ensures Hex([c]) == HexByte(c)
  {
    assert [c][1..] == [];
  }

  lemma {:induction false} EscapedConcat(a: Str, b: Str)
    ensures Escaped(a + b) == Escaped(a) + Escaped(b)
    decreases |a|
  {
    if a == [] {
      assert a + b == b;
    } else {
      assert (a + b)[1..] == a[1..] + b;
      EscapedConcat(a[1..], b);
    }
  }

  lemma {:induction false} TupleBytesConcat(a: seq<Col>, b: seq<Col>)
    ensures TupleBytes(a + b) == TupleBytes(a) + TupleBytes(b)
    decreases |a|
  {
    if a == [] {
      assert a + b == b;
    } else {
      assert (a + b)[1..] == a[1..] + b;
      TupleBytesConcat(a[1..], b);
    }
  }

  /** Write one value, byte by byte, each as two hex digits. */
  method AppendValue(b: Str, s: Str) returns (r: Str)
    ensures r == b + Hex([1] + Escaped(s) + [0])
  {
    hide Hex, HexByte;
    r := b + HexByte(1);
    HexOne(1);
    assert Escaped([]) == [];
    assert [1] + Escaped([]) == [1];
    for i := 0 to |s|
      invariant r == b + Hex([1] + Escaped(s[..i]))
    {
      TakeOneMore(s, i);
      EscapedConcat(s[..i], [s[i]]);
      var piece: Str := if s[i] == 0 then [0, 255] else [s[i]];
      assert Escaped([s[i]]) == piece by { assert [s[i]][1..] == []; }
      assert [1] + Escaped(s[..i + 1]) == ([1] + Escaped(s[..i])) + piece;
      HexConcat([1] + Escaped(s[..i]), piece);
      r := r + HexByte(s[i]);
      HexOne(s[i]);
      if s[i] == 0x00 {
        r := r + HexByte(0xFF);
        HexOne(0xFF);
        assert piece == [0] + [255];
        HexConcat([0], [255]);
      }
    }
    TakeAll(s);
    HexConcat([1] + Escaped(s), [0]);
    HexOne(0);
    r := r + HexByte(0x00);
  }

  method BuildOrderKey(vals: seq<Col>) returns (b: Str)
    ensures b == OrderKeyOf(vals)
  {
    hide Hex, HexByte;
    b := [];
    assert TupleBytes([]) == [] && Hex([]) == [] by { HexNone(); }
    for i := 0 to |vals|
      invariant b == Hex(TupleBytes(vals[..i]))
    {
      TakeOneMore(vals, i);
      TupleBytesConcat(vals[..i], [vals[i]]);
      assert TupleBytes([vals[i]]) == ColBytes(vals[i]) by { assert [vals[i]][1..] == []; }
      HexConcat(TupleBytes(vals[..i]), ColBytes(vals[i]));
      if vals[i].Null? {
        b := b + HexByte(0x00);
        HexOne(0);
      } else {
        b := AppendValue(b, vals[i].v);
      }
    }
    TakeAll(vals);
  }

  lemma HexNone()
    ensures Hex([]) == []
  {}

  // ---- order ----

  lemma {:induction false} EqualLengthPrefix(p: Str, q: Str, x: Str, y: Str)
    requires |p| == |q|
    ensures StrLess(p + x, q + y) <==> StrLess(p, q) || (p == q && StrLess(x, y))
    decreases |p|
  {
    if p == [] {
      assert p + x == x && q + y == y;
    } else {
      assert (p + x)[1..] == p[1..] + x && (q + y)[1..] == q[1..] + y;
      EqualLengthPrefix(p[1..], q[1..], x, y);
      assert p == [p[0]] + p[1..] && q == [q[0]] + q[1..];
    }
  }

  lemma HexByteOrder(c: Byte, d: Byte)
    ensures StrLess(HexByte(c), HexByte(d)) <==> c < d
    ensures HexByte(c) == HexByte(d) <==> c == d
  {
    OneByteOrder(HexDigit(c % 16), HexDigit(d % 16));
    OneByteOrder(HexDigit(c / 16), HexDigit(d / 16));
    var a: Str, b: Str := HexByte(c), HexByte(d);
    assert a[1..] == [HexDigit(c % 16)] && b[1..] == [HexDigit(d % 16)];
    assert StrLess(a, b) <==> a[0] < b[0] || (a[0] == b[0] && StrLess(a[1..], b[1..]));
    assert forall i: nat, j: nat :: i < j < 16 ==> HexDigit(i) < HexDigit(j);
  }

  lemma OneByteOrder(c: Byte, d: Byte)
    ensures StrLess([c], [d]) <==> c < d
  {
    assert [c][1..] == [] && [d][1..] == [];
  }

  /** Hex encoding keeps the byte order. */
  lemma {:induction false} HexOrder(a: Str, b: Str)
    ensures StrLess(Hex(a), Hex(b)) <==> StrLess(a, b)
    decreases |a|
  {
    if a != [] && b != [] {
      HexOrder(a[1..], b[1..]);
      HexByteOrder(a[0], b[0]);
      EqualLengthPrefix(HexByte(a[0]), HexByte(b[0]), Hex(a[1..]), Hex(b[1..]));
    }
  }

  /** What may follow a column's bytes: nothing, or the marker of the next column. */
  ghost predicate Follows(x: Str) { x == [] || x[0] <= 1 }

  /** The terminator sorts below every continuation, so a prefix sorts first, NUL bytes included. */
  lemma {:induction false} EscapedOrder(v: Str, w: Str, x: Str, y: Str)
    requires Follows(x) && Follows(y)
    ensures StrLess(Escaped(v) + [0] + x, Escaped(w) + [0] + y) <==> StrLess(v, w) || (v == w && StrLess(x, y))
    decreases |v|
  {
    var a, b := Escaped(v) + [0] + x, Escaped(w) + [0] + y;
    if v == [] && w == [] {
      assert a == [0] + x && b == [0] + y;
      ConsOrder(0, x, 0, y);
    } else if v != [] && w != [] && v[0] == w[0] {
      EscapedOrder(v[1..], w[1..], x, y);
      SameHead(v, w, x, y);
    } else {
      var t, u := a[1..], b[1..];
      assert a == [a[0]] + t && b == [b[0]] + u;
      ConsOrder(a[0], t, b[0], u);
      if v == [] { EndsBefore(x, t, w, u, b, y); } else if w == [] { EndsBefore(y, u, v, t, a, x); }
    }
  }

  lemma SameHead(v: Str, w: Str, x: Str, y: Str)
    requires v != [] && w != [] && v[0] == w[0]
    ensures StrLess(Escaped(v) + [0] + x, Escaped(w) + [0] + y) <==> StrLess(Escaped(v[1..]) + [0] + x, Escaped(w[1..]) + [0] + y)
    ensures StrLess(v, w) <==> StrLess(v[1..], w[1..])
    ensures v == w <==> v[1..] == w[1..]
  {
    hide StrLess, Escaped;
    var h: Str := if v[0] == 0 then [0, 255] else [v[0]];
    EscapedHead(v, x);
    EscapedHead(w, y);
    EqualLengthPrefix(h, h, Escaped(v[1..]) + [0] + x, Escaped(w[1..]) + [0] + y);
    StrTrichotomy(h, h);
    assert v == [v[0]] + v[1..] && w == [w[0]] + w[1..];
    ConsOrder(v[0], v[1..], w[0], w[1..]);
  }

  lemma EscapedHead(v: Str, x: Str)
    requires v != []
    ensures Escaped(v) + [0] + x == (if v[0] == 0 then [0, 255] else [v[0]]) + (Escaped(v[1..]) + [0] + x)
  {}

  /** The terminator and whatever follows sorts below an escaped NUL. */
  lemma EndsBefore(x: Str, t: Str, w: Str, u: Str, b: Str, y: Str)
    requires Follows(x) && t == x && w != [] && b == Escaped(w) + [0] + y && u == b[1..]
    ensures w[0] == 0 ==> b[0] == 0 && StrLess(t, u) && !StrLess(u, t)
    ensures w[0] != 0 ==> b[0] > 0
  {
    if w[0] == 0 { assert u[0] == 255; }
  }

  lemma ColOrder(c: Col, d: Col, x: Str, y: Str)
    requires Follows(x) && Follows(y)
    ensures StrLess(ColBytes(c) + x, ColBytes(d) + y) <==> ColLess(c, d) || (c == d && StrLess(x, y))
  {
    hide Escaped, StrLess;
    var t := if c.Null? then x else Escaped(c.v) + [0] + x;
    var u := if d.Null? then y else Escaped(d.v) + [0] + y;
    var m: Byte, n: Byte := if c.Null? then 0 else 1, if d.Null? then 0 else 1;
    assert ColBytes(c) + x == [m] + t && ColBytes(d) + y == [n] + u;
    ConsOrder(m, t, n, u);
    if c.Val? && d.Val? { EscapedOrder(c.v, d.v, x, y); }
  }

  lemma ConsOrder(c: Byte, x: Str, d: Byte, y: Str)
    ensures StrLess([c] + x, [d] + y) <==> c < d || (c == d && StrLess(x, y))
  {
    assert ([c] + x)[1..] == x && ([d] + y)[1..] == y;
  }

  lemma TupleFollows(vals: seq<Col>)
    ensures Follows(TupleBytes(vals))
  {
    if vals != [] { assert TupleBytes(vals)[0] == ColBytes(vals[0])[0]; }
  }

  lemma {:induction false} TupleOrder(a: seq<Col>, b: seq<Col>)
    requires |a| == |b|
    ensures StrLess(TupleBytes(a), TupleBytes(b)) <==> TupleLess(a, b)
    decreases |a|
  {
    if a != [] {
      TupleFollows(a[1..]);
      TupleFollows(b[1..]);
      ColOrder(a[0], b[0], TupleBytes(a[1..]), TupleBytes(b[1..]));
      TupleOrder(a[1..], b[1..]);
    }
  }

  /** String order of the keys is the tuples' column-wise NULLS-FIRST byte order. */
  lemma OrderKeyEmbeds(a: seq<Col>, b: seq<Col>)
    requires |a| == |b|
    ensures StrLess(OrderKeyOf(a), OrderKeyOf(b)) <==> TupleLess(a, b)
  {
    HexOrder(TupleBytes(a), TupleBytes(b));
    TupleOrder(a, b);
  }

  /** NULL sorts before every value, values sort as strings. */
  predicate ColumnBefore(a: Col, b: Col) { (a.Null? && b.Val?) || (a.Val? && b.Val? && StrLess(a.v, b.v)) }

  lemma {:induction false} TupleMeaning(a: seq<Col>, b: seq<Col>)
    requires |a| == |b|
    ensures TupleLess(a, b) <==> exists k :: 0 <= k < |a| && a[..k] == b[..k] && ColumnBefore(a[k], b[k])
    decreases |a|
  {
    hide StrLess;
    if a != [] {
      var x, y := a[1..], b[1..];
      TupleMeaning(x, y);
      if ColLess(a[0], b[0]) { assert a[..0] == b[..0] && ColumnBefore(a[0], b[0]); }
      if k :| a[0] == b[0] && 0 <= k < |x| && x[..k] == y[..k] && ColumnBefore(x[k], y[k]) {
        assert a[..k + 1] == [a[0]] + x[..k] && b[..k + 1] == [b[0]] + y[..k] && ColumnBefore(a[k + 1], b[k + 1]);
      }
      if k :| 0 < k < |a| && a[..k] == b[..k] && ColumnBefore(a[k], b[k]) {
        assert x[..k - 1] == a[..k][1..] && y[..k - 1] == b[..k][1..] && ColumnBefore(x[k - 1], y[k - 1]);
        assert a[..k][0] == b[..k][0];
      }
    }
  }

  /** The byte order of the keys, read directly: the first column that differs decides, NULL first. */
  lemma OrderKeyMeaning(a: seq<Col>, b: seq<Col>)
    requires |a| == |b|
    ensures StrLess(OrderKeyOf(a), OrderKeyOf(b)) <==> exists k :: 0 <= k < |a| && a[..k] == b[..k] && ColumnBefore(a[k], b[k])
  {
    OrderKeyEmbeds(a, b);
    TupleMeaning(a, b);
  }

  lemma {:induction false} TupleTrichotomy(a: seq<Col>, b: seq<Col>)
    requires |a| == |b|
    ensures TupleLess(a, b) || TupleLess(b, a) || a == b
    ensures !TupleLess(a, a)
    decreases |a|
  {
    if a != [] {
      TupleTrichotomy(a[1..], b[1..]);
      if a[0].Val? { StrTrichotomy(a[0].v, if b[0].Val? then b[0].v else []); }
      assert a == [a[0]] + a[1..] && b == [b[0]] + b[1..];
    }
  }

  /** Different tuples have different keys, embedded NUL bytes and prefixes included. */
  lemma OrderKeyInjective(a: seq<Col>, b: seq<Col>)
    requires |a| == |b| && OrderKeyOf(a) == OrderKeyOf(b)
    ensures a == b
  {
    OrderKeyEmbeds(a, b);
    OrderKeyEmbeds(b, a);
    TupleTrichotomy(a, b);
    StrTrichotomy(OrderKeyOf(a), OrderKeyOf(b));
  }

  // ---- chunk times ----

  /** The last `width` decimal digits of n, zero-padded. */
  function Digits(n: nat, width: nat): (s: Str)
    ensures |s| == width
  {
    if width == 0 then [] else Digits(n / 10, width - 1) + [48 + n % 10]
  }

  lemma {:induction false} DigitsOrder(n: nat, m: nat, width: nat)
    requires n < Pow10(width) && m < Pow10(width)
    ensures StrLess(Digits(n, width), Digits(m, width)) <==> n < m
    ensures Digits(n, width) == Digits(m, width) <==> n == m
    decreases width
  {
    if width > 0 {
      DigitsOrder(n / 10, m / 10, width - 1);
      var p, q: Str := Digits(n / 10, width - 1), Digits(m / 10, width - 1);
      var x: Str, y: Str := [48 + n % 10], [48 + m % 10];
      EqualLengthPrefix(p, q, x, y);
      assert x[1..] == [] && y[1..] == [];
      assert (p + x)[..|p|] == p && (q + y)[..|q|] == q && (p + x)[|p|] == x[0] && (q + y)[|q|] == y[0];
    }
  }

  /** A chunk time, biased by 2^63, in twenty digits. */
  function BucketPrefix(ct: Time): (s: Str)
    ensures |s| == 20
  {
    Digits(ct + 0x8000_0000_0000_0000, 20)
  }

  lemma PrefixOrder(a: Time, b: Time)
    ensures StrLess(BucketPrefix(a), BucketPrefix(b)) <==> a < b
    ensures BucketPrefix(a) == BucketPrefix(b) <==> a == b
  {
    assert Pow10(20) == 100_000_000_000_000_000_000 by { TenToTwenty(); }
    DigitsOrder(a + 0x8000_0000_0000_0000, b + 0x8000_0000_0000_0000, 20);
  }

  lemma TenToTwenty()
    ensures Pow10(20) == 100_000_000_000_000_000_000
  {
    assert Pow10(5) == 100_000;
    assert Pow10(10) == 10_000_000_000;
    assert Pow10(15) == 1_000_000_000_000_000;
  }

  const BAR: Byte := 124

  function FullKey(ct: Time, key: Str): Str { BucketPrefix(ct) + [BAR] + key }

  lemma FullKeyOrder(a: Time, x: Str, b: Time, y: Str)
    ensures StrLess(FullKey(a, x), FullKey(b, y)) <==> a < b || (a == b && StrLess(x, y))
    ensures FullKey(a, x) == FullKey(b, y) <==> a == b && x == y
  {
    var p, q := BucketPrefix(a), BucketPrefix(b);
    PrefixOrder(a, b);
    EqualLengthPrefix(p, q, [BAR] + x, [BAR] + y);
    assert FullKey(a, x) == p + ([BAR] + x) && FullKey(b, y) == q + ([BAR] + y);
    assert ([BAR] + x)[1..] == x && ([BAR] + y)[1..] == y;
    assert FullKey(a, x)[..20] == p && FullKey(b, y)[..20] == q && FullKey(a, x)[21..] == x && FullKey(b, y)[21..] == y;
  }

  /** String order of the full key is (chunk time, tuple) order, for all int64 chunk times. */
  lemma FullKeyEmbeds(a: Time, s: seq<Col>, b: Time, t: seq<Col>)
    requires |s| == |t|
    ensures StrLess(FullKey(a, OrderKeyOf(s)), FullKey(b, OrderKeyOf(t))) <==> a < b || (a == b && TupleLess(s, t))
  {
    FullKeyOrder(a, OrderKeyOf(s), b, OrderKeyOf(t));
    OrderKeyEmbeds(s, t);
  }
}
