/** simple8b: several integers in one 64-bit word. The top four bits select how many and how wide; the
    decoder is the program's; the packer writes words by the format's own table of layouts. */
module Simple8b {
  import opened Values
  import opened Words

  const COUNTS: seq<nat> := [240, 120, 60, 30, 20, 15, 12, 10, 8, 7, 6, 5, 4, 3, 2, 1]
  const WIDTHS: seq<nat> := [0, 0, 1, 2, 3, 4, 5, 6, 7, 8, 10, 12, 15, 20, 30, 60]

  const TWO60 := 0x1000_0000_0000_0000

  function Selector(v: U64): (s: nat)
    ensures s < 16
  {
    v / TWO60
  }

  function Count(v: U64): nat { COUNTS[Selector(v)] }

  /** Value i of a word: shifted down and masked; a run selector holds zeros. */
  function Field(v: U64, i: nat): U64 {
    var w := WIDTHS[Selector(v)];
    if w == 0 then 0
    else
      PowPositive(2, i * w);
      PowPositive(2, w);
      var q := v / Pow2(i * w);
      FieldFits(v, i * w, w);
      q % Pow2(w)
  }

  lemma FieldFits(v: U64, k: nat, w: nat)
    requires Pow2(k) > 0 && Pow2(w) > 0
    ensures 0 <= (v / Pow2(k)) % Pow2(w) < TWO64
  {
    DivAtMost(v, Pow2(k));
    ModAtMost(v / Pow2(k), Pow2(w));
  }

  lemma DivAtMost(v: nat, d: nat)
    requires d > 0
    ensures 0 <= v / d <= v
  {
    var q, r := v / d, v % d;
    assert v == d * q + r;
    if q < 0 { MulMono(d, q, -1); }
    if q >= 0 { assert d * q >= q by { MulMono(q, 1, d); } }
  }

  lemma ModAtMost(v: nat, d: nat)
    requires d > 0
    ensures 0 <= v % d <= v
  {
    DivAtMost(v, d);
    var q, r := v / d, v % d;
    assert v == d * q + r;
    assert d * q >= 0 by { MulMono(d, 0, q); }
  }

  function Fields(v: U64): (vs: seq<U64>) { seq(Count(v), i requires 0 <= i < Count(v) => Field(v, i)) }

  /** Everything the words hold. */
  function Unpacked(ws: seq<U64>): seq<U64> {
    if ws == [] then [] else Unpacked(ws[..|ws| - 1]) + Fields(ws[|ws| - 1])
  }

  function CountAll(ws: seq<U64>): nat {
    if ws == [] then 0 else CountAll(ws[..|ws| - 1]) + Count(ws[|ws| - 1])
  }

  lemma {:induction false} UnpackedLength(ws: seq<U64>)
    ensures |Unpacked(ws)| == CountAll(ws)
    decreases |ws|
  {
    if ws != [] { UnpackedLength(ws[..|ws| - 1]); }
  }

  /** Write one word's values from position j on, as far as they fit. */
  method DecodeWord(dst: array<U64>, j0: nat, v: U64) returns (j: nat, ok: bool)
    requires j0 <= dst.Length
    modifies dst
    ensures ok <==> j0 + Count(v) <= dst.Length
    ensures j == if ok then j0 + Count(v) else dst.Length
    ensures dst[..j] == old(dst[..j0]) + Fields(v)[..j - j0]
  {
    hide Field, Selector;
    var n := Count(v);
    j := j0;
    var i := 0;
    while i < n
      invariant i <= n && j == j0 + i <= dst.Length
      invariant dst[..j] == old(dst[..j0]) + Fields(v)[..i]
    {
      if j >= dst.Length { return j, false; }
      dst[j] := Field(v, i);
      assert dst[..j + 1] == dst[..j] + [Field(v, i)];
      assert Fields(v)[..i + 1] == Fields(v)[..i] + [Field(v, i)];
      j, i := j + 1, i + 1;
    }
    ok := true;
  }

  /** Decode all words into dst: it succeeds exactly when they fit, and then wrote exactly their values. */
  method DecodeAll(dst: array<U64>, src: seq<U64>) returns (j: nat, ok: bool)
    modifies dst
    ensures ok <==> CountAll(src) <= dst.Length
    ensures ok ==> j == CountAll(src) && dst[..j] == Unpacked(src)
    ensures !ok ==> j == dst.Length
  {
    hide Fields, Count;
    j := 0;
    for k := 0 to |src|
      invariant j == CountAll(src[..k]) <= dst.Length && dst[..j] == Unpacked(src[..k])
    {
      assert src[..k + 1][..k] == src[..k] && src[..k + 1][k] == src[k];
      ghost var was := dst[..j];
      j, ok := DecodeWord(dst, j, src[k]);
      if !ok { CountGrows(src, k + 1); return; }
      FieldsLength(src[k]);
    }
    TakeAll(src);
    ok := true;
  }

  lemma FieldsLength(v: U64)
    ensures |Fields(v)| == Count(v) && Fields(v)[..Count(v)] == Fields(v)
  {}

  lemma {:induction false} CountGrows(ws: seq<U64>, k: nat)
    requires k <= |ws|
    ensures CountAll(ws[..k]) <= CountAll(ws)
    decreases |ws| - k
  {
    if k < |ws| {
      assert ws[..k + 1][..k] == ws[..k];
      CountGrows(ws, k + 1);
    } else {
      assert ws[..k] == ws;
    }
  }

  /** A buffer sized by the words' counts is filled exactly; a short buffer is never reported. */
  method DecodeSized(src: seq<U64>) returns (raw: seq<U64>)
    ensures raw == Unpacked(src)
  {
    var total := 0;
    for i := 0 to |src|
      invariant total == CountAll(src[..i])
    {
      assert src[..i + 1][..i] == src[..i];
      total := total + Count(src[i]);
    }
    TakeAll(src);
    var dst := new U64[total](_ => 0);
    var got, ok := DecodeAll(dst, src);
    raw := dst[..got];
  }

  // ---- packing ----

  /** So many values of so many bits in one word. */
  datatype Layout = Layout(values: nat, bits: nat)

  /** The format, selector by selector: runs of zeros, and the divisions of 60 bits. */
  function LayoutOf(sel: nat): Layout
    requires sel < 16
  {
    match sel
    case 0 => Layout(240, 0)
    case 1 => Layout(120, 0)
    case 2 => Layout(60, 1)
    case 3 => Layout(30, 2)
    case 4 => Layout(20, 3)
    case 5 => Layout(15, 4)
    case 6 => Layout(12, 5)
    case 7 => Layout(10, 6)
    case 8 => Layout(8, 7)
    case 9 => Layout(7, 8)
    case 10 => Layout(6, 10)
    case 11 => Layout(5, 12)
    case 12 => Layout(4, 15)
    case 13 => Layout(3, 20)
    case 14 => Layout(2, 30)
    case _ => Layout(1, 60)
  }

  /** From selector 2 on, every layout is as wide as its number of values allows, and the next one holds as many
      values of one bit more as fit. That leaves no choice: this is the table. */
  lemma TableIsForced(sel: nat)
    requires 2 <= sel < 16
    ensures COUNTS[2] == 60 && COUNTS[15] == 1 && COUNTS[sel] > 0
    ensures WIDTHS[sel] == 60 / COUNTS[sel]
    ensures sel < 15 ==> COUNTS[sel + 1] == 60 / (WIDTHS[sel] + 1)
    ensures LayoutOf(sel) == Layout(COUNTS[sel], WIDTHS[sel])
  {}

  /** The values fill a selector's layout, each of them narrow enough. */
  ghost predicate Fits(vs: seq<U64>, sel: nat)
    requires sel < 16
  {
    |vs| == LayoutOf(sel).values && forall k :: 0 <= k < |vs| ==> vs[k] < Pow2(LayoutOf(sel).bits)
  }

  lemma Pow2Of60()
    ensures Pow2(60) == TWO60
  {
    assert Pow2(5) == 32;
    PowAdd(2, 5, 5);
    PowAdd(2, 10, 5);
    PowAdd(2, 15, 15);
    PowAdd(2, 30, 30);
  }

  /** The sum of vs[i] * 2^(i * w). */
  function Placed(vs: seq<U64>, w: nat): nat {
    if vs == [] then 0 else Placed(vs[..|vs| - 1], w) + vs[|vs| - 1] * Pow2((|vs| - 1) * w)
  }

  /** The word of these values under this selector. */
  function Packed(sel: nat, vs: seq<U64>): nat
    requires sel < 16
  {
    sel * TWO60 + Placed(vs, LayoutOf(sel).bits)
  }

  lemma {:induction false} HornerOneMore(ds: seq<nat>, d: nat, b: nat, tail: nat)
    ensures Horner(ds + [d], b, tail) == Horner(ds, b, d + b * tail)
    decreases |ds|
  {
    if ds == [] {
      assert [] + [d] == [d] && [d][1..] == [];
    } else {
      assert (ds + [d])[1..] == ds[1..] + [d];
      HornerOneMore(ds[1..], d, b, tail);
    }
  }

  lemma PowNothing(b: nat)
    ensures Pow(b, 0) == 1
  {}

  lemma HornerNothing(b: nat, tail: nat)
    ensures Horner([], b, tail) == tail
  {}

  lemma {:induction false} PlacedIsHorner(vs: seq<U64>, w: nat, tail: nat)
    ensures Placed(vs, w) + tail * Pow2(|vs| * w) == Horner(vs, Pow2(w), tail)
    decreases |vs|
  {
    hide Horner, Pow;
    if vs == [] {
      assert Horner([], Pow2(w), tail) == tail by { HornerNothing(Pow2(w), tail); }
      assert 0 * w == 0 && Pow2(0) == 1 by { PowNothing(2); }
    } else {
      var n := |vs| - 1;
      var init, d := vs[..n], vs[n];
      assert vs == init + [d];
      HornerOneMore(init, d, Pow2(w), tail);
      PlacedIsHorner(init, w, d + Pow2(w) * tail);
      OneMoreField(n, w, d, tail);
    }
  }

  lemma OneMoreField(n: nat, w: nat, d: nat, tail: nat)
    ensures (d + Pow2(w) * tail) * Pow2(n * w) == d * Pow2(n * w) + tail * Pow2((n + 1) * w)
  {
    hide Pow;
    PowAdd(2, w, n * w);
    assert (n + 1) * w == w + n * w;
    Factor(d, Pow2(w), tail, Pow2(n * w));
  }

  lemma Factor(d: nat, b: nat, t: nat, p: nat)
    ensures (d + b * t) * p == d * p + t * (b * p)
  {}

  lemma {:induction false} PlacedZeros(vs: seq<U64>)
    requires forall k :: 0 <= k < |vs| ==> vs[k] == 0
    ensures Placed(vs, 0) == 0
    decreases |vs|
  {
    if vs != [] { PlacedZeros(vs[..|vs| - 1]); }
  }

  /** A run of zeros is its selector alone. */
  lemma RunOfZeros(sel: nat, vs: seq<U64>)
    requires sel < 2 && Fits(vs, sel)
    ensures Packed(sel, vs) == sel * TWO60 && Selector(Packed(sel, vs)) == sel && Fields(Packed(sel, vs)) == vs
  {
    assert Pow2(0) == 1;
    PlacedZeros(vs);
  }

  /** Between its digits and its selector the word leaves the rest of the 60 bits unused. */
  lemma PackedIsHorner(sel: nat, vs: seq<U64>)
    requires 2 <= sel < 16 && |vs| == COUNTS[sel]
    ensures COUNTS[sel] * WIDTHS[sel] <= 60
    ensures Packed(sel, vs) == Horner(vs, Pow2(WIDTHS[sel]), sel * Pow2(60 - COUNTS[sel] * WIDTHS[sel]))
  {
    TableIsForced(sel);
    var w, n := WIDTHS[sel], COUNTS[sel];
    assert n * w <= 60;
    var top := Pow2(60 - n * w);
    PlacedIsHorner(vs, w, sel * top);
    PowAdd(2, 60 - n * w, n * w);
    Pow2Of60();
    MulAssoc(sel, top, Pow2(n * w));
  }

  /** What stands above the digits and the unused bits. */
  lemma TopOfHorner(vs: seq<U64>, w: nat, sel: nat)
    requires |vs| * w <= 60 && forall k :: 0 <= k < |vs| ==> vs[k] < Pow2(w)
    ensures Horner(vs, Pow2(w), sel * Pow2(60 - |vs| * w)) / TWO60 == sel
  {
    hide Horner;
    var n := |vs|;
    var b, top := Pow2(w), Pow2(60 - n * w);
    PowPositive(2, w);
    PowPositive(2, 60 - n * w);
    HornerTail(vs, b, sel * top);
    PowPow(2, w, n);
    assert w * n == n * w;
    PowAdd(2, n * w, 60 - n * w);
    Pow2Of60();
    DivDiv(Horner(vs, b, sel * top), Pow(b, n), top);
    DivUnique(sel * top, top, sel, 0);
  }

  /** The selector survives the packing. */
  lemma PackedSelector(sel: nat, vs: seq<U64>)
    requires sel < 16 && Fits(vs, sel)
    ensures Packed(sel, vs) < TWO64 && Selector(Packed(sel, vs)) == sel
  {
    if sel < 2 {
      RunOfZeros(sel, vs);
    } else {
      TableIsForced(sel);
      PackedIsHorner(sel, vs);
      TopOfHorner(vs, WIDTHS[sel], sel);
    }
  }

  lemma DigitShifted(vs: seq<U64>, w: nat, tail: nat, i: nat)
    requires i < |vs| && forall k :: 0 <= k < |vs| ==> vs[k] < Pow2(w)
    ensures Pow2(i * w) > 0 && Pow2(w) > 0 && (Horner(vs, Pow2(w), tail) / Pow2(i * w)) % Pow2(w) == vs[i]
  {
    hide Horner;
    PowPositive(2, w);
    PowPositive(2, i * w);
    HornerDigit(vs, Pow2(w), tail, i);
    PowPow(2, w, i);
    assert w * i == i * w;
  }

  /** The word sel * 2^60 + the sum of vs[i] * 2^(i * bits) decodes to vs, for every layout of the format. */
  lemma PackedFields(sel: nat, vs: seq<U64>)
    requires sel < 16 && Fits(vs, sel)
    ensures Packed(sel, vs) < TWO64 && Fields(Packed(sel, vs)) == vs && Count(Packed(sel, vs)) == LayoutOf(sel).values
  {
    hide Horner, Selector, Packed, Pow;
    PackedSelector(sel, vs);
    if sel < 2 {
      RunOfZeros(sel, vs);
    } else {
      TableIsForced(sel);
      PackedIsHorner(sel, vs);
      var w := WIDTHS[sel];
      PowPositive(2, w);
      var v := Packed(sel, vs);
      forall i | 0 <= i < |vs| ensures Field(v, i) == vs[i] {
        DigitShifted(vs, w, sel * Pow2(60 - COUNTS[sel] * w), i);
      }
    }
  }

  /** The first selector from `sel` on whose layout the values fill. */
  function Choose(vs: seq<U64>, sel: nat): (r: nat)
    requires vs != [] && sel < 16 && forall k :: 0 <= k < |vs| ==> vs[k] < TWO60
    ensures r < 16 && 0 < LayoutOf(r).values <= |vs| && Fits(vs[..LayoutOf(r).values], r)
    decreases 16 - sel
  {
    var n := LayoutOf(sel).values;
    if sel == 15 then
      Pow2Of60();
      15
    else if n <= |vs| && (forall k :: 0 <= k < n ==> vs[k] < Pow2(LayoutOf(sel).bits)) then sel
    else Choose(vs, sel + 1)
  }

  function Pack(vs: seq<U64>): (ws: seq<U64>)
    requires forall k :: 0 <= k < |vs| ==> vs[k] < TWO60
    decreases |vs|
  {
    if vs == [] then []
    else
      var sel := Choose(vs, 0);
      var n := LayoutOf(sel).values;
      PackedSelector(sel, vs[..n]);
      [Packed(sel, vs[..n])] + Pack(vs[n..])
  }

  lemma {:induction false} UnpackedCons(w: U64, ws: seq<U64>)
    ensures Unpacked([w] + ws) == Fields(w) + Unpacked(ws)
    decreases |ws|
  {
    hide Fields;
    if ws == [] {
      assert [w] + ws == [w] && [w][..0] == [];
    } else {
      assert ([w] + ws)[..|ws|] == [w] + ws[..|ws| - 1];
      UnpackedCons(w, ws[..|ws| - 1]);
    }
  }

  lemma {:induction false} CountCons(w: U64, ws: seq<U64>)
    ensures CountAll([w] + ws) == Count(w) + CountAll(ws)
    decreases |ws|
  {
    hide Count;
    if ws == [] {
      assert [w] + ws == [w] && [w][..0] == [];
    } else {
      assert ([w] + ws)[..|ws|] == [w] + ws[..|ws| - 1];
      CountCons(w, ws[..|ws| - 1]);
    }
  }

  /** Unpacking what was packed gives the values back, as many as the words count. */
  lemma {:induction false} PackRoundTrip(vs: seq<U64>)
    requires forall k :: 0 <= k < |vs| ==> vs[k] < TWO60
    ensures Unpacked(Pack(vs)) == vs && CountAll(Pack(vs)) == |vs|
    decreases |vs|
  {
    hide Fields, Packed, Choose, Fits, LayoutOf, Count;
    if vs != [] {
      var sel := Choose(vs, 0);
      var n := LayoutOf(sel).values;
      PackedFields(sel, vs[..n]);
      PackRoundTrip(vs[n..]);
      UnpackedCons(Packed(sel, vs[..n]), Pack(vs[n..]));
      CountCons(Packed(sel, vs[..n]), Pack(vs[n..]));
      assert vs == vs[..n] + vs[n..];
    }
  }
}
