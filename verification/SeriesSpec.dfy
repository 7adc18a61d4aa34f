/** The simple model of one series: at every timestamp that occurs, one point whose fields, in name
    order, each hold the last value written at that timestamp, in source order.

    `Content(srcs, n, t)` is all the values of field n at time t in precedence order. Everything the
    extractor does to its sources (sorting, coalescing, pruning, partitioning, windowing) is harmless
    because the points depend on nothing else (`SamePoints`). */
module SeriesSpec {
  import opened Orders
  import opened Values

  /** One source of a series: the values of one field in one file or WAL entry. */
  datatype Src = Src(name: Str, vals: seq<Value>)

  datatype Field = Field(name: Str, v: Value)
  datatype Point = Point(series: Str, ts: int, fields: seq<Field>)

  /** All values of a field, sources in precedence order. */
  function FieldVals(srcs: seq<Src>, n: Str): seq<Value> {
    if srcs == [] then []
    else (if srcs[0].name == n then srcs[0].vals else []) + FieldVals(srcs[1..], n)
  }

  function Content(srcs: seq<Src>, n: Str, t: int): seq<Value> { At(FieldVals(srcs, n), t) }

  ghost predicate Occurs(srcs: seq<Src>, n: Str, t: int) { Content(srcs, n, t) != [] }

  ghost function Times(srcs: seq<Src>, lo: int, hi: int): set<int> {
    set k, j | 0 <= k < |srcs| && 0 <= j < |srcs[k].vals| && lo <= srcs[k].vals[j].ts <= hi :: srcs[k].vals[j].ts
  }

  ghost function NamesAt(srcs: seq<Src>, t: int): set<Str> {
    set k | 0 <= k < |srcs| && At(srcs[k].vals, t) != [] :: srcs[k].name
  }

  /** The winner: the value written last. */
  ghost function Winner(srcs: seq<Src>, n: Str, t: int): Field
    requires Occurs(srcs, n, t)
  {
    var c := Content(srcs, n, t);
    Field(n, c[|c| - 1])
  }

  ghost function FieldsFor(srcs: seq<Src>, t: int, names: seq<Str>): seq<Field>
    requires forall n :: n in names ==> Occurs(srcs, n, t)
  {
    if names == [] then [] else [Winner(srcs, names[0], t)] + FieldsFor(srcs, t, names[1..])
  }

  lemma {:induction false} OccursIn(srcs: seq<Src>, n: Str, t: int)
    ensures Occurs(srcs, n, t) <==> exists k :: 0 <= k < |srcs| && srcs[k].name == n && At(srcs[k].vals, t) != []
    decreases |srcs|
  {
    if srcs != [] {
      OccursIn(srcs[1..], n, t);
      AtConcat(if srcs[0].name == n then srcs[0].vals else [], FieldVals(srcs[1..], n), t);
      if k :| 0 <= k < |srcs[1..]| && srcs[1..][k].name == n && At(srcs[1..][k].vals, t) != [] {
        assert srcs[k + 1].name == n && At(srcs[k + 1].vals, t) != [];
      }
      if k :| 0 <= k < |srcs| && srcs[k].name == n && At(srcs[k].vals, t) != [] {
        if k > 0 { assert srcs[1..][k - 1].name == n && At(srcs[1..][k - 1].vals, t) != []; }
      }
    }
  }

  lemma NamesAtOccur(srcs: seq<Src>, t: int)
    ensures forall n :: n in NamesAt(srcs, t) <==> Occurs(srcs, n, t)
  {
    forall n ensures n in NamesAt(srcs, t) <==> Occurs(srcs, n, t) { OccursIn(srcs, n, t); }
  }

  lemma TimesOccur(srcs: seq<Src>, lo: int, hi: int, t: int)
    ensures t in Times(srcs, lo, hi) <==> lo <= t <= hi && exists n :: Occurs(srcs, n, t)
  {
    if t in Times(srcs, lo, hi) {
      var k, j :| 0 <= k < |srcs| && 0 <= j < |srcs[k].vals| && srcs[k].vals[j].ts == t;
      AtEmpty(srcs[k].vals, t);
      assert srcs[k].vals[j] in srcs[k].vals;
      OccursIn(srcs, srcs[k].name, t);
      assert Occurs(srcs, srcs[k].name, t);
    }
    if n :| lo <= t <= hi && Occurs(srcs, n, t) {
      OccursIn(srcs, n, t);
      var k :| 0 <= k < |srcs| && srcs[k].name == n && At(srcs[k].vals, t) != [];
      AtEmpty(srcs[k].vals, t);
      var v :| v in srcs[k].vals && v.ts == t;
    }
  }

  /** The fields of the point at t. */
  ghost function FieldsAt(srcs: seq<Src>, t: int): seq<Field> {
    StrTotal();
    NamesAtOccur(srcs, t);
    FieldsFor(srcs, t, Sorted(NamesAt(srcs, t), StrLess))
  }

  ghost function PointsAt(sk: Str, srcs: seq<Src>, times: seq<int>): seq<Point> {
    if times == [] then []
    else [Point(sk, times[0], FieldsAt(srcs, times[0]))] + PointsAt(sk, srcs, times[1..])
  }

  /** The points of a series within [lo, hi]. */
  ghost function SeriesPoints(sk: Str, srcs: seq<Src>, lo: int, hi: int): seq<Point> {
    PointsAt(sk, srcs, Sorted(Times(srcs, lo, hi), IntLess))
  }

  ghost predicate AgreeAt(a: seq<Src>, b: seq<Src>, t: int) {
    forall n :: Content(a, n, t) == Content(b, n, t)
  }

  /** Both sources say the same at every time in [lo, hi]. */
  ghost predicate Agree(a: seq<Src>, b: seq<Src>, lo: int, hi: int) {
    forall t :: lo <= t <= hi ==> AgreeAt(a, b, t)
  }

  lemma SameWinner(a: seq<Src>, b: seq<Src>, n: Str, t: int)
    requires AgreeAt(a, b, t) && Occurs(a, n, t)
    ensures Occurs(b, n, t) && Winner(a, n, t) == Winner(b, n, t)
  {
    assert Content(a, n, t) == Content(b, n, t);
  }

  lemma {:induction false} SameFieldsFor(a: seq<Src>, b: seq<Src>, t: int, names: seq<Str>)
    requires AgreeAt(a, b, t)
    requires forall n :: n in names ==> Occurs(a, n, t)
    requires forall n :: n in names ==> Occurs(b, n, t)
    ensures FieldsFor(a, t, names) == FieldsFor(b, t, names)
    decreases |names|
  {
    if names != [] {
      SameWinner(a, b, names[0], t);
      SameFieldsFor(a, b, t, names[1..]);
    }
  }

  lemma SameFields(a: seq<Src>, b: seq<Src>, t: int)
    requires AgreeAt(a, b, t)
    ensures FieldsAt(a, t) == FieldsAt(b, t)
  {
    NamesAtOccur(a, t);
    NamesAtOccur(b, t);
    StrTotal();
    forall n ensures n in NamesAt(a, t) <==> n in NamesAt(b, t) { assert Content(a, n, t) == Content(b, n, t); }
    assert NamesAt(a, t) == NamesAt(b, t);
    SameFieldsFor(a, b, t, Sorted(NamesAt(a, t), StrLess));
  }

  lemma {:induction false} SamePointsAt(sk: Str, a: seq<Src>, b: seq<Src>, times: seq<int>)
    requires forall t :: t in times ==> AgreeAt(a, b, t)
    ensures PointsAt(sk, a, times) == PointsAt(sk, b, times)
    decreases |times|
  {
    if times != [] {
      SameFields(a, b, times[0]);
      SamePointsAt(sk, a, b, times[1..]);
    }
  }

  /** The points depend on the content only. */
  lemma SamePoints(sk: Str, a: seq<Src>, b: seq<Src>, lo: int, hi: int)
    requires Agree(a, b, lo, hi)
    ensures SeriesPoints(sk, a, lo, hi) == SeriesPoints(sk, b, lo, hi)
  {
    forall t ensures t in Times(a, lo, hi) <==> t in Times(b, lo, hi) {
      TimesOccur(a, lo, hi, t);
      TimesOccur(b, lo, hi, t);
      if lo <= t <= hi {
        assert AgreeAt(a, b, t);
        forall n ensures Occurs(a, n, t) <==> Occurs(b, n, t) { assert Content(a, n, t) == Content(b, n, t); }
      }
    }
    assert Times(a, lo, hi) == Times(b, lo, hi);
    SamePointsAt(sk, a, b, Sorted(Times(a, lo, hi), IntLess));
  }

  lemma {:induction false} PointsAtConcat(sk: Str, srcs: seq<Src>, a: seq<int>, b: seq<int>)
    ensures PointsAt(sk, srcs, a + b) == PointsAt(sk, srcs, a) + PointsAt(sk, srcs, b)
    decreases |a|
  {
    if a == [] {
      assert a + b == b;
    } else {
      assert (a + b)[1..] == a[1..] + b;
      PointsAtConcat(sk, srcs, a[1..], b);
    }
  }

  /** A window splits at any timestamp: nothing is lost, nothing is emitted twice. */
  lemma SplitPoints(sk: Str, srcs: seq<Src>, lo: int, m: int, hi: int)
    requires lo <= m + 1 && m <= hi
    ensures SeriesPoints(sk, srcs, lo, hi) == SeriesPoints(sk, srcs, lo, m) + SeriesPoints(sk, srcs, m + 1, hi)
  {
    var a, b, c := Times(srcs, lo, m), Times(srcs, m + 1, hi), Times(srcs, lo, hi);
    forall t ensures t in c <==> t in a || t in b {
      TimesOccur(srcs, lo, m, t); TimesOccur(srcs, m + 1, hi, t); TimesOccur(srcs, lo, hi, t);
    }
    var x, y := Sorted(a, IntLess), Sorted(b, IntLess);
    StrictConcat(x, y, IntLess);
    SortedUnique(x + y, Sorted(c, IntLess), IntLess);
    PointsAtConcat(sk, srcs, x, y);
  }

  lemma NoPoints(sk: Str, srcs: seq<Src>, lo: int, hi: int)
    requires forall n, t :: lo <= t <= hi ==> !Occurs(srcs, n, t)
    ensures SeriesPoints(sk, srcs, lo, hi) == []
  {
    forall t ensures t !in Times(srcs, lo, hi) { TimesOccur(srcs, lo, hi, t); }
    assert Times(srcs, lo, hi) == {};
  }

  lemma {:induction false} PointsAtIndex(sk: Str, srcs: seq<Src>, times: seq<int>)
    ensures |PointsAt(sk, srcs, times)| == |times|
    ensures forall i :: 0 <= i < |times| ==>
      PointsAt(sk, srcs, times)[i] == Point(sk, times[i], FieldsAt(srcs, times[i]))
    decreases |times|
  {
    if times != [] { PointsAtIndex(sk, srcs, times[1..]); }
  }

  ghost predicate IsPointOf(p: Point, sk: Str, srcs: seq<Src>, lo: int, hi: int) {
    p.series == sk && lo <= p.ts <= hi && (exists n :: Occurs(srcs, n, p.ts)) && p.fields == FieldsAt(srcs, p.ts)
  }

  /** What the model says, read directly: strictly ascending timestamps, one point for each that occurs
      in the window, nothing else. */
  lemma SeriesPointsMeaning(sk: Str, srcs: seq<Src>, lo: int, hi: int)
    ensures forall i, j :: 0 <= i < j < |SeriesPoints(sk, srcs, lo, hi)| ==>
      SeriesPoints(sk, srcs, lo, hi)[i].ts < SeriesPoints(sk, srcs, lo, hi)[j].ts
    ensures forall p :: p in SeriesPoints(sk, srcs, lo, hi) <==> IsPointOf(p, sk, srcs, lo, hi)
  {
    var times := Sorted(Times(srcs, lo, hi), IntLess);
    PointsAtIndex(sk, srcs, times);
    assert forall i, j :: 0 <= i < j < |times| ==> IntLess(times[i], times[j]);
    forall p ensures p in SeriesPoints(sk, srcs, lo, hi) <==> IsPointOf(p, sk, srcs, lo, hi) {
      PointMembership(p, sk, srcs, lo, hi);
    }
  }

  lemma PointMembership(p: Point, sk: Str, srcs: seq<Src>, lo: int, hi: int)
    ensures p in SeriesPoints(sk, srcs, lo, hi) <==> IsPointOf(p, sk, srcs, lo, hi)
  {
    var times := Sorted(Times(srcs, lo, hi), IntLess);
    var pts := SeriesPoints(sk, srcs, lo, hi);
    PointsAtIndex(sk, srcs, times);
    TimesOccur(srcs, lo, hi, p.ts);
    if IsPointOf(p, sk, srcs, lo, hi) {
      var i :| 0 <= i < |times| && times[i] == p.ts;
      assert pts[i] == p;
    }
    if p in pts {
      var i :| 0 <= i < |pts| && pts[i] == p;
      assert times[i] in times;
    }
  }

  lemma {:induction false} FieldsForIndex(srcs: seq<Src>, t: int, names: seq<Str>)
    requires forall n :: n in names ==> Occurs(srcs, n, t)
    ensures |FieldsFor(srcs, t, names)| == |names|
    ensures forall i :: 0 <= i < |names| ==> FieldsFor(srcs, t, names)[i] == Winner(srcs, names[i], t)
    decreases |names|
  {
    if names != [] { FieldsForIndex(srcs, t, names[1..]); }
  }

  predicate FieldLess(f: Field, g: Field) { StrLess(f.name, g.name) }

  ghost predicate FieldOrdered(fs: seq<Field>) {
    forall i, j :: 0 <= i < j < |fs| ==> StrLess(fs[i].name, fs[j].name)
  }

  /** The fields of a point: strictly ascending names, and for each name that has a value at t, the last
      one written. */
  lemma FieldsAtMeaning(srcs: seq<Src>, t: int)
    ensures FieldOrdered(FieldsAt(srcs, t))
    ensures forall f :: f in FieldsAt(srcs, t) <==> Occurs(srcs, f.name, t) && f == Winner(srcs, f.name, t)
  {
    hide FieldsAt, Content;
    var names := FieldsAtIndex(srcs, t);
    forall f ensures f in FieldsAt(srcs, t) <==> Occurs(srcs, f.name, t) && f == Winner(srcs, f.name, t) {
      FieldAtMember(srcs, t, names, f);
    }
  }

  ghost predicate FieldsNamed(srcs: seq<Src>, t: int, names: seq<Str>) {
    && |FieldsAt(srcs, t)| == |names| && (forall n :: n in names <==> Occurs(srcs, n, t))
    && forall i :: 0 <= i < |names| ==> Occurs(srcs, names[i], t) && FieldsAt(srcs, t)[i] == Winner(srcs, names[i], t)
  }

  /** One field per name, in name order. */
  lemma FieldsAtIndex(srcs: seq<Src>, t: int) returns (names: seq<Str>)
    ensures FieldsNamed(srcs, t, names) && FieldOrdered(FieldsAt(srcs, t))
  {
    hide FieldsFor, Content, NamesAt, StrLess;
    StrTotal();
    NamesAtOccur(srcs, t);
    names := Sorted(NamesAt(srcs, t), StrLess);
    FieldsForIndex(srcs, t, names);
  }

  lemma FieldAtMember(srcs: seq<Src>, t: int, names: seq<Str>, f: Field)
    requires FieldsNamed(srcs, t, names)
    ensures f in FieldsAt(srcs, t) <==> Occurs(srcs, f.name, t) && f == Winner(srcs, f.name, t)
  {
    hide FieldsAt, Content;
    if Occurs(srcs, f.name, t) && f == Winner(srcs, f.name, t) {
      var i :| 0 <= i < |names| && names[i] == f.name;
      assert FieldsAt(srcs, t)[i] == f;
    }
  }

  /** ... and that is all: ordered fields with these members are the fields of the point. */
  lemma FieldsAtUnique(srcs: seq<Src>, t: int, fs: seq<Field>)
    requires FieldOrdered(fs)
    requires forall f :: f in fs <==> Occurs(srcs, f.name, t) && f == Winner(srcs, f.name, t)
    ensures fs == FieldsAt(srcs, t)
  {
    StrTotal();
    FieldsAtMeaning(srcs, t);
    forall f: Field, g: Field ensures !(FieldLess(f, g) && FieldLess(g, f)) {
      if FieldLess(f, g) && FieldLess(g, f) { StrTransitive(f.name, g.name, f.name); }
    }
    SortedOnce(fs, FieldsAt(srcs, t), FieldLess);
  }
}
