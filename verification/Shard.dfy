/** A shard and the simple model of its output, with and without a resume cursor.

    Emission order is (series key, timestamp), both strictly ascending, so a cursor cuts the output
    exactly: `ResumeIsSuffix`. */
module Shard {
  import opened Orders
  import opened Values
  import opened Blocks
  import opened Streams
  import opened SeriesSpec
  import opened Runs

  /** The values of one field of one series in a WAL file. */
  datatype Wal = Wal(series: Str, field: Str, vals: seq<Value>)
  datatype Shard = Shard(files: seq<File>, wal: seq<Wal>)
  datatype Cursor = Cursor(series: Str, ts: Time)
  datatype Resume = FromStart | After(cur: Cursor)

  ghost predicate Indexed(sh: Shard) {
    forall f :: f in sh.files ==> IndexBounds(f)
  }

  function FieldSrcs(fields: map<Str, seq<Block>>, names: seq<Str>): seq<Src>
    requires forall n :: n in names ==> n in fields
  {
    if names == [] then [] else [Src(names[0], KeyVals(fields[names[0]]))] + FieldSrcs(fields, names[1..])
  }

  /** What file fi holds of a series: its fields in key order. */
  ghost function FileSrcs(sh: Shard, sk: Str, fi: nat): seq<Src> {
    StrTotal();
    if fi < |sh.files| && sk in sh.files[fi]
    then FieldSrcs(sh.files[fi][sk], Sorted(sh.files[fi][sk].Keys, StrLess))
    else []
  }

  function WalSrcs(wal: seq<Wal>, sk: Str): seq<Src> {
    if wal == [] then []
    else (if wal[0].series == sk then [Src(wal[0].field, wal[0].vals)] else []) + WalSrcs(wal[1..], sk)
  }

  function UpTo(n: nat): (r: seq<nat>)
    ensures |r| == n && forall i :: 0 <= i < n ==> r[i] == i
  {
    if n == 0 then [] else UpTo(n - 1) + [n - 1]
  }

  ghost function FilesOf(sh: Shard, sk: Str): nat -> seq<Src> { (fi: nat) => FileSrcs(sh, sk, fi) }

  /** All sources of a series in precedence order: files by index (older generation first), WAL last. */
  ghost function SeriesSrcs(sh: Shard, sk: Str): seq<Src> {
    SrcsOf(FilesOf(sh, sk), UpTo(|sh.files|)) + WalSrcs(sh.wal, sk)
  }

  function SeriesSet(sh: Shard): set<Str> {
    (set fi, sk | 0 <= fi < |sh.files| && sk in sh.files[fi] :: sk) + (set i | 0 <= i < |sh.wal| :: sh.wal[i].series)
  }

  ghost function SeriesOrder(sh: Shard): seq<Str> {
    StrTotal();
    Sorted(SeriesSet(sh), StrLess)
  }

  /** The points of the listed series, one series after the other. */
  ghost function PointsOf(sh: Shard, sks: seq<Str>, lo: int, hi: int): seq<Point> {
    if sks == [] then []
    else SeriesPoints(sks[0], SeriesSrcs(sh, sks[0]), lo, hi) + PointsOf(sh, sks[1..], lo, hi)
  }

  /** The full output of a shard. */
  ghost function ShardPoints(sh: Shard, lo: int, hi: int): seq<Point> {
    PointsOf(sh, SeriesOrder(sh), lo, hi)
  }

  // ---- the resume cursor ----

  /** The lower bound for one series under a cursor, and whether anything is left of it. */
  function SeriesStartFor(sk: Str, start: Time, cur: Resume): (r: (Time, bool)) {
    if cur.FromStart? || sk != cur.cur.series then (start, true)
    else if cur.cur.ts == MAX_TIME then (0, false)
    else if cur.cur.ts + 1 > start then (cur.cur.ts + 1, true)
    else (start, true)
  }

  ghost function SeriesResumed(sh: Shard, sk: Str, lo: Time, hi: Time, cur: Resume): seq<Point> {
    var (s, left) := SeriesStartFor(sk, lo, cur);
    if left then SeriesPoints(sk, SeriesSrcs(sh, sk), s, hi) else []
  }

  ghost function PointsResumed(sh: Shard, sks: seq<Str>, lo: Time, hi: Time, cur: Resume): seq<Point> {
    if sks == [] then [] else SeriesResumed(sh, sks[0], lo, hi, cur) + PointsResumed(sh, sks[1..], lo, hi, cur)
  }

  /** The series order cut at the cursor's series, which must exist. */
  ghost function OrderFrom(order: seq<Str>, cur: Resume): seq<Str> {
    if cur.FromStart? || order == [] || order[0] == cur.cur.series then order else OrderFrom(order[1..], cur)
  }

  /** What an extraction with this cursor has to emit. */
  ghost function Resumed(sh: Shard, lo: Time, hi: Time, cur: Resume): seq<Point> {
    PointsResumed(sh, OrderFrom(SeriesOrder(sh), cur), lo, hi, cur)
  }

  predicate PointLess(p: Point, q: Point) {
    StrLess(p.series, q.series) || (p.series == q.series && p.ts < q.ts)
  }

  lemma PointsOfSeries(sh: Shard, sk: Str, lo: int, hi: int)
    ensures var ps := SeriesPoints(sk, SeriesSrcs(sh, sk), lo, hi);
      (forall p :: p in ps ==> p.series == sk && lo <= p.ts <= hi) && Strict(ps, PointLess)
  {
    SeriesPointsMeaning(sk, SeriesSrcs(sh, sk), lo, hi);
    var ps := SeriesPoints(sk, SeriesSrcs(sh, sk), lo, hi);
    forall i, j | 0 <= i < j < |ps| ensures PointLess(ps[i], ps[j]) { assert ps[i] in ps && ps[j] in ps; }
  }

  ghost predicate StrAscend(sks: seq<Str>) {
    forall i, j :: 0 <= i < j < |sks| ==> StrLess(sks[i], sks[j])
  }

  lemma {:induction false} PointsOfListed(sh: Shard, sks: seq<Str>, lo: int, hi: int)
    ensures forall p :: p in PointsOf(sh, sks, lo, hi) ==> p.series in sks
    decreases |sks|
  {
    if sks != [] {
      PointsOfSeries(sh, sks[0], lo, hi);
      PointsOfListed(sh, sks[1..], lo, hi);
    }
  }

  /** The output is strictly ascending in (series key, timestamp). */
  lemma {:induction false} OutputAscends(sh: Shard, sks: seq<Str>, lo: int, hi: int)
    requires StrAscend(sks)
    ensures Strict(PointsOf(sh, sks, lo, hi), PointLess)
    decreases |sks|
  {
    if sks != [] {
      var a, b := SeriesPoints(sks[0], SeriesSrcs(sh, sks[0]), lo, hi), PointsOf(sh, sks[1..], lo, hi);
      PointsOfSeries(sh, sks[0], lo, hi);
      PointsOfListed(sh, sks[1..], lo, hi);
      assert StrAscend(sks[1..]);
      OutputAscends(sh, sks[1..], lo, hi);
      forall p, q | p in a && q in b ensures PointLess(p, q) {
        var i :| 0 <= i < |sks[1..]| && sks[1..][i] == q.series;
        assert StrLess(sks[0], sks[i + 1]);
      }
      StrictConcat(a, b, PointLess);
    }
  }

  /** Later series are not affected by the cursor. */
  lemma {:induction false} UnaffectedSeries(sh: Shard, sks: seq<Str>, lo: Time, hi: Time, cur: Resume)
    requires cur.After? ==> cur.cur.series !in sks
    ensures PointsResumed(sh, sks, lo, hi, cur) == PointsOf(sh, sks, lo, hi)
    decreases |sks|
  {
    if sks != [] { UnaffectedSeries(sh, sks[1..], lo, hi, cur); }
  }

  /** Of strictly ascending points, those behind point i are those greater than it. */
  lemma PointsBehind(ps: seq<Point>, i: nat, q: Point)
    requires i < |ps| && Strict(ps, PointLess)
    ensures q in ps[i + 1..] <==> q in ps && PointLess(ps[i], q)
  {
    hide PointLess;
    var tail := ps[i + 1..];
    if q in tail {
      var j :| 0 <= j < |tail| && tail[j] == q;
      assert ps[i + 1 + j] == q;
    }
    if q in ps && PointLess(ps[i], q) {
      var j :| 0 <= j < |ps| && ps[j] == q;
      PointLessAsym(ps[i], q);
      assert j > i;
      assert tail[j - (i + 1)] == q;
    }
  }

  lemma SuffixOfSeries(ps: seq<Point>, i: nat, rest: seq<Point>)
    requires i < |ps| && Strict(ps, PointLess) && Strict(rest, PointLess)
    requires forall q :: q in rest <==> q in ps && PointLess(ps[i], q)
    ensures ps[i + 1..] == rest
  {
    hide PointLess;
    var tail := ps[i + 1..];
    forall q ensures q in tail <==> q in rest { PointsBehind(ps, i, q); }
    assert forall a :: 0 <= a < |tail| ==> tail[a] == ps[i + 1 + a];
    PointsAsymmetric();
    SortedOnce(tail, rest, PointLess);
  }

  lemma PointLessAsym(p: Point, q: Point)
    requires PointLess(p, q)
    ensures !PointLess(q, p) && p != q
  {
    StrTrichotomy(p.series, q.series);
    if StrLess(p.series, q.series) && StrLess(q.series, p.series) {
      StrTransitive(p.series, q.series, p.series);
    }
  }

  lemma PointsAsymmetric()
    ensures Asymmetric(PointLess)
  {
    forall p: Point, q: Point ensures !(PointLess(p, q) && PointLess(q, p)) {
      if PointLess(p, q) { PointLessAsym(p, q); }
    }
  }

  // ---- resuming after a point is the exact suffix ----

  lemma SeriesSuffix(sh: Shard, sk: Str, lo: Time, hi: Time, i: nat)
    requires i < |SeriesPoints(sk, SeriesSrcs(sh, sk), lo, hi)|
    ensures var ps := SeriesPoints(sk, SeriesSrcs(sh, sk), lo, hi);
      lo <= ps[i].ts <= hi && ps[i].series == sk &&
      SeriesResumed(sh, sk, lo, hi, After(Cursor(sk, ps[i].ts))) == ps[i + 1..]
  {
    hide SeriesPoints, SeriesSrcs;
    var srcs := SeriesSrcs(sh, sk);
    var ps := SeriesPoints(sk, srcs, lo, hi);
    PointsOfSeries(sh, sk, lo, hi);
    assert ps[i] in ps;
    var rest := SeriesResumed(sh, sk, lo, hi, After(Cursor(sk, ps[i].ts)));
    forall q ensures q in rest <==> q in ps && PointLess(ps[i], q) {
      PointMembership(q, sk, srcs, lo, hi);
      PointMembership(q, sk, srcs, ps[i].ts + 1, hi);
      StrTrichotomy(sk, sk);
    }
    if ps[i].ts < MAX_TIME { PointsOfSeries(sh, sk, ps[i].ts + 1, hi); }
    SuffixOfSeries(ps, i, rest);
  }

  lemma {:induction false} ResumeIn(sh: Shard, sks: seq<Str>, lo: Time, hi: Time, i: nat)
    requires StrAscend(sks) && i < |PointsOf(sh, sks, lo, hi)|
    ensures var p := PointsOf(sh, sks, lo, hi)[i];
      lo <= p.ts <= hi && p.series in sks &&
      PointsResumed(sh, OrderFrom(sks, After(Cursor(p.series, p.ts))), lo, hi, After(Cursor(p.series, p.ts)))
        == PointsOf(sh, sks, lo, hi)[i + 1..]
    decreases |sks|
  {
    hide SeriesPoints, SeriesSrcs, SeriesResumed;
    var a: seq<Point>, b: seq<Point> := SeriesPoints(sks[0], SeriesSrcs(sh, sks[0]), lo, hi), PointsOf(sh, sks[1..], lo, hi);
    var p: Point := (a + b)[i];
    StrTotal();
    assert StrAscend(sks[1..]);
    if i < |a| {
      SeriesSuffix(sh, sks[0], lo, hi, i);
      var cur := After(Cursor(p.series, p.ts));
      assert forall j :: 0 <= j < |sks[1..]| ==> sks[1..][j] == sks[j + 1];
      UnaffectedSeries(sh, sks[1..], lo, hi, cur);
      assert (a + b)[i + 1..] == a[i + 1..] + b;
    } else {
      ResumeIn(sh, sks[1..], lo, hi, i - |a|);
      assert p == b[i - |a|];
      var j :| 0 <= j < |sks[1..]| && sks[1..][j] == p.series;
      assert StrLess(sks[0], sks[j + 1]);
      assert (a + b)[i + 1..] == b[i - |a| + 1..];
    }
  }

  /** For every point of the full output, extracting after it yields precisely the points after it. */
  lemma ResumeIsSuffix(sh: Shard, lo: Time, hi: Time, i: nat)
    requires i < |ShardPoints(sh, lo, hi)|
    ensures var p := ShardPoints(sh, lo, hi)[i];
      lo <= p.ts <= hi && p.series in SeriesOrder(sh) &&
      Resumed(sh, lo, hi, After(Cursor(p.series, p.ts))) == ShardPoints(sh, lo, hi)[i + 1..]
  {
    StrTotal();
    assert StrAscend(SeriesOrder(sh));
    ResumeIn(sh, SeriesOrder(sh), lo, hi, i);
  }

  lemma {:induction false} FromStartIsAll(sh: Shard, lo: Time, hi: Time)
    ensures Resumed(sh, lo, hi, FromStart) == ShardPoints(sh, lo, hi)
  {
    UnaffectedSeries(sh, SeriesOrder(sh), lo, hi, FromStart);
  }

  lemma ShardOutputAscends(sh: Shard, lo: int, hi: int)
    ensures Strict(ShardPoints(sh, lo, hi), PointLess)
  {
    StrTotal();
    assert StrAscend(SeriesOrder(sh));
    OutputAscends(sh, SeriesOrder(sh), lo, hi);
  }
}
