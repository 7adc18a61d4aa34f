/** InfluxDB 3 tables: live files and WAL rows grouped into chunk-time buckets, merged newest-file-wins,
    emitted in (chunk time, series, time) order, and resumed behind a cursor or not at all. */
module Extract3 {
  import opened Orders
  import opened Values
  import opened Shard
  import opened OrderKey

  /** One decoded row of a file: its series-key columns, its time, everything else, and whether it has no field. */
  datatype FileRow = FileRow(vals: seq<Col>, ts: Time, body: Payload, empty: bool)

  /** A live parquet file; `wal` is the WAL sequence in its object name, `broken` stands for any read error,
      min and max are the manifest's bounds. */
  datatype File = File(wal: nat, id: nat, path: Str, chunkTime: Time, min: Time, max: Time, rows: seq<FileRow>, broken: bool)

  /** A WAL row; `unknown` says that it carries a tag outside the series key. */
  datatype MemRow = MemRow(vals: seq<Col>, ts: Time, body: Payload, empty: bool, rank: nat, unknown: bool)

  datatype Table = Table(files: seq<File>, extra: map<Time, seq<MemRow>>)

  datatype Bucket = Bucket(ct: Time, files: seq<File>, extra: seq<MemRow>)

  // ---- orders ----

  predicate FileLess(a: File, b: File) {
    a.wal < b.wal || (a.wal == b.wal && (a.id < b.id || (a.id == b.id && StrLess(a.path, b.path))))
  }

  datatype Row = Row(key: Str, ts: Time, rank: nat, body: Payload)

  predicate RowLess(a: Row, b: Row) {
    StrLess(a.key, b.key) || (a.key == b.key && (a.ts < b.ts || (a.ts == b.ts && a.rank < b.rank)))
  }

  datatype Out = Out(series: Str, ts: Time, body: Payload)

  predicate OutLess(a: Out, b: Out) { StrLess(a.series, b.series) || (a.series == b.series && a.ts < b.ts) }

  lemma RowOrder()
    ensures Transitive(RowLess) && Asymmetric(RowLess)
  {
    hide StrLess;
    forall a, b, c | RowLess(a, b) && RowLess(b, c) ensures RowLess(a, c) {
      if StrLess(a.key, b.key) && StrLess(b.key, c.key) { StrTransitive(a.key, b.key, c.key); }
    }
    forall a, b ensures !(RowLess(a, b) && RowLess(b, a)) { StrOneWay(a.key, b.key); }
  }

  lemma StrOneWay(a: Str, b: Str)
    ensures !(StrLess(a, b) && StrLess(b, a)) && !StrLess(a, a)
  {
    StrTrichotomy(a, a);
    if StrLess(a, b) && StrLess(b, a) { StrTransitive(a, b, a); }
  }

  lemma FileOrder()
    ensures Transitive(FileLess) && Asymmetric(FileLess)
  {
    hide StrLess;
    forall a, b, c | FileLess(a, b) && FileLess(b, c) ensures FileLess(a, c) {
      if StrLess(a.path, b.path) && StrLess(b.path, c.path) { StrTransitive(a.path, b.path, c.path); }
    }
    forall a, b ensures !(FileLess(a, b) && FileLess(b, a)) { StrOneWay(a.path, b.path); }
  }

  // ---- buckets ----

  function FilesAt(fs: seq<File>, ct: Time): seq<File> {
    if fs == [] then [] else OnlyAt(fs[0], ct) + FilesAt(fs[1..], ct)
  }

  function OnlyAt(f: File, ct: Time): seq<File> { if f.chunkTime == ct then [f] else [] }

  function ChunkTimes(t: Table): set<Time> { (set i | 0 <= i < |t.files| :: t.files[i].chunkTime) + t.extra.Keys }

  function BucketAt(t: Table, ct: Time): Bucket {
    Bucket(ct, SortBy(FilesAt(t.files, ct), FileLess), if ct in t.extra then t.extra[ct] else [])
  }

  predicate BucketLess(a: Bucket, b: Bucket) { a.ct < b.ct }

  /** The buckets of a table: one per chunk time, ascending, with its files oldest write first. */
  ghost predicate Bucketized(t: Table, bs: seq<Bucket>) {
    && Strict(bs, BucketLess)
    && (forall b :: b in bs <==> b.ct in ChunkTimes(t) && b == BucketAt(t, b.ct))
  }

  /** There is only one such list. */
  lemma BucketizedOnce(t: Table, a: seq<Bucket>, b: seq<Bucket>)
    requires Bucketized(t, a) && Bucketized(t, b)
    ensures a == b
  {
    SortedOnce(a, b, BucketLess);
  }

  lemma {:induction false} FilesAtOneMore(fs: seq<File>, f: File, ct: Time)
    ensures FilesAt(fs + [f], ct) == FilesAt(fs, ct) + OnlyAt(f, ct)
    decreases |fs|
  {
    hide OnlyAt;
    if fs == [] {
      assert fs + [f] == [f] && [f][1..] == [];
    } else {
      assert (fs + [f])[1..] == fs[1..] + [f];
      FilesAtOneMore(fs[1..], f, ct);
    }
  }

  lemma OnlyThere(f: File)
    ensures OnlyAt(f, f.chunkTime) == [f] && forall ct: Time :: ct != f.chunkTime ==> OnlyAt(f, ct) == []
  {}

  lemma NoFilesAt(fs: seq<File>)
    ensures forall ct: Time :: FilesAt(fs[..0], ct) == []
  {}

  method GroupFiles(fs: seq<File>) returns (byCT: map<Time, seq<File>>)
    ensures byCT.Keys == set i | 0 <= i < |fs| :: fs[i].chunkTime
    ensures forall ct :: ct in byCT ==> byCT[ct] == FilesAt(fs, ct)
    ensures forall ct: Time :: ct !in byCT ==> FilesAt(fs, ct) == []
  {
    hide FilesAt, OnlyAt;
    byCT := map[];
    assert forall ct: Time :: FilesAt(fs[..0], ct) == [] by { NoFilesAt(fs); }
    for i := 0 to |fs|
      invariant byCT.Keys == set k | 0 <= k < i :: fs[k].chunkTime
      invariant forall ct :: ct in byCT ==> byCT[ct] == FilesAt(fs[..i], ct)
      invariant forall ct: Time :: ct !in byCT ==> FilesAt(fs[..i], ct) == []
    {
      TakeOneMore(fs, i);
      var f := fs[i];
      forall ct: Time ensures FilesAt(fs[..i + 1], ct) == FilesAt(fs[..i], ct) + OnlyAt(f, ct) {
        FilesAtOneMore(fs[..i], f, ct);
      }
      OnlyThere(f);
      byCT := byCT[f.chunkTime := (if f.chunkTime in byCT then byCT[f.chunkTime] else []) + [f]];
    }
    TakeAll(fs);
  }

  method Bucketize(t: Table) returns (bs: seq<Bucket>)
    ensures Bucketized(t, bs)
  {
    hide SortBy;
    var byCT := GroupFiles(t.files);
    var left := byCT.Keys + t.extra.Keys;
    assert left == ChunkTimes(t);
    bs := [];
    while left != {}
      invariant left <= ChunkTimes(t) && Strict(bs, BucketLess)
      invariant forall b :: b in bs <==> b.ct in ChunkTimes(t) - left && b == BucketAt(t, b.ct)
      decreases left
    {
      var ct :| ct in left;
      var b := Bucket(ct, SortBy(if ct in byCT then byCT[ct] else [], FileLess), if ct in t.extra then t.extra[ct] else []);
      assert b == BucketAt(t, ct);
      InsertByStrict(b, bs, BucketLess);
      forall x { InsertByMembers(b, bs, BucketLess, x); }
      bs := InsertBy(b, bs, BucketLess);
      left := left - {ct};
    }
  }

  /** No bucket's data reaches the next bucket's chunk time. */
  ghost predicate Disjoint(bs: seq<Bucket>) { forall i :: 0 <= i < |bs| - 1 ==> EndsBy(bs[i], bs[i + 1].ct) }

  ghost predicate EndsBy(b: Bucket, ct: Time) {
    (forall f :: f in b.files ==> f.max < ct) && (forall r :: r in b.extra ==> r.ts < ct)
  }

  method LatestOf(b: Bucket) returns (maxT: Time)
    ensures forall f :: f in b.files ==> f.max <= maxT
    ensures forall r :: r in b.extra ==> r.ts <= maxT
    ensures maxT == MIN_TIME || (exists f :: f in b.files && f.max == maxT) || (exists r :: r in b.extra && r.ts == maxT)
  {
    maxT := MIN_TIME;
    for i := 0 to |b.files|
      invariant forall k :: 0 <= k < i ==> b.files[k].max <= maxT
      invariant maxT == MIN_TIME || exists f :: f in b.files && f.max == maxT
    {
      if b.files[i].max > maxT { maxT := b.files[i].max; assert b.files[i] in b.files; }
    }
    for i := 0 to |b.extra|
      invariant forall f :: f in b.files ==> f.max <= maxT
      invariant forall k :: 0 <= k < i ==> b.extra[k].ts <= maxT
      invariant maxT == MIN_TIME || (exists f :: f in b.files && f.max == maxT) || (exists r :: r in b.extra && r.ts == maxT)
    {
      if b.extra[i].ts > maxT { maxT := b.extra[i].ts; assert b.extra[i] in b.extra; }
    }
  }

  method BucketsDisjoint(bs: seq<Bucket>) returns (ok: bool)
    requires Strict(bs, BucketLess)
    ensures ok <==> Disjoint(bs)
  {
    var i := 0;
    while i < |bs| - 1
      invariant 0 <= i && (i < |bs| || bs == [])
      invariant forall k :: 0 <= k < i && k + 1 < |bs| ==> EndsBy(bs[k], bs[k + 1].ct)
    {
      var maxT := LatestOf(bs[i]);
      assert bs[i].ct < bs[i + 1].ct;
      if maxT >= bs[i + 1].ct { return false; }
      i := i + 1;
    }
    ok := true;
  }

  // ---- rows of a bucket ----

  predicate Wanted(ts: Time, empty: bool, lo: Time, hi: Time) { lo <= ts <= hi && !empty }

  function FileRowOf(r: FileRow, rank: nat, lo: Time, hi: Time): seq<Row> {
    if Wanted(r.ts, r.empty, lo, hi) then [Row(OrderKeyOf(r.vals), r.ts, rank, r.body)] else []
  }

  function FileRows(rs: seq<FileRow>, rank: nat, lo: Time, hi: Time): seq<Row> {
    if rs == [] then [] else FileRowOf(rs[0], rank, lo, hi) + FileRows(rs[1..], rank, lo, hi)
  }

  function AllFileRows(fs: seq<File>, n: nat, lo: Time, hi: Time): seq<Row>
    requires n <= |fs|
  {
    if n == 0 then [] else AllFileRows(fs, n - 1, lo, hi) + FileRows(fs[n - 1].rows, n - 1, lo, hi)
  }

  /** WAL rows outrank every file. */
  function ExtraRowOf(r: MemRow, base: nat, lo: Time, hi: Time): seq<Row> {
    if Wanted(r.ts, r.empty, lo, hi) then [Row(OrderKeyOf(r.vals), r.ts, base + r.rank, r.body)] else []
  }

  function ExtraRows(rs: seq<MemRow>, base: nat, lo: Time, hi: Time): seq<Row> {
    if rs == [] then [] else ExtraRowOf(rs[0], base, lo, hi) + ExtraRows(rs[1..], base, lo, hi)
  }

  function BucketRows(b: Bucket, lo: Time, hi: Time): seq<Row> {
    AllFileRows(b.files, |b.files|, lo, hi) + ExtraRows(b.extra, |b.files|, lo, hi)
  }

  function SortedRows(b: Bucket, lo: Time, hi: Time): seq<Row> { SortBy(BucketRows(b, lo, hi), RowLess) }

  ghost predicate Readable(b: Bucket, lo: Time, hi: Time) {
    && (forall f :: f in b.files ==> !f.broken)
    && (forall r :: r in b.extra && Wanted(r.ts, r.empty, lo, hi) ==> !r.unknown)
  }

  lemma {:induction false} FileRowsOneMore(rs: seq<FileRow>, r: FileRow, rank: nat, lo: Time, hi: Time)
    ensures FileRows(rs + [r], rank, lo, hi) == FileRows(rs, rank, lo, hi) + FileRowOf(r, rank, lo, hi)
    decreases |rs|
  {
    if rs == [] {
      assert rs + [r] == [r] && [r][1..] == [];
    } else {
      assert (rs + [r])[1..] == rs[1..] + [r];
      FileRowsOneMore(rs[1..], r, rank, lo, hi);
    }
  }

  method ReadFile(f: File, rank: nat, lo: Time, hi: Time, rows0: seq<Row>) returns (ok: bool, rows: seq<Row>)
    ensures ok <==> !f.broken
    ensures ok ==> rows == rows0 + FileRows(f.rows, rank, lo, hi)
  {
    hide OrderKeyOf;
    rows := rows0;
    if f.broken { return false, rows; }
    for i := 0 to |f.rows|
      invariant rows == rows0 + FileRows(f.rows[..i], rank, lo, hi)
    {
      TakeOneMore(f.rows, i);
      var r := f.rows[i];
      FileRowsOneMore(f.rows[..i], r, rank, lo, hi);
      if lo <= r.ts <= hi && !r.empty {
        var key := BuildOrderKey(r.vals);
        rows := rows + [Row(key, r.ts, rank, r.body)];
      }
    }
    TakeAll(f.rows);
    ok := true;
  }

  lemma {:induction false} ExtraRowsOneMore(rs: seq<MemRow>, r: MemRow, base: nat, lo: Time, hi: Time)
    ensures ExtraRows(rs + [r], base, lo, hi) == ExtraRows(rs, base, lo, hi) + ExtraRowOf(r, base, lo, hi)
    decreases |rs|
  {
    if rs == [] {
      assert rs + [r] == [r] && [r][1..] == [];
    } else {
      assert (rs + [r])[1..] == rs[1..] + [r];
      ExtraRowsOneMore(rs[1..], r, base, lo, hi);
    }
  }

  method ReadExtra(rs: seq<MemRow>, base: nat, lo: Time, hi: Time, rows0: seq<Row>) returns (ok: bool, rows: seq<Row>)
    ensures ok <==> forall r :: r in rs && Wanted(r.ts, r.empty, lo, hi) ==> !r.unknown
    ensures ok ==> rows == rows0 + ExtraRows(rs, base, lo, hi)
  {
    hide OrderKeyOf;
    rows := rows0;
    for i := 0 to |rs|
      invariant rows == rows0 + ExtraRows(rs[..i], base, lo, hi)
      invariant forall k :: 0 <= k < i && Wanted(rs[k].ts, rs[k].empty, lo, hi) ==> !rs[k].unknown
    {
      TakeOneMore(rs, i);
      var r := rs[i];
      ExtraRowsOneMore(rs[..i], r, base, lo, hi);
      if r.ts < lo || r.ts > hi { continue; }
      if r.empty { continue; }
      assert r in rs;
      if r.unknown { return false, rows; }
      var key := BuildOrderKey(r.vals);
      rows := rows + [Row(key, r.ts, base + r.rank, r.body)];
    }
    TakeAll(rs);
    ok := true;
  }

  /** Every wanted row of the bucket in (series, time, rank) order. */
  method ReadBucket(b: Bucket, lo: Time, hi: Time) returns (ok: bool, rows: seq<Row>)
    ensures ok <==> Readable(b, lo, hi)
    ensures ok ==> rows == SortedRows(b, lo, hi)
  {
    rows := [];
    for i := 0 to |b.files|
      invariant rows == AllFileRows(b.files, i, lo, hi)
      invariant forall k :: 0 <= k < i ==> !b.files[k].broken
    {
      ok, rows := ReadFile(b.files[i], i, lo, hi, rows);
      assert b.files[i] in b.files;
      if !ok { return; }
    }
    ok, rows := ReadExtra(b.extra, |b.files|, lo, hi, rows);
    if !ok { return; }
    rows := SortBy(rows, RowLess);
  }

  // ---- last write wins ----

  predicate SameGroup(a: Row, b: Row) { a.key == b.key && a.ts == b.ts }

  /** The last row of its group among sorted rows. */
  predicate Wins(rows: seq<Row>, i: nat)
    requires i < |rows|
  {
    !(i + 1 < |rows| && SameGroup(rows[i + 1], rows[i]))
  }

  function OutOf(ct: Time, r: Row): Out { Out(FullKey(ct, r.key), r.ts, r.body) }

  /** The winners among the first n sorted rows, as emitted. */
  function Winners(ct: Time, rows: seq<Row>, n: nat): seq<Out>
    requires n <= |rows|
  {
    if n == 0 then [] else Winners(ct, rows, n - 1) + (if Wins(rows, n - 1) then [OutOf(ct, rows[n - 1])] else [])
  }

  function BucketOut(b: Bucket, lo: Time, hi: Time): seq<Out> {
    var rows := SortedRows(b, lo, hi);
    Winners(b.ct, rows, |rows|)
  }

  function AllOut(bs: seq<Bucket>, lo: Time, hi: Time): seq<Out> {
    if bs == [] then [] else AllOut(bs[..|bs| - 1], lo, hi) + BucketOut(bs[|bs| - 1], lo, hi)
  }

  /** Among sorted rows, a row wins exactly when its rank is the highest of its group. */
  lemma WinsMeaning(rows: seq<Row>, i: nat)
    requires Strict(rows, RowLess) && i < |rows|
    ensures Wins(rows, i) <==> forall k :: 0 <= k < |rows| && SameGroup(rows[k], rows[i]) ==> rows[k].rank <= rows[i].rank
  {
    forall k | 0 <= k < |rows| && SameGroup(rows[k], rows[i]) ensures Wins(rows, i) ==> rows[k].rank <= rows[i].rank {
      StrOneWay(rows[i].key, rows[i].key);
      if k < i { assert RowLess(rows[k], rows[i]); }
      if k > i {
        assert RowLess(rows[i], rows[i + 1]) && (k > i + 1 ==> RowLess(rows[i + 1], rows[k]));
        StrOneWay(rows[i].key, rows[i + 1].key);
      }
    }
    if i + 1 < |rows| && SameGroup(rows[i + 1], rows[i]) {
      assert RowLess(rows[i], rows[i + 1]);
      StrOneWay(rows[i].key, rows[i].key);
    }
  }

  lemma {:induction false} WinnersFrom(ct: Time, rows: seq<Row>, n: nat, o: Out)
    requires n <= |rows| && o in Winners(ct, rows, n)
    ensures exists i :: 0 <= i < n && Wins(rows, i) && o == OutOf(ct, rows[i])
    decreases n
  {
    hide OutOf;
    if o in Winners(ct, rows, n - 1) { WinnersFrom(ct, rows, n - 1, o); } else { assert Wins(rows, n - 1); }
  }

  /** The winners strictly ascend in (series, time). */
  lemma {:induction false} WinnersAscend(ct: Time, rows: seq<Row>, n: nat)
    requires Strict(rows, RowLess) && n <= |rows|
    ensures Strict(Winners(ct, rows, n), OutLess)
    decreases n
  {
    hide OutOf, OutLess, RowLess, Winners;
    assert Winners(ct, rows, 0) == [] by { EmitsNothing(ct, rows, FromStart); }
    if n > 0 {
      WinnersAscend(ct, rows, n - 1);
      NextWinner(ct, rows, n - 1);
      var ws, o := Winners(ct, rows, n - 1), OutOf(ct, rows[n - 1]);
      forall x | x in ws ensures OutLess(x, o) {
        WinnersFrom(ct, rows, n - 1, x);
        var i :| 0 <= i < n - 1 && Wins(rows, i) && x == OutOf(ct, rows[i]);
        WinnerBefore(ct, rows, i, n - 1);
      }
      if Wins(rows, n - 1) { StrictConcat(ws, [o], OutLess); }
    }
  }

  lemma WinnerBefore(ct: Time, rows: seq<Row>, i: nat, k: nat)
    requires Strict(rows, RowLess) && i < k < |rows| && Wins(rows, i)
    ensures OutLess(OutOf(ct, rows[i]), OutOf(ct, rows[k]))
  {
    hide FullKey, StrLess;
    WinsMeaning(rows, i);
    assert RowLess(rows[i], rows[k]);
    StrOneWay(rows[i].key, rows[i].key);
    FullKeyOrder(ct, rows[i].key, ct, rows[k].key);
  }

  lemma {:induction false} WinnersAll(ct: Time, rows: seq<Row>, n: nat, i: nat)
    requires i < n <= |rows| && Wins(rows, i)
    ensures OutOf(ct, rows[i]) in Winners(ct, rows, n)
    decreases n
  {
    if i < n - 1 { WinnersAll(ct, rows, n - 1, i); }
  }

  // ---- the whole emission ----

  /** What a table's data must satisfy: no two wanted rows of a bucket agree in series, time and rank. */
  ghost predicate Ranked(bs: seq<Bucket>, lo: Time, hi: Time) {
    forall b :: b in bs ==> Comparable(BucketRows(b, lo, hi), RowLess)
  }

  lemma SortedRowsSorted(b: Bucket, lo: Time, hi: Time)
    requires Comparable(BucketRows(b, lo, hi), RowLess)
    ensures Strict(SortedRows(b, lo, hi), RowLess)
  {
    RowOrder();
    SortByStrict(BucketRows(b, lo, hi), RowLess);
  }

  lemma BucketOutAscends(b: Bucket, lo: Time, hi: Time)
    requires Comparable(BucketRows(b, lo, hi), RowLess)
    ensures Strict(BucketOut(b, lo, hi), OutLess)
    ensures forall o :: o in BucketOut(b, lo, hi) ==> exists key :: o.series == FullKey(b.ct, key)
  {
    SortedRowsSorted(b, lo, hi);
    var rows := SortedRows(b, lo, hi);
    WinnersAscend(b.ct, rows, |rows|);
    forall o | o in BucketOut(b, lo, hi) ensures exists key :: o.series == FullKey(b.ct, key) { WinnersFrom(b.ct, rows, |rows|, o); }
  }

  /** Every bucket of the emission, and nothing else. */
  lemma {:induction false} AllOutMembers(bs: seq<Bucket>, lo: Time, hi: Time, o: Out)
    ensures o in AllOut(bs, lo, hi) <==> exists i :: 0 <= i < |bs| && o in BucketOut(bs[i], lo, hi)
    decreases |bs|
  {
    hide BucketOut;
    if bs != [] {
      var n := |bs| - 1;
      AllOutMembers(bs[..n], lo, hi, o);
      if o in AllOut(bs[..n], lo, hi) {
        var i :| 0 <= i < n && o in BucketOut(bs[..n][i], lo, hi);
        assert o in BucketOut(bs[i], lo, hi);
      }
      if i :| 0 <= i < |bs| && o in BucketOut(bs[i], lo, hi) {
        if i < n { assert o in BucketOut(bs[..n][i], lo, hi); }
      }
    }
  }

  /** The emission is strictly increasing in (series key, time). */
  lemma {:induction false} AllOutAscends(bs: seq<Bucket>, lo: Time, hi: Time)
    requires Strict(bs, BucketLess) && Ranked(bs, lo, hi)
    ensures Strict(AllOut(bs, lo, hi), OutLess)
    decreases |bs|
  {
    hide BucketOut, FullKey, StrLess;
    if bs != [] {
      var n := |bs| - 1;
      AllOutAscends(bs[..n], lo, hi);
      BucketOutAscends(bs[n], lo, hi);
      forall x, y | x in AllOut(bs[..n], lo, hi) && y in BucketOut(bs[n], lo, hi) ensures OutLess(x, y) {
        AllOutMembers(bs[..n], lo, hi, x);
        var i :| 0 <= i < n && x in BucketOut(bs[..n][i], lo, hi);
        assert bs[i] in bs && BucketLess(bs[i], bs[n]);
        BucketOutAscends(bs[i], lo, hi);
        var k :| x.series == FullKey(bs[i].ct, k);
        var m :| y.series == FullKey(bs[n].ct, m);
        FullKeyOrder(bs[i].ct, k, bs[n].ct, m);
      }
      StrictConcat(AllOut(bs[..n], lo, hi), BucketOut(bs[n], lo, hi), OutLess);
    }
  }

  // ---- the buckets an extraction works on ----

  ghost function BucketList(t: Table, cts: seq<Time>): (bs: seq<Bucket>)
    ensures |bs| == |cts| && forall i :: 0 <= i < |bs| ==> bs[i] == BucketAt(t, cts[i])
  {
    seq(|cts|, i requires 0 <= i < |cts| => BucketAt(t, cts[i]))
  }

  predicate TimeLess(a: Time, b: Time) { a < b }

  ghost function BucketsOf(t: Table): seq<Bucket> { BucketList(t, Sorted(ChunkTimes(t), TimeLess)) }

  lemma BucketListIs(t: Table, cts: seq<Time>, bs: seq<Bucket>)
    requires Strict(cts, TimeLess) && forall ct :: ct in cts <==> ct in ChunkTimes(t)
    requires |bs| == |cts| && forall i :: 0 <= i < |bs| ==> bs[i] == BucketAt(t, cts[i])
    ensures Bucketized(t, bs)
  {
    hide SortBy, ChunkTimes, FilesAt;
    forall i, j | 0 <= i < j < |bs| ensures BucketLess(bs[i], bs[j]) { assert TimeLess(cts[i], cts[j]); }
    forall b ensures b in bs <==> b.ct in ChunkTimes(t) && b == BucketAt(t, b.ct) {
      if b.ct in ChunkTimes(t) && b == BucketAt(t, b.ct) {
        var i :| 0 <= i < |cts| && cts[i] == b.ct;
        assert bs[i] == b;
      }
      if b in bs {
        var i :| 0 <= i < |bs| && bs[i] == b;
        assert cts[i] in cts;
      }
    }
  }

  lemma BucketsOfIs(t: Table)
    ensures Bucketized(t, BucketsOf(t))
    ensures BucketsOf(t) == [] <==> t.files == [] && t.extra == map[]
  {
    hide ChunkTimes, BucketAt, Bucketized;
    var cts := Sorted(ChunkTimes(t), TimeLess);
    BucketListIs(t, cts, BucketsOf(t));
    NoChunkTimes(t);
    assert cts == [] <==> ChunkTimes(t) == {} by { assert cts != [] ==> cts[0] in ChunkTimes(t); }
  }

  lemma NoChunkTimes(t: Table)
    ensures ChunkTimes(t) == {} <==> t.files == [] && t.extra == map[]
  {
    if t.files != [] { assert t.files[0].chunkTime in ChunkTimes(t); }
    if t.extra != map[] { assert t.extra.Keys != {}; }
  }

  function ExtraIn(t: Table, ks: seq<Time>): seq<MemRow>
    requires forall k :: k in ks ==> k in t.extra
  {
    if ks == [] then [] else ExtraIn(t, ks[..|ks| - 1]) + t.extra[ks[|ks| - 1]]
  }

  /** The buckets if they are disjoint, else one global merge; `ks` is the order in which the WAL rows' map
      is iterated. */
  ghost function Plan(t: Table, ks: seq<Time>): seq<Bucket>
    requires forall k :: k in ks ==> k in t.extra
  {
    var bs := BucketsOf(t);
    if Disjoint(bs) || bs == [] then bs else [Bucket(bs[0].ct, SortBy(t.files, FileLess), ExtraIn(t, ks))]
  }

  /** ks lists every chunk time of the WAL rows' map once: an order in which a run may iterate over the map. */
  ghost predicate Iterates(t: Table, ks: seq<Time>) {
    Once(ks) && forall k :: k in ks <==> k in t.extra
  }

  ghost function WalOrder(t: Table): (ks: seq<Time>)
    ensures Iterates(t, ks)
  {
    Sorted(t.extra.Keys, TimeLess)
  }

  /** The full emission of a table. No run's iteration order matters for it: `WalOrderIsIrrelevant`. */
  ghost function Emission(t: Table, lo: Time, hi: Time): seq<Out> { AllOut(Plan(t, WalOrder(t)), lo, hi) }

  /** The newest row of every (series, time) is determined. */
  ghost predicate RankedTable(t: Table, lo: Time, hi: Time) { Ranked(Plan(t, WalOrder(t)), lo, hi) }

  ghost predicate ReadableTable(t: Table, lo: Time, hi: Time) { AllReadable(Plan(t, WalOrder(t)), lo, hi) }

  // ---- the order of the WAL rows does not matter ----

  lemma {:induction false} ExtraInConcat(t: Table, a: seq<Time>, b: seq<Time>)
    requires (forall k :: k in a ==> k in t.extra) && (forall k :: k in b ==> k in t.extra)
    ensures ExtraIn(t, a + b) == ExtraIn(t, a) + ExtraIn(t, b)
    decreases |b|
  {
    if b == [] {
      assert a + b == a;
    } else {
      assert (a + b)[..|a + b| - 1] == a + b[..|b| - 1];
      ExtraInConcat(t, a, b[..|b| - 1]);
    }
  }

  lemma {:induction false} ExtraRowsConcat(a: seq<MemRow>, b: seq<MemRow>, base: nat, lo: Time, hi: Time)
    ensures ExtraRows(a + b, base, lo, hi) == ExtraRows(a, base, lo, hi) + ExtraRows(b, base, lo, hi)
    decreases |a|
  {
    hide ExtraRowOf;
    if a == [] {
      assert a + b == b;
    } else {
      assert (a + b)[1..] == a[1..] + b;
      ExtraRowsConcat(a[1..], b, base, lo, hi);
    }
  }

  /** Moving one chunk time to the end moves its rows there. */
  lemma MoveToEnd(t: Table, a: seq<Time>, k: Time, b: seq<Time>, base: nat, lo: Time, hi: Time)
    requires (forall x :: x in a + b ==> x in t.extra) && k in t.extra
    requires forall x :: x in a + [k] + b ==> x in t.extra
    ensures multiset(ExtraRows(ExtraIn(t, a + [k] + b), base, lo, hi)) ==
      multiset(ExtraRows(ExtraIn(t, a + b), base, lo, hi)) + multiset(ExtraRows(t.extra[k], base, lo, hi))
    ensures forall r :: r in ExtraIn(t, a + [k] + b) <==> r in ExtraIn(t, a + b) || r in t.extra[k]
  {
    hide ExtraRows;
    var x, y, z := ExtraIn(t, a), t.extra[k], ExtraIn(t, b);
    assert forall q :: q in a ==> q in a + b;
    assert forall q :: q in b ==> q in a + b;
    ExtraInConcat(t, a, b);
    ExtraInConcat(t, a + [k], b);
    assert (a + [k])[..|a|] == a;
    ExtraRowsConcat(x, z, base, lo, hi);
    ExtraRowsConcat(x + y, z, base, lo, hi);
    ExtraRowsConcat(x, y, base, lo, hi);
  }

  ghost predicate Once(ks: seq<Time>) { forall i, j :: 0 <= i < j < |ks| ==> ks[i] != ks[j] }

  /** The same chunk times without the last of ks, which is at position p of ls. */
  lemma TakeOut(ks: seq<Time>, ls: seq<Time>) returns (front: seq<Time>, rest: seq<Time>, p: nat)
    requires ks != [] && Once(ks) && Once(ls) && forall k :: k in ks <==> k in ls
    ensures p < |ls| && ls[p] == ks[|ks| - 1] && front == ks[..|ks| - 1] && rest == ls[..p] + ls[p + 1..]
    ensures Once(front) && Once(rest) && forall k :: k in front <==> k in rest
  {
    var n := |ks| - 1;
    assert ks[n] in ks;
    p :| 0 <= p < |ls| && ls[p] == ks[n];
    front, rest := ks[..n], ls[..p] + ls[p + 1..];
    assert ks[..n] + ks[n + 1..] == front;
    forall x ensures x in front <==> x in rest { WithoutOne(ks, n, x); WithoutOne(ls, p, x); }
  }

  /** The rows of the merged bucket are the same, in another order. */
  lemma {:induction false} SameWalRows(t: Table, ks: seq<Time>, ls: seq<Time>, base: nat, lo: Time, hi: Time)
    requires (forall k :: k in ks ==> k in t.extra) && (forall k :: k in ks <==> k in ls) && Once(ks) && Once(ls)
    ensures multiset(ExtraRows(ExtraIn(t, ks), base, lo, hi)) == multiset(ExtraRows(ExtraIn(t, ls), base, lo, hi))
    ensures forall r :: r in ExtraIn(t, ks) <==> r in ExtraIn(t, ls)
    decreases |ks|
  {
    hide ExtraRows, ExtraIn;
    if ks != [] || ls != [] {
      assert ls != [] ==> ls[0] in ks;
      assert ks != [] ==> ks[0] in ls;
      var front, rest, p := TakeOut(ks, ls);
      hide Once;
      var k, a, b := ks[|ks| - 1], ls[..p], ls[p + 1..];
      assert ks == front + [k] + [] && front + [] == front && ls == a + [k] + b;
      SameWalRows(t, front, rest, base, lo, hi);
      MoveToEnd(t, front, k, [], base, lo, hi);
      MoveToEnd(t, a, k, b, base, lo, hi);
    }
  }

  lemma WithoutOne(s: seq<Time>, p: nat, x: Time)
    requires p < |s| && Once(s)
    ensures x in s[..p] + s[p + 1..] <==> x in s && x != s[p]
  {
    if x in s && x != s[p] {
      var i :| 0 <= i < |s| && s[i] == x;
      assert if i < p then s[..p][i] == x else s[p + 1..][i - p - 1] == x;
    }
  }

  lemma {:induction false} TwoPlaces(s: seq<Row>, x: Row)
    requires multiset(s)[x] >= 2
    ensures exists i, j :: 0 <= i < j < |s| && s[i] == x && s[j] == x
    decreases |s|
  {
    var t := s[1..];
    assert s == [s[0]] + t;
    if s[0] == x {
      assert x in t;
      var j :| 0 <= j < |t| && t[j] == x;
      assert s[0] == x && s[j + 1] == x;
    } else {
      TwoPlaces(t, x);
      var i, j :| 0 <= i < j < |t| && t[i] == x && t[j] == x;
      assert s[i + 1] == x && s[j + 1] == x;
    }
  }

  lemma TwoEqual(s: seq<Row>, i: nat, j: nat)
    requires i < j < |s| && s[i] == s[j]
    ensures multiset(s)[s[i]] >= 2
  {
    assert s == s[..j] + [s[j]] + s[j + 1..] && s[..j][i] == s[i];
    assert s[i] in s[..j];
  }

  /** Whether any two rows are equivalent does not depend on their order. */
  lemma ComparablePermuted(a: seq<Row>, b: seq<Row>)
    requires Comparable(a, RowLess) && multiset(a) == multiset(b)
    ensures Comparable(b, RowLess)
  {
    hide RowLess;
    forall i, j | 0 <= i < j < |b| ensures RowLess(b[i], b[j]) || RowLess(b[j], b[i]) {
      if b[i] == b[j] {
        TwoEqual(b, i, j);
        TwoPlaces(a, b[i]);
      } else {
        assert b[i] in multiset(a) && b[j] in multiset(a);
        var x :| 0 <= x < |a| && a[x] == b[i];
        var y :| 0 <= y < |a| && a[y] == b[j];
      }
    }
  }

  /** Buckets with the same rows emit the same. */
  lemma SameRowsSameOut(b: Bucket, c: Bucket, lo: Time, hi: Time)
    requires b.ct == c.ct && multiset(BucketRows(b, lo, hi)) == multiset(BucketRows(c, lo, hi))
    requires Comparable(BucketRows(b, lo, hi), RowLess)
    ensures Comparable(BucketRows(c, lo, hi), RowLess) && BucketOut(b, lo, hi) == BucketOut(c, lo, hi)
  {
    hide BucketRows, RowLess;
    var x, y := BucketRows(b, lo, hi), BucketRows(c, lo, hi);
    ComparablePermuted(x, y);
    SortedRowsSorted(b, lo, hi);
    SortedRowsSorted(c, lo, hi);
    forall r ensures r in SortBy(x, RowLess) <==> r in SortBy(y, RowLess) {
      SortByMembers(x, RowLess, r);
      SortByMembers(y, RowLess, r);
      assert r in x <==> r in multiset(x);
      assert r in y <==> r in multiset(y);
    }
    RowOrder();
    SortedOnce(SortBy(x, RowLess), SortBy(y, RowLess), RowLess);
  }

  lemma OneBucketOut(b: Bucket, lo: Time, hi: Time)
    ensures AllOut([b], lo, hi) == BucketOut(b, lo, hi)
  {
    hide BucketOut;
    assert [b][..0] == [] && AllOut([b][..0], lo, hi) == [];
  }

  /** In whatever order two runs iterate over the map of WAL rows, they can read the same and emit the same. */
  lemma WalOrderIsIrrelevant(t: Table, ks: seq<Time>, ls: seq<Time>, lo: Time, hi: Time)
    requires Iterates(t, ks) && Iterates(t, ls) && Ranked(Plan(t, ks), lo, hi)
    ensures Ranked(Plan(t, ls), lo, hi) && AllOut(Plan(t, ks), lo, hi) == AllOut(Plan(t, ls), lo, hi)
    ensures AllReadable(Plan(t, ks), lo, hi) <==> AllReadable(Plan(t, ls), lo, hi)
  {
    hide BucketOut, BucketsOf, Disjoint, SortBy, AllFileRows, ExtraRows, ExtraIn;
    if !Disjoint(BucketsOf(t)) && BucketsOf(t) != [] {
      var b, c := Plan(t, ks)[0], Plan(t, ls)[0];
      SameWalRows(t, ks, ls, |b.files|, lo, hi);
      SameRowsSameOut(b, c, lo, hi);
      OneBucketOut(b, lo, hi);
      OneBucketOut(c, lo, hi);
      assert Readable(b, lo, hi) <==> Readable(c, lo, hi);
    }
  }

  // ---- resuming ----

  predicate Past(cur: Resume, o: Out) {
    cur.FromStart? || StrLess(cur.cur.series, o.series) || (cur.cur.series == o.series && cur.cur.ts < o.ts)
  }

  /** What lies behind the cursor. */
  function Behind(outs: seq<Out>, cur: Resume): seq<Out> {
    if outs == [] then []
    else Behind(outs[..|outs| - 1], cur) + (if Past(cur, outs[|outs| - 1]) then [outs[|outs| - 1]] else [])
  }

  predicate AtCursor(cur: Resume, o: Out) { cur.After? && o.series == cur.cur.series && o.ts == cur.cur.ts }

  /** The cursor is a position of this output (or there is no cursor). */
  predicate HasPos(outs: seq<Out>, cur: Resume) {
    cur.FromStart? || exists i :: 0 <= i < |outs| && AtCursor(cur, outs[i])
  }

  lemma {:induction false} BehindConcat(a: seq<Out>, b: seq<Out>, cur: Resume)
    ensures Behind(a + b, cur) == Behind(a, cur) + Behind(b, cur)
    decreases |b|
  {
    if b == [] {
      assert a + b == a;
    } else {
      assert (a + b)[..|a + b| - 1] == a + b[..|b| - 1];
      BehindConcat(a, b[..|b| - 1], cur);
    }
  }

  lemma HasPosConcat(a: seq<Out>, b: seq<Out>, cur: Resume)
    ensures HasPos(a + b, cur) <==> HasPos(a, cur) || HasPos(b, cur)
  {
    assert forall i :: 0 <= i < |a| ==> (a + b)[i] == a[i];
    assert forall i :: 0 <= i < |b| ==> (a + b)[|a| + i] == b[i];
    if i :| 0 <= i < |a + b| && AtCursor(cur, (a + b)[i]) {
      assert i >= |a| ==> b[i - |a|] == (a + b)[i];
    }
  }

  lemma {:induction false} NoneBehind(outs: seq<Out>, cur: Resume)
    requires forall o :: o in outs ==> !Past(cur, o)
    ensures Behind(outs, cur) == []
    decreases |outs|
  {
    if outs != [] {
      assert outs[|outs| - 1] in outs;
      NoneBehind(outs[..|outs| - 1], cur);
    }
  }

  lemma {:induction false} AllBehind(outs: seq<Out>, cur: Resume)
    requires forall o :: o in outs ==> Past(cur, o)
    ensures Behind(outs, cur) == outs
    decreases |outs|
  {
    if outs != [] {
      assert outs[|outs| - 1] in outs;
      AllBehind(outs[..|outs| - 1], cur);
    }
  }

  lemma OutOneWay(a: Out, b: Out)
    requires OutLess(a, b)
    ensures !OutLess(b, a) && !(a.series == b.series && a.ts == b.ts)
  {
    StrOneWay(a.series, b.series);
  }

  /** Resuming behind an emitted position yields exactly what follows it. */
  lemma BehindIsSuffix(all: seq<Out>, i: nat)
    requires Strict(all, OutLess) && i < |all|
    ensures Behind(all, After(Cursor(all[i].series, all[i].ts))) == all[i + 1..]
  {
    hide StrLess;
    var cur := After(Cursor(all[i].series, all[i].ts));
    var a, b := all[..i + 1], all[i + 1..];
    assert all == a + b;
    BehindConcat(a, b, cur);
    forall o | o in a ensures !Past(cur, o) {
      var k :| 0 <= k < |a| && a[k] == o;
      StrOneWay(o.series, o.series);
      if k < i { assert OutLess(all[k], all[i]); OutOneWay(o, all[i]); }
    }
    NoneBehind(a, cur);
    forall o | o in b ensures Past(cur, o) {
      var k :| 0 <= k < |b| && b[k] == o;
      assert OutLess(all[i], all[i + 1 + k]);
    }
    AllBehind(b, cur);
  }

  /** Once a point past the cursor was reached, the cursor does not appear any more. */
  lemma NotLater(all: seq<Out>, m: nat, cur: Resume)
    requires Strict(all, OutLess) && m < |all| && Past(cur, all[m]) && !HasPos(all[..m], cur)
    ensures !HasPos(all, cur)
  {
    hide StrLess;
    forall i | 0 <= i < |all| ensures !AtCursor(cur, all[i]) {
      if i < m { assert all[..m][i] == all[i]; } else {
        if i > m { assert OutLess(all[m], all[i]); }
        PastNotAt(cur, all[m], all[i]);
      }
    }
  }

  lemma PastNotAt(cur: Resume, p: Out, o: Out)
    requires cur.After? && Past(cur, p) && (o == p || OutLess(p, o))
    ensures !AtCursor(cur, o)
  {
    StrOneWay(p.series, o.series);
    StrOneWay(cur.cur.series, p.series);
    if StrLess(cur.cur.series, p.series) && StrLess(p.series, o.series) { StrTransitive(cur.cur.series, p.series, o.series); }
    StrOneWay(cur.cur.series, o.series);
  }

  // ---- the extraction ----

  datatype Outcome = Done | NotACursor | BucketGone | CursorNotFound | ReadFailed

  lemma WinnersPrefix(ct: Time, rows: seq<Row>, n: nat, m: nat)
    requires n <= m <= |rows|
    ensures Winners(ct, rows, n) <= Winners(ct, rows, m)
  {
    if n < m { WinnersPrefix(ct, rows, n, m - 1); }
  }

  lemma OneMore(outs: seq<Out>, o: Out, cur: Resume)
    ensures Behind(outs + [o], cur) == if Past(cur, o) then Behind(outs, cur) + [o] else Behind(outs, cur)
    ensures HasPos(outs + [o], cur) <==> HasPos(outs, cur) || AtCursor(cur, o)
  {
    BehindConcat(outs, [o], cur);
    assert [o][..0] == [] && Behind([o][..0], cur) == [];
    HasPosConcat(outs, [o], cur);
    if AtCursor(cur, o) { assert AtCursor(cur, [o][0]); }
  }

  /** A winner past the cursor was reached without having seen the cursor. */
  ghost predicate Missed(ct: Time, rows: seq<Row>, n: nat, cur: Resume)
    requires n < |rows|
  {
    Wins(rows, n) && Past(cur, OutOf(ct, rows[n])) && !HasPos(Winners(ct, rows, n), cur)
  }

  /** Emit one bucket's winners behind the cursor; fail at the first of them if the cursor was not seen. */
  method EmitRows(ct: Time, rows: seq<Row>, cur: Resume, seen0: bool, out0: seq<Out>) returns (ok: bool, seen: bool, out: seq<Out>)
    requires cur.FromStart? ==> seen0
    ensures ok ==> out == out0 + Behind(Winners(ct, rows, |rows|), cur) && (seen <==> seen0 || HasPos(Winners(ct, rows, |rows|), cur))
    ensures ok && !seen ==> out == out0
    ensures !ok ==> out == out0 && !seen0
    ensures !ok ==> exists n :: 0 <= n < |rows| && Missed(ct, rows, n, cur)
  {
    hide Behind, HasPos, FullKey, Winners;
    seen, out := seen0, out0;
    assert Winners(ct, rows, 0) == [] && Behind([], cur) == [] && (HasPos([], cur) <==> cur.FromStart?) by { EmitsNothing(ct, rows, cur); }
    for i := 0 to |rows|
      invariant out == out0 + Behind(Winners(ct, rows, i), cur)
      invariant seen <==> seen0 || HasPos(Winners(ct, rows, i), cur)
      invariant !seen ==> out == out0
    {
      var r := rows[i];
      NextWinner(ct, rows, i);
      OneMore(Winners(ct, rows, i), OutOf(ct, r), cur);
      if i + 1 < |rows| && rows[i + 1].key == r.key && rows[i + 1].ts == r.ts { continue; }
      var seriesKey := FullKey(ct, r.key);
      if cur.After? {
        StrTrichotomy(seriesKey, cur.cur.series);
        StrOneWay(seriesKey, cur.cur.series);
        if StrLess(seriesKey, cur.cur.series) || (seriesKey == cur.cur.series && r.ts <= cur.cur.ts) {
          if seriesKey == cur.cur.series && r.ts == cur.cur.ts { seen := true; }
          continue;
        }
        if !seen { assert Missed(ct, rows, i, cur); return false, seen, out; }
      }
      out := out + [Out(seriesKey, r.ts, r.body)];
    }
    ok := true;
  }

  lemma EmitsNothing(ct: Time, rows: seq<Row>, cur: Resume)
    ensures Winners(ct, rows, 0) == [] && Behind([], cur) == [] && (HasPos([], cur) <==> cur.FromStart?)
  {}

  lemma NextWinner(ct: Time, rows: seq<Row>, i: nat)
    requires i < |rows|
    ensures Winners(ct, rows, i + 1) == if Wins(rows, i) then Winners(ct, rows, i) + [OutOf(ct, rows[i])] else Winners(ct, rows, i)
  {}

  ghost predicate Touches(b: Bucket, lo: Time, hi: Time) {
    b.extra != [] || exists f :: f in b.files && f.min <= hi && f.max >= lo
  }

  method InRange(b: Bucket, lo: Time, hi: Time) returns (yes: bool)
    ensures yes <==> Touches(b, lo, hi)
  {
    yes := |b.extra| > 0;
    for i := 0 to |b.files|
      invariant yes <==> b.extra != [] || exists k :: 0 <= k < i && b.files[k].min <= hi && b.files[k].max >= lo
    {
      if b.files[i].min <= hi && b.files[i].max >= lo {
        assert b.files[i] in b.files;
        return true;
      }
    }
  }

  /** The manifests bound their files' rows. */
  ghost predicate Manifest(fs: seq<File>) {
    forall f :: f in fs ==> forall r :: r in f.rows ==> f.min <= r.ts <= f.max
  }

  lemma {:induction false} OutsideFile(rs: seq<FileRow>, rank: nat, lo: Time, hi: Time)
    requires forall r :: r in rs ==> !Wanted(r.ts, r.empty, lo, hi)
    ensures FileRows(rs, rank, lo, hi) == []
    decreases |rs|
  {
    if rs != [] { OutsideFile(rs[1..], rank, lo, hi); }
  }

  lemma {:induction false} OutsideFiles(fs: seq<File>, n: nat, lo: Time, hi: Time)
    requires n <= |fs| && Manifest(fs) && forall f :: f in fs ==> !(f.min <= hi && f.max >= lo)
    ensures AllFileRows(fs, n, lo, hi) == []
    decreases n
  {
    hide FileRows;
    if n > 0 {
      OutsideFiles(fs, n - 1, lo, hi);
      var f := fs[n - 1];
      assert f in fs;
      forall r | r in f.rows ensures !Wanted(r.ts, r.empty, lo, hi) { assert f.min <= r.ts <= f.max; }
      OutsideFile(f.rows, n - 1, lo, hi);
    }
  }

  /** A skipped bucket would have emitted nothing. */
  lemma UntouchedIsEmpty(b: Bucket, lo: Time, hi: Time)
    requires Manifest(b.files) && !Touches(b, lo, hi)
    ensures BucketOut(b, lo, hi) == []
  {
    OutsideFiles(b.files, |b.files|, lo, hi);
  }

  // ---- the cursor's bucket ----

  /** The index of the first bar, -1 if there is none. */
  function IndexOfBar(s: Str): (i: int)
    ensures -1 <= i < |s| && (i >= 0 ==> s[i] == BAR) && forall k :: 0 <= k < (if i < 0 then |s| else i) ==> s[k] != BAR
  {
    if s == [] then -1
    else if s[0] == BAR then 0
    else
      var i := IndexOfBar(s[1..]);
      assert forall k :: 0 < k < |s| ==> s[k] == s[1..][k - 1];
      if i < 0 then -1 else i + 1
  }

  lemma {:induction false} DigitsAreDigits(n: nat, width: nat)
    ensures forall k :: 0 <= k < width ==> 48 <= Digits(n, width)[k] < 58
    decreases width
  {
    if width > 0 { DigitsAreDigits(n / 10, width - 1); }
  }

  lemma BarAt20(ct: Time, key: Str)
    ensures IndexOfBar(FullKey(ct, key)) == 20 && FullKey(ct, key)[..20] == BucketPrefix(ct)
  {
    var s := FullKey(ct, key);
    DigitsAreDigits(ct + 0x8000_0000_0000_0000, 20);
    assert forall k :: 0 <= k < 20 ==> s[k] == BucketPrefix(ct)[k];
    assert s[20] == BAR;
  }

  /** A bucket with a smaller prefix lies before the cursor, one with another prefix does not hold it. */
  lemma OtherBucket(b: Bucket, lo: Time, hi: Time, cur: Resume)
    requires Comparable(BucketRows(b, lo, hi), RowLess) && cur.After?
    requires IndexOfBar(cur.cur.series) != 20 || cur.cur.series[..20] != BucketPrefix(b.ct)
    ensures !HasPos(BucketOut(b, lo, hi), cur)
    ensures IndexOfBar(cur.cur.series) == 20 && StrLess(BucketPrefix(b.ct), cur.cur.series[..20]) ==>
      Behind(BucketOut(b, lo, hi), cur) == []
  {
    hide BucketOut, FullKey, StrLess, IndexOfBar, BucketPrefix;
    BucketOutAscends(b, lo, hi);
    var outs, c := BucketOut(b, lo, hi), cur.cur.series;
    forall o | o in outs ensures o.series != c {
      var key :| o.series == FullKey(b.ct, key);
      BarAt20(b.ct, key);
    }
    assert forall i :: 0 <= i < |outs| ==> outs[i] in outs;
    if IndexOfBar(c) == 20 && StrLess(BucketPrefix(b.ct), c[..20]) {
      forall o | o in outs ensures !Past(cur, o) {
        var key :| o.series == FullKey(b.ct, key);
        BarAt20(b.ct, key);
        assert o.series == BucketPrefix(b.ct) + o.series[20..] && c == c[..20] + c[20..];
        EqualLengthPrefix(BucketPrefix(b.ct), c[..20], o.series[20..], c[20..]);
        StrOneWay(o.series, c);
      }
      NoneBehind(outs, cur);
    }
  }

  // ---- all buckets ----

  ghost predicate AllReadable(bs: seq<Bucket>, lo: Time, hi: Time) {
    forall b :: b in bs ==> Readable(b, lo, hi)
  }

  lemma AllOutOneMore(bs: seq<Bucket>, i: nat, lo: Time, hi: Time, cur: Resume)
    requires i < |bs|
    ensures AllOut(bs[..i + 1], lo, hi) == AllOut(bs[..i], lo, hi) + BucketOut(bs[i], lo, hi)
    ensures Behind(AllOut(bs[..i + 1], lo, hi), cur) == Behind(AllOut(bs[..i], lo, hi), cur) + Behind(BucketOut(bs[i], lo, hi), cur)
    ensures HasPos(AllOut(bs[..i + 1], lo, hi), cur) <==> HasPos(AllOut(bs[..i], lo, hi), cur) || HasPos(BucketOut(bs[i], lo, hi), cur)
  {
    hide BucketOut, Behind, HasPos;
    assert bs[..i + 1][..i] == bs[..i];
    BehindConcat(AllOut(bs[..i], lo, hi), BucketOut(bs[i], lo, hi), cur);
    HasPosConcat(AllOut(bs[..i], lo, hi), BucketOut(bs[i], lo, hi), cur);
  }

  lemma {:induction false} AllOutPrefix(bs: seq<Bucket>, i: nat, lo: Time, hi: Time, cur: Resume)
    requires i <= |bs|
    ensures AllOut(bs[..i], lo, hi) <= AllOut(bs, lo, hi) && Behind(AllOut(bs[..i], lo, hi), cur) <= Behind(AllOut(bs, lo, hi), cur)
    decreases |bs| - i
  {
    hide BucketOut, Behind;
    if i < |bs| {
      AllOutOneMore(bs, i, lo, hi, cur);
      AllOutPrefix(bs, i + 1, lo, hi, cur);
    } else {
      assert bs[..i] == bs;
    }
  }

  /** Reaching a point past the cursor unseen means that the cursor is no position of the emission. */
  lemma MissedMeansAbsent(bs: seq<Bucket>, i: nat, lo: Time, hi: Time, cur: Resume, n: nat)
    requires Strict(bs, BucketLess) && Ranked(bs, lo, hi) && i < |bs| && cur.After?
    requires !HasPos(AllOut(bs[..i], lo, hi), cur) && n < |SortedRows(bs[i], lo, hi)| && Missed(bs[i].ct, SortedRows(bs[i], lo, hi), n, cur)
    ensures !HasPos(AllOut(bs, lo, hi), cur)
  {
    hide SortedRows, HasPos, Past, FullKey, OutLess, Behind;
    var rows := SortedRows(bs[i], lo, hi);
    var a, w := AllOut(bs[..i], lo, hi), Winners(bs[i].ct, rows, n);
    AllOutOneMore(bs, i, lo, hi, cur);
    AllOutPrefix(bs, i + 1, lo, hi, cur);
    NextWinner(bs[i].ct, rows, n);
    WinnersPrefix(bs[i].ct, rows, n + 1, |rows|);
    var all := AllOut(bs, lo, hi);
    AllOutAscends(bs, lo, hi);
    HasPosConcat(a, w, cur);
    assert all[..|a + w|] == a + w && all[|a + w|] == OutOf(bs[i].ct, rows[n]);
    NotLater(all, |a + w|, cur);
  }

  /** Is there a bucket with the cursor's prefix? */
  method FindBucket(bs: seq<Bucket>, prefix: Str) returns (found: bool)
    ensures found <==> exists b :: b in bs && BucketPrefix(b.ct) == prefix
  {
    hide BucketPrefix;
    for i := 0 to |bs|
      invariant forall k :: 0 <= k < i ==> BucketPrefix(bs[k].ct) != prefix
    {
      if BucketPrefix(bs[i].ct) == prefix { assert bs[i] in bs; return true; }
    }
    found := false;
  }

  lemma {:induction false} NoBucketHasIt(bs: seq<Bucket>, lo: Time, hi: Time, cur: Resume)
    requires Ranked(bs, lo, hi) && cur.After?
    requires IndexOfBar(cur.cur.series) != 20 || forall b :: b in bs ==> cur.cur.series[..20] != BucketPrefix(b.ct)
    ensures !HasPos(AllOut(bs, lo, hi), cur)
  {
    hide BucketOut, BucketPrefix, IndexOfBar;
    forall k | 0 <= k < |AllOut(bs, lo, hi)| ensures !AtCursor(cur, AllOut(bs, lo, hi)[k]) {
      var o := AllOut(bs, lo, hi)[k];
      AllOutMembers(bs, lo, hi, o);
      var i :| 0 <= i < |bs| && o in BucketOut(bs[i], lo, hi);
      assert bs[i] in bs;
      OtherBucket(bs[i], lo, hi, cur);
      var m :| 0 <= m < |BucketOut(bs[i], lo, hi)| && BucketOut(bs[i], lo, hi)[m] == o;
    }
  }

  /** The bucket lies wholly before the cursor. */
  predicate Earlier(b: Bucket, cur: Resume) {
    cur.After? && |cur.cur.series| >= 20 && StrLess(BucketPrefix(b.ct), cur.cur.series[..20])
  }

  /** Every bucket in range, from the cursor's on, could be read. */
  ghost predicate ReadWell(bs: seq<Bucket>, lo: Time, hi: Time, cur: Resume) {
    forall b :: b in bs && Touches(b, lo, hi) && !Earlier(b, cur) ==> Readable(b, lo, hi)
  }

  /** Extraction over the planned buckets. It succeeds with a cursor exactly when the cursor is a position
      of the full emission, and then emits exactly what follows it; a cursor that is not one is refused
      before anything is emitted. After `failAfter` buckets were read, reading fails. */
  method EmitBuckets(bs: seq<Bucket>, lo: Time, hi: Time, cur: Resume, failAfter: nat) returns (r: Outcome, out: seq<Out>)
    requires Strict(bs, BucketLess) && Ranked(bs, lo, hi) && forall b :: b in bs ==> Manifest(b.files)
    ensures r.Done? ==> out == Behind(AllOut(bs, lo, hi), cur) && HasPos(AllOut(bs, lo, hi), cur) && ReadWell(bs, lo, hi, cur)
    ensures r.ReadFailed? ==> out <= Behind(AllOut(bs, lo, hi), cur) && (!AllReadable(bs, lo, hi) || failAfter < |bs|)
    ensures r.NotACursor? || r.BucketGone? || r.CursorNotFound? ==> out == [] && !HasPos(AllOut(bs, lo, hi), cur)
    ensures r.NotACursor? <==> cur.After? && IndexOfBar(cur.cur.series) != 20
    ensures r.BucketGone? <==> cur.After? && IndexOfBar(cur.cur.series) == 20 && forall b :: b in bs ==> BucketPrefix(b.ct) != cur.cur.series[..20]
  {
    hide Behind, HasPos, AllOut, BucketOut, SortedRows, BucketPrefix, IndexOfBar, Readable, Manifest, Missed, StrLess, Touches,
      Earlier, ReadWell, AllReadable;
    out := [];
    var curPrefix: Str := [];
    var seen := cur.FromStart?;
    if cur.After? {
      var i := IndexOfBar(cur.cur.series);
      if i != 20 { NoBucketHasIt(bs, lo, hi, cur); return NotACursor, out; }
      curPrefix := cur.cur.series[..20];
      var found := FindBucket(bs, curPrefix);
      if !found { NoBucketHasIt(bs, lo, hi, cur); return BucketGone, out; }
    }
    NothingYet(bs, lo, hi, cur);
    assert ReadWell(bs[..0], lo, hi, cur) by { NoneRead(lo, hi, cur); }
    var done := 0;
    for i := 0 to |bs|
      invariant out == Behind(AllOut(bs[..i], lo, hi), cur)
      invariant seen <==> HasPos(AllOut(bs[..i], lo, hi), cur)
      invariant (!seen ==> out == []) && (cur.FromStart? ==> seen) && done <= i
      invariant ReadWell(bs[..i], lo, hi, cur)
    {
      var b := bs[i];
      assert b in bs;
      AllOutOneMore(bs, i, lo, hi, cur);
      AllOutPrefix(bs, i, lo, hi, cur);
      OneMoreRead(bs, i, lo, hi, cur);
      var prefix := BucketPrefix(b.ct);
      if cur.After? && StrLess(prefix, curPrefix) {
        StrOneWay(prefix, curPrefix);
        OtherBucket(b, lo, hi, cur);
        assert out + [] == out;
        continue;
      }
      var inRange := InRange(b, lo, hi);
      if !inRange {
        UntouchedIsEmpty(b, lo, hi);
        NothingBehind(cur);
        assert out + [] == out;
        continue;
      }
      if done >= failAfter { return ReadFailed, out; }
      var ok, rows := ReadBucket(b, lo, hi);
      if !ok { return ReadFailed, out; }
      done := done + 1;
      BucketOutIs(b, lo, hi);
      ok, seen, out := EmitRows(b.ct, rows, cur, seen, out);
      if !ok {
        ghost var n :| 0 <= n < |rows| && Missed(b.ct, rows, n, cur);
        MissedMeansAbsent(bs, i, lo, hi, cur, n);
        return CursorNotFound, out;
      }
    }
    TakeAll(bs);
    r := if seen then Done else CursorNotFound;
  }

  lemma NoneRead(lo: Time, hi: Time, cur: Resume)
    ensures ReadWell([], lo, hi, cur)
  {}

  lemma OneMoreRead(bs: seq<Bucket>, i: nat, lo: Time, hi: Time, cur: Resume)
    requires i < |bs|
    ensures ReadWell(bs[..i], lo, hi, cur) && (Touches(bs[i], lo, hi) && !Earlier(bs[i], cur) ==> Readable(bs[i], lo, hi))
      ==> ReadWell(bs[..i + 1], lo, hi, cur)
    ensures cur.After? && |cur.cur.series| >= 20 && StrLess(BucketPrefix(bs[i].ct), cur.cur.series[..20]) ==> Earlier(bs[i], cur)
    ensures !Readable(bs[i], lo, hi) ==> !AllReadable(bs, lo, hi)
  {
    hide Readable, Touches, StrLess, BucketPrefix;
    assert bs[i] in bs;
    assert forall b :: b in bs[..i + 1] <==> b in bs[..i] || b == bs[i];
  }

  lemma BucketOutIs(b: Bucket, lo: Time, hi: Time)
    ensures BucketOut(b, lo, hi) == Winners(b.ct, SortedRows(b, lo, hi), |SortedRows(b, lo, hi)|)
  {}

  lemma NothingBehind(cur: Resume)
    ensures Behind([], cur) == [] && (HasPos([], cur) <==> cur.FromStart?)
  {}

  lemma NothingYet(bs: seq<Bucket>, lo: Time, hi: Time, cur: Resume)
    ensures Behind(AllOut(bs[..0], lo, hi), cur) == [] && (HasPos(AllOut(bs[..0], lo, hi), cur) <==> cur.FromStart?)
  {}

  /** Extraction of a table, iterating over the WAL rows' map in the order ks. An empty table is done before
      its cursor is looked at; otherwise a cursor is either an emitted position, and the output is what
      follows it, or an error. Nothing depends on ks. Reading fails once `failAfter` buckets were read. */
  method Extract(t: Table, lo: Time, hi: Time, cur: Resume, ks: seq<Time>, failAfter: nat) returns (r: Outcome, out: seq<Out>)
    requires Iterates(t, ks) && Manifest(t.files) && RankedTable(t, lo, hi)
    ensures t.files == [] && t.extra == map[] ==> r.Done? && out == []
    ensures t.files != [] || t.extra != map[] ==>
      var all := Emission(t, lo, hi);
      && (r.Done? ==> HasPos(all, cur) && out == Behind(all, cur) && ReadWell(Plan(t, ks), lo, hi, cur))
      && (r.ReadFailed? ==> out <= Behind(all, cur) && (!ReadableTable(t, lo, hi) || failAfter < |ChunkTimes(t)|))
      && (r.NotACursor? || r.BucketGone? || r.CursorNotFound? ==> !HasPos(all, cur) && out == [])
      && (r.NotACursor? <==> cur.After? && IndexOfBar(cur.cur.series) != 20)
      && (r.BucketGone? ==> forall b :: b in Plan(t, ks) ==> BucketPrefix(b.ct) != cur.cur.series[..20])
    ensures ReadableTable(t, lo, hi) && failAfter >= |ChunkTimes(t)| ==>
      (r.Done? <==> (t.files == [] && t.extra == map[]) || HasPos(Emission(t, lo, hi), cur))
  {
    hide Behind, HasPos, AllOut, SortBy, Ranked, Manifest, Disjoint, Bucketized, Iterates, ReadWell;
    if |t.files| == 0 && |t.extra| == 0 { return Done, []; }
    WalOrderIsIrrelevant(t, WalOrder(t), ks, lo, hi);
    BucketsOfIs(t);
    var bs := Bucketize(t);
    BucketizedOnce(t, bs, BucketsOf(t));
    assert Strict(bs, BucketLess) by { BucketizedStrict(t, bs); }
    assert forall k :: k in ks ==> k in t.extra by { IteratesKeys(t, ks); }
    var ok := BucketsDisjoint(bs);
    if !ok {
      bs := [Bucket(bs[0].ct, SortBy(t.files, FileLess), ExtraIn(t, ks))];
    }
    PlanManifest(t, ks);
    AtMostOnePerTime(t);
    r, out := EmitBuckets(bs, lo, hi, cur, failAfter);
  }

  lemma AtMostOnePerTime(t: Table)
    ensures |BucketsOf(t)| == |ChunkTimes(t)|
  {}

  lemma IteratesKeys(t: Table, ks: seq<Time>)
    requires Iterates(t, ks)
    ensures forall k :: k in ks ==> k in t.extra
  {}

  lemma EmptyEmission(t: Table, lo: Time, hi: Time, cur: Resume)
    requires t.files == [] && t.extra == map[]
    ensures Emission(t, lo, hi) == [] && Behind(Emission(t, lo, hi), cur) == []
  {
    BucketsOfIs(t);
  }

  /** So an empty table accepts every cursor, though none is a position of its output. */
  lemma EmptyTableHasNoPosition(lo: Time, hi: Time, c: Cursor)
    ensures !HasPos(Emission(Table([], map[]), lo, hi), After(c))
  {
    BucketsOfIs(Table([], map[]));
  }

  lemma BucketizedStrict(t: Table, bs: seq<Bucket>)
    requires Bucketized(t, bs)
    ensures Strict(bs, BucketLess)
  {}

  lemma {:induction false} FilesAtMembers(fs: seq<File>, ct: Time, f: File)
    ensures f in FilesAt(fs, ct) <==> f in fs && f.chunkTime == ct
    decreases |fs|
  {
    if fs != [] {
      FilesAtMembers(fs[1..], ct, f);
      assert fs == [fs[0]] + fs[1..];
    }
  }

  /** The files of every planned bucket are files of the table. */
  lemma PlanFiles(t: Table, ks: seq<Time>, b: Bucket, f: File)
    requires forall k :: k in ks ==> k in t.extra
    requires b in Plan(t, ks) && f in b.files
    ensures f in t.files
  {
    hide SortBy;
    BucketsOfIs(t);
    SortByMembers(t.files, FileLess, f);
    SortByMembers(FilesAt(t.files, b.ct), FileLess, f);
    FilesAtMembers(t.files, b.ct, f);
  }

  lemma PlanManifest(t: Table, ks: seq<Time>)
    requires (forall k :: k in ks ==> k in t.extra) && Manifest(t.files)
    ensures forall b :: b in Plan(t, ks) ==> Manifest(b.files)
  {
    hide Plan;
    forall b, f | b in Plan(t, ks) && f in b.files ensures forall r :: r in f.rows ==> f.min <= r.ts <= f.max {
      PlanFiles(t, ks, b, f);
    }
  }

  // ---- main results ----

  lemma PlanStrict(t: Table, ks: seq<Time>)
    requires forall k :: k in ks ==> k in t.extra
    ensures Strict(Plan(t, ks), BucketLess)
  {
    BucketsOfIs(t);
  }

  /** The emission is strictly increasing in (series key, time), and resuming behind any emitted position
      yields exactly the points after it. */
  lemma ResumeIsSuffix3(t: Table, lo: Time, hi: Time, i: nat)
    requires RankedTable(t, lo, hi) && i < |Emission(t, lo, hi)|
    ensures var all := Emission(t, lo, hi);
      var cur := After(Cursor(all[i].series, all[i].ts));
      HasPos(all, cur) && Behind(all, cur) == all[i + 1..]
  {
    hide Plan, AllOut, Ranked, Behind;
    var all := Emission(t, lo, hi);
    EmissionAscends(t, lo, hi);
    BehindIsSuffix(all, i);
    assert AtCursor(After(Cursor(all[i].series, all[i].ts)), all[i]);
  }

  lemma EmissionAscends(t: Table, lo: Time, hi: Time)
    requires RankedTable(t, lo, hi)
    ensures Strict(Emission(t, lo, hi), OutLess)
  {
    hide Plan, AllOut, Ranked;
    PlanStrict(t, WalOrder(t));
    AllOutAscends(Plan(t, WalOrder(t)), lo, hi);
  }

  lemma SortedRowsMembers(b: Bucket, lo: Time, hi: Time, r: Row)
    ensures r in SortedRows(b, lo, hi) <==> r in BucketRows(b, lo, hi)
  {
    hide BucketRows, RowLess;
    SortByMembers(BucketRows(b, lo, hi), RowLess, r);
  }

  /** A row of the sorted bucket wins exactly when no row of its group outranks it. */
  lemma WinnerIsNewest(b: Bucket, lo: Time, hi: Time, i: nat)
    requires Comparable(BucketRows(b, lo, hi), RowLess) && i < |SortedRows(b, lo, hi)|
    ensures Wins(SortedRows(b, lo, hi), i) <==> Newest(BucketRows(b, lo, hi), SortedRows(b, lo, hi)[i])
  {
    hide BucketRows, SortedRows, RowLess, Wins;
    var raw, rows := BucketRows(b, lo, hi), SortedRows(b, lo, hi);
    SortedRowsSorted(b, lo, hi);
    WinsMeaning(rows, i);
    forall q ensures q in raw <==> q in rows { SortedRowsMembers(b, lo, hi, q); }
    assert rows[i] in rows;
  }

  /** What a bucket emits: of every (series, time) the row of the highest rank, and nothing else. */
  lemma NewestRowWins(b: Bucket, lo: Time, hi: Time, o: Out)
    requires Comparable(BucketRows(b, lo, hi), RowLess)
    ensures o in BucketOut(b, lo, hi) <==> exists r :: Newest(BucketRows(b, lo, hi), r) && o == OutOf(b.ct, r)
  {
    hide BucketRows, SortedRows, Winners, Wins, OutOf;
    var rows := SortedRows(b, lo, hi);
    if o in BucketOut(b, lo, hi) {
      WinnersFrom(b.ct, rows, |rows|, o);
      var i :| 0 <= i < |rows| && Wins(rows, i) && o == OutOf(b.ct, rows[i]);
      WinnerIsNewest(b, lo, hi, i);
    }
    if r :| Newest(BucketRows(b, lo, hi), r) && o == OutOf(b.ct, r) {
      SortedRowsMembers(b, lo, hi, r);
      var i :| 0 <= i < |rows| && rows[i] == r;
      WinnerIsNewest(b, lo, hi, i);
      WinnersAll(b.ct, rows, |rows|, i);
    }
  }

  /** A row that no row of the same series and time outranks. */
  ghost predicate Newest(rows: seq<Row>, r: Row) {
    r in rows && forall q :: q in rows && SameGroup(q, r) ==> q.rank <= r.rank
  }

  // ---- a time belongs to one bucket ----

  lemma {:induction false} FileRowTimes(rs: seq<FileRow>, rank: nat, lo: Time, hi: Time, r: Row)
    requires r in FileRows(rs, rank, lo, hi)
    ensures exists q :: q in rs && q.ts == r.ts
    decreases |rs|
  {
    if r in FileRows(rs[1..], rank, lo, hi) { FileRowTimes(rs[1..], rank, lo, hi, r); } else { assert rs[0] in rs; }
  }

  lemma {:induction false} AllFileRowTimes(fs: seq<File>, n: nat, lo: Time, hi: Time, r: Row)
    requires n <= |fs| && r in AllFileRows(fs, n, lo, hi)
    ensures exists f :: f in fs && exists q :: q in f.rows && q.ts == r.ts
    decreases n
  {
    if r in AllFileRows(fs, n - 1, lo, hi) { AllFileRowTimes(fs, n - 1, lo, hi, r); } else {
      FileRowTimes(fs[n - 1].rows, n - 1, lo, hi, r);
      assert fs[n - 1] in fs;
    }
  }

  lemma {:induction false} ExtraRowTimes(rs: seq<MemRow>, base: nat, lo: Time, hi: Time, r: Row)
    requires r in ExtraRows(rs, base, lo, hi)
    ensures exists q :: q in rs && q.ts == r.ts
    decreases |rs|
  {
    if r in ExtraRows(rs[1..], base, lo, hi) { ExtraRowTimes(rs[1..], base, lo, hi, r); } else { assert rs[0] in rs; }
  }

  /** A bucket's rows lie at or behind its chunk time. */
  ghost predicate Truncated(b: Bucket) {
    (forall f :: f in b.files ==> forall r :: r in f.rows ==> b.ct <= r.ts) && (forall r :: r in b.extra ==> b.ct <= r.ts)
  }

  lemma OutTimes(b: Bucket, lo: Time, hi: Time, o: Out, end: int)
    requires Comparable(BucketRows(b, lo, hi), RowLess) && o in BucketOut(b, lo, hi)
    requires Truncated(b) && Manifest(b.files)
    requires (forall f :: f in b.files ==> f.max < end) && (forall r :: r in b.extra ==> r.ts < end)
    ensures b.ct <= o.ts < end
  {
    hide BucketOut, SortBy, FullKey;
    NewestRowWins(b, lo, hi, o);
    var r :| Newest(BucketRows(b, lo, hi), r) && o == OutOf(b.ct, r);
    if r in AllFileRows(b.files, |b.files|, lo, hi) {
      AllFileRowTimes(b.files, |b.files|, lo, hi, r);
    } else {
      ExtraRowTimes(b.extra, |b.files|, lo, hi, r);
    }
  }

  /** If the buckets are disjoint and no row lies before its bucket's chunk time, a time is emitted from one
      bucket only, so no (series, time) appears in two. */
  lemma DisjointBucketsShareNoTime(bs: seq<Bucket>, lo: Time, hi: Time, i: nat, j: nat, x: Out, y: Out)
    requires Strict(bs, BucketLess) && Ranked(bs, lo, hi) && Disjoint(bs)
    requires forall b :: b in bs ==> Truncated(b) && Manifest(b.files)
    requires i < j < |bs| && x in BucketOut(bs[i], lo, hi) && y in BucketOut(bs[j], lo, hi)
    ensures x.ts < y.ts
  {
    hide BucketOut, Truncated, Manifest;
    assert bs[i] in bs && bs[j] in bs;
    OutTimes(bs[i], lo, hi, x, bs[i + 1].ct);
    assert i + 1 == j || BucketLess(bs[i + 1], bs[j]);
    NotBefore(bs[j], lo, hi, y);
  }

  lemma NotBefore(b: Bucket, lo: Time, hi: Time, o: Out)
    requires Comparable(BucketRows(b, lo, hi), RowLess) && o in BucketOut(b, lo, hi)
    requires Truncated(b) && Manifest(b.files)
    ensures b.ct <= o.ts
  {
    OutTimes(b, lo, hi, o, MAX_TIME + 1);
  }

  // ---- sound input is ranked ----

  /** Rows are unique within a file, over series keys of one width. */
  ghost predicate UniqueRows(rs: seq<FileRow>, width: nat) {
    && (forall r :: r in rs ==> |r.vals| == width)
    && (forall i, j :: 0 <= i < j < |rs| ==> !(rs[i].vals == rs[j].vals && rs[i].ts == rs[j].ts))
  }

  ghost predicate UniqueRanks(rs: seq<MemRow>) {
    forall i, j :: 0 <= i < j < |rs| ==> rs[i].rank != rs[j].rank
  }

  lemma Apart(a: Row, b: Row)
    requires !(a.key == b.key && a.ts == b.ts && a.rank == b.rank)
    ensures RowLess(a, b) || RowLess(b, a)
  {
    StrTrichotomy(a.key, b.key);
  }

  lemma ComparableConcat(a: seq<Row>, b: seq<Row>)
    requires Comparable(a, RowLess) && Comparable(b, RowLess)
    requires forall x, y :: x in a && y in b ==> RowLess(x, y) || RowLess(y, x)
    ensures Comparable(a + b, RowLess)
  {
    hide RowLess;
    var s := a + b;
    forall i, j | 0 <= i < j < |s| ensures RowLess(s[i], s[j]) || RowLess(s[j], s[i]) {
      if i < |a| && j >= |a| { assert s[i] in a && s[j] in b; }
    }
  }

  lemma {:induction false} FileRowsFrom(rs: seq<FileRow>, rank: nat, lo: Time, hi: Time, r: Row)
    requires r in FileRows(rs, rank, lo, hi)
    ensures r.rank == rank && exists i :: 0 <= i < |rs| && r.key == OrderKeyOf(rs[i].vals) && r.ts == rs[i].ts
    decreases |rs|
  {
    hide OrderKeyOf;
    if r in FileRows(rs[1..], rank, lo, hi) {
      FileRowsFrom(rs[1..], rank, lo, hi, r);
      var i :| 0 <= i < |rs[1..]| && r.key == OrderKeyOf(rs[1..][i].vals) && r.ts == rs[1..][i].ts;
      assert rs[i + 1] == rs[1..][i];
    }
  }

  lemma {:induction false} FileRowsApart(rs: seq<FileRow>, width: nat, rank: nat, lo: Time, hi: Time)
    requires UniqueRows(rs, width)
    ensures Comparable(FileRows(rs, rank, lo, hi), RowLess)
    decreases |rs|
  {
    hide OrderKeyOf, RowLess;
    if rs != [] {
      var t := rs[1..];
      assert forall i :: 0 <= i < |t| ==> t[i] == rs[i + 1] && t[i] in rs;
      FileRowsApart(t, width, rank, lo, hi);
      var head := FileRowOf(rs[0], rank, lo, hi);
      forall x, y | x in head && y in FileRows(t, rank, lo, hi) ensures RowLess(x, y) || RowLess(y, x) {
        FileRowsFrom(t, rank, lo, hi, y);
        var i :| 0 <= i < |t| && y.key == OrderKeyOf(t[i].vals) && y.ts == t[i].ts;
        assert x.key == OrderKeyOf(rs[0].vals) && rs[0] in rs;
        if x.key == y.key { OrderKeyInjective(rs[0].vals, rs[i + 1].vals); }
        Apart(x, y);
      }
      ComparableConcat(head, FileRows(t, rank, lo, hi));
    }
  }

  lemma {:induction false} AllFileRowRanks(fs: seq<File>, n: nat, lo: Time, hi: Time, r: Row)
    requires n <= |fs| && r in AllFileRows(fs, n, lo, hi)
    ensures r.rank < n
    decreases n
  {
    if r in AllFileRows(fs, n - 1, lo, hi) { AllFileRowRanks(fs, n - 1, lo, hi, r); } else {
      FileRowsFrom(fs[n - 1].rows, n - 1, lo, hi, r);
    }
  }

  lemma NoRowsApart()
    ensures Comparable<Row>([], RowLess)
  {}

  lemma {:induction false} AllFileRowsApart(fs: seq<File>, n: nat, width: nat, lo: Time, hi: Time)
    requires n <= |fs| && forall f :: f in fs ==> UniqueRows(f.rows, width)
    ensures Comparable(AllFileRows(fs, n, lo, hi), RowLess)
    decreases n
  {
    hide RowLess, UniqueRows, FileRows, Comparable;
    if n == 0 {
      NoRowsApart();
    } else {
      AllFileRowsApart(fs, n - 1, width, lo, hi);
      assert fs[n - 1] in fs;
      var a, b := AllFileRows(fs, n - 1, lo, hi), FileRows(fs[n - 1].rows, n - 1, lo, hi);
      FileRowsApart(fs[n - 1].rows, width, n - 1, lo, hi);
      forall x, y | x in a && y in b ensures RowLess(x, y) || RowLess(y, x) {
        AllFileRowRanks(fs, n - 1, lo, hi, x);
        FileRowsFrom(fs[n - 1].rows, n - 1, lo, hi, y);
        Apart(x, y);
      }
      ComparableConcat(a, b);
    }
  }

  lemma {:induction false} ExtraRowsFrom(rs: seq<MemRow>, base: nat, lo: Time, hi: Time, r: Row)
    requires r in ExtraRows(rs, base, lo, hi)
    ensures exists i :: 0 <= i < |rs| && r.rank == base + rs[i].rank
    decreases |rs|
  {
    hide OrderKeyOf;
    if r in ExtraRows(rs[1..], base, lo, hi) {
      ExtraRowsFrom(rs[1..], base, lo, hi, r);
      var i :| 0 <= i < |rs[1..]| && r.rank == base + rs[1..][i].rank;
      assert rs[i + 1] == rs[1..][i];
    }
  }

  lemma {:induction false} ExtraRowsApart(rs: seq<MemRow>, base: nat, lo: Time, hi: Time)
    requires UniqueRanks(rs)
    ensures Comparable(ExtraRows(rs, base, lo, hi), RowLess)
    decreases |rs|
  {
    hide OrderKeyOf, RowLess;
    if rs != [] {
      var t := rs[1..];
      assert forall i :: 0 <= i < |t| ==> t[i] == rs[i + 1];
      ExtraRowsApart(t, base, lo, hi);
      var head := ExtraRowOf(rs[0], base, lo, hi);
      forall x, y | x in head && y in ExtraRows(t, base, lo, hi) ensures RowLess(x, y) || RowLess(y, x) {
        ExtraRowsFrom(t, base, lo, hi, y);
        Apart(x, y);
      }
      ComparableConcat(head, ExtraRows(t, base, lo, hi));
    }
  }

  /** Rows unique per file and ranks unique among the WAL rows leave no two rows of a bucket equivalent, so
      the newest row of every group is determined. */
  lemma SoundBucketIsRanked(b: Bucket, width: nat, lo: Time, hi: Time)
    requires (forall f :: f in b.files ==> UniqueRows(f.rows, width)) && UniqueRanks(b.extra)
    ensures Comparable(BucketRows(b, lo, hi), RowLess)
  {
    hide RowLess;
    var n := |b.files|;
    var x, y := AllFileRows(b.files, n, lo, hi), ExtraRows(b.extra, n, lo, hi);
    AllFileRowsApart(b.files, n, width, lo, hi);
    ExtraRowsApart(b.extra, n, lo, hi);
    forall p, q | p in x && q in y ensures RowLess(p, q) || RowLess(q, p) {
      AllFileRowRanks(b.files, n, lo, hi, p);
      ExtraRowsFrom(b.extra, n, lo, hi, q);
      Apart(p, q);
    }
    ComparableConcat(x, y);
  }

  /** No two WAL rows of the table have the same rank. */
  ghost predicate UniqueTableRanks(t: Table) {
    forall c, d, i, j ::
      (c in t.extra && d in t.extra && 0 <= i < |t.extra[c]| && 0 <= j < |t.extra[d]| && t.extra[c][i].rank == t.extra[d][j].rank)
      ==> c == d && i == j
  }

  lemma {:induction false} ExtraInFrom(t: Table, ks: seq<Time>, i: nat)
    requires (forall k :: k in ks ==> k in t.extra) && i < |ExtraIn(t, ks)|
    ensures exists c :: c in ks && ExtraIn(t, ks)[i] in t.extra[c]
    decreases |ks|
  {
    var n := |ks| - 1;
    if i < |ExtraIn(t, ks[..n])| { ExtraInFrom(t, ks[..n], i); } else { assert ks[n] in ks; }
  }

  lemma {:induction false} ExtraInUnique(t: Table, ks: seq<Time>)
    requires (forall k :: k in ks ==> k in t.extra) && Once(ks) && UniqueTableRanks(t)
    ensures UniqueRanks(ExtraIn(t, ks))
    decreases |ks|
  {
    if ks != [] {
      var n := |ks| - 1;
      var a, b := ExtraIn(t, ks[..n]), t.extra[ks[n]];
      ExtraInUnique(t, ks[..n]);
      forall i, j | 0 <= i < |a| && 0 <= j < |b| ensures a[i].rank != b[j].rank {
        ExtraInFrom(t, ks[..n], i);
        var c :| c in ks[..n] && a[i] in t.extra[c];
        var p :| 0 <= p < |t.extra[c]| && t.extra[c][p] == a[i];
      }
      assert ks[n] in t.extra;
    }
  }

  lemma PlanRanks(t: Table, ks: seq<Time>, b: Bucket)
    requires Iterates(t, ks) && UniqueTableRanks(t) && b in Plan(t, ks)
    ensures UniqueRanks(b.extra)
  {
    hide SortBy, Disjoint, ExtraIn, ChunkTimes;
    ExtraInUnique(t, ks);
    BucketsOfIs(t);
  }

  /** So tables with sound files and WAL rows satisfy what `Extract` requires. */
  lemma SoundTableIsRanked(t: Table, width: nat, lo: Time, hi: Time)
    requires forall f :: f in t.files ==> UniqueRows(f.rows, width)
    requires UniqueTableRanks(t)
    ensures RankedTable(t, lo, hi)
  {
    hide BucketRows, UniqueRows, UniqueTableRanks, UniqueRanks, Plan;
    var ks := WalOrder(t);
    forall b | b in Plan(t, ks) ensures Comparable(BucketRows(b, lo, hi), RowLess) {
      PlanRanks(t, ks, b);
      forall f | f in b.files ensures UniqueRows(f.rows, width) { PlanFiles(t, ks, b, f); }
      SoundBucketIsRanked(b, width, lo, hi);
    }
  }

  // ---- the emission is a function of the live set ----

  /** Live files have different object names. */
  ghost predicate DistinctPaths(fs: seq<File>) {
    forall i, j :: 0 <= i < j < |fs| ==> fs[i].path != fs[j].path
  }

  lemma {:induction false} FilesAtIndex(fs: seq<File>, ct: Time)
    requires DistinctPaths(fs)
    ensures DistinctPaths(FilesAt(fs, ct))
    decreases |fs|
  {
    if fs != [] {
      var t := fs[1..];
      assert forall i :: 0 <= i < |t| ==> t[i] == fs[i + 1];
      FilesAtIndex(t, ct);
      var r := FilesAt(t, ct);
      forall i | 0 <= i < |r| ensures r[i].path != fs[0].path {
        FilesAtMembers(t, ct, r[i]);
        var k :| 0 <= k < |t| && t[k] == r[i];
        assert fs[k + 1] == r[i];
      }
    }
  }

  lemma SortFilesOnce(a: seq<File>, b: seq<File>)
    requires DistinctPaths(a) && DistinctPaths(b) && forall f :: f in a <==> f in b
    ensures SortBy(a, FileLess) == SortBy(b, FileLess)
  {
    hide SortBy, StrLess;
    FileOrder();
    assert forall s: seq<File> :: DistinctPaths(s) ==> Comparable(s, FileLess) by {
      forall s: seq<File> | DistinctPaths(s) ensures Comparable(s, FileLess) { PathsCompare(s); }
    }
    SortByStrict(a, FileLess);
    SortByStrict(b, FileLess);
    forall f ensures f in SortBy(a, FileLess) <==> f in SortBy(b, FileLess) {
      SortByMembers(a, FileLess, f);
      SortByMembers(b, FileLess, f);
    }
    SortedOnce(SortBy(a, FileLess), SortBy(b, FileLess), FileLess);
  }

  lemma PathsCompare(s: seq<File>)
    requires DistinctPaths(s)
    ensures Comparable(s, FileLess)
  {
    hide StrLess;
    forall i, j | 0 <= i < j < |s| ensures FileLess(s[i], s[j]) || FileLess(s[j], s[i]) {
      StrTrichotomy(s[i].path, s[j].path);
    }
  }

  /** The order in which the caller lists the live files does not matter: same buckets, same ranks, same output. */
  lemma FileOrderIsIrrelevant(t: Table, u: Table, lo: Time, hi: Time)
    requires t.extra == u.extra
    requires DistinctPaths(t.files) && DistinctPaths(u.files) && forall f :: f in t.files <==> f in u.files
    ensures Emission(t, lo, hi) == Emission(u, lo, hi) && (RankedTable(t, lo, hi) <==> RankedTable(u, lo, hi))
  {
    hide SortBy, Disjoint, BucketsOf, AllOut;
    SameBuckets(t, u);
    SortFilesOnce(t.files, u.files);
    SameExtra(t, u, WalOrder(t));
  }

  lemma SameBucket(t: Table, u: Table, ct: Time)
    requires t.extra == u.extra && DistinctPaths(t.files) && DistinctPaths(u.files) && forall f :: f in t.files <==> f in u.files
    ensures BucketAt(t, ct) == BucketAt(u, ct)
  {
    hide SortBy;
    FilesAtIndex(t.files, ct);
    FilesAtIndex(u.files, ct);
    forall f ensures f in FilesAt(t.files, ct) <==> f in FilesAt(u.files, ct) {
      FilesAtMembers(t.files, ct, f);
      FilesAtMembers(u.files, ct, f);
    }
    SortFilesOnce(FilesAt(t.files, ct), FilesAt(u.files, ct));
  }

  lemma SameBuckets(t: Table, u: Table)
    requires t.extra == u.extra && DistinctPaths(t.files) && DistinctPaths(u.files) && forall f :: f in t.files <==> f in u.files
    ensures BucketsOf(t) == BucketsOf(u)
  {
    hide BucketAt, ChunkTimes;
    SameChunkTimes(t, u);
    var cts := Sorted(ChunkTimes(t), TimeLess);
    forall i | 0 <= i < |cts| ensures BucketAt(t, cts[i]) == BucketAt(u, cts[i]) { SameBucket(t, u, cts[i]); }
    assert BucketList(t, cts) == BucketList(u, cts);
  }

  lemma SameChunkTimes(t: Table, u: Table)
    requires t.extra == u.extra && forall f :: f in t.files <==> f in u.files
    ensures ChunkTimes(t) == ChunkTimes(u)
  {
    forall i | 0 <= i < |t.files| ensures t.files[i].chunkTime in ChunkTimes(u) {
      assert t.files[i] in u.files;
      var k :| 0 <= k < |u.files| && u.files[k] == t.files[i];
    }
    forall i | 0 <= i < |u.files| ensures u.files[i].chunkTime in ChunkTimes(t) {
      assert u.files[i] in t.files;
      var k :| 0 <= k < |t.files| && t.files[k] == u.files[i];
    }
  }

  lemma {:induction false} SameExtra(t: Table, u: Table, ks: seq<Time>)
    requires t.extra == u.extra && forall k :: k in ks ==> k in t.extra
    ensures ExtraIn(t, ks) == ExtraIn(u, ks)
    decreases |ks|
  {
    if ks != [] { SameExtra(t, u, ks[..|ks| - 1]); }
  }

  // ---- only the relative ranks of WAL rows matter ----

  predicate SameButRank(a: MemRow, b: MemRow) { b == a.(rank := b.rank) }

  /** Two rows of one series and time are ranked the same way round. */
  ghost predicate SameWay(a: MemRow, a': MemRow, b: MemRow, b': MemRow) {
    OrderKeyOf(a.vals) == OrderKeyOf(a'.vals) && a.ts == a'.ts ==> (a.rank < a'.rank <==> b.rank < b'.rank)
  }

  /** The same rows, ranked differently but the same way round within every (series, time). */
  ghost predicate Reranked(a: seq<MemRow>, b: seq<MemRow>) {
    && |a| == |b| && (forall i :: 0 <= i < |a| ==> SameButRank(a[i], b[i]))
    && (forall i, j :: 0 <= i < |a| && 0 <= j < |a| ==> SameWay(a[i], a[j], b[i], b[j]))
  }

  ghost predicate RerankedTable(t: Table, u: Table) {
    && t.files == u.files && t.extra.Keys == u.extra.Keys
    && (forall c :: c in t.extra ==> |t.extra[c]| == |u.extra[c]|)
    && (forall c, i :: c in t.extra && 0 <= i < |t.extra[c]| ==> SameButRank(t.extra[c][i], u.extra[c][i]))
    && (forall c, d, i, j :: c in t.extra && d in t.extra && 0 <= i < |t.extra[c]| && 0 <= j < |t.extra[d]| ==>
          SameWay(t.extra[c][i], t.extra[d][j], u.extra[c][i], u.extra[d][j]))
  }

  /** Rows that agree in all but rank, and in who outranks whom within a group. */
  ghost predicate Alike(x: seq<Row>, y: seq<Row>) {
    && |x| == |y| && (forall i :: 0 <= i < |x| ==> y[i] == x[i].(rank := y[i].rank))
    && (forall i, j :: 0 <= i < |x| && 0 <= j < |x| && SameGroup(x[i], x[j]) ==> (x[i].rank < x[j].rank <==> y[i].rank < y[j].rank))
  }

  lemma AlikeComparable(x: seq<Row>, y: seq<Row>)
    requires Alike(x, y) && Comparable(x, RowLess)
    ensures Comparable(y, RowLess)
  {
    hide StrLess;
    forall i, j | 0 <= i < j < |y| ensures RowLess(y[i], y[j]) || RowLess(y[j], y[i]) {
      assert RowLess(x[i], x[j]) || RowLess(x[j], x[i]);
      StrOneWay(x[i].key, x[j].key);
    }
  }

  lemma AlikeNewest(ct: Time, x: seq<Row>, y: seq<Row>, r: Row) returns (q: Row)
    requires Alike(x, y) && Newest(x, r)
    ensures Newest(y, q) && OutOf(ct, q) == OutOf(ct, r)
  {
    var i :| 0 <= i < |x| && x[i] == r;
    q := y[i];
    forall p | p in y && SameGroup(p, q) ensures p.rank <= q.rank {
      var j :| 0 <= j < |y| && y[j] == p;
      assert x[j] in x && SameGroup(x[j], x[i]);
    }
  }

  lemma AlikeSymmetric(x: seq<Row>, y: seq<Row>)
    requires Alike(x, y)
    ensures Alike(y, x)
  {}

  /** Buckets with alike rows emit the same. */
  lemma AlikeOut(b: Bucket, c: Bucket, lo: Time, hi: Time)
    requires b.ct == c.ct && Alike(BucketRows(b, lo, hi), BucketRows(c, lo, hi)) && Comparable(BucketRows(b, lo, hi), RowLess)
    ensures Comparable(BucketRows(c, lo, hi), RowLess) && BucketOut(b, lo, hi) == BucketOut(c, lo, hi)
  {
    hide BucketRows, BucketOut, Alike, Newest, OutOf, OutLess;
    var x, y := BucketRows(b, lo, hi), BucketRows(c, lo, hi);
    AlikeComparable(x, y);
    AlikeSymmetric(x, y);
    forall o ensures o in BucketOut(b, lo, hi) <==> o in BucketOut(c, lo, hi) {
      NewestRowWins(b, lo, hi, o);
      NewestRowWins(c, lo, hi, o);
      if r :| Newest(x, r) && o == OutOf(b.ct, r) { var q := AlikeNewest(b.ct, x, y, r); }
      if r :| Newest(y, r) && o == OutOf(b.ct, r) { var q := AlikeNewest(b.ct, y, x, r); }
    }
    BucketOutAscends(b, lo, hi);
    BucketOutAscends(c, lo, hi);
    OutAsymmetric();
    SortedOnce(BucketOut(b, lo, hi), BucketOut(c, lo, hi), OutLess);
  }

  lemma OutAsymmetric()
    ensures Asymmetric(OutLess)
  {
    hide OutLess;
    forall a, b ensures !(OutLess(a, b) && OutLess(b, a)) { if OutLess(a, b) { OutOneWay(a, b); } }
  }

  /** Row p of both is that of the same WAL row. */
  lemma {:induction false} ExtraRowsPair(a: seq<MemRow>, b: seq<MemRow>, base: nat, lo: Time, hi: Time, p: nat) returns (i: nat)
    requires |a| == |b| && (forall k :: 0 <= k < |a| ==> SameButRank(a[k], b[k])) && p < |ExtraRows(a, base, lo, hi)|
    ensures p < |ExtraRows(b, base, lo, hi)| && i < |a|
    ensures ExtraRows(a, base, lo, hi)[p] == Row(OrderKeyOf(a[i].vals), a[i].ts, base + a[i].rank, a[i].body)
    ensures ExtraRows(b, base, lo, hi)[p] == Row(OrderKeyOf(a[i].vals), a[i].ts, base + b[i].rank, a[i].body)
    decreases |a|
  {
    hide OrderKeyOf;
    assert SameButRank(a[0], b[0]);
    var n := |ExtraRowOf(a[0], base, lo, hi)|;
    if p < n {
      i := 0;
    } else {
      assert forall k :: 0 <= k < |a[1..]| ==> a[1..][k] == a[k + 1] && b[1..][k] == b[k + 1];
      i := ExtraRowsPair(a[1..], b[1..], base, lo, hi, p - n);
      i := i + 1;
    }
  }

  lemma {:induction false} ExtraRowsLength(a: seq<MemRow>, b: seq<MemRow>, base: nat, lo: Time, hi: Time)
    requires |a| == |b| && (forall k :: 0 <= k < |a| ==> SameButRank(a[k], b[k]))
    ensures |ExtraRows(a, base, lo, hi)| == |ExtraRows(b, base, lo, hi)|
    decreases |a|
  {
    hide OrderKeyOf;
    if a != [] {
      assert SameButRank(a[0], b[0]);
      assert forall k :: 0 <= k < |a[1..]| ==> a[1..][k] == a[k + 1] && b[1..][k] == b[k + 1];
      ExtraRowsLength(a[1..], b[1..], base, lo, hi);
    }
  }

  lemma ExtraRowsAlike(a: seq<MemRow>, b: seq<MemRow>, base: nat, lo: Time, hi: Time)
    requires Reranked(a, b)
    ensures Alike(ExtraRows(a, base, lo, hi), ExtraRows(b, base, lo, hi))
  {
    hide ExtraRows, OrderKeyOf;
    var x, y := ExtraRows(a, base, lo, hi), ExtraRows(b, base, lo, hi);
    ExtraRowsLength(a, b, base, lo, hi);
    forall p | 0 <= p < |x| ensures y[p] == x[p].(rank := y[p].rank) { var i := ExtraRowsPair(a, b, base, lo, hi, p); }
    forall p, q | 0 <= p < |x| && 0 <= q < |x| && SameGroup(x[p], x[q]) ensures x[p].rank < x[q].rank <==> y[p].rank < y[q].rank {
      var i := ExtraRowsPair(a, b, base, lo, hi, p);
      var j := ExtraRowsPair(a, b, base, lo, hi, q);
      assert SameWay(a[i], a[j], b[i], b[j]);
    }
  }

  lemma AlikeConcat(f: seq<Row>, x: seq<Row>, y: seq<Row>, base: nat)
    requires Alike(x, y) && (forall r :: r in f ==> r.rank < base)
    requires (forall r :: r in x ==> r.rank >= base) && (forall r :: r in y ==> r.rank >= base)
    ensures Alike(f + x, f + y)
  {
    var a, b := f + x, f + y;
    forall i, j | 0 <= i < |a| && 0 <= j < |a| && SameGroup(a[i], a[j]) ensures a[i].rank < a[j].rank <==> b[i].rank < b[j].rank {
      if i < |f| { assert a[i] in f && b[i] == a[i]; } else { assert a[i] == x[i - |f|] && b[i] == y[i - |f|] && a[i] in x && b[i] in y; }
      if j < |f| { assert a[j] in f && b[j] == a[j]; } else { assert a[j] == x[j - |f|] && b[j] == y[j - |f|] && a[j] in x && b[j] in y; }
    }
  }

  lemma RerankedBucket(b: Bucket, c: Bucket, lo: Time, hi: Time)
    requires b.ct == c.ct && b.files == c.files && Reranked(b.extra, c.extra)
    ensures Alike(BucketRows(b, lo, hi), BucketRows(c, lo, hi))
    ensures Readable(b, lo, hi) <==> Readable(c, lo, hi)
  {
    hide Alike, Reranked, ExtraRows;
    var n := |b.files|;
    var x, y := ExtraRows(b.extra, n, lo, hi), ExtraRows(c.extra, n, lo, hi);
    ExtraRowsAlike(b.extra, c.extra, n, lo, hi);
    forall r | r in AllFileRows(b.files, n, lo, hi) ensures r.rank < n { AllFileRowRanks(b.files, n, lo, hi, r); }
    forall r | r in x ensures r.rank >= n { ExtraRowsFrom(b.extra, n, lo, hi, r); }
    forall r | r in y ensures r.rank >= n { ExtraRowsFrom(c.extra, n, lo, hi, r); }
    AlikeConcat(AllFileRows(b.files, n, lo, hi), x, y, n);
    RerankedMembers(b.extra, c.extra, lo, hi);
  }

  lemma RerankedMembers(a: seq<MemRow>, b: seq<MemRow>, lo: Time, hi: Time)
    requires Reranked(a, b)
    ensures (forall r :: r in a && Wanted(r.ts, r.empty, lo, hi) ==> !r.unknown)
      <==> (forall r :: r in b && Wanted(r.ts, r.empty, lo, hi) ==> !r.unknown)
  {
    forall i | 0 <= i < |a| ensures a[i] in a && b[i] in b && SameButRank(a[i], b[i]) {}
  }

  lemma RerankedEnds(b: Bucket, c: Bucket, ct: Time)
    requires RerankedPair(b, c)
    ensures EndsBy(b, ct) <==> EndsBy(c, ct)
  {
    forall i | 0 <= i < |b.extra| ensures b.extra[i] in b.extra && c.extra[i] in c.extra && SameButRank(b.extra[i], c.extra[i]) {}
  }

  lemma {:induction false} ExtraInLength(t: Table, u: Table, ks: seq<Time>)
    requires RerankedTable(t, u) && forall k :: k in ks ==> k in t.extra
    ensures |ExtraIn(t, ks)| == |ExtraIn(u, ks)|
    decreases |ks|
  {
    hide SameWay;
    if ks != [] { ExtraInLength(t, u, ks[..|ks| - 1]); }
  }

  lemma {:induction false} ExtraInPair(t: Table, u: Table, ks: seq<Time>, p: nat) returns (c: Time, i: nat)
    requires RerankedTable(t, u) && (forall k :: k in ks ==> k in t.extra) && p < |ExtraIn(t, ks)|
    ensures c in t.extra && i < |t.extra[c]| && ExtraIn(t, ks)[p] == t.extra[c][i]
    ensures p < |ExtraIn(u, ks)| && ExtraIn(u, ks)[p] == u.extra[c][i]
    decreases |ks|
  {
    hide SameWay;
    var n := |ks| - 1;
    ExtraInLength(t, u, ks[..n]);
    if p < |ExtraIn(t, ks[..n])| {
      c, i := ExtraInPair(t, u, ks[..n], p);
    } else {
      c, i := ks[n], p - |ExtraIn(t, ks[..n])|;
    }
  }

  lemma RerankedExtra(t: Table, u: Table, ks: seq<Time>)
    requires RerankedTable(t, u) && forall k :: k in ks ==> k in t.extra
    ensures Reranked(ExtraIn(t, ks), ExtraIn(u, ks))
  {
    hide ExtraIn, SameWay, SameButRank;
    ExtraInLength(t, u, ks);
    var a, b := ExtraIn(t, ks), ExtraIn(u, ks);
    forall p | 0 <= p < |a| ensures SameButRank(a[p], b[p]) { var c, i := ExtraInPair(t, u, ks, p); }
    forall p, q | 0 <= p < |a| && 0 <= q < |a| ensures SameWay(a[p], a[q], b[p], b[q]) {
      var c, i := ExtraInPair(t, u, ks, p);
      var d, j := ExtraInPair(t, u, ks, q);
    }
  }

  lemma RerankedAt(t: Table, u: Table, ct: Time)
    requires RerankedTable(t, u)
    ensures RerankedPair(BucketAt(t, ct), BucketAt(u, ct))
  {
    hide SortBy, FilesAt, SameWay, SameButRank;
  }

  /** Buckets over the same files, with WAL rows ranked alike. */
  ghost predicate RerankedPair(b: Bucket, c: Bucket) { b.ct == c.ct && b.files == c.files && Reranked(b.extra, c.extra) }

  ghost predicate RerankedBuckets(bs: seq<Bucket>, cs: seq<Bucket>) {
    |bs| == |cs| && forall i :: 0 <= i < |bs| ==> RerankedPair(bs[i], cs[i])
  }

  lemma SameTimes(t: Table, u: Table)
    requires RerankedTable(t, u)
    ensures ChunkTimes(t) == ChunkTimes(u)
  {}

  lemma RerankedBucketsOf(t: Table, u: Table)
    requires RerankedTable(t, u)
    ensures RerankedBuckets(BucketsOf(t), BucketsOf(u))
  {
    hide SortBy, RerankedPair, BucketAt, RerankedTable, ChunkTimes;
    SameTimes(t, u);
    var cts := Sorted(ChunkTimes(t), TimeLess);
    forall i | 0 <= i < |cts| ensures RerankedPair(BucketAt(t, cts[i]), BucketAt(u, cts[i])) { RerankedAt(t, u, cts[i]); }
  }

  lemma RerankedDisjoint(bs: seq<Bucket>, cs: seq<Bucket>)
    requires RerankedBuckets(bs, cs)
    ensures (Disjoint(bs) <==> Disjoint(cs)) && (bs == [] <==> cs == [])
  {
    hide EndsBy, Reranked;
    forall i | 0 <= i < |bs| - 1 ensures EndsBy(bs[i], bs[i + 1].ct) <==> EndsBy(cs[i], cs[i + 1].ct) {
      RerankedEnds(bs[i], cs[i], bs[i + 1].ct);
    }
  }

  lemma SameIterations(t: Table, u: Table, ks: seq<Time>)
    requires RerankedTable(t, u) && Iterates(t, ks)
    ensures Iterates(u, ks) && t.files == u.files
  {}

  lemma Merged(t: Table, u: Table, ks: seq<Time>, bs: seq<Bucket>, cs: seq<Bucket>)
    requires RerankedTable(t, u) && Iterates(t, ks) && Iterates(u, ks) && RerankedBuckets(bs, cs) && bs != []
    ensures cs != [] && (forall k :: k in ks ==> k in t.extra && k in u.extra)
    ensures RerankedBuckets([Bucket(bs[0].ct, SortBy(t.files, FileLess), ExtraIn(t, ks))],
      [Bucket(cs[0].ct, SortBy(u.files, FileLess), ExtraIn(u, ks))])
  {
    IteratesKeys(t, ks);
    IteratesKeys(u, ks);
    SameIterations(t, u, ks);
    RerankedExtra(t, u, ks);
    hide SortBy, Reranked, ExtraIn, RerankedTable, Iterates;
    assert RerankedPair(bs[0], cs[0]);
  }

  lemma RerankedPlan(t: Table, u: Table, ks: seq<Time>)
    requires RerankedTable(t, u) && Iterates(t, ks)
    ensures Iterates(u, ks) && RerankedBuckets(Plan(t, ks), Plan(u, ks))
  {
    IteratesKeys(t, ks);
    SameIterations(t, u, ks);
    IteratesKeys(u, ks);
    hide SortBy, RerankedPair, RerankedBuckets, ExtraIn, BucketsOf, Disjoint, RerankedTable, Iterates;
    var bs, cs := BucketsOf(t), BucketsOf(u);
    RerankedBucketsOf(t, u);
    RerankedDisjoint(bs, cs);
    if bs != [] { Merged(t, u, ks, bs, cs); }
  }

  lemma LastRanked(bs: seq<Bucket>, lo: Time, hi: Time)
    requires bs != []
    ensures Ranked(bs, lo, hi) <==> Ranked(bs[..|bs| - 1], lo, hi) && Comparable(BucketRows(bs[|bs| - 1], lo, hi), RowLess)
    ensures AllReadable(bs, lo, hi) <==> AllReadable(bs[..|bs| - 1], lo, hi) && Readable(bs[|bs| - 1], lo, hi)
  {
    hide BucketRows, Comparable, Readable;
    var n := |bs| - 1;
    assert forall b :: b in bs <==> b in bs[..n] || b == bs[n];
  }

  lemma RerankedFront(bs: seq<Bucket>, cs: seq<Bucket>)
    requires RerankedBuckets(bs, cs) && bs != []
    ensures |cs| == |bs| && RerankedPair(bs[|bs| - 1], cs[|bs| - 1]) && RerankedBuckets(bs[..|bs| - 1], cs[..|bs| - 1])
  {}

  lemma {:induction false} RerankedOut(bs: seq<Bucket>, cs: seq<Bucket>, lo: Time, hi: Time)
    requires RerankedBuckets(bs, cs) && Ranked(bs, lo, hi)
    ensures Ranked(cs, lo, hi) && AllOut(bs, lo, hi) == AllOut(cs, lo, hi) && (AllReadable(bs, lo, hi) <==> AllReadable(cs, lo, hi))
    decreases |bs|
  {
    if bs == [] {
      assert cs == [];
    } else {
      RerankedFront(bs, cs);
      hide BucketOut, BucketRows, RerankedBuckets, Reranked, Alike, Readable, Comparable, Ranked, AllReadable;
      var n := |bs| - 1;
      LastRanked(bs, lo, hi);
      LastRanked(cs, lo, hi);
      RerankedOut(bs[..n], cs[..n], lo, hi);
      RerankedBucket(bs[n], cs[n], lo, hi);
      AlikeOut(bs[n], cs[n], lo, hi);
    }
  }

  /** If a decoding of the WAL ranks its rows otherwise, but the same way round within every (series, time), the
      table can be read the same and emits the same. */
  lemma OnlyRelativeRanksMatter(t: Table, u: Table, lo: Time, hi: Time)
    requires RerankedTable(t, u) && RankedTable(t, lo, hi)
    ensures RankedTable(u, lo, hi) && Emission(t, lo, hi) == Emission(u, lo, hi)
    ensures ReadableTable(t, lo, hi) <==> ReadableTable(u, lo, hi)
  {
    hide Plan, AllOut, Ranked, AllReadable, RerankedTable, RerankedBuckets;
    SameWalOrder(t, u);
    RerankedPlan(t, u, WalOrder(t));
    RerankedOut(Plan(t, WalOrder(t)), Plan(u, WalOrder(t)), lo, hi);
  }

  lemma SameWalOrder(t: Table, u: Table)
    requires RerankedTable(t, u)
    ensures WalOrder(t) == WalOrder(u)
  {}
}
