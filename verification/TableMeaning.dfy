/** What a table's emission says about its files and WAL rows, read directly: of all rows of one series and time, the one
    written last, once. */
module TableMeaning {
  import opened Orders
  import opened Values
  import opened Shard
  import opened OrderKey
  import opened Extract3

  /** A stored row: of a file, or of the WAL at a chunk time. */
  datatype Write = InFile(file: File, row: FileRow) | InWal(chunk: Time, mem: MemRow) {
    function Vals(): seq<Col> { if InFile? then row.vals else mem.vals }
    function Ts(): Time { if InFile? then row.ts else mem.ts }
    function Body(): Payload { if InFile? then row.body else mem.body }
    function NoField(): bool { if InFile? then row.empty else mem.empty }
    function ChunkTime(): Time { if InFile? then file.chunkTime else chunk }
  }

  predicate StoredIn(t: Table, w: Write) {
    match w
    case InFile(f, r) => f in t.files && r in f.rows
    case InWal(c, m) => c in t.extra && m in t.extra[c]
  }

  /** The row has a field and lies in the window. */
  predicate Counts(t: Table, w: Write, lo: Time, hi: Time) { StoredIn(t, w) && lo <= w.Ts() <= hi && !w.NoField() }

  /** File a was written after file b: by WAL sequence, then id, then path. */
  predicate LaterFile(a: File, b: File) {
    b.wal < a.wal || (b.wal == a.wal && (b.id < a.id || (b.id == a.id && StrLess(b.path, a.path))))
  }

  /** The WAL is newer than every file; within it, the rank decides. */
  predicate Newer(a: Write, b: Write) {
    if a.InWal? && b.InWal? then a.mem.rank > b.mem.rank
    else if a.InFile? && b.InFile? then LaterFile(a.file, b.file)
    else a.InWal?
  }

  ghost predicate HasChunk(t: Table, c: Time) { c in t.extra || exists f :: f in t.files && f.chunkTime == c }

  /** Nothing stored at one chunk time reaches a later one. */
  ghost predicate Separate(t: Table) {
    && (forall f, d: Time :: f in t.files && HasChunk(t, d) && f.chunkTime < d ==> f.max < d)
    && (forall c, m, d: Time :: c in t.extra && m in t.extra[c] && HasChunk(t, d) && c < d ==> m.ts < d)
  }

  /** The chunk time a row is emitted under: its own, or the table's first if chunk times overlap. */
  ghost predicate Home(t: Table, w: Write, c: Time) {
    if Separate(t) then c == w.ChunkTime() else HasChunk(t, c) && forall d :: HasChunk(t, d) ==> c <= d
  }

  /** Rows of one point: the same tags and time, and the same chunk time unless chunk times overlap. */
  ghost predicate SamePoint(t: Table, v: Write, w: Write) {
    v.Vals() == w.Vals() && v.Ts() == w.Ts() && (Separate(t) ==> v.ChunkTime() == w.ChunkTime())
  }

  /** No row of the same point is newer. */
  ghost predicate NewestWrite(t: Table, w: Write, lo: Time, hi: Time) {
    Counts(t, w, lo, hi) && forall v :: Counts(t, v, lo, hi) && SamePoint(t, v, w) ==> !Newer(v, w)
  }

  function Emitted(c: Time, w: Write): Out { Out(FullKey(c, OrderKeyOf(w.Vals())), w.Ts(), w.Body()) }

  /** Object names are unique, files repeat no row, WAL rows no rank, and all series keys have one width. */
  ghost predicate Sound(t: Table, width: nat) {
    && DistinctPaths(t.files) && (forall f :: f in t.files ==> UniqueRows(f.rows, width)) && UniqueTableRanks(t)
    && (forall c, m :: c in t.extra && m in t.extra[c] ==> |m.vals| == width)
  }

  // ---- rows of a bucket ----

  lemma {:induction false} FileRowsAre(rs: seq<FileRow>, rank: nat, lo: Time, hi: Time, r: Row)
    ensures r in FileRows(rs, rank, lo, hi) <==>
      exists q :: q in rs && Wanted(q.ts, q.empty, lo, hi) && r == Row(OrderKeyOf(q.vals), q.ts, rank, q.body)
    decreases |rs|
  {
    hide OrderKeyOf;
    if rs != [] {
      FileRowsAre(rs[1..], rank, lo, hi, r);
      assert rs == [rs[0]] + rs[1..];
    }
  }

  lemma {:induction false} AllFileRowsAre(fs: seq<File>, n: nat, lo: Time, hi: Time, r: Row)
    requires n <= |fs|
    ensures r in AllFileRows(fs, n, lo, hi) <==> r.rank < n && r in FileRows(fs[r.rank].rows, r.rank, lo, hi)
    decreases n
  {
    hide OrderKeyOf, FileRows;
    if n > 0 {
      AllFileRowsAre(fs, n - 1, lo, hi, r);
      FileRowsAre(fs[n - 1].rows, n - 1, lo, hi, r);
    }
  }

  lemma {:induction false} ExtraRowsAre(rs: seq<MemRow>, base: nat, lo: Time, hi: Time, r: Row)
    ensures r in ExtraRows(rs, base, lo, hi) <==>
      exists m :: m in rs && Wanted(m.ts, m.empty, lo, hi) && r == Row(OrderKeyOf(m.vals), m.ts, base + m.rank, m.body)
    decreases |rs|
  {
    hide OrderKeyOf;
    if rs != [] {
      ExtraRowsAre(rs[1..], base, lo, hi, r);
      assert rs == [rs[0]] + rs[1..];
    }
  }

  /** What belongs into bucket b of the table, and how its files are ordered. */
  ghost predicate Fills(t: Table, b: Bucket) {
    && Strict(b.files, FileLess)
    && (forall f :: f in b.files <==> f in t.files && (Separate(t) ==> f.chunkTime == b.ct))
    && (forall m :: m in b.extra <==> exists c :: c in t.extra && m in t.extra[c] && (Separate(t) ==> c == b.ct))
  }

  /** The write belongs to the bucket. */
  ghost predicate Belongs(t: Table, b: Bucket, w: Write, lo: Time, hi: Time) {
    Counts(t, w, lo, hi) && (Separate(t) ==> w.ChunkTime() == b.ct)
  }

  /** r is the bucket's row of this write. */
  ghost predicate RowOf(b: Bucket, w: Write, r: Row) {
    && r == Row(OrderKeyOf(w.Vals()), w.Ts(), r.rank, w.Body())
    && if w.InFile? then r.rank < |b.files| && b.files[r.rank] == w.file else r.rank == |b.files| + w.mem.rank
  }

  lemma RowToWrite(t: Table, b: Bucket, lo: Time, hi: Time, r: Row) returns (w: Write)
    requires Fills(t, b) && r in BucketRows(b, lo, hi)
    ensures Belongs(t, b, w, lo, hi) && RowOf(b, w, r)
  {
    hide OrderKeyOf, FileRows, ExtraRows, FileLess, Separate;
    var n := |b.files|;
    AllFileRowsAre(b.files, n, lo, hi, r);
    if r in AllFileRows(b.files, n, lo, hi) {
      FileRowsAre(b.files[r.rank].rows, r.rank, lo, hi, r);
      var q :| q in b.files[r.rank].rows && Wanted(q.ts, q.empty, lo, hi) && r == Row(OrderKeyOf(q.vals), q.ts, r.rank, q.body);
      w := InFile(b.files[r.rank], q);
      assert b.files[r.rank] in b.files;
    } else {
      ExtraRowsAre(b.extra, n, lo, hi, r);
      var m :| m in b.extra && Wanted(m.ts, m.empty, lo, hi) && r == Row(OrderKeyOf(m.vals), m.ts, n + m.rank, m.body);
      var c :| c in t.extra && m in t.extra[c] && (Separate(t) ==> c == b.ct);
      w := InWal(c, m);
    }
  }

  lemma WriteToRow(t: Table, b: Bucket, lo: Time, hi: Time, w: Write) returns (r: Row)
    requires Fills(t, b) && Belongs(t, b, w, lo, hi)
    ensures r in BucketRows(b, lo, hi) && RowOf(b, w, r)
  {
    hide OrderKeyOf, FileRows, ExtraRows, FileLess, Separate;
    var n := |b.files|;
    match w
    case InFile(f, q) =>
      var i :| 0 <= i < n && b.files[i] == f;
      r := Row(OrderKeyOf(q.vals), q.ts, i, q.body);
      FileRowsAre(f.rows, i, lo, hi, r);
      AllFileRowsAre(b.files, n, lo, hi, r);
    case InWal(c, m) =>
      r := Row(OrderKeyOf(m.vals), m.ts, n + m.rank, m.body);
      ExtraRowsAre(b.extra, n, lo, hi, r);
  }

  /** Ranks say who is newer. */
  lemma RankIsAge(b: Bucket, v: Write, q: Row, w: Write, r: Row)
    requires Strict(b.files, FileLess) && RowOf(b, v, q) && RowOf(b, w, r)
    ensures q.rank > r.rank <==> Newer(v, w)
  {
    hide OrderKeyOf, StrLess;
    FileOrder();
    if v.InFile? && w.InFile? && q.rank < r.rank { assert FileLess(v.file, w.file); }
    if v.InFile? && w.InFile? && q.rank > r.rank { assert FileLess(w.file, v.file); }
    if v.InFile? && w.InFile? && q.rank == r.rank { assert !FileLess(w.file, v.file); }
  }

  lemma SameKey(t: Table, width: nat, v: Write, w: Write, lo: Time, hi: Time)
    requires Sound(t, width) && Counts(t, v, lo, hi) && Counts(t, w, lo, hi)
    ensures OrderKeyOf(v.Vals()) == OrderKeyOf(w.Vals()) <==> v.Vals() == w.Vals()
  {
    hide OrderKeyOf, DistinctPaths, UniqueTableRanks;
    assert |v.Vals()| == width && |w.Vals()| == width;
    if OrderKeyOf(v.Vals()) == OrderKeyOf(w.Vals()) { OrderKeyInjective(v.Vals(), w.Vals()); }
  }

  /** The bucket emits o for this write. */
  ghost predicate EmitsFor(t: Table, b: Bucket, w: Write, lo: Time, hi: Time, o: Out) {
    NewestWrite(t, w, lo, hi) && (Separate(t) ==> w.ChunkTime() == b.ct) && o == Emitted(b.ct, w)
  }

  /** What a bucket emits. */
  lemma BucketMeaning(t: Table, width: nat, b: Bucket, lo: Time, hi: Time, o: Out)
    requires Sound(t, width) && Fills(t, b) && Comparable(BucketRows(b, lo, hi), RowLess)
    ensures o in BucketOut(b, lo, hi) <==> exists w :: EmitsFor(t, b, w, lo, hi, o)
  {
    hide BucketRows, BucketOut, OrderKeyOf, FullKey, Fills, Sound, Separate, Counts, Comparable, Newer;
    NewestRowWins(b, lo, hi, o);
    if r :| Newest(BucketRows(b, lo, hi), r) && o == OutOf(b.ct, r) {
      var w := RowToWrite(t, b, lo, hi, r);
      NewestRowToWrite(t, width, b, lo, hi, r, w);
      assert EmitsFor(t, b, w, lo, hi, o);
    }
    if w :| EmitsFor(t, b, w, lo, hi, o) {
      var r := WriteToRow(t, b, lo, hi, w);
      NewestWriteToRow(t, width, b, lo, hi, r, w);
    }
  }

  lemma NewestRowToWrite(t: Table, width: nat, b: Bucket, lo: Time, hi: Time, r: Row, w: Write)
    requires Sound(t, width) && Fills(t, b) && Newest(BucketRows(b, lo, hi), r) && Belongs(t, b, w, lo, hi) && RowOf(b, w, r)
    ensures NewestWrite(t, w, lo, hi)
  {
    hide BucketRows, OrderKeyOf, Sound, Separate, Counts, Newer;
    forall v | Counts(t, v, lo, hi) && SamePoint(t, v, w) ensures !Newer(v, w) {
      var q := WriteToRow(t, b, lo, hi, v);
      RankIsAge(b, v, q, w, r);
    }
  }

  lemma NewestWriteToRow(t: Table, width: nat, b: Bucket, lo: Time, hi: Time, r: Row, w: Write)
    requires Sound(t, width) && Fills(t, b) && NewestWrite(t, w, lo, hi) && (Separate(t) ==> w.ChunkTime() == b.ct)
    requires r in BucketRows(b, lo, hi) && RowOf(b, w, r)
    ensures Newest(BucketRows(b, lo, hi), r)
  {
    hide BucketRows, OrderKeyOf, Sound, Separate, Counts, Newer;
    forall q | q in BucketRows(b, lo, hi) && SameGroup(q, r) ensures q.rank <= r.rank {
      var v := RowToWrite(t, b, lo, hi, q);
      SameKey(t, width, v, w, lo, hi);
      RankIsAge(b, v, q, w, r);
    }
  }

  // ---- the planned buckets ----

  lemma ChunkIn(t: Table, c: Time)
    ensures c in ChunkTimes(t) <==> HasChunk(t, c)
  {
    if f :| f in t.files && f.chunkTime == c { var i :| 0 <= i < |t.files| && t.files[i] == f; }
  }

  lemma FilesStrict(fs: seq<File>)
    requires DistinctPaths(fs)
    ensures Strict(SortBy(fs, FileLess), FileLess) && forall f :: f in SortBy(fs, FileLess) <==> f in fs
  {
    hide FileLess;
    FileOrder();
    PathsCompare(fs);
    SortByStrict(fs, FileLess);
    forall f ensures f in SortBy(fs, FileLess) <==> f in fs { SortByMembers(fs, FileLess, f); }
  }

  /** What one chunk time holds. */
  lemma BucketAtHolds(t: Table, ct: Time)
    requires DistinctPaths(t.files)
    ensures var b := BucketAt(t, ct);
      && b.ct == ct && Strict(b.files, FileLess) && (forall f :: f in b.files <==> f in t.files && f.chunkTime == ct)
      && (forall m :: m in b.extra <==> ct in t.extra && m in t.extra[ct])
  {
    hide FileLess, SortBy;
    FilesAtIndex(t.files, ct);
    FilesStrict(FilesAt(t.files, ct));
    forall f ensures f in FilesAt(t.files, ct) <==> f in t.files && f.chunkTime == ct { FilesAtMembers(t.files, ct, f); }
  }

  lemma {:induction false} ExtraInMembers(t: Table, ks: seq<Time>, m: MemRow)
    requires forall k :: k in ks ==> k in t.extra
    ensures m in ExtraIn(t, ks) <==> exists c :: c in ks && m in t.extra[c]
    decreases |ks|
  {
    if ks != [] {
      var n := |ks| - 1;
      ExtraInMembers(t, ks[..n], m);
      assert ks == ks[..n] + [ks[n]];
    }
  }

  /** Disjoint neighbours are disjoint from everything later. */
  lemma SeparateIsDisjoint(t: Table)
    requires DistinctPaths(t.files)
    ensures Disjoint(BucketsOf(t)) <==> Separate(t)
  {
    hide ChunkTimes, BucketAt, Separate, FileLess, HasChunk;
    var bs := BucketsOf(t);
    BucketsOfIs(t);
    forall c ensures c in ChunkTimes(t) <==> HasChunk(t, c) { ChunkIn(t, c); }
    if Disjoint(bs) { DisjointSeparates(t, bs); }
    if Separate(t) {
      forall i | 0 <= i < |bs| - 1 ensures EndsBy(bs[i], bs[i + 1].ct) {
        assert bs[i] in bs && bs[i + 1] in bs && BucketLess(bs[i], bs[i + 1]);
        BucketAtHolds(t, bs[i].ct);
        SeparateAt(t, bs[i].ct, bs[i + 1].ct);
      }
    }
  }

  lemma SeparateAt(t: Table, c: Time, d: Time)
    requires Separate(t) && HasChunk(t, d) && c < d
    ensures forall f :: f in t.files && f.chunkTime == c ==> f.max < d
    ensures c in t.extra ==> forall m :: m in t.extra[c] ==> m.ts < d
  {}

  lemma FileHasChunk(t: Table, f: File)
    requires f in t.files
    ensures HasChunk(t, f.chunkTime)
  {}

  /** The bucket of a chunk time ends before any later one. */
  lemma LaterBucket(t: Table, bs: seq<Bucket>, c: Time, d: Time)
    requires DistinctPaths(t.files) && Bucketized(t, bs) && Disjoint(bs) && HasChunk(t, c) && HasChunk(t, d) && c < d
    ensures (forall f :: f in t.files && f.chunkTime == c ==> f.max < d) && (c in t.extra ==> forall m :: m in t.extra[c] ==> m.ts < d)
  {
    hide ChunkTimes, BucketAt, HasChunk, FileLess;
    ChunkIn(t, c);
    ChunkIn(t, d);
    BucketAtHolds(t, c);
    BucketAtHolds(t, d);
    assert BucketAt(t, c) in bs && BucketAt(t, d) in bs;
    var i :| 0 <= i < |bs| && bs[i] == BucketAt(t, c);
    var j :| 0 <= j < |bs| && bs[j] == BucketAt(t, d);
    assert j < i ==> BucketLess(bs[j], bs[i]);
    assert i + 1 < j ==> BucketLess(bs[i + 1], bs[j]);
    assert EndsBy(bs[i], bs[i + 1].ct);
  }

  lemma DisjointSeparates(t: Table, bs: seq<Bucket>)
    requires DistinctPaths(t.files) && Bucketized(t, bs) && Disjoint(bs)
    ensures Separate(t)
  {
    hide Disjoint, Bucketized, HasChunk, DistinctPaths;
    forall f, d: Time | f in t.files && HasChunk(t, d) && f.chunkTime < d ensures f.max < d {
      FileHasChunk(t, f);
      LaterBucket(t, bs, f.chunkTime, d);
    }
    forall c, m, d: Time | c in t.extra && m in t.extra[c] && HasChunk(t, d) && c < d ensures m.ts < d {
      assert HasChunk(t, c) by { WalHasChunk(t, c); }
      LaterBucket(t, bs, c, d);
    }
  }

  lemma WalHasChunk(t: Table, c: Time)
    requires c in t.extra
    ensures HasChunk(t, c)
  {}

  /** If chunk times are separate, the planned buckets are one per chunk time ... */
  lemma PlanSeparate(t: Table, ks: seq<Time>)
    requires DistinctPaths(t.files) && Iterates(t, ks) && Separate(t)
    ensures forall k :: k in ks ==> k in t.extra
    ensures forall b :: b in Plan(t, ks) ==> Fills(t, b) && HasChunk(t, b.ct)
    ensures forall c :: HasChunk(t, c) ==> BucketAt(t, c) in Plan(t, ks)
  {
    hide ChunkTimes, BucketAt, HasChunk, Separate, Fills, Disjoint, BucketsOf, DistinctPaths, ExtraIn, Iterates, SortBy;
    IteratesKeys(t, ks);
    BucketsOfIs(t);
    SeparateIsDisjoint(t);
    forall c ensures c in ChunkTimes(t) <==> HasChunk(t, c) { ChunkIn(t, c); }
    forall b | b in Plan(t, ks) ensures Fills(t, b) { BucketAtFills(t, b.ct); }
    forall c | HasChunk(t, c) ensures BucketAt(t, c) in Plan(t, ks) { BucketAtHolds(t, c); }
  }

  /** ... else it is one bucket under the first chunk time. */
  lemma PlanMerged(t: Table, ks: seq<Time>)
    requires DistinctPaths(t.files) && Iterates(t, ks) && !Separate(t)
    ensures forall k :: k in ks ==> k in t.extra
    ensures |Plan(t, ks)| == 1 && var b := Plan(t, ks)[0]; Fills(t, b) && HasChunk(t, b.ct) && forall d :: HasChunk(t, d) ==> b.ct <= d
  {
    hide ChunkTimes, BucketAt, HasChunk, Separate, Fills, Disjoint, BucketsOf, DistinctPaths, ExtraIn, Iterates, SortBy;
    IteratesKeys(t, ks);
    var bs := BucketsOf(t);
    BucketsOfIs(t);
    SeparateIsDisjoint(t);
    SomeBucket(t);
    assert bs[0] in bs;
    ChunkIn(t, bs[0].ct);
    MergedFills(t, bs[0].ct, ks);
    forall d | HasChunk(t, d) ensures bs[0].ct <= d {
      ChunkIn(t, d);
      BucketAtHolds(t, d);
      assert BucketAt(t, d) in bs;
      var i :| 0 <= i < |bs| && bs[i] == BucketAt(t, d);
      assert i > 0 ==> BucketLess(bs[0], bs[i]);
    }
  }

  lemma SomeBucket(t: Table)
    requires !Separate(t)
    ensures BucketsOf(t) != []
  {
    BucketsOfIs(t);
  }

  lemma BucketAtFills(t: Table, c: Time)
    requires DistinctPaths(t.files) && Separate(t)
    ensures Fills(t, BucketAt(t, c))
  {
    hide FileLess, BucketAt, Separate;
    BucketAtHolds(t, c);
  }

  lemma MergedFills(t: Table, c: Time, ks: seq<Time>)
    requires DistinctPaths(t.files) && !Separate(t) && Iterates(t, ks)
    ensures forall k :: k in ks ==> k in t.extra
    ensures Fills(t, Bucket(c, SortBy(t.files, FileLess), ExtraIn(t, ks)))
  {
    hide FileLess, Separate, SortBy, ExtraIn, DistinctPaths;
    IteratesKeys(t, ks);
    FilesStrict(t.files);
    forall m ensures m in ExtraIn(t, ks) <==> exists c :: c in t.extra && m in t.extra[c] { ExtraInMembers(t, ks, m); }
  }

  lemma SoundIsRanked(t: Table, width: nat, lo: Time, hi: Time)
    requires Sound(t, width)
    ensures RankedTable(t, lo, hi)
  {
    hide DistinctPaths;
    SoundTableIsRanked(t, width, lo, hi);
  }

  lemma HasItsChunk(t: Table, w: Write)
    requires StoredIn(t, w)
    ensures HasChunk(t, w.ChunkTime())
  {}

  /** A planned bucket emits newest rows of the table under their chunk time ... */
  lemma BucketEmitsNewest(t: Table, width: nat, b: Bucket, lo: Time, hi: Time, o: Out) returns (w: Write)
    requires Sound(t, width) && b in Plan(t, WalOrder(t)) && o in BucketOut(b, lo, hi)
    ensures NewestWrite(t, w, lo, hi) && Home(t, w, b.ct) && o == Emitted(b.ct, w)
  {
    SoundIsRanked(t, width, lo, hi);
    hide Fills, Separate, HasChunk, NewestWrite, BucketOut, BucketRows, FullKey, OrderKeyOf, Plan, Comparable, Iterates,
      DistinctPaths, UniqueTableRanks, UniqueRows;
    if Separate(t) { PlanSeparate(t, WalOrder(t)); } else { PlanMerged(t, WalOrder(t)); }
    BucketMeaning(t, width, b, lo, hi, o);
    w :| EmitsFor(t, b, w, lo, hi, o);
  }

  lemma NewestIsStored(t: Table, w: Write, lo: Time, hi: Time)
    requires NewestWrite(t, w, lo, hi)
    ensures StoredIn(t, w)
  {}

  lemma PlanComparable(t: Table, width: nat, b: Bucket, lo: Time, hi: Time)
    requires Sound(t, width) && b in Plan(t, WalOrder(t))
    ensures Comparable(BucketRows(b, lo, hi), RowLess)
  {
    hide Sound, Plan, BucketRows, Comparable, Iterates;
    SoundIsRanked(t, width, lo, hi);
  }

  /** ... and every newest row is emitted by the bucket of its chunk time. */
  lemma NewestIsEmitted(t: Table, width: nat, w: Write, c: Time, lo: Time, hi: Time) returns (b: Bucket)
    requires Sound(t, width) && NewestWrite(t, w, lo, hi) && Home(t, w, c)
    ensures b in Plan(t, WalOrder(t)) && Emitted(c, w) in BucketOut(b, lo, hi)
  {
    hide Fills, Separate, HasChunk, BucketOut, BucketRows, Emitted, Plan, Comparable, Iterates, DistinctPaths, UniqueTableRanks,
      UniqueRows, NewestWrite, BucketAt, StoredIn, ExtraIn;
    NewestIsStored(t, w, lo, hi);
    HasItsChunk(t, w);
    if Separate(t) {
      PlanSeparate(t, WalOrder(t));
      b := BucketAt(t, c);
      BucketAtHolds(t, c);
    } else {
      PlanMerged(t, WalOrder(t));
      b := Plan(t, WalOrder(t))[0];
    }
    PlanComparable(t, width, b, lo, hi);
    assert EmitsFor(t, b, w, lo, hi, Emitted(c, w));
    BucketMeaning(t, width, b, lo, hi, Emitted(c, w));
  }

  /** The emission of a table is, of all rows with a field in the window, the newest of every point, and nothing else:
      the WAL row ranked highest if there is one, else the row of the file with the greatest (WAL sequence, id, path). */
  lemma EmissionMeaning(t: Table, width: nat, lo: Time, hi: Time, o: Out)
    requires Sound(t, width)
    ensures o in Emission(t, lo, hi) <==> exists w, c :: NewestWrite(t, w, lo, hi) && Home(t, w, c) && o == Emitted(c, w)
  {
    hide Sound, NewestWrite, Home, BucketOut, Emitted, Plan, Iterates;
    var plan := Plan(t, WalOrder(t));
    AllOutMembers(plan, lo, hi, o);
    if i :| 0 <= i < |plan| && o in BucketOut(plan[i], lo, hi) {
      assert plan[i] in plan;
      var w := BucketEmitsNewest(t, width, plan[i], lo, hi, o);
    }
    if w, c :| NewestWrite(t, w, lo, hi) && Home(t, w, c) && o == Emitted(c, w) {
      var b := NewestIsEmitted(t, width, w, c, lo, hi);
      var i :| 0 <= i < |plan| && plan[i] == b;
    }
  }

  // ---- each point once ----

  /** Rows lie within their file's bounds and not before their chunk time. */
  ghost predicate Truthful(t: Table) {
    && (forall f, r :: f in t.files && r in f.rows ==> f.chunkTime <= r.ts <= f.max)
    && (forall c, m :: c in t.extra && m in t.extra[c] ==> c <= m.ts)
  }

  lemma SameTimeSameHome(t: Table, v: Write, w: Write, c: Time, d: Time)
    requires Truthful(t) && StoredIn(t, v) && StoredIn(t, w) && Home(t, v, c) && Home(t, w, d) && v.Ts() == w.Ts()
    ensures c == d
  {
    hide HasChunk;
    HasItsChunk(t, v);
    HasItsChunk(t, w);
  }

  /** No two emitted points have the same tags and time, whatever chunk times their rows were stored at. */
  lemma EachPointOnce(t: Table, width: nat, lo: Time, hi: Time, i: nat, j: nat, v: Write, w: Write, c: Time, d: Time)
    requires Sound(t, width) && Truthful(t) && i < |Emission(t, lo, hi)| && j < |Emission(t, lo, hi)|
    requires NewestWrite(t, v, lo, hi) && Home(t, v, c) && Emission(t, lo, hi)[i] == Emitted(c, v)
    requires NewestWrite(t, w, lo, hi) && Home(t, w, d) && Emission(t, lo, hi)[j] == Emitted(d, w)
    requires v.Vals() == w.Vals() && v.Ts() == w.Ts()
    ensures i == j
  {
    SoundIsRanked(t, width, lo, hi);
    EmissionAscends(t, lo, hi);
    NewestIsStored(t, v, lo, hi);
    NewestIsStored(t, w, lo, hi);
    hide Sound, Truthful, Home, NewestWrite, Emission, RankedTable, FullKey, OrderKeyOf;
    SameTimeSameHome(t, v, w, c, d);
    var all := Emission(t, lo, hi);
    if i < j { OutOneWay(all[i], all[j]); }
    if j < i { OutOneWay(all[j], all[i]); }
  }

  // ---- what must be readable ----

  /** Everything can be read if and only if no file is broken and no WAL row with a field in the window has a tag outside
      the series key. */
  lemma ReadableMeaning(t: Table, width: nat, lo: Time, hi: Time)
    requires Sound(t, width)
    ensures ReadableTable(t, lo, hi) <==>
      && (forall f :: f in t.files ==> !f.broken)
      && (forall c, m :: c in t.extra && m in t.extra[c] && lo <= m.ts <= hi && !m.empty ==> !m.unknown)
  {
    hide Plan, Iterates, HasChunk, UniqueRows, UniqueTableRanks, DistinctPaths, Separate;
    var plan := Plan(t, WalOrder(t));
    if Separate(t) { PlanSeparate(t, WalOrder(t)); } else { PlanMerged(t, WalOrder(t)); }
    if ReadableTable(t, lo, hi) {
      forall f | f in t.files ensures !f.broken { var b := FileBucket(t, WalOrder(t), f); }
      forall c, m | c in t.extra && m in t.extra[c] && lo <= m.ts <= hi && !m.empty ensures !m.unknown { var b := RowBucket(t, WalOrder(t), c, m); }
    }
  }

  lemma FileBucket(t: Table, ks: seq<Time>, f: File) returns (b: Bucket)
    requires DistinctPaths(t.files) && Iterates(t, ks) && f in t.files
    ensures (forall k :: k in ks ==> k in t.extra) && b in Plan(t, ks) && f in b.files
  {
    hide Plan, Iterates, HasChunk, DistinctPaths, Separate, BucketAt, FileLess;
    FileHasChunk(t, f);
    BucketAtHolds(t, f.chunkTime);
    if Separate(t) {
      PlanSeparate(t, ks);
      b := BucketAt(t, f.chunkTime);
    } else {
      PlanMerged(t, ks);
      b := Plan(t, ks)[0];
    }
  }

  lemma RowBucket(t: Table, ks: seq<Time>, c: Time, m: MemRow) returns (b: Bucket)
    requires DistinctPaths(t.files) && Iterates(t, ks) && c in t.extra && m in t.extra[c]
    ensures (forall k :: k in ks ==> k in t.extra) && b in Plan(t, ks) && m in b.extra
  {
    hide Plan, Iterates, HasChunk, DistinctPaths, Separate, BucketAt, FileLess;
    WalHasChunk(t, c);
    BucketAtHolds(t, c);
    if Separate(t) {
      PlanSeparate(t, ks);
      b := BucketAt(t, c);
    } else {
      PlanMerged(t, ks);
      b := Plan(t, ks)[0];
    }
  }

  /** An extraction from the start that succeeds has read every file that reaches into the window, and has met no WAL row
      there whose tags it does not know. */
  lemma DoneMeansRead(t: Table, ks: seq<Time>, lo: Time, hi: Time)
    requires DistinctPaths(t.files) && Iterates(t, ks)
    ensures forall k :: k in ks ==> k in t.extra
    ensures ReadWell(Plan(t, ks), lo, hi, FromStart) ==>
      && (forall f :: f in t.files && f.min <= hi && f.max >= lo ==> !f.broken)
      && (forall c, m :: c in t.extra && m in t.extra[c] && lo <= m.ts <= hi && !m.empty ==> !m.unknown)
  {
    IteratesKeys(t, ks);
    hide Plan, Iterates, DistinctPaths;
    if ReadWell(Plan(t, ks), lo, hi, FromStart) {
      forall f | f in t.files && f.min <= hi && f.max >= lo ensures !f.broken {
        var b := FileBucket(t, ks, f);
        assert Touches(b, lo, hi);
      }
      forall c, m | c in t.extra && m in t.extra[c] && lo <= m.ts <= hi && !m.empty ensures !m.unknown {
        var b := RowBucket(t, ks, c, m);
        assert Touches(b, lo, hi);
      }
    }
  }
}
