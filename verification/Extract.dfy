/** Serial shard extraction: series in key order, runs in time order, one merge each. */
module Extract {
  import opened Orders
  import opened Values
  import opened Blocks
  import opened Streams
  import opened FieldMerge
  import opened SeriesSpec
  import opened SeriesMerge
  import opened Coalesce
  import opened Runs
  import opened Shard

  // ---- sources seen through a time window ----

  function Windowed(srcs: seq<Src>, s: int, e: int): seq<Src> {
    if srcs == [] then [] else [Src(srcs[0].name, InRange(StableSort(srcs[0].vals), s, e))] + Windowed(srcs[1..], s, e)
  }

  lemma {:induction false} WindowedConcat(a: seq<Src>, b: seq<Src>, s: int, e: int)
    ensures Windowed(a + b, s, e) == Windowed(a, s, e) + Windowed(b, s, e)
    decreases |a|
  {
    if a == [] {
      assert a + b == b;
    } else {
      assert (a + b)[1..] == a[1..] + b;
      WindowedConcat(a[1..], b, s, e);
    }
  }

  lemma {:induction false} WindowedContent(srcs: seq<Src>, s: int, e: int, n: Str, t: int)
    ensures Content(Windowed(srcs, s, e), n, t) == if s <= t <= e then Content(srcs, n, t) else []
    decreases |srcs|
  {
    hide At, InRange, StableSort;
    if srcs == [] {
      assert At([], t) == [] by { AtNone([], t); }
    } else {
      WindowedContent(srcs[1..], s, e, n, t);
      var one, w := [srcs[0]], [Src(srcs[0].name, InRange(StableSort(srcs[0].vals), s, e))];
      assert srcs == one + srcs[1..];
      ContentConcat(one, srcs[1..], n, t);
      ContentConcat(w, Windowed(srcs[1..], s, e), n, t);
      OneContent(srcs[0], n, t);
      OneContent(w[0], n, t);
      AtInRange(StableSort(srcs[0].vals), s, e, t);
      StableSortIsStable(srcs[0].vals);
    }
  }

  lemma OneContent(s: Src, n: Str, t: int)
    ensures Content([s], n, t) == if s.name == n then At(s.vals, t) else []
  {
    assert [s][1..] == [];
    assert FieldVals([s], n) == if s.name == n then s.vals else [];
    AtNone([], t);
  }

  /** Filtering every stream to a window yields the window's points. */
  lemma WindowedPoints(sk: Str, srcs: seq<Src>, s: Time, e: Time)
    ensures SeriesPoints(sk, Windowed(srcs, s, e), MIN_TIME, MAX_TIME) == SeriesPoints(sk, srcs, s, e)
  {
    hide SeriesPoints, Content;
    var w := Windowed(srcs, s, e);
    forall n, t ensures Content(w, n, t) == if s <= t <= e then Content(srcs, n, t) else [] {
      WindowedContent(srcs, s, e, n, t);
    }
    if s > e {
      NoPoints(sk, w, MIN_TIME, MAX_TIME);
      NoPoints(sk, srcs, s, e);
    } else {
      SplitPoints(sk, w, MIN_TIME, s - 1, MAX_TIME);
      SplitPoints(sk, w, s, e, MAX_TIME);
      NoPoints(sk, w, MIN_TIME, s - 1);
      NoPoints(sk, w, e + 1, MAX_TIME);
      forall t | s <= t <= e ensures AgreeAt(w, srcs, t) {}
      SamePoints(sk, w, srcs, s, e);
    }
  }

  // ---- sort.Strings ----

  function InsertStr(k: Str, s: seq<Str>): (r: seq<Str>)
    requires StrAscend(s) && k !in s
    ensures StrAscend(r)
    ensures forall x :: x in r <==> x == k || x in s
  {
    if s == [] then [k]
    else if StrLess(k, s[0]) then
      FirstLeast(k, s);
      [k] + s
    else
      StrTrichotomy(k, s[0]);
      assert s[0] in s && forall j :: 0 <= j < |s[1..]| ==> s[1..][j] == s[j + 1];
      var t := InsertStr(k, s[1..]);
      assert forall j :: 0 <= j < |t| ==> t[j] in t;
      [s[0]] + t
  }

  lemma FirstLeast(k: Str, s: seq<Str>)
    requires StrAscend(s) && s != [] && StrLess(k, s[0])
    ensures StrAscend([k] + s)
  {
    forall j | 0 <= j < |s| ensures StrLess(k, s[j]) {
      if j > 0 { StrTransitive(k, s[0], s[j]); }
    }
  }

  method SortStrings(set_: set<Str>) returns (r: seq<Str>)
    ensures StrTotalHolds() && r == Sorted(set_, StrLess)
  {
    r := [];
    var left := set_;
    while left != {}
      invariant left <= set_ && StrAscend(r)
      invariant forall k :: k in r <==> k in set_ && k !in left
      decreases left
    {
      var k :| k in left;
      r := InsertStr(k, r);
      left := left - {k};
    }
    StrTotal();
    forall i, j | 0 <= i < j < |r| ensures StrLess(r[i], r[j]) {}
    SortedUnique(r, Sorted(set_, StrLess), StrLess);
  }

  ghost predicate StrTotalHolds()
    ensures StrTotalHolds()
  {
    StrTotal();
    StrictTotal(StrLess)
  }

  // ---- the time span of a series in a file ----

  /** The span covers every index entry of the series in the file. */
  ghost predicate Covers(sp: Span, fields: map<Str, seq<Block>>) {
    forall n, b :: n in fields && b in fields[n] ==> sp.min <= b.min && b.max <= sp.max
  }

  method FileSpan(fields: map<Str, seq<Block>>) returns (sp: Span)
    ensures Covers(sp, fields)
  {
    var lo: int, hi: int := MAX_TIME, MIN_TIME;
    var left := fields.Keys;
    while left != {}
      invariant left <= fields.Keys
      invariant forall n, b :: n in fields && n !in left && b in fields[n] ==> lo <= b.min && b.max <= hi
      decreases left
    {
      var n :| n in left;
      for i := 0 to |fields[n]|
        invariant forall m, b :: m in fields && m !in left && b in fields[m] ==> lo <= b.min && b.max <= hi
        invariant forall j :: 0 <= j < i ==> lo <= fields[n][j].min && fields[n][j].max <= hi
      {
        if fields[n][i].min < lo { lo := fields[n][i].min; }
        if fields[n][i].max > hi { hi := fields[n][i].max; }
      }
      left := left - {n};
    }
    sp := Span(lo, hi);
  }

  lemma {:induction false} FieldSrcsMember(fields: map<Str, seq<Block>>, names: seq<Str>, k: nat)
    requires (forall n :: n in names ==> n in fields) && k < |FieldSrcs(fields, names)|
    ensures FieldSrcs(fields, names)[k].name in fields
    ensures FieldSrcs(fields, names)[k].vals == KeyVals(fields[FieldSrcs(fields, names)[k].name])
    decreases |names|
  {
    if k > 0 { FieldSrcsMember(fields, names[1..], k - 1); } else { assert names[0] in names; }
  }

  lemma OccursInSpan(sh: Shard, sk: Str, fi: nat, sp: Span, n: Str, t: int)
    requires fi < |sh.files| && sk in sh.files[fi] && IndexBounds(sh.files[fi])
    requires Covers(sp, sh.files[fi][sk])
    requires Occurs(FileSrcs(sh, sk, fi), n, t)
    ensures sp.min <= t <= sp.max
  {
    hide Content, KeyVals;
    StrTotal();
    var srcs := FileSrcs(sh, sk, fi);
    OccursIn(srcs, n, t);
    var k :| 0 <= k < |srcs| && srcs[k].name == n && At(srcs[k].vals, t) != [];
    FieldSrcsMember(sh.files[fi][sk], Sorted(sh.files[fi][sk].Keys, StrLess), k);
    AtEmpty(srcs[k].vals, t);
    var v :| v in srcs[k].vals && v.ts == t;
    KeyValsMember(sh.files[fi][sk][n], v);
  }

  method SpansOf(sh: Shard, sk: Str) returns (byFile: map<nat, Span>)
    requires Indexed(sh)
    ensures forall fi: nat :: fi in byFile <==> fi < |sh.files| && sk in sh.files[fi]
    ensures InSpan(FilesOf(sh, sk), byFile)
  {
    hide Covers, Occurs;
    byFile := map[];
    for i := 0 to |sh.files|
      invariant forall fi: nat :: fi in byFile <==> fi < i && sk in sh.files[fi]
      invariant forall fi: nat :: fi in byFile ==> Covers(byFile[fi], sh.files[fi][sk])
    {
      if sk in sh.files[i] {
        var sp := FileSpan(sh.files[i][sk]);
        byFile := byFile[i := sp];
      }
    }
    forall fi: nat, n, t | fi in byFile && Occurs(FilesOf(sh, sk)(fi), n, t) ensures byFile[fi].min <= t <= byFile[fi].max {
      OccursInSpan(sh, sk, fi, byFile[fi], n, t);
    }
  }

  // ---- the streams of one run ----

  /** Leaves that exist only for the current run, ready to be merged, and exactly the unreleased ones. */
  ghost predicate Fresh(ls: seq<Leaf>, srcs: seq<Src>, fs: FileSet, objs: set<object>)
    reads objs, fs`live
  {
    && fs !in objs && LeavesApart(ls)
    && (forall k :: 0 <= k < |ls| ==> ls[k].Obj() in objs)
    && |srcs| == |ls|
    && (forall k :: 0 <= k < |ls| ==> ls[k].Usable() && ls[k].On(fs) && !ls[k].Broken())
    && (forall k :: 0 <= k < |ls| ==> srcs[k] == Src(ls[k].Field(), ls[k].Rest()))
    && (forall b :: b in fs.live ==> exists k :: 0 <= k < |ls| && ls[k] == Lazy(b))
  }

  /** Adds the stream of one field of file fi. */
  method AddBlockStream(fs: FileSet, ls: seq<Leaf>, field: Str, fi: nat, blocks: seq<Block>, s: Time, e: Time,
      ghost srcs: seq<Src>, ghost objs: set<object>) returns (l: Leaf, ghost all: set<object>)
    requires Fresh(ls, srcs, fs, objs) && fs.Valid() && fi < |fs.files| && Bounded(blocks)
    modifies fs`refs, fs`live
    ensures fs.Valid() && l.Lazy? && fresh(l.b) && all == objs + {l.b}
    ensures Fresh(ls + [l], srcs + [Src(field, InRange(KeySorted(blocks), s, e))], fs, all)
  {
    hide FileSet.Valid, KeySorted, InRange, Bounded, BlockStream.Valid;
    var b := fs.NewBlockStream(field, fi, blocks, s, e);
    l, all := Lazy(b), objs + {b};
    assert (ls + [l])[|ls|] == Lazy(b);
    forall c | c in fs.live ensures exists k :: 0 <= k < |ls + [l]| && (ls + [l])[k] == Lazy(c) {
      if c != b {
        var k :| 0 <= k < |ls| && ls[k] == Lazy(c);
        assert (ls + [l])[k] == Lazy(c);
      }
    }
  }

  method AddWalStream(fs: FileSet, ls: seq<Leaf>, w: Wal, s: Time, e: Time, ghost srcs: seq<Src>,
      ghost objs: set<object>) returns (l: Leaf, ghost all: set<object>)
    requires Fresh(ls, srcs, fs, objs) && fs.Valid()
    ensures fs.Valid() && l.Mem? && fresh(l.s) && all == objs + {l.s}
    ensures Fresh(ls + [l], srcs + [Src(w.field, InRange(StableSort(w.vals), s, e))], fs, all)
  {
    hide FileSet.Valid, StableSort, InRange, BlockStream.Valid;
    var m := new SliceStream(w.field, w.vals, s, e);
    l, all := Mem(m), objs + {m};
    forall c | c in fs.live ensures exists k :: 0 <= k < |ls + [l]| && (ls + [l])[k] == Lazy(c) {
      var k :| 0 <= k < |ls| && ls[k] == Lazy(c);
      assert (ls + [l])[k] == Lazy(c);
    }
  }

  lemma {:induction false} FieldSrcsConcat(fields: map<Str, seq<Block>>, a: seq<Str>, b: seq<Str>)
    requires (forall n :: n in a ==> n in fields) && (forall n :: n in b ==> n in fields)
    ensures FieldSrcs(fields, a + b) == FieldSrcs(fields, a) + FieldSrcs(fields, b)
    decreases |a|
  {
    hide KeyVals;
    if a == [] {
      assert a + b == b;
    } else {
      assert (a + b)[0] == a[0] && (a + b)[1..] == a[1..] + b;
      FieldSrcsConcat(fields, a[1..], b);
    }
  }

  lemma WindowedOne(srcs: seq<Src>, x: Src, s: int, e: int)
    ensures Windowed(srcs + [x], s, e) == Windowed(srcs, s, e) + [Src(x.name, InRange(StableSort(x.vals), s, e))]
  {
    WindowedConcat(srcs, [x], s, e);
    assert [x][1..] == [];
  }

  /** The cursor of the next key of file fi. */
  method AddKey(fs: FileSet, fields: map<Str, seq<Block>>, n: Str, fi: nat, s: Time, e: Time, ls: seq<Leaf>,
      ghost srcs: seq<Src>, ghost objs: set<object>) returns (r: seq<Leaf>, ghost all: set<object>)
    requires n in fields && Bounded(fields[n]) && fi < |fs.files|
    requires Fresh(ls, Windowed(srcs, s, e), fs, objs) && fs.Valid()
    modifies fs`refs, fs`live
    ensures fs.Valid() && fresh(all - objs) && |r| == |ls| + 1
    ensures Fresh(r, Windowed(srcs + [Src(n, KeyVals(fields[n]))], s, e), fs, all)
  {
    hide FileSet.Valid, StableSort, InRange, Fresh, KeyVals, Bounded, Windowed;
    WindowedOne(srcs, Src(n, KeyVals(fields[n])), s, e);
    var l;
    l, all := AddBlockStream(fs, ls, n, fi, fields[n], s, e, Windowed(srcs, s, e), objs);
    r := ls + [l];
  }

  /** One cursor per key of the series in file fi, in key order. */
  method AddFile(fs: FileSet, sh: Shard, sk: Str, fi: nat, s: Time, e: Time, ls0: seq<Leaf>, ghost srcs: seq<Src>,
      ghost objs: set<object>) returns (ls: seq<Leaf>, ghost all: set<object>)
    requires fi < |sh.files| && sk in sh.files[fi] && IndexBounds(sh.files[fi]) && fs.files == sh.files
    requires Fresh(ls0, Windowed(srcs, s, e), fs, objs) && fs.Valid()
    modifies fs`refs, fs`live
    ensures fs.Valid() && fresh(all - objs) && |ls| == |ls0| + |sh.files[fi][sk]|
    ensures Fresh(ls, Windowed(srcs + FileSrcs(sh, sk, fi), s, e), fs, all)
  {
    hide FileSet.Valid, Fresh, KeyVals, Bounded, Windowed;
    var fields := sh.files[fi][sk];
    var names := SortStrings(fields.Keys);
    ls, all := ls0, objs;
    assert srcs + FieldSrcs(fields, names[..0]) == srcs;
    for i := 0 to |names|
      invariant fs.Valid() && fresh(all - objs) && |ls| == |ls0| + i
      invariant forall n :: n in names[..i] ==> n in fields
      invariant Fresh(ls, Windowed(srcs + FieldSrcs(fields, names[..i]), s, e), fs, all)
    {
      hide FieldSrcs;
      var n := names[i];
      assert n in names;
      TakeOneMore(names, i);
      FieldSrcsOneMore(fields, names[..i], n, srcs);
      ghost var done := srcs + FieldSrcs(fields, names[..i]);
      ls, all := AddKey(fs, fields, n, fi, s, e, ls, done, all);
    }
    assert names[..|names|] == names;
  }

  lemma FieldSrcsOneMore(fields: map<Str, seq<Block>>, names: seq<Str>, n: Str, base: seq<Src>)
    requires (forall m :: m in names ==> m in fields) && n in fields
    ensures base + FieldSrcs(fields, names + [n]) == base + FieldSrcs(fields, names) + [Src(n, KeyVals(fields[n]))]
  {
    var one := [n];
    FieldSrcsConcat(fields, names, one);
    assert one[1..] == [];
    assert FieldSrcs(fields, one) == [Src(n, KeyVals(fields[n]))] + FieldSrcs(fields, one[1..]);
  }

  lemma {:induction false} SrcsOfConcat(f: nat -> seq<Src>, a: seq<nat>, b: seq<nat>)
    ensures SrcsOf(f, a + b) == SrcsOf(f, a) + SrcsOf(f, b)
    decreases |a|
  {
    if a == [] {
      assert a + b == b;
    } else {
      assert (a + b)[1..] == a[1..] + b;
      SrcsOfConcat(f, a[1..], b);
    }
  }

  lemma SrcsOfOneMore(f: nat -> seq<Src>, a: seq<nat>, fi: nat)
    ensures SrcsOf(f, a + [fi]) == SrcsOf(f, a) + f(fi)
  {
    SrcsOfConcat(f, a, [fi]);
    assert [fi][1..] == [];
    assert SrcsOf(f, [fi]) == f(fi) + SrcsOf(f, [fi][1..]) == f(fi);
  }

  lemma {:induction false} WalSrcsOneMore(wal: seq<Wal>, w: Wal, sk: Str)
    ensures WalSrcs(wal + [w], sk) == WalSrcs(wal, sk) + if w.series == sk then [Src(w.field, w.vals)] else []
    decreases |wal|
  {
    if wal == [] {
      assert [] + [w] == [w] && [w][1..] == [];
    } else {
      assert (wal + [w])[1..] == wal[1..] + [w];
      WalSrcsOneMore(wal[1..], w, sk);
    }
  }

  ghost function KeyCount(sh: Shard, sk: Str, fis: seq<nat>): nat {
    if fis == [] then 0 else KeyCount(sh, sk, fis[..|fis| - 1]) + FieldCount(sh, sk, fis[|fis| - 1])
  }

  function FieldCount(sh: Shard, sk: Str, fi: nat): nat {
    if fi < |sh.files| && sk in sh.files[fi] then |sh.files[fi][sk]| else 0
  }

  /** The streams of one run: every file's keys in file order, then the WAL. */
  method BuildRun(fs: FileSet, sh: Shard, sk: Str, run: seq<nat>, wal: seq<Wal>, s: Time, e: Time)
      returns (ls: seq<Leaf>, keys: nat, ghost objs: set<object>)
    requires Indexed(sh) && fs.files == sh.files && fs.Valid() && fs.live == {}
    requires forall x: nat :: x in run ==> x < |sh.files| && sk in sh.files[x]
    modifies fs`refs, fs`live
    ensures fs.Valid() && fresh(objs) && keys == KeyCount(sh, sk, run)
    ensures Fresh(ls, Windowed(SrcsOf(FilesOf(sh, sk), run) + WalSrcs(wal, sk), s, e), fs, objs)
  {
    hide FileSet.Valid, FileSrcs, Windowed, StableSort, InRange;
    ls, objs, keys := [], {}, 0;
    ghost var f := FilesOf(sh, sk);
    assert Windowed(SrcsOf(f, run[..0]), s, e) == [] by { EmptyWindowed(s, e); }
    for i := 0 to |run|
      invariant fs.Valid() && fresh(objs) && keys == KeyCount(sh, sk, run[..i])
      invariant Fresh(ls, Windowed(SrcsOf(f, run[..i]), s, e), fs, objs)
    {
      hide Fresh, SrcsOf;
      var fi := run[i];
      assert fi in run && run[..i + 1] == run[..i] + [fi] && run[..i + 1][..i] == run[..i];
      SrcsOfOneMore(f, run[..i], fi);
      ghost var n := |ls|;
      var more;
      more, objs := AddFile(fs, sh, sk, fi, s, e, ls, SrcsOf(f, run[..i]), objs);
      keys := keys + |more| - |ls|;
      ls := more;
    }
    assert run[..|run|] == run;
    ls, objs := AddWal(fs, sk, wal, s, e, ls, SrcsOf(f, run), objs);
  }

  method AddWal(fs: FileSet, sk: Str, wal: seq<Wal>, s: Time, e: Time, ls0: seq<Leaf>, ghost base: seq<Src>,
      ghost objs: set<object>) returns (ls: seq<Leaf>, ghost all: set<object>)
    requires Fresh(ls0, Windowed(base, s, e), fs, objs) && fs.Valid()
    ensures fs.Valid() && fresh(all - objs)
    ensures Fresh(ls, Windowed(base + WalSrcs(wal, sk), s, e), fs, all)
  {
    hide FileSet.Valid, Windowed, StableSort, InRange, Fresh;
    ls, all := ls0, objs;
    assert base + WalSrcs(wal[..0], sk) == base;
    for i := 0 to |wal|
      invariant fs.Valid() && fresh(all - objs)
      invariant Fresh(ls, Windowed(base + WalSrcs(wal[..i], sk), s, e), fs, all)
    {
      hide WalSrcs;
      var w := wal[i];
      TakeOneMore(wal, i);
      WalSrcsOneMore(wal[..i], w, sk);
      ghost var done := base + WalSrcs(wal[..i], sk);
      if w.series == sk {
        WindowedOne(done, Src(w.field, w.vals), s, e);
        assert base + WalSrcs(wal[..i + 1], sk) == done + [Src(w.field, w.vals)];
        var l;
        l, all := AddWalStream(fs, ls, w, s, e, Windowed(done, s, e), all);
        ls := ls + [l];
      } else {
        assert base + WalSrcs(wal[..i + 1], sk) == done;
      }
    }
    assert wal[..|wal|] == wal;
  }

  lemma EmptyWindowed(s: int, e: int)
    ensures forall f: nat -> seq<Src> :: Windowed(SrcsOf(f, []), s, e) == []
  {}

  // ---- releasing them ----

  method ReleaseAll(ls: seq<Leaf>, fs: FileSet, ghost objs: set<object>)
    requires LeavesApart(ls) && fs.Valid() && fs !in objs && forall k :: 0 <= k < |ls| ==> ls[k].Obj() in objs
    requires forall k :: 0 <= k < |ls| ==> ls[k].Valid() && ls[k].On(fs)
    requires forall b :: b in fs.live ==> exists k :: 0 <= k < |ls| && ls[k] == Lazy(b)
    modifies objs, fs`rs, fs`refs, fs`live
    ensures fs.Valid() && fs.live == {} && fs.rs == {} && fs.refs == map[]
  {
    hide FileSet.Valid, Leaf.Valid;
    for i := 0 to |ls|
      invariant fs.Valid()
      invariant forall k :: 0 <= k < |ls| ==> ls[k].Valid() && ls[k].On(fs)
      invariant forall b :: b in fs.live ==> exists k :: i <= k < |ls| && ls[k] == Lazy(b)
    {
      ls[i].Release(fs);
    }
    fs.QuiescentIsClosed();
  }

  // ---- one run, one series, one shard ----

  /** Opens a run's streams, merges them and releases them: the window's points of the run's sources. */
  method MergeRun(fs: FileSet, sh: Shard, sk: Str, run: seq<nat>, wal: seq<Wal>, s: Time, e: Time, st0: Stats)
      returns (ok: bool, out: seq<Point>, st: Stats, keys: nat)
    requires Indexed(sh) && fs.files == sh.files && fs.Valid() && fs.live == {}
    requires forall x: nat :: x in run ==> x < |sh.files| && sk in sh.files[x]
    modifies fs`rs, fs`refs, fs`live, fs`faults
    ensures fs.Valid() && fs.live == {} && fs.rs == {} && fs.refs == map[]
    ensures keys == KeyCount(sh, sk, run) && st == Tally(st0, out)
    ensures out <= SeriesPoints(sk, SrcsOf(FilesOf(sh, sk), run) + WalSrcs(wal, sk), s, e)
    ensures ok ==> out == SeriesPoints(sk, SrcsOf(FilesOf(sh, sk), run) + WalSrcs(wal, sk), s, e)
    ensures old(fs.faults) == [] ==> fs.faults == [] && ok
  {
    hide FileSet.Valid, SrcsOf, WalSrcs, FilesOf, SeriesPoints, KeyCount, Tally, Leaf.Usable, Leaf.Broken, Leaf.Rest,
      Leaf.Field, Windowed;
    var ls;
    ghost var objs;
    ls, keys, objs := BuildRun(fs, sh, sk, run, wal, s, e);
    ghost var srcs := SrcsOf(FilesOf(sh, sk), run) + WalSrcs(wal, sk);
    WindowedPoints(sk, srcs, s, e);
    assert Sources(ls, Windowed(srcs, s, e));
    ghost var live := fs.live;
    ok, out, st := MergeSeries(sk, ls, fs, objs, Windowed(srcs, s, e), st0);
    ReleaseAll(ls, fs, objs);
  }

  lemma {:induction false} TallyAppend(st0: Stats, a: seq<Point>, b: seq<Point>)
    ensures Tally(Tally(st0, a), b) == Tally(st0, a + b)
  {
    TallyConcat(st0, a, b);
  }

  ghost function RunsCount(sh: Shard, sk: Str, runs: seq<seq<nat>>): nat {
    if runs == [] then 0 else RunsCount(sh, sk, runs[..|runs| - 1]) + KeyCount(sh, sk, runs[|runs| - 1])
  }

  /** What the runs emit one after the other, each merged with the WAL sources w. */
  ghost function RunsOut(sk: Str, f: nat -> seq<Src>, w: seq<Src>, runs: seq<seq<nat>>, lo: int, hi: int): seq<Point> {
    if runs == [] then []
    else RunsOut(sk, f, w, runs[..|runs| - 1], lo, hi) + SeriesPoints(sk, SrcsOf(f, runs[|runs| - 1]) + w, lo, hi)
  }

  lemma {:induction false} RunsOutPrefix(sk: Str, f: nat -> seq<Src>, w: seq<Src>, runs: seq<seq<nat>>, i: nat, lo: int, hi: int)
    requires i <= |runs|
    ensures RunsOut(sk, f, w, runs[..i], lo, hi) <= RunsOut(sk, f, w, runs, lo, hi)
    decreases |runs|
  {
    if i < |runs| {
      assert runs[..|runs| - 1][..i] == runs[..i];
      RunsOutPrefix(sk, f, w, runs[..|runs| - 1], i, lo, hi);
    } else {
      assert runs[..i] == runs;
    }
  }

  lemma RunsOutNext(sk: Str, f: nat -> seq<Src>, w: seq<Src>, runs: seq<seq<nat>>, i: nat, lo: int, hi: int)
    requires i < |runs|
    ensures RunsOut(sk, f, w, runs[..i + 1], lo, hi) ==
      RunsOut(sk, f, w, runs[..i], lo, hi) + SeriesPoints(sk, SrcsOf(f, runs[i]) + w, lo, hi)
  {
    assert runs[..i + 1][..i] == runs[..i];
  }

  lemma {:induction false} RunPointsConcat(sk: Str, f: nat -> seq<Src>, a: seq<seq<nat>>, b: seq<seq<nat>>, lo: int, hi: int)
    ensures RunPoints(sk, f, a + b, lo, hi) == RunPoints(sk, f, a, lo, hi) + RunPoints(sk, f, b, lo, hi)
    decreases |a|
  {
    hide SeriesPoints, SrcsOf;
    if a == [] {
      assert a + b == b;
    } else {
      assert (a + b)[0] == a[0] && (a + b)[1..] == a[1..] + b;
      RunPointsConcat(sk, f, a[1..], b, lo, hi);
    }
  }

  lemma {:induction false} RunsOutNoWal(sk: Str, f: nat -> seq<Src>, runs: seq<seq<nat>>, lo: int, hi: int)
    ensures RunsOut(sk, f, [], runs, lo, hi) == RunPoints(sk, f, runs, lo, hi)
    decreases |runs|
  {
    hide SeriesPoints, SrcsOf;
    if runs != [] {
      var front, one := runs[..|runs| - 1], [runs[|runs| - 1]];
      assert runs == front + one && one[1..] == [];
      RunsOutNoWal(sk, f, front, lo, hi);
      RunPointsConcat(sk, f, front, one, lo, hi);
      assert SrcsOf(f, one[0]) + [] == SrcsOf(f, one[0]);
    }
  }

  /** The files that hold the series are all that matters. */
  lemma OnlyItsFiles(sh: Shard, sk: Str, byFile: map<nat, Span>, w: seq<Src>, lo: int, hi: int)
    requires forall fi: nat :: fi in byFile <==> fi < |sh.files| && sk in sh.files[fi]
    ensures var every := UpTo(|sh.files|);
      SeriesPoints(sk, SrcsOf(FilesOf(sh, sk), every) + w, lo, hi) ==
      SeriesPoints(sk, SrcsOf(FilesOf(sh, sk), Kept(every, byFile.Keys)) + w, lo, hi)
  {
    hide SeriesPoints, SrcsOf;
    var f, every := FilesOf(sh, sk), UpTo(|sh.files|);
    var all := Kept(every, byFile.Keys);
    forall x: nat, n, t | x in every && x !in byFile.Keys ensures !Occurs(f(x), n, t) { AtNone([], t); }
    KeptAgrees(f, every, byFile.Keys, lo, hi);
    forall t | lo <= t <= hi ensures AgreeAt(SrcsOf(f, every) + w, SrcsOf(f, all) + w, t) {
      assert AgreeAt(SrcsOf(f, every), SrcsOf(f, all), t);
      forall n ensures Content(SrcsOf(f, every) + w, n, t) == Content(SrcsOf(f, all) + w, n, t) {
        ContentConcat(SrcsOf(f, every), w, n, t);
        ContentConcat(SrcsOf(f, all), w, n, t);
        assert Content(SrcsOf(f, every), n, t) == Content(SrcsOf(f, all), n, t);
      }
    }
    SamePoints(sk, SrcsOf(f, every) + w, SrcsOf(f, all) + w, lo, hi);
  }

  lemma RunsOfAll(sh: Shard, sk: Str, byFile: map<nat, Span>, runs: seq<seq<nat>>)
    requires forall fi: nat :: fi in byFile <==> fi < |sh.files| && sk in sh.files[fi]
    requires Partition(byFile, runs) && InTime(byFile, runs) && AllAscend(runs)
    ensures RunsOf(byFile, runs, Kept(UpTo(|sh.files|), byFile.Keys))
  {
    var every := UpTo(|sh.files|);
    KeptIncreases(every, byFile.Keys);
    forall x: nat ensures x in every <==> x < |sh.files| { if x < |sh.files| { assert every[x] == x; } }
  }

  /** The runs, each merged with the WAL, add up to the series. */
  lemma RunsAddUp(sh: Shard, sk: Str, byFile: map<nat, Span>, runs: seq<seq<nat>>, lo: int, hi: int)
    requires forall fi: nat :: fi in byFile <==> fi < |sh.files| && sk in sh.files[fi]
    requires InSpan(FilesOf(sh, sk), byFile) && Partition(byFile, runs) && InTime(byFile, runs) && AllAscend(runs)
    requires WalSrcs(sh.wal, sk) != [] ==> |runs| == 1
    ensures RunsOut(sk, FilesOf(sh, sk), WalSrcs(sh.wal, sk), runs, lo, hi) == SeriesPoints(sk, SeriesSrcs(sh, sk), lo, hi)
  {
    hide SeriesPoints, SrcsOf, InSpan, InTime, Partition, AllAscend, FilesOf, WalSrcs;
    var f, w := FilesOf(sh, sk), WalSrcs(sh.wal, sk);
    var all := Kept(UpTo(|sh.files|), byFile.Keys);
    OnlyItsFiles(sh, sk, byFile, w, lo, hi);
    RunsOfAll(sh, sk, byFile, runs);
    if w == [] {
      RunByRun(sk, f, byFile, runs, all, lo, hi);
      RunsOutNoWal(sk, f, runs, lo, hi);
      assert SrcsOf(f, all) + w == SrcsOf(f, all);
    } else {
      FirstRun(byFile, runs, all);
      SingleRunIsAll(byFile, runs, all);
      assert runs[..0] == [] && RunsOut(sk, f, w, runs[..0], lo, hi) == [];
    }
  }

  lemma SingleRunIsAll(byFile: map<nat, Span>, runs: seq<seq<nat>>, all: seq<nat>)
    requires RunsOf(byFile, runs, all) && |runs| == 1
    ensures runs[0] == all
  {
    FirstRun(byFile, runs, all);
    forall x ensures x in runs[0] <==> x in all {
      if x in all { assert InRuns(runs, x); }
    }
    IncreasingUnique(runs[0], all);
  }

  // ---- counting keys ----

  /** Keys of a series in all files. */
  ghost function SeriesKeys(sh: Shard, sk: Str): nat { KeyCount(sh, sk, UpTo(|sh.files|)) }

  lemma {:induction false} KeyCountConcat(sh: Shard, sk: Str, a: seq<nat>, b: seq<nat>)
    ensures KeyCount(sh, sk, a + b) == KeyCount(sh, sk, a) + KeyCount(sh, sk, b)
    decreases |b|
  {
    if b == [] {
      assert a + b == a;
    } else {
      assert (a + b)[..|a + b| - 1] == a + b[..|b| - 1];
      KeyCountConcat(sh, sk, a, b[..|b| - 1]);
    }
  }

  lemma {:induction false} KeyCountKept(sh: Shard, sk: Str, all: seq<nat>, keep: set<nat>, drop: set<nat>)
    requires keep !! drop && forall x :: x in all && x !in keep && x !in drop ==> FieldCount(sh, sk, x) == 0
    ensures KeyCount(sh, sk, all) == KeyCount(sh, sk, Kept(all, keep)) + KeyCount(sh, sk, Kept(all, drop))
    decreases |all|
  {
    if all != [] {
      var one := [all[0]];
      assert all == one + all[1..] && one[..0] == [];
      KeyCountConcat(sh, sk, one, all[1..]);
      KeyCountKept(sh, sk, all[1..], keep, drop);
      KeyCountConcat(sh, sk, one, Kept(all[1..], keep));
      KeyCountConcat(sh, sk, one, Kept(all[1..], drop));
      assert all[0] in all;
      assert Kept(all, keep) == (if all[0] in keep then one else []) + Kept(all[1..], keep);
      assert Kept(all, drop) == (if all[0] in drop then one else []) + Kept(all[1..], drop);
      assert [] + Kept(all[1..], keep) == Kept(all[1..], keep) && [] + Kept(all[1..], drop) == Kept(all[1..], drop);
      assert KeyCount(sh, sk, one) == KeyCount(sh, sk, one[..0]) + FieldCount(sh, sk, one[0]);
    }
  }

  lemma {:induction false} KeptNothing(all: seq<nat>)
    ensures Kept(all, {}) == []
    decreases |all|
  {
    if all != [] { KeptNothing(all[1..]); }
  }

  lemma {:induction false} RunsCountConcat(sh: Shard, sk: Str, a: seq<seq<nat>>, b: seq<seq<nat>>)
    ensures RunsCount(sh, sk, a + b) == RunsCount(sh, sk, a) + RunsCount(sh, sk, b)
    decreases |b|
  {
    if b == [] {
      assert a + b == a;
    } else {
      assert (a + b)[..|a + b| - 1] == a + b[..|b| - 1];
      RunsCountConcat(sh, sk, a, b[..|b| - 1]);
    }
  }

  /** However the files are split into runs, every key is counted once. */
  lemma {:induction false} RunsCountAll(sh: Shard, sk: Str, byFile: map<nat, Span>, runs: seq<seq<nat>>, all: seq<nat>)
    requires RunsOf(byFile, runs, all)
    ensures RunsCount(sh, sk, runs) == KeyCount(sh, sk, all)
    decreases |runs|
  {
    hide KeyCount, Kept, AllAscend, InTime, Increasing, RunsCount;
    NoRuns(sh, sk);
    if runs == [] {
      assert forall x :: !InRuns(runs, x);
      KeyCountKept(sh, sk, all, {}, {});
      KeptNothing(all);
    } else {
      var first := set x | x in runs[0];
      var later := (set x | x in all) - first;
      FirstRun(byFile, runs, all);
      OtherRuns(byFile, runs, all, later);
      hide RunsOf;
      RunsCountAll(sh, sk, byFile, runs[1..], Kept(all, later));
      KeyCountKept(sh, sk, all, first, later);
      var one := [runs[0]];
      assert runs == one + runs[1..] && one[..0] == [];
      RunsCountConcat(sh, sk, one, runs[1..]);
      OneRunCount(sh, sk, runs[0]);
    }
  }

  lemma NoRuns(sh: Shard, sk: Str)
    ensures RunsCount(sh, sk, []) == 0 && KeyCount(sh, sk, []) == 0
  {}

  lemma OneRunCount(sh: Shard, sk: Str, run: seq<nat>)
    ensures RunsCount(sh, sk, [run]) == KeyCount(sh, sk, run)
  {
    assert [run][..0] == [];
  }

  lemma RunsCountSeries(sh: Shard, sk: Str, byFile: map<nat, Span>, runs: seq<seq<nat>>)
    requires forall fi: nat :: fi in byFile <==> fi < |sh.files| && sk in sh.files[fi]
    requires Partition(byFile, runs) && InTime(byFile, runs) && AllAscend(runs)
    ensures RunsCount(sh, sk, runs) == SeriesKeys(sh, sk)
  {
    var every := UpTo(|sh.files|);
    RunsOfAll(sh, sk, byFile, runs);
    RunsCountAll(sh, sk, byFile, runs, Kept(every, byFile.Keys));
    KeptNothing(every);
    KeyCountKept(sh, sk, every, byFile.Keys, {});
  }

  // ---- one series ----

  method MergeOneSeries(fs: FileSet, sh: Shard, sk: Str, s: Time, e: Time, st0: Stats)
      returns (ok: bool, out: seq<Point>, st: Stats, keys: nat)
    requires Indexed(sh) && fs.files == sh.files && fs.Valid() && fs.live == {}
    modifies fs`rs, fs`refs, fs`live, fs`faults
    ensures fs.Valid() && fs.live == {}
    ensures out <= SeriesPoints(sk, SeriesSrcs(sh, sk), s, e) && st == Tally(st0, out)
    ensures ok ==> out == SeriesPoints(sk, SeriesSrcs(sh, sk), s, e) && keys == SeriesKeys(sh, sk)
    ensures old(fs.faults) == [] ==> fs.faults == [] && ok
  {
    hide FileSet.Valid, SeriesPoints, SeriesSrcs, SrcsOf, KeyCount, Tally, InSpan, InTime, AllAscend, WalSrcs, FilesOf,
      SeriesKeys, Partition;
    ghost var f, w := FilesOf(sh, sk), WalSrcs(sh.wal, sk);
    var byFile := SpansOf(sh, sk);
    var runs := PartitionRuns(byFile, WalSrcs(sh.wal, sk) != []);
    RunsAddUp(sh, sk, byFile, runs, s, e);
    RunsCountSeries(sh, sk, byFile, runs);
    out, st, keys := [], st0, 0;
    assert runs[..0] == [] && Tally(st0, []) == st0 by { TallyNothing(st0); }
    for i := 0 to |runs|
      invariant fs.Valid() && fs.live == {}
      invariant out == RunsOut(sk, f, w, runs[..i], s, e) && st == Tally(st0, out)
      invariant keys == RunsCount(sh, sk, runs[..i]) && (old(fs.faults) == [] ==> fs.faults == [])
    {
      var part, n;
      RunsOutNext(sk, f, w, runs, i, s, e);
      RunsOutPrefix(sk, f, w, runs, i + 1, s, e);
      assert runs[..i + 1][..i] == runs[..i];
      RunInRange(sh, sk, byFile, runs, i);
      ok, part, st, n := MergeRun(fs, sh, sk, runs[i], sh.wal, s, e, st);
      TallyAppend(st0, out, part);
      out, keys := out + part, keys + n;
      if !ok { return; }
    }
    assert runs[..|runs|] == runs;
    ok := true;
  }

  lemma TallyNothing(st: Stats)
    ensures Tally(st, []) == st
  {}

  lemma RunInRange(sh: Shard, sk: Str, byFile: map<nat, Span>, runs: seq<seq<nat>>, i: nat)
    requires forall fi: nat :: fi in byFile <==> fi < |sh.files| && sk in sh.files[fi]
    requires Partition(byFile, runs) && i < |runs|
    ensures forall x: nat :: x in runs[i] ==> x < |sh.files| && sk in sh.files[x]
  {
    forall x: nat | x in runs[i] ensures x < |sh.files| && sk in sh.files[x] {
      assert InRuns(runs, x);
      assert x in byFile;
    }
  }

  // ---- the shard ----

  datatype Outcome = Done | CursorGone | Failed

  const NO_STATS := Stats(0, 0, 0, 0, false)

  function FieldLists(pts: seq<Point>): (fs: seq<seq<Field>>)
    ensures |fs| == |pts| && forall i :: 0 <= i < |fs| ==> fs[i] == pts[i].fields
  {
    seq(|pts|, i requires 0 <= i < |pts| => pts[i].fields)
  }

  ghost predicate IsEarliest(pts: seq<Point>, t: int) { (exists p :: p in pts && p.ts == t) && forall p :: p in pts ==> t <= p.ts }

  ghost predicate IsLatest(pts: seq<Point>, t: int) { (exists p :: p in pts && p.ts == t) && forall p :: p in pts ==> p.ts <= t }

  /** The statistics of a run, read off the points it emitted. */
  lemma {:induction false} TallyMeaning(pts: seq<Point>)
    ensures var st := Tally(NO_STATS, pts);
      && st.points == |pts| && st.fields == |Flatten(FieldLists(pts))| && (st.hasTime <==> pts != [])
      && (pts != [] ==> IsEarliest(pts, st.min) && IsLatest(pts, st.max))
    decreases |pts|
  {
    hide IsEarliest, IsLatest, Flatten, Stats.Observe;
    if pts == [] {
      assert Flatten<Field>([]) == [] by { FlattenNone<Field>(); }
      assert FieldLists(pts) == [];
    } else {
      var n := |pts| - 1;
      TallyMeaning(pts[..n]);
      assert pts == pts[..n] + [pts[n]];
      FieldListsNext(pts[..n], pts[n]);
      RangeNext(pts[..n], pts[n], Tally(NO_STATS, pts[..n]));
    }
  }

  lemma FlattenNone<T>()
    ensures Flatten<T>([]) == []
  {}

  lemma FieldListsNext(pts: seq<Point>, p: Point)
    ensures |Flatten(FieldLists(pts + [p]))| == |Flatten(FieldLists(pts))| + |p.fields|
  {
    assert FieldLists(pts + [p]) == FieldLists(pts) + [p.fields];
    FlattenConcat(FieldLists(pts), [p.fields]);
    assert Flatten([p.fields]) == p.fields + Flatten([p.fields][1..]) == p.fields;
  }

  lemma RangeNext(pts: seq<Point>, p: Point, st: Stats)
    requires st.hasTime <==> pts != []
    requires pts != [] ==> IsEarliest(pts, st.min) && IsLatest(pts, st.max)
    ensures st.Add(p).hasTime && st.Add(p).points == st.points + 1 && st.Add(p).fields == st.fields + |p.fields|
    ensures IsEarliest(pts + [p], st.Add(p).min) && IsLatest(pts + [p], st.Add(p).max)
  {
    var all := pts + [p];
    assert p in all && (forall q :: q in pts ==> q in all) && forall q :: q in all ==> q in pts || q == p;
  }

  /** Sorts the series and drops those wholly before the cursor; the cursor's series must exist. */
  method ApplyCursor(sh: Shard, cur: Resume) returns (ok: bool, order: seq<Str>)
    ensures ok <==> cur.FromStart? || cur.cur.series in SeriesSet(sh)
    ensures ok ==> order == OrderFrom(SeriesOrder(sh), cur)
  {
    var all := SortStrings(SeriesSet(sh));
    order := all;
    if cur.FromStart? { return true, order; }
    var i := 0;
    while i < |all| && StrLess(all[i], cur.cur.series)
      invariant i <= |all| && forall j :: 0 <= j < i ==> all[j] != cur.cur.series
      invariant OrderFrom(all[i..], cur) == OrderFrom(all, cur)
    {
      StrTrichotomy(all[i], all[i]);
      assert all[i..][1..] == all[i + 1..];
      i := i + 1;
    }
    if i == |all| || all[i] != cur.cur.series {
      NotInOrder(all, i, cur.cur.series);
      return false, [];
    }
    assert all[i] in all;
    return true, all[i..];
  }

  lemma NotInOrder(all: seq<Str>, i: nat, k: Str)
    requires StrAscend(all) && i <= |all| && (forall j :: 0 <= j < i ==> all[j] != k)
    requires i < |all| ==> !StrLess(all[i], k) && all[i] != k
    ensures k !in all
  {
    forall j | i <= j < |all| ensures all[j] != k {
      StrTrichotomy(all[i], k);
      if j > i { StrTransitive(k, all[i], all[j]); StrTrichotomy(k, k); }
    }
  }

  /** Keys of the series still to be read. */
  ghost function KeysResumed(sh: Shard, sks: seq<Str>, lo: Time, cur: Resume): nat {
    if sks == [] then 0 else KeysResumed(sh, sks[..|sks| - 1], lo, cur) + KeysOf(sh, sks[|sks| - 1], lo, cur)
  }

  ghost function KeysOf(sh: Shard, sk: Str, lo: Time, cur: Resume): nat {
    if SeriesStartFor(sk, lo, cur).1 then SeriesKeys(sh, sk) else 0
  }

  lemma {:induction false} PointsResumedConcat(sh: Shard, a: seq<Str>, b: seq<Str>, lo: Time, hi: Time, cur: Resume)
    ensures PointsResumed(sh, a + b, lo, hi, cur) == PointsResumed(sh, a, lo, hi, cur) + PointsResumed(sh, b, lo, hi, cur)
    decreases |a|
  {
    hide SeriesResumed;
    if a == [] {
      assert a + b == b;
    } else {
      assert (a + b)[0] == a[0] && (a + b)[1..] == a[1..] + b;
      PointsResumedConcat(sh, a[1..], b, lo, hi, cur);
    }
  }

  lemma PointsResumedNext(sh: Shard, sks: seq<Str>, i: nat, lo: Time, hi: Time, cur: Resume)
    requires i < |sks|
    ensures PointsResumed(sh, sks[..i + 1], lo, hi, cur) ==
      PointsResumed(sh, sks[..i], lo, hi, cur) + SeriesResumed(sh, sks[i], lo, hi, cur)
    ensures PointsResumed(sh, sks[..i + 1], lo, hi, cur) <= PointsResumed(sh, sks, lo, hi, cur)
    ensures sks[..i + 1][..i] == sks[..i]
  {
    hide SeriesResumed;
    TakeOneMore(sks, i);
    var one := [sks[i]];
    assert one[1..] == [];
    PointsResumedConcat(sh, sks[..i], one, lo, hi, cur);
    TakeDrop(sks, i + 1);
    PointsResumedConcat(sh, sks[..i + 1], sks[i + 1..], lo, hi, cur);
  }

  /** Serial extraction of the given series. Without a failure the output is exactly what the model says for
      this cursor, with one it is a prefix of that. */
  method EmitSerial(sh: Shard, order: seq<Str>, start: Time, end: Time, cur: Resume, faults: seq<bool>)
      returns (ok: bool, out: seq<Point>, st: Stats, keys: nat)
    requires Indexed(sh)
    ensures out <= PointsResumed(sh, order, start, end, cur)
    ensures ok ==> out == PointsResumed(sh, order, start, end, cur) && st == Tally(NO_STATS, out)
    ensures ok ==> keys == KeysResumed(sh, order, start, cur)
    ensures faults == [] ==> ok
  {
    hide FileSet.Valid, SeriesPoints, SeriesSrcs, SeriesKeys, Tally, IndexBounds;
    out, st, keys := [], NO_STATS, 0;
    TallyNothing(NO_STATS);
    var fs := new FileSet(sh.files, faults);
    assert order[..0] == [];
    for i := 0 to |order|
      invariant fs.Valid() && fs.live == {} && fs.files == sh.files
      invariant out == PointsResumed(sh, order[..i], start, end, cur) && st == Tally(NO_STATS, out)
      invariant keys == KeysResumed(sh, order[..i], start, cur) && (faults == [] ==> fs.faults == [])
    {
      var sk := order[i];
      PointsResumedNext(sh, order, i, start, end, cur);
      var (s, left) := SeriesStartFor(sk, start, cur);
      if left {
        var part, n;
        ok, part, st, n := MergeOneSeries(fs, sh, sk, s, end, st);
        TallyAppend(NO_STATS, out, part);
        out, keys := out + part, keys + n;
        if !ok {
          fs.CloseAll();
          return;
        }
      }
    }
    TakeAll(order);
    fs.CloseAll();
    ok := true;
  }
}
