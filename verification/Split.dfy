/** Intra-shard parallel extraction: the ordered task list, what each task merges, and why the tasks'
    outputs in list order are the serial output. */
module Split {
  import opened Orders
  import opened Values
  import opened Blocks
  import opened Streams
  import opened FieldMerge
  import opened SeriesSpec
  import opened SeriesMerge
  import opened Coalesce
  import opened Runs
  import opened Shard
  import opened Extract
  import opened Windows
  import opened Words
  import Scheduler

  const BATCH_ARENA_FIELDS := 131072
  const DECODED_BLOCK_ESTIMATE := 65536

  /** One (file, key) stream taking part in a task. */
  datatype TaskStream = TaskStream(fi: nat, field: Str)

  /** One series, one run, one window. */
  datatype Task = Task(sk: Str, streams: seq<TaskStream>, start: Time, end: Time, est: int)

  /** A stream of a run with its index entries. */
  datatype KeyEnts = KeyEnts(ts: TaskStream, ents: seq<Block>, maxSize: nat)

  datatype RunInfo = RunInfo(kes: seq<KeyEnts>, all: seq<Block>, bytes: int, min: int, max: int, ascending: bool, keys: nat)

  predicate InShard(sh: Shard, sk: Str, ts: TaskStream) {
    ts.fi < |sh.files| && sk in sh.files[ts.fi] && ts.field in sh.files[ts.fi][sk]
  }

  function EntsOf(sh: Shard, sk: Str, ts: TaskStream): seq<Block> {
    if InShard(sh, sk, ts) then sh.files[ts.fi][sk][ts.field] else []
  }

  function StreamSrcs(sh: Shard, sk: Str, tss: seq<TaskStream>): seq<Src> {
    if tss == [] then [] else StreamSrcs(sh, sk, tss[..|tss| - 1]) + [StreamSrc(sh, sk, tss[|tss| - 1])]
  }

  function StreamSrc(sh: Shard, sk: Str, ts: TaskStream): Src {
    Src(ts.field, KeyVals(EntsOf(sh, sk, ts)))
  }

  function StreamsOf(kes: seq<KeyEnts>): seq<TaskStream> {
    seq(|kes|, i requires 0 <= i < |kes| => kes[i].ts)
  }

  /** What a task has to emit. */
  ghost function TaskPoints(sh: Shard, t: Task): seq<Point> {
    SeriesPoints(t.sk, StreamSrcs(sh, t.sk, t.streams) + WalSrcs(sh.wal, t.sk), t.start, t.end)
  }

  ghost function TasksOut(sh: Shard, ts: seq<Task>): seq<Point> {
    if ts == [] then [] else TasksOut(sh, ts[..|ts| - 1]) + TaskPoints(sh, ts[|ts| - 1])
  }

  lemma {:induction false} TasksOutConcat(sh: Shard, a: seq<Task>, b: seq<Task>)
    ensures TasksOut(sh, a + b) == TasksOut(sh, a) + TasksOut(sh, b)
    decreases |b|
  {
    hide TaskPoints;
    if b == [] {
      assert a + b == a;
    } else {
      assert (a + b)[..|a + b| - 1] == a + b[..|b| - 1] && (a + b)[|a + b| - 1] == b[|b| - 1];
      TasksOutConcat(sh, a, b[..|b| - 1]);
    }
  }

  // ---- agreement, source by source ----

  lemma AgreeAppend(a: seq<Src>, b: seq<Src>, x: seq<Src>, lo: int, hi: int)
    requires Agree(a, b, lo, hi)
    ensures Agree(a + x, b + x, lo, hi)
  {
    hide Content;
    forall t | lo <= t <= hi ensures AgreeAt(a + x, b + x, t) {
      assert AgreeAt(a, b, t);
      forall n ensures Content(a + x, n, t) == Content(b + x, n, t) {
        ContentConcat(a, x, n, t);
        ContentConcat(b, x, n, t);
        assert Content(a, n, t) == Content(b, n, t);
      }
    }
  }

  /** A source with nothing in the window may be left out. */
  lemma AgreeSilent(a: seq<Src>, b: seq<Src>, x: Src, lo: int, hi: int)
    requires Agree(a, b, lo, hi) && forall v :: v in x.vals ==> !(lo <= v.ts <= hi)
    ensures Agree(a, b + [x], lo, hi)
  {
    hide Content;
    forall t | lo <= t <= hi ensures AgreeAt(a, b + [x], t) {
      assert AgreeAt(a, b, t);
      forall n ensures Content(a, n, t) == Content(b + [x], n, t) {
        ContentConcat(b, [x], n, t);
        OneContent(x, n, t);
        AtNone(x.vals, t);
        assert Content(a, n, t) == Content(b, n, t);
      }
    }
  }

  lemma AgreeTrans(a: seq<Src>, b: seq<Src>, c: seq<Src>, lo: int, hi: int)
    requires Agree(a, b, lo, hi) && Agree(b, c, lo, hi)
    ensures Agree(a, c, lo, hi)
  {
    hide Content;
    forall t | lo <= t <= hi ensures AgreeAt(a, c, t) {
      assert AgreeAt(a, b, t) && AgreeAt(b, c, t);
      forall n ensures Content(a, n, t) == Content(c, n, t) {
        assert Content(a, n, t) == Content(b, n, t);
        assert Content(b, n, t) == Content(c, n, t);
      }
    }
  }

  // ---- collecting a run ----

  /** The info describes these sources, and its span covers all their entries. */
  ghost predicate Describes(sh: Shard, sk: Str, info: RunInfo, srcs: seq<Src>) {
    && (forall k :: k in info.kes ==> InShard(sh, sk, k.ts) && k.ents == EntsOf(sh, sk, k.ts))
    && (forall k, b :: k in info.kes && b in k.ents ==> info.min <= b.min && b.max <= info.max)
    && Agree(StreamSrcs(sh, sk, StreamsOf(info.kes)), srcs, MIN_TIME, MAX_TIME)
  }

  lemma StreamsOneMore(kes: seq<KeyEnts>, k: KeyEnts)
    ensures StreamsOf(kes + [k]) == StreamsOf(kes) + [k.ts]
  {}

  lemma StreamSrcsOneMore(sh: Shard, sk: Str, tss: seq<TaskStream>, ts: TaskStream)
    ensures StreamSrcs(sh, sk, tss + [ts]) == StreamSrcs(sh, sk, tss) + [StreamSrc(sh, sk, ts)]
  {
    assert (tss + [ts])[..|tss|] == tss;
  }

  lemma DescribesOneMore(sh: Shard, sk: Str, info: RunInfo, k: KeyEnts, r: RunInfo, srcs: seq<Src>)
    requires Describes(sh, sk, info, srcs) && InShard(sh, sk, k.ts) && k.ents == EntsOf(sh, sk, k.ts)
    requires r.kes == info.kes + [k] && r.min <= info.min && info.max <= r.max
    requires forall b :: b in k.ents ==> r.min <= b.min && b.max <= r.max
    ensures Describes(sh, sk, r, srcs + [StreamSrc(sh, sk, k.ts)])
  {
    hide Agree, StreamSrc, EntsOf, InShard;
    StreamsOneMore(info.kes, k);
    StreamSrcsOneMore(sh, sk, StreamsOf(info.kes), k.ts);
    AgreeAppend(StreamSrcs(sh, sk, StreamsOf(info.kes)), srcs, [StreamSrc(sh, sk, k.ts)], MIN_TIME, MAX_TIME);
  }

  lemma DescribesSilent(sh: Shard, sk: Str, info: RunInfo, ts: TaskStream, srcs: seq<Src>, r: RunInfo)
    requires Describes(sh, sk, info, srcs) && EntsOf(sh, sk, ts) == []
    requires r.kes == info.kes && r.min == info.min && r.max == info.max
    ensures Describes(sh, sk, r, srcs + [StreamSrc(sh, sk, ts)])
  {
    hide Agree;
    NoVals();
    AgreeSilent(StreamSrcs(sh, sk, StreamsOf(info.kes)), srcs, StreamSrc(sh, sk, ts), MIN_TIME, MAX_TIME);
  }

  /** Folds one key's entries into the run. */
  method AddKeyEnts(sh: Shard, sk: Str, info: RunInfo, ts: TaskStream, ghost srcs: seq<Src>) returns (r: RunInfo)
    requires Describes(sh, sk, info, srcs) && InShard(sh, sk, ts)
    ensures Describes(sh, sk, r, srcs + [StreamSrc(sh, sk, ts)]) && r.keys == info.keys + 1
  {
    hide Describes, StreamSrc, EntsOf, InShard, Chain;
    var ents := EntsOf(sh, sk, ts);
    if |ents| == 0 {
      r := info.(keys := info.keys + 1);
      DescribesSilent(sh, sk, info, ts, srcs, r);
      return;
    }
    var asc := EntriesAscending(ents);
    var bytes, lo, hi, maxSize := info.bytes, info.min, info.max, 0;
    for i := 0 to |ents|
      invariant lo <= info.min && info.max <= hi
      invariant forall j :: 0 <= j < i ==> lo <= ents[j].min && ents[j].max <= hi
    {
      bytes := Wrap64(bytes + ents[i].size);
      if ents[i].size > maxSize { maxSize := ents[i].size; }
      if ents[i].min < lo { lo := ents[i].min; }
      if ents[i].max > hi { hi := ents[i].max; }
    }
    var k := KeyEnts(ts, ents, maxSize);
    r := RunInfo(info.kes + [k], info.all + ents, bytes, lo, hi, info.ascending && asc, info.keys + 1);
    DescribesOneMore(sh, sk, info, k, r, srcs);
  }

  lemma NoVals()
    ensures KeyVals([]) == []
  {}

  method AddFileEnts(sh: Shard, sk: Str, fi: nat, info: RunInfo, ghost srcs: seq<Src>) returns (r: RunInfo)
    requires fi < |sh.files| && sk in sh.files[fi] && Describes(sh, sk, info, srcs)
    ensures Describes(sh, sk, r, srcs + FileSrcs(sh, sk, fi)) && r.keys == info.keys + |sh.files[fi][sk]|
  {
    hide Describes, KeyVals;
    var fields := sh.files[fi][sk];
    var names := SortStrings(fields.Keys);
    r := info;
    assert srcs + FieldSrcs(fields, names[..0]) == srcs;
    for i := 0 to |names|
      invariant r.keys == info.keys + i
      invariant forall n :: n in names[..i] ==> n in fields
      invariant Describes(sh, sk, r, srcs + FieldSrcs(fields, names[..i]))
    {
      hide FieldSrcs;
      var n := names[i];
      assert n in names;
      TakeOneMore(names, i);
      FieldSrcsOneMore(fields, names[..i], n, srcs);
      r := AddKeyEnts(sh, sk, r, TaskStream(fi, n), srcs + FieldSrcs(fields, names[..i]));
    }
    TakeAll(names);
  }

  /** Opens each file of the run once and collects every key's entries. */
  method CollectRun(sh: Shard, sk: Str, run: seq<nat>, faults: seq<bool>) returns (ok: bool, r: RunInfo, left: seq<bool>)
    requires forall x: nat :: x in run ==> x < |sh.files| && sk in sh.files[x]
    ensures ok ==> Describes(sh, sk, r, SrcsOf(FilesOf(sh, sk), run)) && r.keys == KeyCount(sh, sk, run)
    ensures faults == [] ==> ok && left == []
  {
    hide Describes, FileSrcs, SrcsOf;
    ghost var f := FilesOf(sh, sk);
    r, left := RunInfo([], [], 0, MAX_TIME, MIN_TIME, true, 0), faults;
    NothingCollected(sh, sk, f);
    assert run[..0] == [];
    for i := 0 to |run|
      invariant Describes(sh, sk, r, SrcsOf(f, run[..i])) && r.keys == KeyCount(sh, sk, run[..i])
      invariant faults == [] ==> left == []
    {
      if left != [] {
        var bad := left[0];
        left := left[1..];
        if bad { return false, r, left; }
      }
      var fi := run[i];
      assert fi in run && run[..i + 1][..i] == run[..i];
      TakeOneMore(run, i);
      SrcsOfOneMore(f, run[..i], fi);
      r := AddFileEnts(sh, sk, fi, r, SrcsOf(f, run[..i]));
    }
    TakeAll(run);
    ok := true;
  }

  lemma NothingCollected(sh: Shard, sk: Str, f: nat -> seq<Src>)
    ensures Describes(sh, sk, RunInfo([], [], 0, MAX_TIME, MIN_TIME, true, 0), SrcsOf(f, []))
  {}

  /** WAL values can extend the run's span beyond the index. */
  method WalSpan(wal: seq<Wal>, sk: Str, min: int, max: int) returns (lo: int, hi: int, bytes: int)
    ensures lo <= min && max <= hi
    ensures forall x, v :: x in WalSrcs(wal, sk) && v in x.vals ==> lo <= v.ts <= hi
    ensures WalSrcs(wal, sk) == [] ==> lo == min && hi == max
  {
    lo, hi, bytes := min, max, 0;
    assert WalSrcs(wal[..0], sk) == [];
    for i := 0 to |wal|
      invariant lo <= min && max <= hi
      invariant forall x, v :: x in WalSrcs(wal[..i], sk) && v in x.vals ==> lo <= v.ts <= hi
      invariant WalSrcs(wal[..i], sk) == [] ==> lo == min && hi == max
    {
      TakeOneMore(wal, i);
      WalSrcsOneMore(wal[..i], wal[i], sk);
      if wal[i].series == sk {
        bytes := Wrap64(bytes + |wal[i].vals| * 64);
        for j := 0 to |wal[i].vals|
          invariant lo <= min && max <= hi
          invariant forall x, v :: x in WalSrcs(wal[..i], sk) && v in x.vals ==> lo <= v.ts <= hi
          invariant forall k :: 0 <= k < j ==> lo <= wal[i].vals[k].ts <= hi
        {
          var ts := wal[i].vals[j].ts;
          if ts < lo { lo := ts; }
          if ts > hi { hi := ts; }
        }
      }
    }
    TakeAll(wal);
  }

  // ---- one window ----

  /** A stream with no block in the window has no value in it. */
  lemma SilentStream(sh: Shard, sk: Str, ts: TaskStream, s: int, e: int)
    requires Indexed(sh) && InShard(sh, sk, ts)
    requires forall b :: b in EntsOf(sh, sk, ts) ==> !Intersects(b, s, e)
    ensures forall v :: v in StreamSrc(sh, sk, ts).vals ==> !(s <= v.ts <= e)
  {
    assert sh.files[ts.fi] in sh.files;
    forall v | v in KeyVals(EntsOf(sh, sk, ts)) ensures !(s <= v.ts <= e) {
      KeyValsMember(EntsOf(sh, sk, ts), v);
    }
  }

  /** The streams that have a block in the window, and the admission estimate. */
  method WindowStreams(sh: Shard, sk: Str, kes: seq<KeyEnts>, s: Time, e: Time, est0: int)
      returns (tss: seq<TaskStream>, est: int)
    requires Indexed(sh) && forall k :: k in kes ==> InShard(sh, sk, k.ts) && k.ents == EntsOf(sh, sk, k.ts)
    ensures Agree(StreamSrcs(sh, sk, tss), StreamSrcs(sh, sk, StreamsOf(kes)), s, e)
    ensures forall t :: t in tss ==> InShard(sh, sk, t)
    ensures est >= est0
  {
    hide Agree, KeyVals, Intersects, Indexed, StreamSrc;
    tss, est := [], est0;
    assert StreamsOf(kes[..0]) == [];
    AgreeSelf(StreamSrcs(sh, sk, []), s, e);
    for i := 0 to |kes|
      invariant Agree(StreamSrcs(sh, sk, tss), StreamSrcs(sh, sk, StreamsOf(kes[..i])), s, e)
      invariant forall t :: t in tss ==> InShard(sh, sk, t)
      invariant est >= est0
    {
      var k := kes[i];
      assert k in kes;
      TakeOneMore(kes, i);
      StreamsOneMore(kes[..i], k);
      StreamSrcsOneMore(sh, sk, StreamsOf(kes[..i]), k.ts);
      var hit := AnyIntersects(k.ents, s, e);
      if hit {
        StreamSrcsOneMore(sh, sk, tss, k.ts);
        AgreeAppend(StreamSrcs(sh, sk, tss), StreamSrcs(sh, sk, StreamsOf(kes[..i])), [StreamSrc(sh, sk, k.ts)], s, e);
        tss := tss + [k.ts];
        est := est + if k.maxSize * 8 < DECODED_BLOCK_ESTIMATE then DECODED_BLOCK_ESTIMATE else k.maxSize * 8;
      } else {
        SilentStream(sh, sk, k.ts, s, e);
        AgreeSilent(StreamSrcs(sh, sk, tss), StreamSrcs(sh, sk, StreamsOf(kes[..i])), StreamSrc(sh, sk, k.ts), s, e);
      }
    }
    TakeAll(kes);
  }

  lemma AgreeSelf(a: seq<Src>, lo: int, hi: int)
    ensures Agree(a, a, lo, hi)
  {}

  ghost predicate TaskOk(sh: Shard, t: Task) {
    t.est > 0 && forall ts :: ts in t.streams ==> InShard(sh, t.sk, ts)
  }

  /** The task of one window, or none when the window is empty or has no stream. */
  method WindowTask(sh: Shard, sk: Str, info: RunInfo, w: Window, s: Time, e: Time, walBytes: nat, ghost srcs: seq<Src>)
      returns (ts: seq<Task>)
    requires Indexed(sh) && Describes(sh, sk, info, srcs)
    ensures TasksOut(sh, ts) == Clipped(sk, srcs + WalSrcs(sh.wal, sk), w, s, e)
    ensures forall t :: t in ts ==> TaskOk(sh, t)
  {
    hide Agree, StreamSrcs, WalSrcs, SeriesPoints;
    var lo, hi := w.lo, w.hi;
    if s > lo { lo := s; }
    if e < hi { hi := e; }
    ghost var wal := WalSrcs(sh.wal, sk);
    if lo > hi {
      EmptyRange(sk, srcs + wal, lo, hi);
      return [];
    }
    var tss, est := WindowStreams(sh, sk, info.kes, lo, hi, walBytes + 2 * BATCH_ARENA_FIELDS * 80);
    ghost var own := StreamSrcs(sh, sk, tss);
    AgreeNarrow(StreamSrcs(sh, sk, StreamsOf(info.kes)), srcs, lo, hi);
    AgreeTrans(own, StreamSrcs(sh, sk, StreamsOf(info.kes)), srcs, lo, hi);
    AgreeAppend(own, srcs, wal, lo, hi);
    SamePoints(sk, own + wal, srcs + wal, lo, hi);
    if |tss| == 0 && WalSrcs(sh.wal, sk) == [] {
      NoStreams(sh, sk, lo, hi);
      return [];
    }
    ts := [Task(sk, tss, lo, hi, est)];
    assert ts[..0] == [] && TasksOut(sh, ts) == TasksOut(sh, ts[..0]) + TaskPoints(sh, ts[0]);
  }

  lemma AgreeNarrow(a: seq<Src>, b: seq<Src>, lo: int, hi: int)
    requires Agree(a, b, MIN_TIME, MAX_TIME) && MIN_TIME <= lo && hi <= MAX_TIME
    ensures Agree(a, b, lo, hi)
  {}

  lemma NoStreams(sh: Shard, sk: Str, lo: int, hi: int)
    ensures SeriesPoints(sk, StreamSrcs(sh, sk, []) + [], lo, hi) == []
  {
    AtNone([], 0);
    forall n, t | lo <= t <= hi ensures !Occurs([], n, t) { AtNone([], t); }
    NoPoints(sk, [], lo, hi);
  }

  // ---- one run, one series, the shard ----

  /** What a run holds lies within its span. */
  lemma RunInSpan(sh: Shard, sk: Str, info: RunInfo, srcs: seq<Src>, lo: int, hi: int)
    requires Indexed(sh) && Describes(sh, sk, info, srcs)
    requires lo <= info.min && info.max <= hi
    requires forall x, v :: x in WalSrcs(sh.wal, sk) && v in x.vals ==> lo <= v.ts <= hi
    ensures forall n, t :: Occurs(srcs + WalSrcs(sh.wal, sk), n, t) ==> lo <= t <= hi
  {
    hide KeyVals, WalSrcs, StreamSrcs, StreamsOf, FieldVals, At;
    var w, own := WalSrcs(sh.wal, sk), StreamSrcs(sh, sk, StreamsOf(info.kes));
    forall n, t | Occurs(srcs + w, n, t) ensures lo <= t <= hi {
      ContentConcat(srcs, w, n, t);
      if Occurs(w, n, t) {
        OccursIn(w, n, t);
        var k :| 0 <= k < |w| && w[k].name == n && At(w[k].vals, t) != [];
        AtEmpty(w[k].vals, t);
      } else {
        OccursIn(srcs, n, t);
        var k :| 0 <= k < |srcs| && srcs[k].name == n && At(srcs[k].vals, t) != [];
        AtEmpty(srcs[k].vals, t);
        assert AgreeAt(own, srcs, t);
        assert Content(own, n, t) == Content(srcs, n, t);
        StreamsInSpan(sh, sk, info, n, t);
      }
    }
  }

  lemma {:induction false} StreamSrcsIndex(sh: Shard, sk: Str, tss: seq<TaskStream>, k: nat)
    requires k < |tss|
    ensures |StreamSrcs(sh, sk, tss)| == |tss| && StreamSrcs(sh, sk, tss)[k] == StreamSrc(sh, sk, tss[k])
    decreases |tss|
  {
    if k < |tss| - 1 {
      StreamSrcsIndex(sh, sk, tss[..|tss| - 1], k);
    } else if |tss| > 1 {
      StreamSrcsIndex(sh, sk, tss[..|tss| - 1], 0);
    }
  }

  lemma StreamsInSpan(sh: Shard, sk: Str, info: RunInfo, n: Str, t: int)
    requires Indexed(sh)
    requires forall k :: k in info.kes ==> InShard(sh, sk, k.ts) && k.ents == EntsOf(sh, sk, k.ts)
    requires forall k, b :: k in info.kes && b in k.ents ==> info.min <= b.min && b.max <= info.max
    requires Occurs(StreamSrcs(sh, sk, StreamsOf(info.kes)), n, t)
    ensures info.min <= t <= info.max
  {
    hide KeyVals, Content;
    var own := StreamSrcs(sh, sk, StreamsOf(info.kes));
    OccursIn(own, n, t);
    if |info.kes| > 0 { StreamSrcsIndex(sh, sk, StreamsOf(info.kes), 0); }
    var k :| 0 <= k < |own| && own[k].name == n && At(own[k].vals, t) != [];
    StreamSrcsIndex(sh, sk, StreamsOf(info.kes), k);
    AtEmpty(own[k].vals, t);
    var v :| v in own[k].vals && v.ts == t;
    assert info.kes[k] in info.kes && sh.files[info.kes[k].ts.fi] in sh.files;
    KeyValsMember(info.kes[k].ents, v);
  }

  datatype Options = Options(workers: int, budget: int, threshold: int)

  /** How many windows to cut a run into: only sizable, well-formed runs are cut. */
  function WindowCount(info: RunInfo, opt: Options): int
    requires opt.threshold > 0
  {
    if info.ascending && info.bytes >= opt.threshold then
      var k := TruncDiv(info.bytes, opt.threshold);
      if k > opt.workers * 4 then opt.workers * 4 else k
    else 1
  }

  /** The tasks of one run, window after window. */
  method RunTasks(sh: Shard, sk: Str, info: RunInfo, s: Time, e: Time, opt: Options, ghost srcs: seq<Src>)
      returns (ts: seq<Task>)
    requires Indexed(sh) && Describes(sh, sk, info, srcs) && opt.threshold > 0
    ensures TasksOut(sh, ts) == SeriesPoints(sk, srcs + WalSrcs(sh.wal, sk), s, e)
    ensures forall t :: t in ts ==> TaskOk(sh, t)
  {
    hide Describes, Indexed, SeriesPoints, WalSrcs, TaskPoints, Occurs, Clipped;
    ts := [];
    ghost var all := srcs + WalSrcs(sh.wal, sk);
    if |info.kes| == 0 && WalSrcs(sh.wal, sk) == [] {
      EmptyRun(sh, sk, info, srcs, s, e);
      return;
    }
    var lo, hi, walBytes := WalSpan(sh.wal, sk, info.min, info.max);
    RunInSpan(sh, sk, info, srcs, lo, hi);
    var k := WindowCount(info, opt);
    var ws := [Window(lo, hi)];
    if k > 1 { ws := SplitWindows(info.all, lo, hi, k); }
    WindowsAddUp(sk, all, ws, lo, hi, s, e);
    assert ws[..0] == [];
    for i := 0 to |ws|
      invariant TasksOut(sh, ts) == WindowsOut(sk, all, ws[..i], s, e)
      invariant forall t :: t in ts ==> TaskOk(sh, t)
    {
      TakeOneMore(ws, i);
      WindowsOutOneMore(sk, all, ws[..i], ws[i], s, e);
      var more := WindowTask(sh, sk, info, ws[i], s, e, if walBytes < 0 then 0 else walBytes, srcs);
      TasksOutConcat(sh, ts, more);
      ts := ts + more;
    }
    TakeAll(ws);
  }

  lemma EmptyRun(sh: Shard, sk: Str, info: RunInfo, srcs: seq<Src>, s: Time, e: Time)
    requires Describes(sh, sk, info, srcs) && info.kes == [] && WalSrcs(sh.wal, sk) == []
    ensures SeriesPoints(sk, srcs + WalSrcs(sh.wal, sk), s, e) == []
  {
    hide Content, SeriesPoints, WalSrcs;
    assert srcs + WalSrcs(sh.wal, sk) == srcs;
    forall n, t | s <= t <= e ensures !Occurs(srcs, n, t) {
      assert AgreeAt(StreamSrcs(sh, sk, StreamsOf(info.kes)), srcs, t);
      assert Content(StreamSrcs(sh, sk, StreamsOf(info.kes)), n, t) == Content(srcs, n, t);
      OccursIn([], n, t);
    }
    NoPoints(sk, srcs, s, e);
  }

  lemma {:induction false} WindowsOutOneMore(sk: Str, srcs: seq<Src>, ws: seq<Window>, w: Window, s: int, e: int)
    ensures WindowsOut(sk, srcs, ws + [w], s, e) == WindowsOut(sk, srcs, ws, s, e) + Clipped(sk, srcs, w, s, e)
    decreases |ws|
  {
    hide Clipped;
    if ws == [] {
      var one := [w];
      assert ws + one == one && one[1..] == [];
    } else {
      assert (ws + [w])[0] == ws[0] && (ws + [w])[1..] == ws[1..] + [w];
      WindowsOutOneMore(sk, srcs, ws[1..], w, s, e);
    }
  }

  /** The tasks of one series, run after run. */
  method SeriesTasks(sh: Shard, sk: Str, s: Time, e: Time, opt: Options, faults: seq<bool>)
      returns (ok: bool, ts: seq<Task>, keys: nat, left: seq<bool>)
    requires Indexed(sh) && opt.threshold > 0
    ensures ok ==> TasksOut(sh, ts) == SeriesPoints(sk, SeriesSrcs(sh, sk), s, e) && keys == SeriesKeys(sh, sk)
    ensures faults == [] ==> ok && left == []
    ensures forall t :: t in ts ==> TaskOk(sh, t)
  {
    hide SeriesPoints, SeriesSrcs, SrcsOf, KeyCount, InSpan, InTime, AllAscend, WalSrcs, FilesOf, SeriesKeys, Partition,
      Describes, TaskPoints, TaskOk;
    ghost var f, w := FilesOf(sh, sk), WalSrcs(sh.wal, sk);
    var byFile := SpansOf(sh, sk);
    var runs := PartitionRuns(byFile, WalSrcs(sh.wal, sk) != []);
    RunsAddUp(sh, sk, byFile, runs, s, e);
    RunsCountSeries(sh, sk, byFile, runs);
    ts, keys, left := [], 0, faults;
    assert runs[..0] == [];
    for i := 0 to |runs|
      invariant TasksOut(sh, ts) == RunsOut(sk, f, w, runs[..i], s, e)
      invariant forall t :: t in ts ==> TaskOk(sh, t)
      invariant keys == RunsCount(sh, sk, runs[..i]) && (faults == [] ==> left == [])
    {
      var info;
      RunsOutNext(sk, f, w, runs, i, s, e);
      assert runs[..i + 1][..i] == runs[..i];
      RunInRange(sh, sk, byFile, runs, i);
      ok, info, left := CollectRun(sh, sk, runs[i], left);
      if !ok { return; }
      var more := RunTasks(sh, sk, info, s, e, opt, SrcsOf(f, runs[i]));
      TasksOutConcat(sh, ts, more);
      ts, keys := ts + more, keys + info.keys;
    }
    TakeAll(runs);
    ok := true;
  }

  /** The ordered task list: series in key order, runs in time order, windows in time order. In list
      order the tasks' outputs are exactly what a serial extraction with this cursor emits. */
  method BuildTasks(sh: Shard, order: seq<Str>, start: Time, end: Time, cur: Resume, opt: Options, faults: seq<bool>)
      returns (ok: bool, ts: seq<Task>, keys: nat)
    requires Indexed(sh) && opt.threshold > 0
    ensures ok ==> TasksOut(sh, ts) == PointsResumed(sh, order, start, end, cur) && keys == KeysResumed(sh, order, start, cur)
    ensures forall t :: t in ts ==> TaskOk(sh, t)
    ensures faults == [] ==> ok
  {
    hide SeriesPoints, SeriesSrcs, SeriesKeys, TaskPoints, TaskOk, Indexed;
    ts, keys := [], 0;
    var left := faults;
    assert order[..0] == [];
    for i := 0 to |order|
      invariant TasksOut(sh, ts) == PointsResumed(sh, order[..i], start, end, cur)
      invariant keys == KeysResumed(sh, order[..i], start, cur) && (faults == [] ==> left == [])
      invariant forall t :: t in ts ==> TaskOk(sh, t)
    {
      var sk := order[i];
      PointsResumedNext(sh, order, i, start, end, cur);
      var (s, more) := SeriesStartFor(sk, start, cur);
      if more {
        var part, n;
        ok, part, n, left := SeriesTasks(sh, sk, s, end, opt, left);
        if !ok { return; }
        TasksOutConcat(sh, ts, part);
        ts, keys := ts + part, keys + n;
      }
    }
    TakeAll(order);
    ok := true;
  }

  // ---- batches ----

  /** Collects a task's points into batches bounded by field count. A batch is sealed before its arena
      would have to grow, so the fields of earlier points never move; a row wider than the arena gets a
      larger arena while the batch is still empty. */
  class BatchEmitter {
    var sent: seq<seq<Point>>
    var pts: seq<Point>
    var arena: nat        // fields in the current batch
    var room: nat         // capacity of its arena
    ghost var moved: bool // whether the arena was ever reallocated under existing points

    ghost predicate Valid()
      reads this
    {
      !moved && (pts == [] ==> arena == 0) && arena <= room && forall b :: b in sent ==> b != []
    }

    /** Everything emitted so far. */
    ghost function Emitted(): seq<Point>
      reads this
    {
      Flatten(sent) + pts
    }

    constructor ()
      ensures Valid() && Emitted() == []
    {
      sent, pts, arena, room, moved := [], [], 0, BATCH_ARENA_FIELDS, false;
    }

    method Flush()
      requires Valid()
      modifies this
      ensures Valid() && Emitted() == old(Emitted()) && pts == [] && Flatten(sent) == Emitted()
    {
      if |pts| == 0 { return; }
      FlattenOneMore(sent, pts);
      sent, pts, arena, room := sent + [pts], [], 0, BATCH_ARENA_FIELDS;
    }

    method Emit(p: Point)
      requires Valid()
      modifies this
      ensures Valid() && Emitted() == old(Emitted()) + [p]
    {
      var need := |p.fields|;
      if |pts| > 0 && arena + need > room { Flush(); }
      if need > room {
        moved := moved || pts != [];
        arena, room := 0, need;
      }
      arena, pts := arena + need, pts + [p];
    }
  }

  lemma {:induction false} FlattenOneMore<T>(ss: seq<seq<T>>, s: seq<T>)
    ensures Flatten(ss + [s]) == Flatten(ss) + s
  {
    FlattenConcat(ss, [s]);
    var one := [s];
    assert one[1..] == [] && Flatten(one) == s + Flatten(one[1..]) == s;
  }

  // ---- running a task ----

  lemma {:induction false} AddStreams(sh: Shard, sk: Str, tss: seq<TaskStream>, i: nat)
    requires i < |tss|
    ensures StreamSrcs(sh, sk, tss[..i + 1]) == StreamSrcs(sh, sk, tss[..i]) + [StreamSrc(sh, sk, tss[i])]
  {
    TakeOneMore(tss, i);
    StreamSrcsOneMore(sh, sk, tss[..i], tss[i]);
  }

  /** Merges one window with its own file set; every file it opened is closed. */
  method MergeWindow(sh: Shard, t: Task, faults: seq<bool>) returns (ok: bool, out: seq<Point>, st: Stats)
    requires Indexed(sh) && TaskOk(sh, t)
    ensures out <= TaskPoints(sh, t) && st == Tally(NO_STATS, out)
    ensures ok ==> out == TaskPoints(sh, t)
    ensures faults == [] ==> ok
  {
    hide FileSet.Valid, Windowed, StreamSrc, WalSrcs, SeriesPoints, Tally, Leaf.Usable, Leaf.Broken, Leaf.Rest, Leaf.Field;
    var fs := new FileSet(sh.files, faults);
    var ls: seq<Leaf> := [];
    ghost var objs: set<object> := {};
    assert t.streams[..0] == [] && Windowed([], t.start, t.end) == [] by { WindowedNone(t.start, t.end); }
    for i := 0 to |t.streams|
      invariant fs.Valid() && fs.files == sh.files && fs.faults == faults && fresh(objs)
      invariant Fresh(ls, Windowed(StreamSrcs(sh, t.sk, t.streams[..i]), t.start, t.end), fs, objs)
    {
      hide Fresh, StreamSrcs;
      var ts := t.streams[i];
      assert ts in t.streams && sh.files[ts.fi] in sh.files;
      AddStreams(sh, t.sk, t.streams, i);
      StreamSrcIs(sh, t.sk, ts);
      ls, objs := AddKey(fs, sh.files[ts.fi][t.sk], ts.field, ts.fi, t.start, t.end, ls,
        StreamSrcs(sh, t.sk, t.streams[..i]), objs);
    }
    TakeAll(t.streams);
    ghost var own := StreamSrcs(sh, t.sk, t.streams);
    ls, objs := AddWal(fs, t.sk, sh.wal, t.start, t.end, ls, own, objs);
    ghost var srcs := own + WalSrcs(sh.wal, t.sk);
    WindowedPoints(t.sk, srcs, t.start, t.end);
    assert Sources(ls, Windowed(srcs, t.start, t.end));
    ok, out, st := MergeSeries(t.sk, ls, fs, objs, Windowed(srcs, t.start, t.end), NO_STATS);
    ReleaseAll(ls, fs, objs);
    fs.CloseAll();
  }

  lemma FlattenOfPrefix<T>(a: seq<T>, b: seq<T>, c: seq<T>)
    requires a + b <= c
    ensures a <= c
  {}

  /** Hands the merged points to the emitter one by one. */
  method EmitAll(em: BatchEmitter, pts: seq<Point>)
    requires em.Valid() && em.Emitted() == []
    modifies em
    ensures em.Valid() && em.Emitted() == pts
  {
    hide Flatten;
    for i := 0 to |pts|
      invariant em.Valid() && em.Emitted() == pts[..i]
    {
      TakeOneMore(pts, i);
      em.Emit(pts[i]);
    }
    TakeAll(pts);
  }

  /** Merges one window with its own file set and sends its points in batches. Without a failure the batches
      hold exactly the task's points; with one they hold the beginning, and what was not sealed yet is
      dropped. Every file it opened is closed. */
  method RunSplitTask(sh: Shard, t: Task, faults: seq<bool>) returns (ok: bool, batches: seq<seq<Point>>, st: Stats)
    requires Indexed(sh) && TaskOk(sh, t)
    ensures Flatten(batches) <= TaskPoints(sh, t) && forall b :: b in batches ==> b != []
    ensures ok ==> Flatten(batches) == TaskPoints(sh, t) && st == Tally(NO_STATS, TaskPoints(sh, t))
    ensures faults == [] ==> ok
  {
    var out;
    ok, out, st := MergeWindow(sh, t, faults);
    hide TaskPoints, Tally, Flatten;
    var em := new BatchEmitter();
    EmitAll(em, out);
    if ok { em.Flush(); }
    batches := em.sent;
    FlattenOfPrefix(Flatten(batches), em.pts, TaskPoints(sh, t));
  }

  lemma WindowedNone(s: int, e: int)
    ensures Windowed([], s, e) == []
  {}

  lemma StreamSrcIs(sh: Shard, sk: Str, ts: TaskStream)
    requires InShard(sh, sk, ts)
    ensures StreamSrc(sh, sk, ts) == Src(ts.field, KeyVals(sh.files[ts.fi][sk][ts.field]))
  {}

  // ---- the consumer ----

  /** Adds a finished task's statistics to the shard's. */
  function AddStats(st: Stats, h: Stats): Stats {
    var s := st.(points := st.points + h.points, fields := st.fields + h.fields);
    if h.hasTime then s.Observe(h.min).Observe(h.max) else s
  }

  lemma {:induction false} TallyRange(pts: seq<Point>)
    ensures var h := Tally(NO_STATS, pts);
      (h.hasTime <==> pts != []) && (h.hasTime ==> h.min <= h.max)
    decreases |pts|
  {
    if pts != [] { TallyRange(pts[..|pts| - 1]); }
  }

  /** Adding a task's statistics is observing its points. */
  lemma {:induction false} AddStatsIsTally(st: Stats, pts: seq<Point>)
    requires st.hasTime ==> st.min <= st.max
    ensures AddStats(st, Tally(NO_STATS, pts)) == Tally(st, pts)
    ensures Tally(st, pts).hasTime ==> Tally(st, pts).min <= Tally(st, pts).max
    decreases |pts|
  {
    if pts != [] {
      AddStatsIsTally(st, pts[..|pts| - 1]);
      TallyRange(pts[..|pts| - 1]);
    }
  }

  // ---- any schedule ----

  /** The consumer's sum over the first n tasks. */
  function SumStats(hs: seq<Stats>, n: nat): Stats
    requires n <= |hs|
  {
    if n == 0 then NO_STATS else AddStats(SumStats(hs, n - 1), hs[n - 1])
  }

  /** What the workers made of a task list: each pushes its task's points in batches, with their statistics,
      or the beginning of them and an error. */
  ghost predicate Worked(sh: Shard, ts: seq<Task>, tasks: seq<Scheduler.Task<Point>>, hs: seq<Stats>) {
    && |tasks| == |ts| == |hs|
    && (forall i :: 0 <= i < |ts| ==> tasks[i].est == ts[i].est && Flatten(tasks[i].batches) <= TaskPoints(sh, ts[i]))
    && (forall i :: 0 <= i < |ts| && !tasks[i].broken ==>
          Flatten(tasks[i].batches) == TaskPoints(sh, ts[i]) && hs[i] == Tally(NO_STATS, TaskPoints(sh, ts[i])))
  }

  /** The tasks before a broken one push exactly their points, so the sums are those of the emitted points. */
  lemma {:induction false} UnbrokenOut(sh: Shard, ts: seq<Task>, j: Scheduler.Job<Point>, hs: seq<Stats>, n: nat)
    requires Worked(sh, ts, j.tasks, hs) && n <= |ts| && forall i :: 0 <= i < n ==> !j.tasks[i].broken
    ensures Scheduler.OutUpTo(j, n) == TasksOut(sh, ts[..n])
    ensures SumStats(hs, n) == Tally(NO_STATS, TasksOut(sh, ts[..n]))
    ensures SumStats(hs, n).hasTime ==> SumStats(hs, n).min <= SumStats(hs, n).max
    decreases n
  {
    hide TaskPoints, Flatten, Tally, Stats.Observe, AddStats;
    if n > 0 {
      UnbrokenOut(sh, ts, j, hs, n - 1);
      TasksOutNext(sh, ts, n - 1);
      AddStatsIsTally(SumStats(hs, n - 1), TaskPoints(sh, ts[n - 1]));
      TallyAppend(NO_STATS, TasksOut(sh, ts[..n - 1]), TaskPoints(sh, ts[n - 1]));
    } else {
      TallyNothing(NO_STATS);
    }
  }

  /** However the goroutines are scheduled, the consumer emits a prefix of the tasks' serial output; if it
      returns without a failure it emitted all of it, and added up exactly its statistics. */
  lemma AnyScheduleIsSerial(sh: Shard, ts: seq<Task>, j: Scheduler.Job<Point>, hs: seq<Stats>, s: Scheduler.State<Point>)
    requires Scheduler.Wellformed(j) && Worked(sh, ts, j.tasks, hs) && Scheduler.Reachable(j, s)
    ensures s.emitted <= TasksOut(sh, ts) && s.counted <= |ts|
    ensures s.done && s.failed.None? ==> s.emitted == TasksOut(sh, ts) && SumStats(hs, s.counted) == Tally(NO_STATS, s.emitted)
  {
    hide TaskPoints, Flatten, Tally, SumStats, Scheduler.Reachable;
    Scheduler.EmitsOutput(j, s);
    Scheduler.FailureIsFirstBroken(j, s);
    OutputIsPrefix(sh, ts, j, hs);
    Scheduler.CountedInRange(j, s);
    if s.done && s.failed.None? {
      Scheduler.LastIs(j, 0, |ts|);
      UnbrokenOut(sh, ts, j, hs, |ts|);
      TakeAll(ts);
    }
  }

  lemma OutputIsPrefix(sh: Shard, ts: seq<Task>, j: Scheduler.Job<Point>, hs: seq<Stats>)
    requires Worked(sh, ts, j.tasks, hs)
    ensures Scheduler.Output(j) <= TasksOut(sh, ts)
  {
    hide TaskPoints, Flatten, Tally, SumStats;
    var n := Scheduler.Last(j, 0);
    Scheduler.BeforeLast(j, 0);
    if n > 0 {
      UnbrokenOut(sh, ts, j, hs, n - 1);
      TasksOutNext(sh, ts, n - 1);
    }
  }

  /** Every task merged by its worker. */
  method RunTasksAlone(sh: Shard, ts: seq<Task>, faults: nat -> seq<bool>)
      returns (tasks: seq<Scheduler.Task<Point>>, hs: seq<Stats>)
    requires Indexed(sh) && forall t :: t in ts ==> TaskOk(sh, t)
    ensures Worked(sh, ts, tasks, hs) && forall t :: t in tasks ==> t.est > 0
    ensures (forall i :: faults(i) == []) ==> forall t :: t in tasks ==> !t.broken
  {
    hide TaskPoints, Flatten, Tally, Indexed;
    tasks, hs := [], [];
    for i := 0 to |ts|
      invariant Worked(sh, ts[..i], tasks, hs) && forall t :: t in tasks ==> t.est > 0
      invariant (forall k :: faults(k) == []) ==> forall t :: t in tasks ==> !t.broken
    {
      assert ts[i] in ts;
      var ok, batches, st := RunSplitTask(sh, ts[i], faults(i));
      tasks, hs := tasks + [Scheduler.Task(ts[i].est, batches, !ok)], hs + [st];
    }
    TakeAll(ts);
  }

  /** The split path: tasks merged on their own, under any schedule, re-emitted strictly in list order,
      stopping at the first failure. Output, key count and statistics are those of the serial path. */
  method ShardParallel(sh: Shard, order: seq<Str>, start: Time, end: Time, cur: Resume, opt: Options,
      schedule: seq<Scheduler.Step>, indexFaults: seq<bool>, faults: nat -> seq<bool>)
      returns (ok: bool, out: seq<Point>, st: Stats, keys: nat)
    requires Indexed(sh) && opt.threshold > 0 && opt.workers > 0
    ensures out <= PointsResumed(sh, order, start, end, cur)
    ensures ok ==> out == PointsResumed(sh, order, start, end, cur) && st == Tally(NO_STATS, out)
    ensures ok ==> keys == KeysResumed(sh, order, start, cur)
    ensures opt.budget <= 0 ==> !ok && out == []
    ensures opt.budget > 0 && indexFaults == [] && (forall i :: faults(i) == []) ==> ok
  {
    hide SeriesPoints, Indexed, TaskOk, TaskPoints, Tally, PointsResumed, KeysResumed, Worked, SumStats,
      Scheduler.Reachable, TasksOut;
    out, st, keys := [], NO_STATS, 0;
    if opt.budget <= 0 { return false, out, st, keys; }
    var ts;
    ok, ts, keys := BuildTasks(sh, order, start, end, cur, opt, indexFaults);
    if !ok { return; }
    var tasks, hs := RunTasksAlone(sh, ts, faults);
    var j := Scheduler.Job(tasks, opt.budget, opt.workers);
    var s := Scheduler.Play(j, schedule);
    AnyScheduleIsSerial(sh, ts, j, hs, s);
    Scheduler.FailureIsFirstBroken(j, s);
    WorkedLength(sh, ts, tasks, hs);
    ok, out, st := s.failed.None?, s.emitted, SumStats(hs, s.counted);
  }

  lemma WorkedLength(sh: Shard, ts: seq<Task>, tasks: seq<Scheduler.Task<Point>>, hs: seq<Stats>)
    requires Worked(sh, ts, tasks, hs)
    ensures |tasks| == |ts| == |hs|
  {}

  lemma TasksOutNext(sh: Shard, ts: seq<Task>, i: nat)
    requires i < |ts|
    ensures TasksOut(sh, ts[..i + 1]) == TasksOut(sh, ts[..i]) + TaskPoints(sh, ts[i])
    ensures TasksOut(sh, ts[..i + 1]) <= TasksOut(sh, ts)
  {
    hide TaskPoints;
    assert ts[..i + 1][..i] == ts[..i];
    TakeDrop(ts, i + 1);
    TasksOutConcat(sh, ts[..i + 1], ts[i + 1..]);
  }

  /** Extraction with any options, under any schedule. A cursor whose series is gone is refused before anything is emitted.
      Otherwise the output is a prefix of what the model says for this cursor, and all of it when nothing
      fails: the options change nothing, neither the points nor the statistics. */
  method ShardResumeSplit(sh: Shard, start: Time, end: Time, cur: Resume, opt: Options, schedule: seq<Scheduler.Step>,
      indexFaults: seq<bool>, faults: nat -> seq<bool>) returns (r: Outcome, out: seq<Point>, st: Stats, keys: nat)
    requires Indexed(sh) && opt.threshold > 0
    ensures r.CursorGone? <==> cur.After? && cur.cur.series !in SeriesSet(sh)
    ensures if r.CursorGone? then out == [] else out <= Resumed(sh, start, end, cur)
    ensures r.Done? ==> out == Resumed(sh, start, end, cur) && st == Tally(NO_STATS, out)
    ensures r.Done? ==> keys == KeysResumed(sh, OrderFrom(SeriesOrder(sh), cur), start, cur)
    ensures opt.workers > 1 && opt.budget <= 0 && !r.CursorGone? ==> r.Failed? && out == []
    ensures indexFaults == [] && (forall i :: faults(i) == []) && (opt.workers > 1 ==> opt.budget > 0) ==> !r.Failed?
  {
    hide SeriesSet, OrderFrom, SeriesOrder, PointsResumed, KeysResumed, Tally, Indexed;
    out, st, keys := [], NO_STATS, 0;
    var ok, order := ApplyCursor(sh, cur);
    if !ok { return CursorGone, out, st, keys; }
    if opt.workers > 1 {
      ok, out, st, keys := ShardParallel(sh, order, start, end, cur, opt, schedule, indexFaults, faults);
    } else {
      ok, out, st, keys := EmitSerial(sh, order, start, end, cur, indexFaults);
    }
    r := if ok then Done else Failed;
  }
}
