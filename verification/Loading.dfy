/** loadShard from end to end: read the checkpoint, extract behind its cursor, cut, send, commit, finish.

    Each run brings its own choices and its own misfortunes; what it does to the checkpoint and to Arc is one
    run of `LoadShard`. So after any runs, of either source format, everything `LoadShard` promises holds. */
module Loading {
  import opened Orders
  import opened Values
  import opened SeriesSpec
  import opened Shard
  import opened ShardMeaning
  import opened Chunks
  import opened Stage
  import opened LoadShard
  import opened Delivery
  import Checkpoint
  import Extract3
  import Scheduler
  import Sender
  import Split
  import TableMeaning
  import Upload

  // ---- from points to items ----

  ghost predicate InTime(ps: seq<Point>) { forall p :: p in ps ==> MIN_TIME <= p.ts <= MAX_TIME }

  function ItemOf(p: Point, f: Point -> Act): Item
    requires MIN_TIME <= p.ts <= MAX_TIME
  {
    Item(Cursor(p.series, p.ts), f(p))
  }

  /** The fixed resolver and encoder, applied to every point. */
  ghost function ItemsOf(ps: seq<Point>, f: Point -> Act): (items: seq<Item>)
    requires InTime(ps)
    ensures |items| == |ps|
  {
    seq(|ps|, i requires 0 <= i < |ps| => assert ps[i] in ps; ItemOf(ps[i], f))
  }

  lemma PointsInTime(sh: Shard, lo: Time, hi: Time)
    ensures InTime(ShardPoints(sh, lo, hi))
  {
    hide ShardPoints, Resumed;
    var ps := ShardPoints(sh, lo, hi);
    forall p | p in ps ensures MIN_TIME <= p.ts <= MAX_TIME {
      var j :| 0 <= j < |ps| && ps[j] == p;
      ResumeIsSuffix(sh, lo, hi, j);
    }
  }

  /** Everything an uninterrupted extraction emits, as items. */
  ghost function ShardItems(sh: Shard, lo: Time, hi: Time, f: Point -> Act): seq<Item> {
    PointsInTime(sh, lo, hi);
    ItemsOf(ShardPoints(sh, lo, hi), f)
  }

  lemma ShardItemsDistinct(sh: Shard, lo: Time, hi: Time, f: Point -> Act)
    ensures Distinct(ShardItems(sh, lo, hi, f))
  {
    hide ShardPoints;
    var ps, items := ShardPoints(sh, lo, hi), ShardItems(sh, lo, hi, f);
    PointsInTime(sh, lo, hi);
    ShardOutputAscends(sh, lo, hi);
    forall a, b | 0 <= a < b < |items| ensures items[a].pos != items[b].pos {
      assert PointLess(ps[a], ps[b]);
      PointLessAsym(ps[a], ps[b]);
      StrTrichotomy(ps[a].series, ps[a].series);
    }
  }

  /** An extraction after any item's position emits exactly the items behind it. */
  lemma EmissionAfter(sh: Shard, lo: Time, hi: Time, f: Point -> Act, i: nat)
    requires i < |ShardItems(sh, lo, hi, f)|
    ensures var items := ShardItems(sh, lo, hi, f);
      var rest := Resumed(sh, lo, hi, After(items[i].pos));
      InTime(rest) && ItemsOf(rest, f) == items[i + 1..] && Offset(items, items[i].pos) == i + 1
  {
    hide ShardPoints, Resumed;
    var ps, items := ShardPoints(sh, lo, hi), ShardItems(sh, lo, hi, f);
    PointsInTime(sh, lo, hi);
    ResumeIsSuffix(sh, lo, hi, i);
    ShardItemsDistinct(sh, lo, hi, f);
    OffsetAt(items, i);
    var rest := Resumed(sh, lo, hi, After(items[i].pos));
    assert InTime(rest) by { assert forall p :: p in ps[i + 1..] ==> p in ps; }
    var a, b := ItemsOf(rest, f), items[i + 1..];
    forall j | 0 <= j < |b| ensures a[j] == b[j] { assert rest[j] == ps[i + 1 + j] && b[j] == items[i + 1 + j]; }
  }

  // ---- one run ----

  /** How a run sends, and what happens to it there. */
  datatype Sending = Sending(
    pipelined: bool, inflight: int, net: Net, turns: seq<Turn>, crash: bool, returned: seq<bool>, finishFault: nat)

  /** Reading the checkpoint at the start of a run: where to resume, and which seq comes first. */
  method PlanRun(st: Checkpoint.Store, k: Checkpoint.Key) returns (done: bool, committed: int, startSeq: nat, cur: Resume)
    ensures done <==> st.On(k).done.Some?
    ensures committed == Checkpoint.Committed(st.On(k))
    ensures !done ==> cur == CursorOf(st.On(k)) && startSeq == if cur.After? then committed + 1 else 0
  {
    done := st.IsShardDone(k);
    var c;
    committed, c := st.Progress(k);
    startSeq, cur := 0, FromStart;
    if committed >= 0 && c.Some? {
      startSeq, cur := committed + 1, After(c.value);
    }
  }

  /** What a finished sender did, as a run. */
  ghost function RunOf(link: Uplink, inflight: int, finish: bool): Run
    reads link
  {
    if link.pipelined then Pipelined(inflight, link.trace, link.net.rows, finish)
    else Inline(Fates(link.net, link.tried), link.net.rows, finish)
  }

  /** What the sender stored and committed is what its run says. */
  lemma SenderDid(e: Env, w: World, link: Uplink, inflight: int, finish: bool)
    requires e.max > 0 && link.Valid() && link.start == w && link.plan == Todo(e, w.disk)
    requires link.first == Checkpoint.Committed(w.disk) + 1 && link.k == Inflight(inflight)
    ensures var (v, ok) := SendAll(e, w, RunOf(link, inflight, finish));
      v == World(link.store.On(link.key), link.arc) && (link.Drained() ==> ok)
  {
    hide Todo, Sender.Runs, Sender.Exec, SendInline, CommitAll, Stored, Checkpoint.Store.On, Checkpoint.Store.Elsewhere, Fates;
    if !link.pipelined && link.Drained() {
      InlineAll(link.start, link.plan, Fates(link.net, link.tried), link.net.rows);
    }
  }

  lemma TodoIs(e: Env, d: Checkpoint.Disk)
    requires Sane(e) && RowOk(e, d)
    ensures var (o, start) := ResumeAt(e, d);
      o <= Stop(e.items) && Todo(e, d) == Upload.ToSend(e.items, o, start, e.max, Checkpoint.Committed(d))
  {
    ResumePoint(e, d);
  }

  lemma Unfinished(e: Env, w: World, r: Run)
    requires e.max > 0 && w.disk.done.None? && !r.finish
    ensures RunOnce(e, w, r) == SendAll(e, w, r).0
  {
    hide SendAll;
  }

  lemma Finished(e: Env, w: World, r: Run, total: nat, last: seq<Delta>)
    requires e.max > 0 && w.disk.done.None? && r.finish && SendAll(e, w, r).1
    requires var (o, start) := ResumeAt(e, w.disk);
      && Stop(e.items) == |e.items| && o <= |e.items|
      && total == start + |ChunksFrom(e.items, o, start, e.max)|
      && Marked(e.items, Groups(e.items, o, e.max), o)
      && last == var gs := Groups(e.items, o, e.max); DeltaList(Tally(e.items, Mark(gs, o, |gs|), |e.items|))
    ensures var v := SendAll(e, w, r).0; RunOnce(e, w, r) == World(Checkpoint.FinishOn(v.disk, total, last), v.arc)
  {
    hide SendAll, Groups, DeltaList, Tally, Checkpoint.FinishOn, ResumeAt;
  }

  /** Nothing fails while the run sends what it has to send from this state of the disk. */
  ghost predicate Smooth(e: Env, d: Checkpoint.Disk, s: Sending)
    requires e.max > 0
  {
    && AllFine(s.net, Todo(e, d)) && (s.pipelined ==> !s.crash && CleanTurns(s.turns))
    && var (o, start) := ResumeAt(e, d); o <= |e.items| && |Ending(e, o, start).1| + 2 < s.finishFault
  }

  /** So it goes if every POST is acknowledged, no transaction fails, nobody cancels and the process lives. */
  lemma SmoothIf(e: Env, d: Checkpoint.Disk, s: Sending)
    requires Sane(e) && RowOk(e, d) && Stop(e.items) == |e.items|
    requires forall n :: s.net.post(n) == Acked
    requires forall i :: 0 <= i < |FullChunks(e.items, e.max)| ==> |FullChunks(e.items, e.max)[i].deltas| + 1 < s.net.faultAt(i)
    requires |DeltaList(Tally(e.items, Bound(e, |FullChunks(e.items, e.max)|), |e.items|))| + 2 < s.finishFault
    requires !s.crash && forall t :: t in s.turns ==> !t.cancel && forall a :: a in t.steps ==> !(a.Return? && !a.ok)
    ensures Smooth(e, d, s)
  {
    hide FullChunks, Todo, Bound, RowOk, Ending, ResumeAt, DeltaList, Tally, Stop;
    TodoIsRest(e, d);
    TodoNumbered(e, d);
    var todo, full, n := Todo(e, d), FullChunks(e.items, e.max), Checkpoint.Committed(d) + 1;
    assert n <= |full| by { RowFits(e, d); }
    forall i | 0 <= i < |todo| ensures Fate(s.net, todo[i]) == Committed { assert todo[i] == full[n + i] && todo[i].n == n + i; }
  }

  lemma RowFits(e: Env, d: Checkpoint.Disk)
    requires e.max > 0 && RowOk(e, d)
    ensures Checkpoint.Committed(d) + 1 <= |FullChunks(e.items, e.max)|
  {}

  /** Then no submit is refused. */
  lemma NoneRefused(e: Env, d: Checkpoint.Disk, s: Sending, link: Uplink)
    requires e.max > 0 && Smooth(e, d, s) && link.Valid() && Sends(e, d, s, link)
    ensures !link.Refused() && (link.pipelined ==> link.smooth)
  {
    hide Todo, Uplink.Valid, CleanTurns;
    if !link.pipelined && link.Refused() { var c := link.WhyRefused(); }
  }

  /** The sender of this run. */
  ghost predicate Sends(e: Env, d: Checkpoint.Disk, s: Sending, link: Uplink)
    requires e.max > 0
  {
    && link.plan == Todo(e, d) && link.net == s.net && link.pipelined == s.pipelined
    && link.smooth == (!s.crash && CleanTurns(s.turns) && AllFine(s.net, link.plan))
  }

  lemma FinishIsDone(d: Checkpoint.Disk, total: nat, last: seq<Delta>)
    ensures Checkpoint.FinishOn(d, total, last).done.Some?
  {}

  lemma EndingIs(e: Env, d: Checkpoint.Disk, s: Sending, last: seq<Delta>)
    requires e.max > 0 && Smooth(e, d, s)
    requires var o := ResumeAt(e, d).0;
      Marked(e.items, Groups(e.items, o, e.max), o)
      && last == var gs := Groups(e.items, o, e.max); DeltaList(Tally(e.items, Mark(gs, o, |gs|), |e.items|))
    ensures |last| + 2 < s.finishFault
  {
    hide Todo, ResumeAt, Groups, DeltaList, Tally;
  }

  /** Cuts, sends and commits what an extraction behind the stored cursor emitted, and finishes the shard if
      everything got that far. */
  method SendEmitted(st: Checkpoint.Store, k: Checkpoint.Key, arc: multiset<(nat, Str)>, emitted: seq<Item>, extractOk: bool,
      committed: int, startSeq: nat, chunkSize: int, s: Sending, ghost e: Env) returns (arc': multiset<(nat, Str)>, ghost r: Run)
    requires Sane(e) && RowOk(e, st.On(k)) && st.On(k).done.None? && e.max == Upload.MaxBytes(chunkSize)
    requires committed == Checkpoint.Committed(st.On(k)) && startSeq == ResumeAt(e, st.On(k)).1
    requires var o := ResumeAt(e, st.On(k)).0;
      o + |emitted| <= |e.items| && emitted == e.items[o..o + |emitted|] && (extractOk ==> o + |emitted| == |e.items|)
    modifies st
    ensures World(st.On(k), arc') == RunOnce(e, World(old(st.On(k)), arc), r)
    ensures extractOk && Stop(e.items) == |e.items| && Smooth(e, old(st.On(k)), s) ==> st.On(k).done.Some?
    ensures st.Elsewhere(k) == old(st.Elsewhere(k))
  {
    hide Smooth, Todo, Ending, SendAll, ResumeAt, RowOk, Stop, FullChunks, Groups, ChunksFrom, Tally, DeltaList, Checkpoint.Store.On,
      Checkpoint.Store.Elsewhere, Checkpoint.FinishOn, Uplink.Valid, Uplink.Open, Uplink.Refused, Uplink.Drained,
      Upload.ToSend, AllFine, CleanTurns;
    ghost var d := st.On(k);
    ghost var w, plan := World(d, arc), Todo(e, d);
    TodoNumbered(e, d);
    TodoIs(e, d);
    var link := new Uplink(s.pipelined, s.inflight, st, k, s.net, s.turns, s.crash, arc, committed + 1, plan);
    var up := new Upload.Uploader(committed, link, s.returned);
    Upload.NewIsAtStart(up, e.items, ResumeAt(e, d).0, startSeq, e.max);
    var loaded := Upload.LoadItems(emitted, extractOk, up, chunkSize, s.inflight, startSeq, e.items, ResumeAt(e, d).0);
    if Smooth(e, d, s) { NoneRefused(e, d, s, link); }
    var waited := link.Wait(loaded.Complete?);
    r := RunOf(link, s.inflight, false);
    SenderDid(e, w, link, s.inflight, false);
    Unfinished(e, w, r);
    link.Untouched();
    arc' := link.arc;
    if loaded.Complete? && waited {
      ghost var v := World(st.On(k), arc');
      if Smooth(e, d, s) { EndingIs(e, d, s, loaded.last); }
      SenderDid(e, w, link, s.inflight, true);
      var finished := st.FinishShard(k, loaded.total, loaded.last, s.finishFault);
      if finished {
        FinishIsDone(v.disk, loaded.total, loaded.last);
        Finished(e, w, r.(finish := true), loaded.total, loaded.last);
        r := r.(finish := true);
      }
    }
  }

  // ---- a shard of TSM and WAL files ----

  /** One run: how it extracts and sends, and everything that goes wrong in it. */
  datatype Choices = Choices(
    readOk: bool, opt: Split.Options, schedule: seq<Scheduler.Step>, indexFaults: seq<bool>, faults: nat -> seq<bool>,
    send: Sending)

  ghost function ShardEnv(sh: Shard, lo: Time, hi: Time, f: Point -> Act, chunkSize: int): Env {
    Env(ShardItems(sh, lo, hi, f), Upload.MaxBytes(chunkSize))
  }

  lemma ShardEnvSane(sh: Shard, lo: Time, hi: Time, f: Point -> Act, chunkSize: int)
    ensures Sane(ShardEnv(sh, lo, hi, f, chunkSize)) && ShardEnv(sh, lo, hi, f, chunkSize).max == Upload.MaxBytes(chunkSize)
  {
    hide ShardItems;
    ShardItemsDistinct(sh, lo, hi, f);
  }

  method EncodePoints(pts: seq<Point>, f: Point -> Act) returns (items: seq<Item>)
    requires InTime(pts)
    ensures items == ItemsOf(pts, f)
  {
    items := [];
    for i := 0 to |pts|
      invariant |items| == i && forall j :: 0 <= j < i ==> items[j] == ItemsOf(pts, f)[j]
    {
      assert pts[i] in pts;
      items := items + [ItemOf(pts[i], f)];
    }
  }

  /** Behind the stored cursor the extraction emits exactly the items a run has to take. */
  lemma EmissionIsRest(sh: Shard, lo: Time, hi: Time, f: Point -> Act, chunkSize: int, d: Checkpoint.Disk)
    requires RowOk(ShardEnv(sh, lo, hi, f, chunkSize), d)
    ensures var e, rest := ShardEnv(sh, lo, hi, f, chunkSize), Resumed(sh, lo, hi, CursorOf(d));
      var o := ResumeAt(e, d).0;
      o <= |e.items| && InTime(rest) && ItemsOf(rest, f) == e.items[o..]
      && (CursorOf(d).After? ==> CursorOf(d).cur.series in SeriesSet(sh))
  {
    hide ShardPoints, Resumed, ShardItems, RowOk, ResumeAt, Stop;
    var e := ShardEnv(sh, lo, hi, f, chunkSize);
    ShardEnvSane(sh, lo, hi, f, chunkSize);
    ResumePoint(e, d);
    var o := ResumeAt(e, d).0;
    if o > 0 {
      EmissionAfter(sh, lo, hi, f, o - 1);
      SeriesKnown(sh, lo, hi, f, o - 1);
    } else {
      FromStartIsAll(sh, lo, hi);
      PointsInTime(sh, lo, hi);
      ShardItemsAre(sh, lo, hi, f);
    }
  }

  lemma SeriesKnown(sh: Shard, lo: Time, hi: Time, f: Point -> Act, i: nat)
    requires i < |ShardItems(sh, lo, hi, f)|
    ensures ShardItems(sh, lo, hi, f)[i].pos.series in SeriesSet(sh)
  {
    hide ShardPoints, Resumed;
    PointsInTime(sh, lo, hi);
    ResumeIsSuffix(sh, lo, hi, i);
    StrTotal();
  }

  lemma ShardItemsAre(sh: Shard, lo: Time, hi: Time, f: Point -> Act)
    ensures InTime(ShardPoints(sh, lo, hi)) && ShardItems(sh, lo, hi, f) == ItemsOf(ShardPoints(sh, lo, hi), f)
  {
    hide ShardPoints;
    PointsInTime(sh, lo, hi);
  }

  lemma PrefixInTime(ps: seq<Point>, rest: seq<Point>, f: Point -> Act)
    requires InTime(rest) && ps <= rest
    ensures InTime(ps) && ItemsOf(ps, f) == ItemsOf(rest, f)[..|ps|]
  {
    assert forall p :: p in ps ==> p in rest;
  }

  /** A run that sends nothing changes nothing. */
  lemma IdleRun(e: Env, w: World, r: Run)
    requires Sane(e) && r.Inline? && r.sends == [] && !r.finish
    ensures RunOnce(e, w, r) == w
  {
    hide Todo, ResumeAt;
  }

  /** Extracts behind the cursor, with this run's options, schedule and read failures, and encodes what comes. */
  method ExtractShard(sh: Shard, lo: Time, hi: Time, f: Point -> Act, cur: Resume, ch: Choices) returns (emitted: seq<Item>, ok: bool)
    requires Indexed(sh) && ch.opt.threshold > 0 && InTime(Resumed(sh, lo, hi, cur))
    ensures emitted <= ItemsOf(Resumed(sh, lo, hi, cur), f)
    ensures ok ==> emitted == ItemsOf(Resumed(sh, lo, hi, cur), f)
    ensures NoReadFails(ch) && (cur.After? ==> cur.cur.series in SeriesSet(sh)) ==> ok
  {
    hide Resumed, InTime, Indexed, SeriesSet;
    var outcome, pts, _, _ := Split.ShardResumeSplit(sh, lo, hi, cur, ch.opt, ch.schedule, ch.indexFaults, ch.faults);
    PrefixInTime(pts, Resumed(sh, lo, hi, cur), f);
    emitted := EncodePoints(pts, f);
    ok := outcome.Done?;
  }

  /** No measurement is invalid. */
  ghost predicate ValidNames(e: Env) { Stop(e.items) == |e.items| }

  lemma AllValid(e: Env)
    requires ValidNames(e)
    ensures Stop(e.items) == |e.items|
  {}

  lemma CanRead(ch: Choices)
    requires NoReadFails(ch)
    ensures ch.readOk
  {}

  ghost predicate NoReadFails(ch: Choices) {
    ch.readOk && ch.indexFaults == [] && (forall i :: ch.faults(i) == []) && (ch.opt.workers > 1 ==> ch.opt.budget > 0)
  }

  /** One run of loadShard: whatever it chose and whatever failed, what it did to this shard's checkpoint and to
      Arc is one run over the shard's items, and it touched no other shard. */
  method Load(st: Checkpoint.Store, k: Checkpoint.Key, arc: multiset<(nat, Str)>, sh: Shard, lo: Time, hi: Time, f: Point -> Act,
      chunkSize: int, ch: Choices) returns (arc': multiset<(nat, Str)>, ghost r: Run)
    requires Indexed(sh) && ch.opt.threshold > 0 && RowOk(ShardEnv(sh, lo, hi, f, chunkSize), st.On(k))
    modifies st
    ensures World(st.On(k), arc') == RunOnce(ShardEnv(sh, lo, hi, f, chunkSize), World(old(st.On(k)), arc), r)
    ensures (ValidNames(ShardEnv(sh, lo, hi, f, chunkSize)) && NoReadFails(ch)
        && Smooth(ShardEnv(sh, lo, hi, f, chunkSize), old(st.On(k)), ch.send))
      ==> st.On(k).done.Some?
    ensures Delivered(ShardEnv(sh, lo, hi, f, chunkSize), World(old(st.On(k)), arc), World(st.On(k), arc'))
    ensures st.Elsewhere(k) == old(st.Elsewhere(k))
  {
    hide *;
    ghost var e, d := ShardEnv(sh, lo, hi, f, chunkSize), st.On(k);
    ShardEnvSane(sh, lo, hi, f, chunkSize);
    if NoReadFails(ch) { CanRead(ch); }
    if ValidNames(e) { AllValid(e); }
    arc', r := arc, Inline([], _ => 0, false);
    RunDelivers(e, World(d, arc), r);
    IdleRun(e, World(d, arc), r);
    if !ch.readOk { return; }
    var done, committed, startSeq, cur := PlanRun(st, k);
    if done { return; }
    EmissionIsRest(sh, lo, hi, f, chunkSize, d);
    ResumePoint(e, d);
    var emitted, ok := ExtractShard(sh, lo, hi, f, cur, ch);
    PrefixOfRest(e.items, ResumeAt(e, d).0, emitted, ok);
    arc', r := SendEmitted(st, k, arc, emitted, ok, committed, startSeq, chunkSize, ch.send, e);
    RunDelivers(e, World(d, arc), r);
  }

  lemma PrefixOfRest(items: seq<Item>, o: nat, emitted: seq<Item>, ok: bool)
    requires o <= |items| && emitted <= items[o..] && (ok ==> emitted == items[o..])
    ensures o + |emitted| <= |items| && emitted == items[o..o + |emitted|] && (ok ==> o + |emitted| == |items|)
  {}

  // ---- an InfluxDB 3 table ----

  /** One run: the table as it decoded it (ranks of WAL rows may differ), the order in which it meets the WAL
      rows' map, after how many buckets reading fails, and how it sends. */
  datatype TableChoices = TableChoices(readOk: bool, table: Extract3.Table, order: seq<Time>, failAfter: nat, send: Sending)

  ghost predicate Decoded(t: Extract3.Table, ch: TableChoices) {
    Extract3.RerankedTable(t, ch.table) && Extract3.Iterates(ch.table, ch.order)
  }

  function OutItem(o: Extract3.Out, g: Extract3.Out -> Act): Item { Item(Cursor(o.series, o.ts), g(o)) }

  function OutItems(os: seq<Extract3.Out>, g: Extract3.Out -> Act): (items: seq<Item>)
    ensures |items| == |os|
  {
    seq(|os|, i requires 0 <= i < |os| => OutItem(os[i], g))
  }

  ghost function TableEnv(t: Extract3.Table, lo: Time, hi: Time, g: Extract3.Out -> Act, chunkSize: int): Env {
    Env(OutItems(Extract3.Emission(t, lo, hi), g), Upload.MaxBytes(chunkSize))
  }

  lemma TableEnvSane(t: Extract3.Table, lo: Time, hi: Time, g: Extract3.Out -> Act, chunkSize: int)
    requires Extract3.RankedTable(t, lo, hi)
    ensures Sane(TableEnv(t, lo, hi, g, chunkSize)) && TableEnv(t, lo, hi, g, chunkSize).max == Upload.MaxBytes(chunkSize)
  {
    hide Extract3.Emission, Extract3.RankedTable;
    var all, items := Extract3.Emission(t, lo, hi), TableEnv(t, lo, hi, g, chunkSize).items;
    Extract3.EmissionAscends(t, lo, hi);
    forall a, b | 0 <= a < b < |items| ensures items[a].pos != items[b].pos {
      assert Extract3.OutLess(all[a], all[b]);
      Extract3.OutOneWay(all[a], all[b]);
    }
  }

  /** Behind the stored cursor, an emitted position, the extraction emits exactly the items a run has to take. */
  lemma TableEmissionIsRest(t: Extract3.Table, lo: Time, hi: Time, g: Extract3.Out -> Act, chunkSize: int, d: Checkpoint.Disk)
    requires Extract3.RankedTable(t, lo, hi) && RowOk(TableEnv(t, lo, hi, g, chunkSize), d)
    ensures var e, rest := TableEnv(t, lo, hi, g, chunkSize), Extract3.Behind(Extract3.Emission(t, lo, hi), CursorOf(d));
      var o := ResumeAt(e, d).0;
      o <= |e.items| && OutItems(rest, g) == e.items[o..] && Extract3.HasPos(Extract3.Emission(t, lo, hi), CursorOf(d))
  {
    hide Extract3.Emission, Extract3.RankedTable, Extract3.Behind, RowOk, ResumeAt, Stop;
    var all, e := Extract3.Emission(t, lo, hi), TableEnv(t, lo, hi, g, chunkSize);
    TableEnvSane(t, lo, hi, g, chunkSize);
    ResumePoint(e, d);
    var o := ResumeAt(e, d).0;
    if o > 0 {
      Extract3.ResumeIsSuffix3(t, lo, hi, o - 1);
      assert e.items[o - 1].pos == Cursor(all[o - 1].series, all[o - 1].ts);
      assert OutItems(all[o..], g) == e.items[o..];
    } else {
      Extract3.AllBehind(all, FromStart);
    }
  }

  /** However a run decoded the table, it has the same emission. */
  lemma SameTable(t: Extract3.Table, lo: Time, hi: Time, g: Extract3.Out -> Act, chunkSize: int, ch: TableChoices)
    requires Extract3.Manifest(t.files) && Extract3.RankedTable(t, lo, hi) && Decoded(t, ch)
    ensures Extract3.Manifest(ch.table.files) && Extract3.RankedTable(ch.table, lo, hi) && Extract3.Iterates(ch.table, ch.order)
    ensures TableEnv(ch.table, lo, hi, g, chunkSize) == TableEnv(t, lo, hi, g, chunkSize)
  {
    hide Extract3.Manifest, Extract3.RankedTable, Extract3.Iterates, Extract3.Emission, Extract3.SameWay, Extract3.SameButRank;
    Extract3.OnlyRelativeRanksMatter(t, ch.table, lo, hi);
  }

  /** One run of loadShard on a table: likewise. */
  method LoadTable(st: Checkpoint.Store, k: Checkpoint.Key, arc: multiset<(nat, Str)>, t: Extract3.Table, lo: Time, hi: Time,
      g: Extract3.Out -> Act, chunkSize: int, ch: TableChoices) returns (arc': multiset<(nat, Str)>, ghost r: Run)
    requires Extract3.Manifest(t.files) && Extract3.RankedTable(t, lo, hi) && Decoded(t, ch)
    requires RowOk(TableEnv(t, lo, hi, g, chunkSize), st.On(k))
    modifies st
    ensures World(st.On(k), arc') == RunOnce(TableEnv(t, lo, hi, g, chunkSize), World(old(st.On(k)), arc), r)
    ensures (ValidNames(TableEnv(t, lo, hi, g, chunkSize)) && NoTableReadFails(ch.table, lo, hi, ch)
        && Smooth(TableEnv(t, lo, hi, g, chunkSize), old(st.On(k)), ch.send))
      ==> st.On(k).done.Some?
    ensures Delivered(TableEnv(t, lo, hi, g, chunkSize), World(old(st.On(k)), arc), World(st.On(k), arc'))
    ensures st.Elsewhere(k) == old(st.Elsewhere(k))
  {
    hide *;
    ghost var e, d := TableEnv(t, lo, hi, g, chunkSize), st.On(k);
    var u := ch.table;
    SameTable(t, lo, hi, g, chunkSize, ch);
    TableEnvSane(t, lo, hi, g, chunkSize);
    if NoTableReadFails(u, lo, hi, ch) { CanReadTable(u, lo, hi, ch); }
    if ValidNames(e) { AllValid(e); }
    arc', r := arc, Inline([], _ => 0, false);
    RunDelivers(e, World(d, arc), r);
    IdleRun(e, World(d, arc), r);
    if !ch.readOk { return; }
    var done, committed, startSeq, cur := PlanRun(st, k);
    if done { return; }
    TableEmissionIsRest(u, lo, hi, g, chunkSize, d);
    ResumePoint(e, d);
    var emitted, ok := ExtractTable(u, lo, hi, g, cur, ch);
    PrefixOfRest(e.items, ResumeAt(e, d).0, emitted, ok);
    arc', r := SendEmitted(st, k, arc, emitted, ok, committed, startSeq, chunkSize, ch.send, e);
    RunDelivers(e, World(d, arc), r);
  }

  ghost predicate NoTableReadFails(t: Extract3.Table, lo: Time, hi: Time, ch: TableChoices) {
    ch.readOk && Extract3.ReadableTable(t, lo, hi) && ch.failAfter >= |Extract3.ChunkTimes(t)|
  }

  lemma CanReadTable(t: Extract3.Table, lo: Time, hi: Time, ch: TableChoices)
    requires NoTableReadFails(t, lo, hi, ch)
    ensures ch.readOk
  {}

  method ExtractTable(t: Extract3.Table, lo: Time, hi: Time, g: Extract3.Out -> Act, cur: Resume, ch: TableChoices)
      returns (emitted: seq<Item>, ok: bool)
    requires Extract3.Manifest(t.files) && Extract3.RankedTable(t, lo, hi) && Extract3.Iterates(t, ch.order)
    requires Extract3.HasPos(Extract3.Emission(t, lo, hi), cur)
    ensures emitted <= OutItems(Extract3.Behind(Extract3.Emission(t, lo, hi), cur), g)
    ensures ok ==> emitted == OutItems(Extract3.Behind(Extract3.Emission(t, lo, hi), cur), g)
    ensures NoTableReadFails(t, lo, hi, ch) ==> ok
  {
    hide Extract3.Emission, Extract3.RankedTable, Extract3.Manifest, Extract3.Iterates, Extract3.Behind, Extract3.HasPos;
    var outcome, outs := Extract3.Extract(t, lo, hi, cur, ch.order, ch.failAfter);
    if t.files == [] && t.extra == map[] { Extract3.EmptyEmission(t, lo, hi, cur); }
    emitted, ok := OutItems(outs, g), outcome.Done?;
    PrefixItems(outs, Extract3.Behind(Extract3.Emission(t, lo, hi), cur), g);
  }

  lemma PrefixItems(a: seq<Extract3.Out>, b: seq<Extract3.Out>, g: Extract3.Out -> Act)
    ensures a <= b ==> OutItems(a, g) <= OutItems(b, g)
  {}

  // ---- any number of runs ----

  /** A shard no run has seen yet, or one that a version without cursors has begun. */
  ghost predicate Begun(e: Env, w: World)
    requires e.max > 0
  {
    w == FRESH || exists c: nat :: OldCheckpoint(e, w, c)
  }

  /** The first `from` items are those whose audit counts are missing. */
  lemma BegunIsSafe(e: Env, w: World) returns (from: nat)
    requires Sane(e) && Begun(e, w)
    ensures Safe(e, map[], from, w) && (w == FRESH ==> from == 0)
  {
    hide OldCheckpoint, Safe;
    if w == FRESH {
      from := 0;
      FreshIsSafe(e);
    } else {
      var c: nat :| OldCheckpoint(e, w, c);
      CheckpointBound(e, w, c);
      from := Bound(e, c + 1);
      OldIsSafe(e, w, c);
    }
  }

  lemma CheckpointBound(e: Env, w: World, c: nat)
    requires e.max > 0 && OldCheckpoint(e, w, c)
    ensures c < |FullChunks(e.items, e.max)|
  {}

  /** Loads a shard again and again, each time with other choices and other misfortunes: every payload Arc has
      accepted as seq n is chunk n of one uninterrupted serial run, the committed prefix is in Arc, a shard
      marked done has every chunk in Arc, and the audit counts are exact. */
  method LoadRepeatedly(st: Checkpoint.Store, k: Checkpoint.Key, arc0: multiset<(nat, Str)>, sh: Shard, lo: Time, hi: Time,
      f: Point -> Act, chunkSize: int, chs: seq<Choices>) returns (arc: multiset<(nat, Str)>, ghost rs: seq<Run>)
    requires Indexed(sh) && forall ch :: ch in chs ==> ch.opt.threshold > 0
    requires Begun(ShardEnv(sh, lo, hi, f, chunkSize), World(st.On(k), arc0))
    modifies st
    ensures World(st.On(k), arc) == Play(ShardEnv(sh, lo, hi, f, chunkSize), World(old(st.On(k)), arc0), rs)
    ensures Promised(ShardEnv(sh, lo, hi, f, chunkSize), World(st.On(k), arc))
    ensures World(old(st.On(k)), arc0) == FRESH ==> forall m :: CountExact(ShardEnv(sh, lo, hi, f, chunkSize), st.On(k), m)
    ensures forall p: (nat, Str) :: arc[p] <= arc0[p] + |chs|
    ensures st.Elsewhere(k) == old(st.Elsewhere(k))
  {
    hide ShardEnv, Indexed, RowOk, Safe, Promised, CountExact, Play, RunOnce, Distinct, Begun, Checkpoint.Store.On,
      Checkpoint.Store.Elsewhere;
    ghost var e, w0 := ShardEnv(sh, lo, hi, f, chunkSize), World(st.On(k), arc0);
    ShardEnvSane(sh, lo, hi, f, chunkSize);
    ghost var from := BegunIsSafe(e, w0);
    arc, rs := arc0, [];
    PlayNothing(e, w0);
    for i := 0 to |chs|
      invariant World(st.On(k), arc) == Play(e, w0, rs) && Safe(e, map[], from, World(st.On(k), arc))
      invariant forall p: (nat, Str) :: arc[p] <= arc0[p] + i
      invariant st.Elsewhere(k) == old(st.Elsewhere(k))
    {
      assert chs[i] in chs;
      ghost var w := World(st.On(k), arc);
      LoadShard.InRange(e, map[], from, w);
      ghost var r;
      arc, r := Load(st, k, arc, sh, lo, hi, f, chunkSize, chs[i]);
      RunKeepsSafe(e, map[], from, w, r);
      PlayOneMore(e, w0, rs, r);
      rs := rs + [r];
    }
    SafeIsPromised(e, map[], from, World(st.On(k), arc));
    if from == 0 { forall m { SafeIsExact(e, World(st.On(k), arc), m); } }
  }

  lemma PlayNothing(e: Env, w: World)
    requires Sane(e)
    ensures Play(e, w, []) == w
  {}

  /** Likewise a table, however each run ranks its WAL rows and in whatever order it meets them. */
  method LoadTableRepeatedly(st: Checkpoint.Store, k: Checkpoint.Key, arc0: multiset<(nat, Str)>, t: Extract3.Table, lo: Time, hi: Time,
      g: Extract3.Out -> Act, chunkSize: int, chs: seq<TableChoices>) returns (arc: multiset<(nat, Str)>, ghost rs: seq<Run>)
    requires Extract3.Manifest(t.files) && Extract3.RankedTable(t, lo, hi) && forall ch :: ch in chs ==> Decoded(t, ch)
    requires Begun(TableEnv(t, lo, hi, g, chunkSize), World(st.On(k), arc0))
    modifies st
    ensures World(st.On(k), arc) == Play(TableEnv(t, lo, hi, g, chunkSize), World(old(st.On(k)), arc0), rs)
    ensures Promised(TableEnv(t, lo, hi, g, chunkSize), World(st.On(k), arc))
    ensures World(old(st.On(k)), arc0) == FRESH ==> forall m :: CountExact(TableEnv(t, lo, hi, g, chunkSize), st.On(k), m)
    ensures forall p: (nat, Str) :: arc[p] <= arc0[p] + |chs|
    ensures st.Elsewhere(k) == old(st.Elsewhere(k))
  {
    hide TableEnv, RowOk, Safe, Promised, CountExact, Play, RunOnce, Distinct, Begun, Checkpoint.Store.On, Checkpoint.Store.Elsewhere,
      Extract3.Manifest, Extract3.RankedTable, Decoded;
    ghost var e, w0 := TableEnv(t, lo, hi, g, chunkSize), World(st.On(k), arc0);
    TableEnvSane(t, lo, hi, g, chunkSize);
    ghost var from := BegunIsSafe(e, w0);
    arc, rs := arc0, [];
    PlayNothing(e, w0);
    for i := 0 to |chs|
      invariant World(st.On(k), arc) == Play(e, w0, rs) && Safe(e, map[], from, World(st.On(k), arc))
      invariant forall p: (nat, Str) :: arc[p] <= arc0[p] + i
      invariant st.Elsewhere(k) == old(st.Elsewhere(k))
    {
      assert chs[i] in chs;
      ghost var w := World(st.On(k), arc);
      LoadShard.InRange(e, map[], from, w);
      ghost var r;
      arc, r := LoadTable(st, k, arc, t, lo, hi, g, chunkSize, chs[i]);
      RunKeepsSafe(e, map[], from, w, r);
      PlayOneMore(e, w0, rs, r);
      rs := rs + [r];
    }
    SafeIsPromised(e, map[], from, World(st.On(k), arc));
    if from == 0 { forall m { SafeIsExact(e, World(st.On(k), arc), m); } }
  }

  // ---- from the source to Arc ----

  /** Once a shard is done, every point it stores, read directly off its files and WAL, has its line in Arc if the
      resolver sends or renames it; none of them is invalid. */
  lemma NothingIsLost(sh: Shard, lo: Time, hi: Time, f: Point -> Act, chunkSize: int, w: World, p: Point)
    requires Promised(ShardEnv(sh, lo, hi, f, chunkSize), w) && w.disk.done.Some? && IsPoint(sh, lo, hi, p)
    ensures !f(p).Invalid? && (f(p).Send? || f(p).Rename? ==> exists n, x, y :: (n, x + f(p).line + y) in w.arc)
  {
    hide IsPoint, Promised, ShardPoints, Distinct;
    var e := ShardEnv(sh, lo, hi, f, chunkSize);
    ShardEnvSane(sh, lo, hi, f, chunkSize);
    ShardPointsMeaning(sh, lo, hi, p);
    PointsInTime(sh, lo, hi);
    var i :| 0 <= i < |ShardPoints(sh, lo, hi)| && ShardPoints(sh, lo, hi)[i] == p;
    assert e.items[i].act == f(p);
    DoneIsDelivered(e, w, i);
  }

  /** Likewise a table: the newest row of every point. */
  lemma NothingOfATableIsLost(t: Extract3.Table, width: nat, lo: Time, hi: Time, g: Extract3.Out -> Act, chunkSize: int, w: World,
      row: TableMeaning.Write, c: Time)
    requires TableMeaning.Sound(t, width) && Promised(TableEnv(t, lo, hi, g, chunkSize), w) && w.disk.done.Some?
    requires TableMeaning.NewestWrite(t, row, lo, hi) && TableMeaning.Home(t, row, c)
    ensures var act := g(TableMeaning.Emitted(c, row));
      !act.Invalid? && (act.Send? || act.Rename? ==> exists n, x, y :: (n, x + act.line + y) in w.arc)
  {
    hide TableMeaning.NewestWrite, TableMeaning.Home, Promised, Extract3.Emission, Distinct, TableMeaning.Emitted;
    var e, o := TableEnv(t, lo, hi, g, chunkSize), TableMeaning.Emitted(c, row);
    TableMeaning.SoundIsRanked(t, width, lo, hi);
    TableEnvSane(t, lo, hi, g, chunkSize);
    TableMeaning.EmissionMeaning(t, width, lo, hi, o);
    var i :| 0 <= i < |Extract3.Emission(t, lo, hi)| && Extract3.Emission(t, lo, hi)[i] == o;
    assert e.items[i].act == g(o);
    DoneIsDelivered(e, w, i);
  }
}
