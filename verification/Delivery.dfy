/** How often Arc gets a payload, how far it can run ahead of the checkpoint, and which rows the checkpoint counts.

    A run sends every chunk at most once and never one that was committed before it; the run that finishes a shard
    sends each of the remaining chunks exactly once. */
module Delivery {
  import opened Orders
  import opened Values
  import opened Chunks
  import opened Stage
  import opened LoadShard
  import Checkpoint
  import Sender

  /** Chunks and their seqs, from `first` on. */
  function Numbers(cs: seq<Chunk>, first: nat): (ps: seq<(nat, Str)>)
    ensures |ps| == |cs|
  {
    seq(|cs|, i requires 0 <= i < |cs| => (first + i, cs[i].lp))
  }

  lemma StoredOnce(cs: seq<Chunk>, first: nat, got: set<nat>, p: (nat, Str))
    ensures Stored(cs, first, got)[p] == if p.0 in got && first <= p.0 < first + |cs| && p.1 == cs[p.0 - first].lp then 1 else 0
  {}

  /** If all seqs were stored, that is every chunk once. */
  lemma {:induction false} AllStored(cs: seq<Chunk>, first: nat, got: set<nat>)
    requires forall n: nat :: first <= n < first + |cs| ==> n in got
    ensures Stored(cs, first, got) == multiset(Numbers(cs, first))
    decreases |cs|
  {
    if cs == [] {
      assert Numbers(cs, first) == [];
    } else {
      var k := |cs| - 1;
      var p := (first + k, cs[k].lp);
      AllStored(cs[..k], first, got);
      assert Numbers(cs, first) == Numbers(cs[..k], first) + [p];
      forall q ensures Stored(cs, first, got)[q] == (Stored(cs[..k], first, got) + multiset{p})[q] {
        StoredOnce(cs, first, got, q);
        StoredOnce(cs[..k], first, got, q);
      }
    }
  }

  /** The first k chunks are committed, and the payloads of the seqs in `got` are stored, those k among them. */
  ghost predicate Did(w: World, v: World, cs: seq<Chunk>, first: nat, rows: nat -> nat, k: nat, got: set<nat>) {
    && k <= |cs| && v == World(CommitAll(w.disk, cs[..k], rows), w.arc + Stored(cs, first, got))
    && (forall n: nat :: first <= n < first + k ==> n in got)
  }

  /** Nothing before `first` is stored, and nothing further than `ahead` behind the first k. */
  ghost predicate Near(first: nat, k: nat, ahead: nat, got: set<nat>) {
    forall n :: n in got ==> first <= n <= first + k + ahead
  }

  lemma DidNothing(w: World, cs: seq<Chunk>, first: nat, rows: nat -> nat)
    ensures Did(w, w, cs, first, rows, 0, {}) && Near(first, 0, 0, {})
  {
    assert cs[..0] == [];
  }

  lemma StoredFirst(cs: seq<Chunk>, first: nat, got: set<nat>)
    requires cs != [] && cs[0].n == first && forall n :: n in got ==> n > first
    ensures Stored(cs, first, {first} + got) == multiset{(cs[0].n, cs[0].lp)} + Stored(cs[1..], first + 1, got)
  {
    forall q ensures Stored(cs, first, {first} + got)[q] == (multiset{(first, cs[0].lp)} + Stored(cs[1..], first + 1, got))[q] {
      StoredOnce(cs, first, {first} + got, q);
      StoredOnce(cs[1..], first + 1, got, q);
    }
  }

  /** A chunk is stored but not committed, and the run ends. */
  lemma DidStore(w: World, cs: seq<Chunk>, first: nat, rows: nat -> nat)
    requires cs != [] && cs[0].n == first
    ensures Did(w, Land(w, cs[0]), cs, first, rows, 0, {first}) && Near(first, 0, 0, {first})
  {
    NothingStored(cs[1..], first + 1);
    StoredFirst(cs, first, {});
    assert {first} + {} == {first};
    assert cs[..0] == [];
  }

  /** A chunk is stored and committed, and the run goes on. */
  lemma DidCommit(w: World, v: World, cs: seq<Chunk>, first: nat, rows: nat -> nat, k: nat, got: set<nat>)
    requires cs != [] && cs[0].n == first && Near(first + 1, k, 0, got)
    requires Did(World(CommitChunk(w.disk, cs[0], rows), Land(w, cs[0]).arc), v, cs[1..], first + 1, rows, k, got)
    ensures Did(w, v, cs, first, rows, k + 1, {first} + got) && Near(first, k + 1, 0, {first} + got)
  {
    hide CommitChunk, Stored;
    assert cs[..k + 1][1..] == cs[1..][..k];
    StoredFirst(cs, first, got);
  }

  /** The last chunk an inline run sends may be stored without being committed. */
  lemma {:induction false} InlineDid(w: World, cs: seq<Chunk>, sends: seq<Sent>, rows: nat -> nat, first: nat)
    returns (k: nat, got: set<nat>)
    requires Numbered(cs, first)
    ensures Did(w, SendInline(w, cs, sends, rows).0, cs, first, rows, k, got) && Near(first, k, 0, got)
    ensures SendInline(w, cs, sends, rows).1 ==> k == |cs|
    decreases |cs|
  {
    hide CommitChunk, Did, Near, Land;
    DidNothing(w, cs, first, rows);
    k, got := 0, {};
    if cs != [] && sends != [] && !sends[0].Rejected? {
      assert cs[0].n == first;
      if sends[0].Committed? {
        var v := World(CommitChunk(Land(w, cs[0]).disk, cs[0], rows), Land(w, cs[0]).arc);
        assert forall i :: 0 <= i < |cs[1..]| ==> cs[1..][i] == cs[i + 1];
        k, got := InlineDid(v, cs[1..], sends[1..], rows, first + 1);
        assert Land(w, cs[0]).disk == w.disk by { LandsInArc(w, cs[0]); }
        DidCommit(w, SendInline(v, cs[1..], sends[1..], rows).0, cs, first, rows, k, got);
        k, got := k + 1, {first} + got;
      } else {
        DidStore(w, cs, first, rows);
        got := {first};
      }
    }
  }

  lemma LandsInArc(w: World, c: Chunk)
    ensures Land(w, c).disk == w.disk
  {}

  /** A pipelined run: Arc is at most K chunks ahead of the checkpoint, and one more if a commit failed. */
  lemma PipelinedDid(w: World, cs: seq<Chunk>, first: nat, r: Run) returns (k: nat, got: set<nat>)
    requires r.Pipelined?
    ensures Did(w, SendPipelined(w, cs, first, r).0, cs, first, r.rows, k, got) && Near(first, k, Inflight(r.inflight), got)
    ensures SendPipelined(w, cs, first, r).1 ==> k == |cs|
  {
    hide CommitAll, Stored, Sender.Runs, Sender.Exec;
    var c := SenderConfig(first, |cs|, r.inflight);
    if Sender.Runs(c, Sender.Init(c), r.steps) {
      var s := Sender.Exec(c, Sender.Init(c), r.steps);
      k, got := |s.book.commits|, s.accepted;
      SenderResult(cs, first, r);
      SenderNear(c, s);
    } else {
      DidNothing(w, cs, first, r.rows);
      k, got := 0, {};
    }
  }

  lemma SenderNear(c: Sender.Config, s: Sender.State)
    requires Sender.Wellformed(c) && Sender.Reachable(c, s)
    ensures Near(c.first, |s.book.commits|, c.k, s.accepted)
  {
    Sender.ReachableIsGood(c, s);
  }

  // ---- what the checkpoint counts ----

  /** The rows reported for seqs lo..hi-1. */
  function SumRows(rows: nat -> nat, lo: nat, hi: nat): nat
    decreases hi
  {
    if hi <= lo then 0 else SumRows(rows, lo, hi - 1) + rows(hi - 1)
  }

  lemma {:induction false} SumRowsSplit(rows: nat -> nat, lo: nat, m: nat, hi: nat)
    requires lo <= m <= hi
    ensures SumRows(rows, lo, hi) == SumRows(rows, lo, m) + SumRows(rows, m, hi)
    decreases hi
  {
    if m < hi { SumRowsSplit(rows, lo, m, hi - 1); }
  }

  function RowsOf(d: Checkpoint.Disk): nat { if d.row.Some? then d.row.value.rows else 0 }

  /** Committing chunks advances the seq by one and the row count by what Arc reported, chunk by chunk. */
  lemma {:induction false} CommitAllIs(d: Checkpoint.Disk, cs: seq<Chunk>, rows: nat -> nat)
    requires Numbered(cs, Checkpoint.Committed(d) + 1)
    ensures var x, n := CommitAll(d, cs, rows), Checkpoint.Committed(d) + 1;
      && Checkpoint.Committed(x) + 1 == n + |cs| && x.done == d.done
      && RowsOf(x) == RowsOf(d) + SumRows(rows, n, n + |cs|)
    decreases |cs|
  {
    hide Checkpoint.AddDeltas;
    if cs != [] {
      var x, n := CommitChunk(d, cs[0], rows), Checkpoint.Committed(d) + 1;
      assert cs[0].n == n && Checkpoint.Committed(x) == n && RowsOf(x) == RowsOf(d) + rows(n);
      assert forall i :: 0 <= i < |cs[1..]| ==> cs[1..][i] == cs[i + 1];
      CommitAllIs(x, cs[1..], rows);
      SumRowsSplit(rows, n, n + 1, n + |cs|);
      assert SumRows(rows, n, n) == 0;
    }
  }

  // ---- one run ----

  /** The chunks of the uninterrupted run that are not committed. */
  ghost function Uncommitted(e: Env, d: Checkpoint.Disk): seq<Chunk>
    requires e.max > 0 && RowOk(e, d)
  {
    FullChunks(e.items, e.max)[Checkpoint.Committed(d) + 1..]
  }

  lemma UncommittedAt(e: Env, d: Checkpoint.Disk, i: nat)
    requires e.max > 0 && RowOk(e, d)
    ensures var n := Checkpoint.Committed(d) + 1;
      n <= i < n + |Uncommitted(e, d)| ==> i < |FullChunks(e.items, e.max)| && Uncommitted(e, d)[i - n] == FullChunks(e.items, e.max)[i]
  {
    hide FullChunks;
  }

  /** What the sender of one run did. */
  lemma RunDid(e: Env, w: World, r: Run) returns (cs: seq<Chunk>, k: nat, got: set<nat>)
    requires Sane(e) && RowOk(e, w.disk)
    ensures cs == Uncommitted(e, w.disk) && Numbered(cs, Checkpoint.Committed(w.disk) + 1)
    ensures Did(w, SendAll(e, w, r).0, cs, Checkpoint.Committed(w.disk) + 1, r.rows, k, got)
    ensures Near(Checkpoint.Committed(w.disk) + 1, k, Ahead(r), got) && (SendAll(e, w, r).1 ==> k == |cs|)
  {
    hide FullChunks, Todo, Did, Near, SendInline, SendPipelined, RowOk, Ending, ResumeAt;
    TodoIsRest(e, w.disk);
    TodoNumbered(e, w.disk);
    cs := Todo(e, w.disk);
    if r.Inline? {
      k, got := InlineDid(w, cs, r.sends, r.rows, Checkpoint.Committed(w.disk) + 1);
    } else {
      k, got := PipelinedDid(w, cs, Checkpoint.Committed(w.disk) + 1, r);
    }
  }

  /** How far Arc can be ahead of the checkpoint behind such a run, not counting the chunk that comes next. */
  function Ahead(r: Run): nat { if r.Inline? then 0 else Inflight(r.inflight) }

  /** Finishing changes neither Arc nor the progress row. */
  lemma FinishOnly(e: Env, w: World, r: Run)
    requires e.max > 0 && w.disk.done.None?
    ensures var v, x := SendAll(e, w, r).0, RunOnce(e, w, r);
      && x.arc == v.arc && x.disk.row == v.disk.row && (x.disk == v.disk || x.disk.done.Some?)
      && (x.disk.done.Some? && v.disk.done.None? ==> SendAll(e, w, r).1 && x.disk.done.value.rows == RowsOf(v.disk))
  {
    hide SendAll, ResumeAt, Ending, Checkpoint.AddDeltas;
  }

  lemma DoneStays(e: Env, w: World, r: Run)
    requires e.max > 0 && w.disk.done.Some?
    ensures RunOnce(e, w, r) == w
  {}

  /** What one run did to an unfinished shard: it committed the next k chunks and stored the payloads in `got`. */
  lemma RunIs(e: Env, w: World, r: Run) returns (cs: seq<Chunk>, k: nat, got: set<nat>)
    requires Sane(e) && RowOk(e, w.disk) && w.disk.done.None?
    ensures var n, v := Checkpoint.Committed(w.disk) + 1, RunOnce(e, w, r);
      && cs == Uncommitted(e, w.disk) && k <= |cs| && Near(n, k, Ahead(r), got)
      && (forall i: nat :: n <= i < n + k ==> i in got)
      && v.arc == w.arc + Stored(cs, n, got) && Checkpoint.Committed(v.disk) + 1 == n + k
      && RowsOf(v.disk) == RowsOf(w.disk) + SumRows(r.rows, n, n + k)
      && (v.disk.done.Some? ==> k == |cs| && v.disk.done.value.rows == RowsOf(v.disk))
  {
    hide FullChunks, SendAll, RunOnce, RowOk, CommitAll, Stored, Near, SumRows, Numbered, Uncommitted;
    cs, k, got := RunDid(e, w, r);
    FinishOnly(e, w, r);
    FirstNumbered(cs, Checkpoint.Committed(w.disk) + 1, k);
    CommitAllIs(w.disk, cs[..k], r.rows);
    SameRow(RunOnce(e, w, r).disk, SendAll(e, w, r).0.disk);
  }

  lemma FirstNumbered(cs: seq<Chunk>, first: nat, k: nat)
    requires Numbered(cs, first) && k <= |cs|
    ensures Numbered(cs[..k], first)
  {}

  lemma SameRow(d: Checkpoint.Disk, x: Checkpoint.Disk)
    requires d.row == x.row
    ensures Checkpoint.Committed(d) == Checkpoint.Committed(x) && RowsOf(d) == RowsOf(x)
  {}

  /** A run stores nothing twice, nothing that was committed before it, and only chunks of the uninterrupted run,
      at most K + 1 seqs ahead of what is committed when it ends, one if it sends inline. */
  lemma SentAtMostOnce(e: Env, w: World, r: Run, p: (nat, Str))
    requires Sane(e) && RowOk(e, w.disk)
    ensures var full, v := FullChunks(e.items, e.max), RunOnce(e, w, r);
      && w.arc[p] <= v.arc[p] <= w.arc[p] + 1
      && (v.arc[p] > w.arc[p] ==>
            Checkpoint.Committed(w.disk) < p.0 <= Checkpoint.Committed(v.disk) + 1 + Ahead(r) && p.0 < |full| && p.1 == full[p.0].lp)
  {
    hide FullChunks, RunOnce, RowOk, Stored, SumRows, Uncommitted;
    if w.disk.done.Some? {
      DoneStays(e, w, r);
    } else {
      var cs, k, got := RunIs(e, w, r);
      StoredOnce(cs, Checkpoint.Committed(w.disk) + 1, got, p);
      UncommittedAt(e, w.disk, p.0);
    }
  }

  /** The run that finishes a shard stores every chunk that was not committed before it exactly once. */
  lemma FinishingSendsTheRest(e: Env, w: World, r: Run)
    requires Sane(e) && RowOk(e, w.disk) && w.disk.done.None? && RunOnce(e, w, r).disk.done.Some?
    ensures var n := Checkpoint.Committed(w.disk) + 1;
      RunOnce(e, w, r).arc == w.arc + multiset(Numbers(Uncommitted(e, w.disk), n))
  {
    hide FullChunks, RunOnce, RowOk, Stored, SumRows, Near, Numbers, Uncommitted;
    var cs, k, got := RunIs(e, w, r);
    AllStored(cs, Checkpoint.Committed(w.disk) + 1, got);
  }

  /** Arc holds every chunk once and nothing else. */
  ghost predicate EachOnce(arc: multiset<(nat, Str)>, full: seq<Chunk>) {
    arc == multiset(seq(|full|, i requires 0 <= i < |full| => (i, full[i].lp)))
  }

  lemma NewShardEachOnce(e: Env, r: Run)
    requires Sane(e) && RunOnce(e, FRESH, r).disk.done.Some?
    ensures EachOnce(RunOnce(e, FRESH, r).arc, FullChunks(e.items, e.max))
  {
    hide FullChunks, RunOnce, Safe;
    FreshIsSafe(e);
    LoadShard.InRange(e, map[], 0, FRESH);
    var full := FullChunks(e.items, e.max);
    FinishingSendsTheRest(e, FRESH, r);
    assert Uncommitted(e, FRESH.disk) == full;
    assert Numbers(full, 0) == seq(|full|, i requires 0 <= i < |full| => (i, full[i].lp));
  }

  /** One inline run of a new shard in which nothing fails leaves every chunk in Arc once, and nothing else. */
  lemma OneInlineRun(e: Env, rows: nat -> nat)
    requires Sane(e) && Stop(e.items) == |e.items|
    ensures var full := FullChunks(e.items, e.max);
      var v := RunOnce(e, FRESH, Inline(seq(|full|, i => Committed), rows, true));
      v.disk.done.Some? && EachOnce(v.arc, full)
  {
    hide FullChunks, RunOnce, Safe, EachOnce, Stop, Distinct;
    FreshIsSafe(e);
    CleanRunFinishes(e, map[], 0, FRESH, rows);
    NewShardEachOnce(e, Inline(seq(|FullChunks(e.items, e.max)|, i => Committed), rows, true));
  }

  /** So does a pipelined one that gets to its end, with any inflight and interleaving. */
  lemma OnePipelinedRun(e: Env, r: Run)
    requires Sane(e) && Stop(e.items) == |e.items| && r.Pipelined? && r.finish
    requires var c := SenderConfig(0, |Todo(e, FRESH.disk)|, r.inflight);
      Sender.Runs(c, Sender.Init(c), r.steps) && Sender.Clean(r.steps) && Sender.Exec(c, Sender.Init(c), r.steps).done
    ensures RunOnce(e, FRESH, r).disk.done.Some? && EachOnce(RunOnce(e, FRESH, r).arc, FullChunks(e.items, e.max))
  {
    hide FullChunks, RunOnce, Safe, EachOnce, Todo, Sender.Runs, Sender.Exec, Sender.Clean, Stop, Distinct;
    FreshIsSafe(e);
    CleanPipelineFinishes(e, map[], 0, FRESH, r);
    NewShardEachOnce(e, r);
  }

  /** The stored row count grows by what Arc reported for the chunks this run committed, no others; the done mark
      takes the count over. */
  lemma RowsGrow(e: Env, w: World, r: Run)
    requires Sane(e) && RowOk(e, w.disk)
    ensures var v := RunOnce(e, w, r).disk;
      && Checkpoint.Committed(w.disk) <= Checkpoint.Committed(v)
      && RowsOf(v) == RowsOf(w.disk) + SumRows(r.rows, Checkpoint.Committed(w.disk) + 1, Checkpoint.Committed(v) + 1)
      && (w.disk.done.None? && v.done.Some? ==> v.done.value.rows == RowsOf(v))
  {
    hide FullChunks, RunOnce, RowOk, Stored, Near;
    if w.disk.done.Some? {
      DoneStays(e, w, r);
      assert SumRows(r.rows, Checkpoint.Committed(w.disk) + 1, Checkpoint.Committed(w.disk) + 1) == 0;
    } else {
      var cs, k, got := RunIs(e, w, r);
    }
  }

  /** What a run from w to v did to Arc: no payload twice, none that was committed before, and if it finished the
      shard, every other one. */
  ghost predicate Delivered(e: Env, w: World, v: World)
    requires e.max > 0 && RowOk(e, w.disk)
  {
    && (forall p: (nat, Str) :: w.arc[p] <= v.arc[p] <= w.arc[p] + 1 && (v.arc[p] > w.arc[p] ==> p.0 > Checkpoint.Committed(w.disk)))
    && (w.disk.done.None? && v.disk.done.Some? ==>
          v.arc == w.arc + multiset(Numbers(Uncommitted(e, w.disk), Checkpoint.Committed(w.disk) + 1)))
  }

  lemma RunDelivers(e: Env, w: World, r: Run)
    requires Sane(e) && RowOk(e, w.disk)
    ensures Delivered(e, w, RunOnce(e, w, r))
  {
    hide FullChunks, RunOnce, RowOk, Uncommitted, Numbers, Distinct;
    forall p: (nat, Str) ensures var v := RunOnce(e, w, r); w.arc[p] <= v.arc[p] <= w.arc[p] + 1 && (v.arc[p] > w.arc[p] ==> p.0 > Checkpoint.Committed(w.disk)) {
      SentAtMostOnce(e, w, r, p);
    }
    if w.disk.done.None? && RunOnce(e, w, r).disk.done.Some? { FinishingSendsTheRest(e, w, r); }
  }

  // ---- any number of runs ----

  /** After any runs of a new shard, Arc holds no payload more often than there were runs. */
  lemma {:induction false} AtMostOncePerRun(e: Env, from: nat, w: World, rs: seq<Run>, p: (nat, Str))
    requires Sane(e) && Safe(e, map[], from, w)
    ensures w.arc[p] <= Play(e, w, rs).arc[p] <= w.arc[p] + |rs|
    decreases |rs|
  {
    hide Safe, RunOnce, FullChunks;
    if rs != [] {
      LoadShard.InRange(e, map[], from, w);
      SentAtMostOnce(e, w, rs[0], p);
      RunKeepsSafe(e, map[], from, w, rs[0]);
      AtMostOncePerRun(e, from, RunOnce(e, w, rs[0]), rs[1..], p);
    }
  }

  /** If Arc reports the same count for the same chunk every time, then after any runs of a new shard the row count
      is that of the committed chunks, and at the done mark that of all of them. */
  ghost predicate RowsExact(w: World, rows: nat -> nat) {
    && RowsOf(w.disk) == SumRows(rows, 0, Checkpoint.Committed(w.disk) + 1)
    && (w.disk.done.Some? ==> w.disk.done.value.rows == SumRows(rows, 0, w.disk.done.value.chunks))
  }

  lemma RowsStayExact(e: Env, from: nat, w: World, r: Run)
    requires Sane(e) && Safe(e, map[], from, w) && RowsExact(w, r.rows)
    ensures RowsExact(RunOnce(e, w, r), r.rows)
  {
    hide RunOnce, FullChunks;
    RowsGrow(e, w, r);
    RunKeepsSafe(e, map[], from, w, r);
    var v := RunOnce(e, w, r).disk;
    SumRowsSplit(r.rows, 0, Checkpoint.Committed(w.disk) + 1, Checkpoint.Committed(v) + 1);
    if w.disk.done.Some? { DoneStays(e, w, r); }
  }

  lemma {:induction false} RowsAddUp(e: Env, from: nat, w: World, rs: seq<Run>, rows: nat -> nat)
    requires Sane(e) && Safe(e, map[], from, w) && RowsExact(w, rows) && forall r :: r in rs ==> r.rows == rows
    ensures RowsExact(Play(e, w, rs), rows)
    decreases |rs|
  {
    hide Safe, RunOnce, RowsExact, FullChunks;
    if rs != [] {
      assert rs[0] in rs;
      RowsStayExact(e, from, w, rs[0]);
      RunKeepsSafe(e, map[], from, w, rs[0]);
      RowsAddUp(e, from, RunOnce(e, w, rs[0]), rs[1..], rows);
    }
  }

  /** After any runs of a new shard: no payload more often than there were runs, and the rows of exactly the committed
      chunks. */
  lemma ExactlyCounted(e: Env, rs: seq<Run>, rows: nat -> nat)
    requires Sane(e)
    ensures forall p: (nat, Str) :: Play(e, FRESH, rs).arc[p] <= |rs|
    ensures (forall r :: r in rs ==> r.rows == rows) ==> RowsExact(Play(e, FRESH, rs), rows)
  {
    FreshIsSafe(e);
    hide Safe, Play;
    forall p: (nat, Str) ensures Play(e, FRESH, rs).arc[p] <= |rs| { AtMostOncePerRun(e, 0, FRESH, rs, p); }
    if forall r :: r in rs ==> r.rows == rows {
      assert RowsExact(FRESH, rows);
      RowsAddUp(e, 0, FRESH, rs, rows);
    }
  }

  // ---- nothing is lost ----

  lemma WithoutGap(es: seq<Entry>, j: nat)
    requires j < |es|
    ensures es == es[..j] + [es[j]] + es[j + 1..]
  {}

  lemma BytesAround(es: seq<Entry>, j: nat)
    requires j < |es|
    ensures Bytes(es) == Bytes(es[..j]) + es[j].line + Bytes(es[j + 1..])
  {
    hide Bytes;
    var a, b := es[..j] + [es[j]], es[j + 1..];
    BytesOneMore(es[..j], es[j]);
    BytesConcat(a, b);
    WithoutGap(es, j);
  }

  /** Chunk k carries the line of item i, between other bytes. */
  ghost predicate Carries(cs: seq<Chunk>, k: nat, x: Str, line: Str, y: Str) { k < |cs| && cs[k].lp == x + line + y }

  /** In a shard without invalid measurements, every item that is sent or renamed has its line in some chunk. */
  lemma SomeChunkCarries(e: Env, i: nat) returns (k: nat, x: Str, y: Str)
    requires Sane(e) && Stop(e.items) == |e.items| && i < |e.items| && (e.items[i].act.Send? || e.items[i].act.Rename?)
    ensures Carries(FullChunks(e.items, e.max), k, x, e.items[i].act.line, y)
  {
    hide Entries, Cut, Stop, Bytes, Tally, DeltaList, Mark, IsCut, Distinct;
    var es, gs := Entries(e.items, 0, |e.items|), Groups(e.items, 0, e.max);
    EntriesMeaning(e.items, 0, |e.items|);
    LinesMeaning(e.items, 0, |e.items|, i);
    var j :| 0 <= j < |es| && es[j].at == i;
    assert es[j] in es;
    FlattenIsEntries(e);
    assert es[j] in Flatten(gs);
    FlattenMember(gs, es[j]);
    k :| 0 <= k < |gs| && es[j] in gs[k];
    var g := gs[k];
    var m :| 0 <= m < |g| && g[m] == es[j];
    BytesAround(g, m);
    x, y := Bytes(g[..m]), Bytes(g[m + 1..]);
    GroupsMarked(e.items, 0, e.max);
    assert FullChunks(e.items, e.max)[k] == ChunkOf(e.items, gs, 0, 0, k);
  }

  lemma FlattenIsEntries(e: Env)
    requires e.max > 0 && Stop(e.items) == |e.items|
    ensures Flatten(Groups(e.items, 0, e.max)) == Entries(e.items, 0, |e.items|)
  {
    hide Entries, Cut, Stop;
    CutIsCut(Entries(e.items, 0, |e.items|), e.max);
  }

  lemma AllValidItems(items: seq<Item>, i: nat)
    requires i < |items| == Stop(items)
    ensures !items[i].act.Invalid?
  {}

  /** A shard that is marked done has, for every item that is sent or renamed, a payload with its line in Arc, and no
      item is invalid. */
  lemma DoneIsDelivered(e: Env, w: World, i: nat)
    requires Sane(e) && Promised(e, w) && w.disk.done.Some? && i < |e.items|
    ensures !e.items[i].act.Invalid?
    ensures e.items[i].act.Send? || e.items[i].act.Rename? ==> exists n, x, y :: (n, x + e.items[i].act.line + y) in w.arc
  {
    hide FullChunks, Distinct, Stop;
    AllValidItems(e.items, i);
    if e.items[i].act.Send? || e.items[i].act.Rename? {
      var k, x, y := SomeChunkCarries(e, i);
      assert (k, x + e.items[i].act.line + y) in w.arc;
    }
  }
}
