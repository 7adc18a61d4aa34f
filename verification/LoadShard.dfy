/** Loading a shard to the end over any number of runs, each of which may crash at any step.

    A `World` is what survives a crash: the shard's checkpoint and what Arc has accepted. A `Run` says what one
    run's sender did: the interleaving of its steps, every POST and commit failure, and where it died. `Play`
    strings runs together. The methods of `Loading` do what such runs say. */
module LoadShard {
  import opened Orders
  import opened Values
  import opened Shard
  import opened Chunks
  import opened Stage
  import Checkpoint
  import Sender
  import Upload

  // ---- items and positions ----

  ghost predicate Distinct(items: seq<Item>) {
    forall i, j :: 0 <= i < j < |items| ==> items[i].pos != items[j].pos
  }

  /** How many items lie up to and including the cursor's. */
  function Offset(items: seq<Item>, cur: Cursor): nat {
    if items == [] then 0 else if items[0].pos == cur then 1 else 1 + Offset(items[1..], cur)
  }

  lemma {:induction false} OffsetAt(items: seq<Item>, i: nat)
    requires Distinct(items) && i < |items|
    ensures Offset(items, items[i].pos) == i + 1
    decreases i
  {
    if i > 0 {
      assert items[0].pos != items[i].pos;
      assert forall j :: 0 <= j < |items[1..]| ==> items[1..][j] == items[j + 1];
      OffsetAt(items[1..], i - 1);
    }
  }

  // ---- worlds and runs ----

  /** The shard's emission order and the chunk size, the same in every run. */
  datatype Env = Env(items: seq<Item>, max: nat)

  ghost predicate Sane(e: Env) { e.max > 0 && Distinct(e.items) }

  /** What a run's sender did: the steps of the pipeline, or the fate of each chunk sent inline. `rows(n)` is
      what Arc reports for seq n; `finish` says whether the done mark is written, if it comes to that. */
  datatype Run =
    | Pipelined(inflight: int, steps: seq<Sender.Step>, rows: nat -> nat, finish: bool)
    | Inline(sends: seq<Sent>, rows: nat -> nat, finish: bool)

  const FRESH := World(Checkpoint.NEW_SHARD, multiset{})

  /** The cursor a run resumes behind; none next to a committed seq means an old checkpoint. */
  function CursorOf(d: Checkpoint.Disk): Resume {
    if d.row.Some? && d.row.value.cur.Some? then After(d.row.value.cur.value) else FromStart
  }

  /** Where a run starts: the first item to take and the first seq to give out. */
  function ResumeAt(e: Env, d: Checkpoint.Disk): (nat, nat) {
    if d.row.Some? && d.row.value.cur.Some? then (Offset(e.items, d.row.value.cur.value), d.row.value.n + 1) else (0, 0)
  }

  ghost function Todo(e: Env, d: Checkpoint.Disk): seq<Chunk>
    requires e.max > 0
  {
    var (o, start) := ResumeAt(e, d);
    if o <= |e.items| then Upload.ToSend(e.items, o, start, e.max, Checkpoint.Committed(d)) else []
  }

  function SenderConfig(first: nat, n: nat, inflight: int): Sender.Config {
    Sender.Config(Inflight(inflight), first, first + n)
  }

  /** Run the sender's steps up to wherever the run ends; true if `wait` returned nil behind the last chunk. */
  ghost function SendPipelined(w: World, cs: seq<Chunk>, first: nat, r: Run): (World, bool)
    requires r.Pipelined?
  {
    var c := SenderConfig(first, |cs|, r.inflight);
    if !Sender.Runs(c, Sender.Init(c), r.steps) then (w, false)
    else
      var s := Sender.Exec(c, Sender.Init(c), r.steps);
      var n := |s.book.commits|;
      (World(CommitAll(w.disk, if n <= |cs| then cs[..n] else cs, r.rows), w.arc + Stored(cs, first, s.accepted)),
       s.done && s.producer.Drained? && !s.book.err)
  }

  ghost function SendAll(e: Env, w: World, r: Run): (World, bool)
    requires e.max > 0
  {
    var cs := Todo(e, w.disk);
    if r.Inline? then SendInline(w, cs, r.sends, r.rows) else SendPipelined(w, cs, Checkpoint.Committed(w.disk) + 1, r)
  }

  /** The chunk count and the audit deltas behind the last chunk that a complete run from item o knows. */
  ghost function Ending(e: Env, o: nat, start: nat): (nat, seq<Delta>)
    requires e.max > 0 && o <= |e.items|
  {
    GroupsMarked(e.items, o, e.max);
    var gs := Groups(e.items, o, e.max);
    (start + |gs|, DeltaList(Tally(e.items, Mark(gs, o, |gs|), |e.items|)))
  }

  /** One run of loadShard. */
  ghost function RunOnce(e: Env, w: World, r: Run): World
    requires e.max > 0
  {
    if w.disk.done.Some? then w
    else
      var (v, ok) := SendAll(e, w, r);
      var (o, start) := ResumeAt(e, w.disk);
      if ok && r.finish && Stop(e.items) == |e.items| && o <= |e.items| then
        var (total, last) := Ending(e, o, start);
        World(Checkpoint.FinishOn(v.disk, total, last), v.arc)
      else v
  }

  ghost function Play(e: Env, w: World, rs: seq<Run>): World
    requires e.max > 0
    decreases |rs|
  {
    if rs == [] then w else Play(e, RunOnce(e, w, rs[0]), rs[1..])
  }

  lemma {:induction false} PlayOneMore(e: Env, w: World, rs: seq<Run>, r: Run)
    requires e.max > 0
    ensures Play(e, w, rs + [r]) == RunOnce(e, Play(e, w, rs), r)
    decreases |rs|
  {
    hide RunOnce;
    if rs == [] {
      assert rs + [r] == [r];
      assert Play(e, RunOnce(e, w, r), [r][1..]) == RunOnce(e, w, r);
    } else {
      assert (rs + [r])[1..] == rs[1..] + [r];
      PlayOneMore(e, RunOnce(e, w, rs[0]), rs[1..], r);
    }
  }

  // ---- what every run keeps ----

  ghost predicate Conforming(e: Env, arc: multiset<(nat, Str)>)
    requires e.max > 0
  {
    forall p :: p in arc ==> p.0 < |FullChunks(e.items, e.max)| && p.1 == FullChunks(e.items, e.max)[p.0].lp
  }

  ghost predicate Held(e: Env, arc: multiset<(nat, Str)>, n: int)
    requires e.max > 0 && n <= |FullChunks(e.items, e.max)|
  {
    forall i: nat :: i < n ==> (i, FullChunks(e.items, e.max)[i].lp) in arc
  }

  /** The item behind the first n chunks. */
  ghost function Bound(e: Env, n: nat): (b: nat)
    requires e.max > 0 && n <= |FullChunks(e.items, e.max)|
    ensures b <= |e.items|
  {
    Boundary(e.items, e.max, n)
  }

  /** The audit counts on disk, plus those of the `from` items that were never audited, are the counts m0 the
      shard began with plus those of the items up to n. */
  ghost predicate Audited(e: Env, m0: map<Str, nat>, from: nat, actions: map<Str, nat>, n: nat)
    requires from <= |e.items| && n <= |e.items|
  {
    forall k :: Get(actions, k) + Count(e.items, k, 0, from) == Get(m0, k) + Count(e.items, k, 0, n)
  }

  ghost predicate RowOk(e: Env, d: Checkpoint.Disk)
    requires e.max > 0
  {
    var n := Checkpoint.Committed(d) + 1;
    && n <= |FullChunks(e.items, e.max)|
    && (d.row.Some? && d.row.value.cur.Some? ==> d.row.value.cur.value == FullChunks(e.items, e.max)[n - 1].cur)
  }

  ghost predicate Safe(e: Env, m0: map<Str, nat>, from: nat, w: World)
    requires e.max > 0
  {
    var n := Checkpoint.Committed(w.disk) + 1;
    && from <= |e.items| && RowOk(e, w.disk) && Conforming(e, w.arc) && Held(e, w.arc, n)
    && Audited(e, m0, from, w.disk.actions, if w.disk.done.Some? then |e.items| else Bound(e, n))
    && (w.disk.done.Some? ==> Stop(e.items) == |e.items| && n == w.disk.done.value.chunks == |FullChunks(e.items, e.max)|)
  }

  // ---- audit arithmetic ----

  lemma {:induction false} AddDeltasFor(m: map<Str, nat>, t: map<Str, nat>, names: seq<Str>, k: Str)
    requires forall i, j :: 0 <= i < j < |names| ==> names[i] != names[j]
    ensures Get(Checkpoint.AddDeltas(m, DeltasFor(t, names)), k) == Get(m, k) + (if k in names then Get(t, k) else 0)
    decreases |names|
  {
    if names != [] {
      var ds := DeltasFor(t, names);
      var rest := names[1..];
      assert ds[0] == Delta(names[0], Get(t, names[0])) && ds[1..] == DeltasFor(t, rest);
      assert forall i :: 0 <= i < |rest| ==> rest[i] == names[i + 1] && rest[i] != names[0];
      AddDeltasFor(m[names[0] := Get(m, names[0]) + Get(t, names[0])], t, rest, k);
      assert k in names <==> k == names[0] || k in rest;
    }
  }

  /** Adding a count per measurement as a list of deltas adds it measurement by measurement. */
  lemma AddDeltaList(m: map<Str, nat>, t: map<Str, nat>, k: Str)
    ensures Get(Checkpoint.AddDeltas(m, DeltaList(t)), k) == Get(m, k) + Get(t, k)
  {
    hide DeltasFor, Checkpoint.AddDeltas;
    StrTotal();
    var names := Sorted(t.Keys, StrLess);
    forall i, j | 0 <= i < j < |names| ensures names[i] != names[j] {
      assert StrLess(names[i], names[j]);
      StrTrichotomy(names[i], names[i]);
    }
    AddDeltasFor(m, t, names, k);
  }

  /** Committing the counts of items lo..hi-1 moves the audit from lo to hi. */
  lemma AuditMoves(e: Env, m0: map<Str, nat>, from: nat, actions: map<Str, nat>, lo: nat, hi: nat)
    requires from <= |e.items| && lo <= hi <= |e.items| && Audited(e, m0, from, actions, lo)
    ensures Audited(e, m0, from, Checkpoint.AddDeltas(actions, DeltaList(Tally(e.items, lo, hi))), hi)
  {
    hide Count, Tally, DeltaList, Checkpoint.AddDeltas, Get;
    var acts := Checkpoint.AddDeltas(actions, DeltaList(Tally(e.items, lo, hi)));
    forall k ensures Get(acts, k) + Count(e.items, k, 0, from) == Get(m0, k) + Count(e.items, k, 0, hi) {
      AddDeltaList(actions, Tally(e.items, lo, hi), k);
      TallyCounts(e.items, lo, hi, k);
      CountSplit(e.items, k, 0, lo, hi);
    }
  }

  // ---- what a run has to send ----

  lemma FullAt(e: Env, i: nat)
    requires e.max > 0 && i < |FullChunks(e.items, e.max)|
    ensures var c := FullChunks(e.items, e.max)[i];
      c.n == i && Bound(e, i) < Bound(e, i + 1) && c.cur == e.items[Bound(e, i + 1) - 1].pos
      && c.deltas == DeltaList(Tally(e.items, Bound(e, i), Bound(e, i + 1)))
  {
    hide Groups, Tally, DeltaList, Bytes;
    GroupsMarked(e.items, 0, e.max);
    MarksAscend(e.items, 0, e.max, i);
    assert FullChunks(e.items, e.max)[i] == ChunkOf(e.items, Groups(e.items, 0, e.max), 0, 0, i);
  }

  lemma FullIsFromStart(e: Env)
    requires e.max > 0
    ensures ChunksFrom(e.items, 0, 0, e.max) == FullChunks(e.items, e.max)
    ensures |FullChunks(e.items, e.max)| == |Groups(e.items, 0, e.max)|
  {}

  /** Where a run resumes, what it has to send is the part of the uninterrupted run that is not committed. */
  lemma TodoIsRest(e: Env, d: Checkpoint.Disk)
    requires Sane(e) && RowOk(e, d)
    ensures Todo(e, d) == FullChunks(e.items, e.max)[Checkpoint.Committed(d) + 1..]
    ensures ResumeAt(e, d).0 <= |e.items|
    ensures var n := |FullChunks(e.items, e.max)|;
      Ending(e, ResumeAt(e, d).0, ResumeAt(e, d).1) == (n, DeltaList(Tally(e.items, Bound(e, n), |e.items|)))
  {
    hide FullChunks, Groups, DeltaList, Tally;
    var full, gs := FullChunks(e.items, e.max), Groups(e.items, 0, e.max);
    FullIsFromStart(e);
    GroupsMarked(e.items, 0, e.max);
    if d.row.Some? && d.row.value.cur.Some? {
      var k := d.row.value.n;
      var o := Bound(e, k + 1);
      FullAt(e, k);
      OffsetAt(e.items, o - 1);
      ResumedChunks(e.items, e.max, k);
      GroupsAfter(e.items, e.max, k);
      assert o == Mark(gs[k..k + 1], 0, 1) && Groups(e.items, o, e.max) == gs[k + 1..];
      assert Mark(gs[k + 1..], o, |gs[k + 1..]|) == Mark(gs, 0, |gs|);
    }
  }

  lemma FullNumbered(e: Env, n: nat)
    requires e.max > 0 && n <= |FullChunks(e.items, e.max)|
    ensures Numbered(FullChunks(e.items, e.max)[n..], n)
  {
    hide FullChunks, Bound, Tally, DeltaList;
    var rest := FullChunks(e.items, e.max)[n..];
    forall i | 0 <= i < |rest| ensures rest[i].n == n + i { FullAt(e, n + i); }
  }

  lemma TodoNumbered(e: Env, d: Checkpoint.Disk)
    requires Sane(e) && RowOk(e, d)
    ensures Numbered(Todo(e, d), Checkpoint.Committed(d) + 1)
  {
    hide FullChunks, Todo, Bound, Numbered, Ending, ResumeAt;
    TodoIsRest(e, d);
    FullNumbered(e, Checkpoint.Committed(d) + 1);
  }

  lemma BoundBeforeStop(e: Env, n: nat)
    requires e.max > 0 && n <= |FullChunks(e.items, e.max)|
    ensures Bound(e, n) <= Stop(e.items)
  {
    hide Cut, Entries, Stop;
    GroupsMarked(e.items, 0, e.max);
    DropIsPrefix(Cut(Entries(e.items, 0, Stop(e.items)), e.max), e.max);
    if n > 0 { GroupEnds(e.items, 0, e.max, n - 1); }
  }

  /** A stored cursor is the position of the item before the one to resume at. */
  lemma ResumePoint(e: Env, d: Checkpoint.Disk)
    requires Sane(e) && RowOk(e, d)
    ensures var o := ResumeAt(e, d).0;
      o <= Stop(e.items) && if o == 0 then CursorOf(d).FromStart? else CursorOf(d) == After(e.items[o - 1].pos)
    ensures CursorOf(d).FromStart? ==> ResumeAt(e, d) == (0, 0)
    ensures CursorOf(d).After? ==> ResumeAt(e, d).1 == Checkpoint.Committed(d) + 1
  {
    hide FullChunks, Bound, Stop, Offset, Distinct;
    if CursorOf(d).After? { CursorAt(e, d.row.value.n, d.row.value.cur.value); }
  }

  lemma CursorAt(e: Env, n: nat, cur: Cursor)
    requires Sane(e) && n < |FullChunks(e.items, e.max)| && cur == FullChunks(e.items, e.max)[n].cur
    ensures 0 < Offset(e.items, cur) <= Stop(e.items) && e.items[Offset(e.items, cur) - 1].pos == cur
  {
    hide FullChunks, Stop, Offset, Distinct, Bound, Tally, DeltaList;
    FullAt(e, n);
    BoundBeforeStop(e, n + 1);
    OffsetAt(e.items, Bound(e, n + 1) - 1);
  }

  // ---- every run keeps the world safe ----

  lemma StoreKeeps(e: Env, m0: map<Str, nat>, from: nat, w: World, more: multiset<(nat, Str)>)
    requires e.max > 0 && Safe(e, m0, from, w) && Conforming(e, more)
    ensures Safe(e, m0, from, World(w.disk, w.arc + more))
  {
    hide FullChunks, Audited, Bound, RowOk;
    assert forall p :: p in w.arc + more <==> p in w.arc || p in more;
  }

  /** Committing the next chunk, which Arc holds. */
  lemma CommitKeeps(e: Env, m0: map<Str, nat>, from: nat, w: World, rows: nat -> nat)
    requires e.max > 0 && Safe(e, m0, from, w) && w.disk.done.None?
    requires var full := FullChunks(e.items, e.max);
      var n := Checkpoint.Committed(w.disk) + 1;
      n < |full| && (n, full[n].lp) in w.arc
    ensures var n := Checkpoint.Committed(w.disk) + 1;
      var d := CommitChunk(w.disk, FullChunks(e.items, e.max)[n], rows);
      Safe(e, m0, from, World(d, w.arc)) && Checkpoint.Committed(d) == n && d.done.None?
  {
    hide FullChunks, Audited, Bound, DeltaList, Tally, Checkpoint.AddDeltas;
    var n := Checkpoint.Committed(w.disk) + 1;
    FullAt(e, n);
    AuditMoves(e, m0, from, w.disk.actions, Bound(e, n), Bound(e, n + 1));
  }

  lemma {:induction false} CommitsKeep(e: Env, m0: map<Str, nat>, from: nat, w: World, cs: seq<Chunk>, rows: nat -> nat)
    requires e.max > 0 && Safe(e, m0, from, w) && w.disk.done.None?
    requires cs <= FullChunks(e.items, e.max)[Checkpoint.Committed(w.disk) + 1..]
    requires Held(e, w.arc, Checkpoint.Committed(w.disk) + 1 + |cs|)
    ensures var d := CommitAll(w.disk, cs, rows);
      Safe(e, m0, from, World(d, w.arc)) && Checkpoint.Committed(d) == Checkpoint.Committed(w.disk) + |cs| && d.done.None?
    decreases |cs|
  {
    hide FullChunks, Safe, CommitChunk;
    InRange(e, m0, from, w);
    if cs != [] {
      var n := Checkpoint.Committed(w.disk) + 1;
      assert cs[0] == FullChunks(e.items, e.max)[n];
      CommitKeeps(e, m0, from, w, rows);
      CommitsKeep(e, m0, from, World(CommitChunk(w.disk, cs[0], rows), w.arc), cs[1..], rows);
    }
  }

  lemma AcceptKeeps(e: Env, m0: map<Str, nat>, from: nat, w: World, n: nat)
    requires e.max > 0 && Safe(e, m0, from, w) && n < |FullChunks(e.items, e.max)|
    ensures var v := Land(w, FullChunks(e.items, e.max)[n]);
      Safe(e, m0, from, v) && v.disk == w.disk && (n, FullChunks(e.items, e.max)[n].lp) in v.arc
  {
    hide FullChunks, Safe, Bound;
    FullAt(e, n);
    var c := FullChunks(e.items, e.max)[n];
    assert Conforming(e, multiset{(c.n, c.lp)});
    StoreKeeps(e, m0, from, w, multiset{(c.n, c.lp)});
  }

  lemma {:induction false} InlineKeeps(e: Env, m0: map<Str, nat>, from: nat, w: World, sends: seq<Sent>, rows: nat -> nat)
    requires e.max > 0 && Safe(e, m0, from, w) && w.disk.done.None?
    ensures Checkpoint.Committed(w.disk) + 1 <= |FullChunks(e.items, e.max)|
    ensures var cs := FullChunks(e.items, e.max)[Checkpoint.Committed(w.disk) + 1..];
      var (v, ok) := SendInline(w, cs, sends, rows);
      Safe(e, m0, from, v) && v.disk.done.None? && (ok ==> Checkpoint.Committed(v.disk) + 1 == |FullChunks(e.items, e.max)|)
    decreases |sends|
  {
    hide FullChunks, Safe, CommitChunk, Land;
    var full, n := FullChunks(e.items, e.max), Checkpoint.Committed(w.disk) + 1;
    InRange(e, m0, from, w);
    if n < |full| && sends != [] && !sends[0].Rejected? {
      AcceptKeeps(e, m0, from, w, n);
      var v := Land(w, full[n]);
      if sends[0].Committed? {
        CommitKeeps(e, m0, from, v, rows);
        InlineKeeps(e, m0, from, World(CommitChunk(v.disk, full[n], rows), v.arc), sends[1..], rows);
        assert full[n..][1..] == full[n + 1..];
      }
    }
  }

  lemma InRange(e: Env, m0: map<Str, nat>, from: nat, w: World)
    requires e.max > 0 && Safe(e, m0, from, w)
    ensures Checkpoint.Committed(w.disk) + 1 <= |FullChunks(e.items, e.max)| && Held(e, w.arc, Checkpoint.Committed(w.disk) + 1)
    ensures RowOk(e, w.disk)
  {}

  /** What the pipelined sender stored and committed, whatever its steps were. */
  lemma SenderResult(cs: seq<Chunk>, first: nat, r: Run)
    requires r.Pipelined?
    ensures var c := SenderConfig(first, |cs|, r.inflight);
      Sender.Runs(c, Sender.Init(c), r.steps) ==>
      var s := Sender.Exec(c, Sender.Init(c), r.steps);
      && |s.book.commits| <= |cs|
      && (forall n: nat :: first <= n < first + |s.book.commits| ==> n in s.accepted)
      && (s.done && s.producer.Drained? && !s.book.err ==> |s.book.commits| == |cs|)
  {
    var c := SenderConfig(first, |cs|, r.inflight);
    if Sender.Runs(c, Sender.Init(c), r.steps) {
      var s := Sender.Exec(c, Sender.Init(c), r.steps);
      Sender.CommitsInOrder(c, s);
      forall n: nat | first <= n < first + |s.book.commits| ensures n in s.accepted { assert s.book.commits[n - first] == n; }
      if s.done && s.producer.Drained? && !s.book.err { Sender.WaitNilMeansCommitted(c, s); }
    }
  }

  lemma StoredHas(cs: seq<Chunk>, first: nat, accepted: set<nat>, n: nat)
    requires n in accepted && first <= n < first + |cs|
    ensures (n, cs[n - first].lp) in Stored(cs, first, accepted)
  {}

  lemma StoredConforms(e: Env, first: nat, accepted: set<nat>)
    requires e.max > 0 && first <= |FullChunks(e.items, e.max)|
    ensures Conforming(e, Stored(FullChunks(e.items, e.max)[first..], first, accepted))
  {
    hide FullChunks;
    var full := FullChunks(e.items, e.max);
    forall p | p in Stored(full[first..], first, accepted) ensures p.0 < |full| && p.1 == full[p.0].lp {
      var n :| n in accepted && first <= n < first + |full[first..]| && p == (n, full[first..][n - first].lp);
    }
  }

  lemma PipelinedKeeps(e: Env, m0: map<Str, nat>, from: nat, w: World, r: Run)
    requires e.max > 0 && Safe(e, m0, from, w) && w.disk.done.None? && r.Pipelined?
    ensures Checkpoint.Committed(w.disk) + 1 <= |FullChunks(e.items, e.max)|
    ensures var cs := FullChunks(e.items, e.max)[Checkpoint.Committed(w.disk) + 1..];
      var (v, ok) := SendPipelined(w, cs, Checkpoint.Committed(w.disk) + 1, r);
      Safe(e, m0, from, v) && v.disk.done.None? && (ok ==> Checkpoint.Committed(v.disk) + 1 == |FullChunks(e.items, e.max)|)
  {
    hide FullChunks, Safe, Stored, Conforming, CommitAll, Sender.Runs, Sender.Exec;
    InRange(e, m0, from, w);
    var full, first := FullChunks(e.items, e.max), Checkpoint.Committed(w.disk) + 1;
    var cs := full[first..];
    var c := SenderConfig(first, |cs|, r.inflight);
    SenderResult(cs, first, r);
    if Sender.Runs(c, Sender.Init(c), r.steps) {
      var s := Sender.Exec(c, Sender.Init(c), r.steps);
      var n, more := |s.book.commits|, Stored(cs, first, s.accepted);
      StoredConforms(e, first, s.accepted);
      StoreKeeps(e, m0, from, w, more);
      assert Held(e, w.arc + more, first + n) by {
        forall i: nat | i < first + n ensures (i, full[i].lp) in w.arc + more {
          if i >= first { StoredHas(cs, first, s.accepted, i); }
        }
      }
      CommitsKeep(e, m0, from, World(w.disk, w.arc + more), cs[..n], r.rows);
    }
  }

  lemma FinishKeeps(e: Env, m0: map<Str, nat>, from: nat, w: World)
    requires e.max > 0 && Safe(e, m0, from, w) && w.disk.done.None?
    requires Stop(e.items) == |e.items| && Checkpoint.Committed(w.disk) + 1 == |FullChunks(e.items, e.max)|
    ensures var n := |FullChunks(e.items, e.max)|;
      Safe(e, m0, from, World(Checkpoint.FinishOn(w.disk, n, DeltaList(Tally(e.items, Bound(e, n), |e.items|))), w.arc))
  {
    hide FullChunks, Audited, Bound, DeltaList, Tally, Checkpoint.AddDeltas;
    var n := |FullChunks(e.items, e.max)|;
    AuditMoves(e, m0, from, w.disk.actions, Bound(e, n), |e.items|);
  }

  lemma RunKeepsSafe(e: Env, m0: map<Str, nat>, from: nat, w: World, r: Run)
    requires Sane(e) && Safe(e, m0, from, w)
    ensures Safe(e, m0, from, RunOnce(e, w, r))
  {
    hide FullChunks, Safe, Bound, Audited, SendInline, SendPipelined, DeltaList, Tally, Todo, Ending, ResumeAt,
      Checkpoint.FinishOn, Checkpoint.Committed;
    if w.disk.done.None? {
      InRange(e, m0, from, w);
      TodoIsRest(e, w.disk);
      if r.Inline? { InlineKeeps(e, m0, from, w, r.sends, r.rows); } else { PipelinedKeeps(e, m0, from, w, r); }
      var (v, ok) := SendAll(e, w, r);
      if ok && r.finish && Stop(e.items) == |e.items| {
        FinishKeeps(e, m0, from, v);
      }
    }
  }

  lemma {:induction false} PlayKeepsSafe(e: Env, m0: map<Str, nat>, from: nat, w: World, rs: seq<Run>)
    requires Sane(e) && Safe(e, m0, from, w)
    ensures Safe(e, m0, from, Play(e, w, rs))
    decreases |rs|
  {
    hide Safe, RunOnce;
    if rs != [] {
      RunKeepsSafe(e, m0, from, w, rs[0]);
      PlayKeepsSafe(e, m0, from, RunOnce(e, w, rs[0]), rs[1..]);
    }
  }

  // ---- main results ----

  /** Everything a shard promises after any sequence of runs. */
  ghost predicate Promised(e: Env, w: World)
    requires e.max > 0
  {
    var full := FullChunks(e.items, e.max);
    && (forall p :: p in w.arc ==> p.0 < |full| && p.1 == full[p.0].lp)
    && (forall n: nat :: n <= Checkpoint.Committed(w.disk) ==> n < |full| && (n, full[n].lp) in w.arc)
    && (w.disk.done.Some? ==>
          Stop(e.items) == |e.items| && w.disk.done.value.chunks == |full| && forall n: nat :: n < |full| ==> (n, full[n].lp) in w.arc)
  }

  lemma SafeIsPromised(e: Env, m0: map<Str, nat>, from: nat, w: World)
    requires e.max > 0 && Safe(e, m0, from, w)
    ensures Promised(e, w)
  {
    hide FullChunks, Audited, Bound;
  }

  /** Whatever runs a shard went through, crashing anywhere, with any failures, with or without the pipeline
      and with any inflight: every payload Arc accepted as seq n is chunk n of one uninterrupted run, the
      committed prefix is in Arc, and a shard marked done has every chunk in Arc. */
  lemma WholeRunSafety(e: Env, rs: seq<Run>)
    requires Sane(e)
    ensures Promised(e, Play(e, FRESH, rs))
  {
    FreshIsSafe(e);
    PlayKeepsSafe(e, map[], 0, FRESH, rs);
    SafeIsPromised(e, map[], 0, Play(e, FRESH, rs));
  }

  lemma FreshIsSafe(e: Env)
    requires Sane(e)
    ensures Safe(e, map[], 0, FRESH)
  {}

  /** The stored audit count of a measurement is the number of its renamed and skipped points at or before the
      stored cursor; at the done mark it is the shard's total. */
  ghost predicate CountExact(e: Env, d: Checkpoint.Disk, k: Str) {
    && (d.done.Some? ==> Get(d.actions, k) == Count(e.items, k, 0, |e.items|))
    && (d.done.None? && d.row.None? ==> Get(d.actions, k) == 0)
    && (d.done.None? && d.row.Some? && d.row.value.cur.Some? ==>
          Offset(e.items, d.row.value.cur.value) <= |e.items|
          && Get(d.actions, k) == Count(e.items, k, 0, Offset(e.items, d.row.value.cur.value)))
  }

  /** After any runs the stored audit counts are exact. */
  lemma AuditExact(e: Env, rs: seq<Run>, k: Str)
    requires Sane(e)
    ensures CountExact(e, Play(e, FRESH, rs).disk, k)
  {
    hide Safe, Play, CountExact;
    FreshIsSafe(e);
    PlayKeepsSafe(e, map[], 0, FRESH, rs);
    SafeIsExact(e, Play(e, FRESH, rs), k);
  }

  lemma SafeIsExact(e: Env, w: World, k: Str)
    requires Sane(e) && Safe(e, map[], 0, w)
    ensures CountExact(e, w.disk, k)
  {
    hide FullChunks, Safe, Count, Bound, Offset;
    AuditedAt(e, w, k);
    if w.disk.row.Some? && w.disk.row.value.cur.Some? { CursorIsBound(e, w); }
  }

  lemma AuditedAt(e: Env, w: World, k: Str)
    requires Sane(e) && Safe(e, map[], 0, w)
    ensures Checkpoint.Committed(w.disk) + 1 <= |FullChunks(e.items, e.max)|
    ensures Get(w.disk.actions, k)
      == Count(e.items, k, 0, if w.disk.done.Some? then |e.items| else Bound(e, Checkpoint.Committed(w.disk) + 1))
    ensures w.disk.row.None? ==> Count(e.items, k, 0, Bound(e, Checkpoint.Committed(w.disk) + 1)) == 0
  {
    hide FullChunks, Groups;
    NoCount(e.items, k);
  }

  lemma CursorIsBound(e: Env, w: World)
    requires Sane(e) && Safe(e, map[], 0, w) && w.disk.row.Some? && w.disk.row.value.cur.Some?
    ensures w.disk.row.value.n < |FullChunks(e.items, e.max)|
    ensures Offset(e.items, w.disk.row.value.cur.value) == Bound(e, w.disk.row.value.n + 1)
  {
    hide FullChunks, Bound, Audited, Conforming, Held, Offset;
    FullAt(e, w.disk.row.value.n);
    OffsetAt(e.items, Bound(e, w.disk.row.value.n + 1) - 1);
  }

  lemma NoCount(items: seq<Item>, k: Str)
    ensures Count(items, k, 0, 0) == 0
  {}

  /** A checkpoint written before cursors existed: chunks up to c are committed and in Arc, audit counts are gone. */
  ghost predicate OldCheckpoint(e: Env, w: World, c: nat)
    requires e.max > 0
  {
    && w.disk.row.Some? && w.disk.row.value.n == c && w.disk.row.value.cur.None? && w.disk.done.None? && w.disk.actions == map[]
    && c < |FullChunks(e.items, e.max)| && Conforming(e, w.arc) && Held(e, w.arc, c + 1)
  }

  lemma OldIsSafe(e: Env, w: World, c: nat)
    requires Sane(e) && OldCheckpoint(e, w, c)
    ensures Safe(e, map[], Bound(e, c + 1), w)
  {
    hide FullChunks, Groups, Count;
  }

  /** Re-deriving and skipping what an old checkpoint committed is just as safe. */
  lemma LegacySafety(e: Env, w: World, c: nat, rs: seq<Run>)
    requires Sane(e) && OldCheckpoint(e, w, c)
    ensures Promised(e, Play(e, w, rs))
  {
    OldIsSafe(e, w, c);
    PlayKeepsSafe(e, map[], Bound(e, c + 1), w, rs);
    SafeIsPromised(e, map[], Bound(e, c + 1), Play(e, w, rs));
  }

  /** But its audit counts are exact if and only if the old chunks had no renamed or skipped point. */
  lemma LegacyAuditExactIff(e: Env, w: World, c: nat, rs: seq<Run>, k: Str)
    requires Sane(e) && OldCheckpoint(e, w, c) && Play(e, w, rs).disk.done.Some?
    ensures Get(Play(e, w, rs).disk.actions, k) == Count(e.items, k, 0, |e.items|) <==> Count(e.items, k, 0, Bound(e, c + 1)) == 0
  {
    hide FullChunks, Bound, Play, Count;
    OldIsSafe(e, w, c);
    PlayKeepsSafe(e, map[], Bound(e, c + 1), w, rs);
  }

  /** With one renamed point, committed by an old version, the count is lost. */
  lemma LegacyAuditCanMiss(pos: Cursor, line: Line, k: Str, rows: nat -> nat) returns (e: Env, w: World, r: Run)
    ensures Sane(e) && OldCheckpoint(e, w, 0) && RunOnce(e, w, r).disk.done.Some?
    ensures Count(e.items, k, 0, |e.items|) == 1 && Get(RunOnce(e, w, r).disk.actions, k) == 0
  {
    hide FullChunks, Groups, Entries, RunOnce, Safe;
    e := Env([Item(pos, Rename(line, k))], 1);
    var full := FullChunks(e.items, e.max);
    assert Stop(e.items) == 1 by { OneItem(e.items[0]); }
    assert |full| > 0 by { SomeChunk(e); }
    FullAt(e, 0);
    w := World(Checkpoint.NEW_SHARD.(row := Some(Checkpoint.Row(0, 0, None))), multiset{(0, full[0].lp)});
    OldIsSafe(e, w, 0);
    r := Inline(seq(|full|, i => Committed), rows, true);
    CleanRunFinishes(e, map[], Bound(e, 1), w, rows);
    RunKeepsSafe(e, map[], Bound(e, 1), w, r);
    assert Count(e.items, k, 0, 1) == 1;
    AuditedWhenDone(e, map[], Bound(e, 1), RunOnce(e, w, r), k);
  }

  lemma OneItem(it: Item)
    requires !it.act.Invalid?
    ensures Stop([it]) == 1
  {
    assert [it][1..] == [];
  }

  lemma SomeChunk(e: Env)
    requires e.max > 0 && Stop(e.items) == |e.items| == 1 && e.items[0].act.Rename?
    ensures |FullChunks(e.items, e.max)| > 0
  {
    var es := Entries(e.items, 0, 1);
    assert Entries(e.items, 0, 0) == [];
    CutIsCut(es, e.max);
    assert Flatten<Entry>([]) == [];
  }

  lemma AuditedWhenDone(e: Env, m0: map<Str, nat>, from: nat, w: World, k: Str)
    requires e.max > 0 && Safe(e, m0, from, w) && w.disk.done.Some?
    ensures Get(w.disk.actions, k) + Count(e.items, k, 0, from) == Get(m0, k) + Count(e.items, k, 0, |e.items|)
  {
    hide FullChunks, Bound;
  }

  /** One run in which nothing fails finishes the shard, from wherever earlier runs left it. */
  lemma CleanRunFinishes(e: Env, m0: map<Str, nat>, from: nat, w: World, rows: nat -> nat)
    requires Sane(e) && Safe(e, m0, from, w) && Stop(e.items) == |e.items|
    ensures var r := Inline(seq(|FullChunks(e.items, e.max)|, i => Committed), rows, true);
      RunOnce(e, w, r).disk.done.Some?
  {
    hide FullChunks, Safe, Todo, Ending, ResumeAt, Bound, Tally, DeltaList;
    var sends := seq(|FullChunks(e.items, e.max)|, i => Committed);
    if w.disk.done.None? {
      InRange(e, m0, from, w);
      TodoIsRest(e, w.disk);
      AllSent(w, Todo(e, w.disk), sends, rows);
    }
  }

  /** So does a pipelined run that gets to its end without a failed POST, a failed commit or a cancellation,
      with any inflight and in whatever order the results arrive. */
  lemma CleanPipelineFinishes(e: Env, m0: map<Str, nat>, from: nat, w: World, r: Run)
    requires Sane(e) && Safe(e, m0, from, w) && Stop(e.items) == |e.items| && r.Pipelined? && r.finish
    requires var c := SenderConfig(Checkpoint.Committed(w.disk) + 1, |Todo(e, w.disk)|, r.inflight);
      Sender.Runs(c, Sender.Init(c), r.steps) && Sender.Clean(r.steps) && Sender.Exec(c, Sender.Init(c), r.steps).done
    ensures RunOnce(e, w, r).disk.done.Some?
  {
    hide FullChunks, Safe, Todo, Ending, ResumeAt, Bound, Tally, DeltaList, Sender.Runs, Sender.Exec, Sender.Clean, CommitAll, Stored;
    if w.disk.done.None? {
      InRange(e, m0, from, w);
      TodoIsRest(e, w.disk);
      Sender.CleanRunDrains(SenderConfig(Checkpoint.Committed(w.disk) + 1, |Todo(e, w.disk)|, r.inflight), r.steps);
    }
  }

  lemma {:induction false} AllSent(w: World, cs: seq<Chunk>, sends: seq<Sent>, rows: nat -> nat)
    requires |cs| <= |sends| && forall i :: 0 <= i < |sends| ==> sends[i] == Committed
    ensures SendInline(w, cs, sends, rows).1
    decreases |cs|
  {
    if cs != [] {
      var v := Land(w, cs[0]);
      AllSent(World(CommitChunk(v.disk, cs[0], rows), v.arc), cs[1..], sends[1..], rows);
    }
  }

  /** The lines of these items. */
  function LinesAt(items: seq<Item>, ats: seq<nat>): (ls: seq<Str>)
    requires forall i :: i in ats ==> i < |items| && (items[i].act.Send? || items[i].act.Rename?)
    ensures |ls| == |ats| && forall j :: 0 <= j < |ls| ==> ats[j] in ats && ls[j] == items[ats[j]].act.line
  {
    seq(|ats|, j requires 0 <= j < |ats| => assert ats[j] in ats; items[ats[j]].act.line)
  }

  function Payloads(cs: seq<Chunk>): (ls: seq<Str>)
    ensures |ls| == |cs| && forall i :: 0 <= i < |ls| ==> ls[i] == cs[i].lp
  {
    seq(|cs|, i requires 0 <= i < |cs| => cs[i].lp)
  }

  /** The payloads, one after the other, are the lines of the items that are sent or renamed, in emission order:
      none is lost, repeated or moved, and there is nothing else. */
  lemma PayloadsAreAllLines(e: Env) returns (ats: seq<nat>)
    requires Sane(e) && Stop(e.items) == |e.items|
    ensures forall i, j :: 0 <= i < j < |ats| ==> ats[i] < ats[j]
    ensures forall i: nat :: i in ats <==> i < |e.items| && (e.items[i].act.Send? || e.items[i].act.Rename?)
    ensures Flatten(Payloads(FullChunks(e.items, e.max))) == Flatten(LinesAt(e.items, ats))
  {
    hide Entries, Cut, Stop, Bytes, Tally, DeltaList, Flatten, Mark;
    var es, gs, full := Entries(e.items, 0, |e.items|), Groups(e.items, 0, e.max), FullChunks(e.items, e.max);
    CutIsCut(es, e.max);
    GroupsMarked(e.items, 0, e.max);
    var ls := Payloads(full);
    forall i | 0 <= i < |gs| ensures ls[i] == Bytes(gs[i]) { assert full[i] == ChunkOf(e.items, gs, 0, 0, i); }
    BytesFlatten(gs, ls);
    EntriesMeaning(e.items, 0, |e.items|);
    forall i: nat | i < |e.items| ensures HasLine(es, i) <==> e.items[i].act.Send? || e.items[i].act.Rename? {
      LinesMeaning(e.items, 0, |e.items|, i);
    }
    ats := seq(|es|, j requires 0 <= j < |es| => es[j].at);
    forall i: nat ensures i in ats <==> i < |e.items| && (e.items[i].act.Send? || e.items[i].act.Rename?) {
      if i in ats { var j :| 0 <= j < |ats| && ats[j] == i; assert es[j] in es; }
      if i < |e.items| && HasLine(es, i) { var j :| 0 <= j < |es| && es[j].at == i; assert ats[j] == i; }
    }
    forall j | 0 <= j < |es| ensures LinesAt(e.items, ats)[j] == es[j].line { assert es[j] in es; }
    BytesAreLines(es, LinesAt(e.items, ats));
  }

  lemma {:induction false} BytesAreLines(es: seq<Entry>, ls: seq<Str>)
    requires |ls| == |es| && forall j :: 0 <= j < |es| ==> ls[j] == es[j].line
    ensures Bytes(es) == Flatten(ls)
    decreases |es|
  {
    if es != [] { BytesAreLines(es[1..], ls[1..]); }
  }

  lemma {:induction false} BytesFlatten(gs: seq<seq<Entry>>, ls: seq<Str>)
    requires |ls| == |gs| && forall i :: 0 <= i < |gs| ==> ls[i] == Bytes(gs[i])
    ensures Flatten(ls) == Bytes(Flatten(gs))
    decreases |gs|
  {
    if gs != [] {
      BytesConcat(gs[0], Flatten(gs[1..]));
      BytesFlatten(gs[1..], ls[1..]);
    }
  }
}