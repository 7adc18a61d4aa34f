/** Loading one shard: points become lines, the accumulator cuts them into chunks, and the flush callback
    hands each chunk with its cursor and audit deltas to the sender.

    Buffers are objects, so that handing a buffer over, getting it back and writing to it are visible:
    a job's buffer holds the job's bytes for as long as the job is unretired. Tally snapshots are objects
    too, shared by reference and copied before they are written. */
module Upload {
  import opened Orders
  import opened Values
  import opened Shard
  import opened Chunks
  import opened Extract
  import Stage

  const DEFAULT_MAX_BYTES := 450 * 1024 * 1024

  /** A byte slice with an identity. */
  class Buffer {
    var bytes: Str
    constructor ()
      ensures bytes == []
    {
      bytes := [];
    }
  }

  /** A tally map, shared by reference. */
  class Snapshot {
    var counts: map<Str, nat>
    constructor (counts: map<Str, nat>)
      ensures this.counts == counts
    {
      this.counts := counts;
    }
  }

  function CountsOf(s: Snapshot?): map<Str, nat>
    reads s
  {
    if s == null then map[] else s.counts
  }

  datatype Marker = Marker(pos: Cursor, tally: Snapshot?)

  ghost predicate NoDup(s: seq<Buffer>) { forall i, j :: 0 <= i < j < |s| ==> s[i] != s[j] }

  // ---- audit deltas ----

  lemma {:induction false} DeltasForOneMore(m: map<Str, nat>, names: seq<Str>, k: Str)
    ensures DeltasFor(m, names + [k]) == DeltasFor(m, names) + [Delta(k, Get(m, k))]
    decreases |names|
  {
    if names == [] {
      assert [k][1..] == [];
    } else {
      assert (names + [k])[1..] == names[1..] + [k];
      DeltasForOneMore(m, names[1..], k);
    }
  }

  /** The measurements whose count grew between two snapshots, in measurement order, with the growth. */
  method TallyDeltas(cur: map<Str, nat>, base: map<Str, nat>) returns (ds: seq<Delta>)
    ensures ds == DeltaList(Diff(cur, base))
  {
    hide Sorted, StrLess, DeltasFor, Diff;
    var d := Diff(cur, base);
    var names := SortStrings(d.Keys);
    ds := [];
    assert DeltasFor(d, []) == [] by { NoDeltas(d); }
    for i := 0 to |names|
      invariant ds == DeltasFor(d, names[..i])
    {
      assert names[i] in d;
      DiffAt(cur, base, names[i]);
      TakeOneMore(names, i);
      DeltasForOneMore(d, names[..i], names[i]);
      ds := ds + [Delta(names[i], cur[names[i]] - Get(base, names[i]))];
    }
    TakeAll(names);
    StrTotal();
    assert DeltaList(d) == DeltasFor(d, Sorted(d.Keys, StrLess));
  }

  lemma NoDeltas(m: map<Str, nat>)
    ensures DeltasFor(m, []) == []
  {}

  lemma DiffAt(cur: map<Str, nat>, base: map<Str, nat>, k: Str)
    requires k in Diff(cur, base)
    ensures k in cur && Get(Diff(cur, base), k) == cur[k] - Get(base, k)
  {}

  // ---- moving buffers around ----

  lemma DropHead(h: seq<Buffer>, s: seq<Buffer>)
    requires h != [] && NoDup(h + s)
    ensures NoDup(h[1..] + s)
  {
    assert h + s == [h[0]] + (h[1..] + s);
    assert forall i :: 0 <= i < |h[1..] + s| ==> (h[1..] + s)[i] == (h + s)[i + 1];
  }

  lemma HeadToBack(h: seq<Buffer>, s: seq<Buffer>)
    requires h != [] && NoDup(h + s)
    ensures NoDup(h[1..] + (s + [h[0]]))
  {
    DropHead(h, s);
    var t := h[1..] + s;
    assert h[1..] + (s + [h[0]]) == t + [h[0]];
    assert forall i :: 0 <= i < |t| ==> t[i] == (h + s)[i + 1] && (h + s)[0] != (h + s)[i + 1];
  }

  lemma SubmitOne(h: seq<Buffer>, s: seq<Buffer>, b: Buffer)
    requires NoDup(h + s) && b !in h + s
    ensures NoDup(h + [b] + s)
  {
    var t := h + [b] + s;
    assert forall i :: 0 <= i < |t| && i != |h| ==> t[i] in h + s && t[i] == (h + s)[if i < |h| then i else i - 1];
  }

  lemma TakeSpare(h: seq<Buffer>, s: seq<Buffer>)
    requires s != [] && NoDup(h + s)
    ensures NoDup(h + s[..|s| - 1]) && s[|s| - 1] !in h + s[..|s| - 1]
  {
    var t := h + s[..|s| - 1];
    assert h + s == t + [s[|s| - 1]];
    assert forall i :: 0 <= i < |t| ==> t[i] == (h + s)[i] && (h + s)[i] != (h + s)[|t|];
  }

  // ---- what has been handed to the sender ----

  /** Chunks with seq at most `committed` are in Arc already and are not sent again. */
  function Due(cs: seq<Chunk>, start: nat, committed: int): seq<Chunk> {
    var k := committed + 1 - start;
    cs[if k <= 0 then 0 else if k > |cs| then |cs| else k..]
  }

  lemma DueOneMore(cs: seq<Chunk>, c: Chunk, start: nat, committed: int)
    ensures Due(cs + [c], start, committed) == Due(cs, start, committed) + (if start + |cs| > committed then [c] else [])
  {}

  ghost function LastAt(es: seq<Entry>): nat
    requires es != []
  {
    es[|es| - 1].at
  }

  /** The buffered lines belong behind the flushed ones. */
  ghost predicate Tracks(items: seq<Item>, o: nat, f: Feed) {
    && o <= |items| && Marked(items, f.out, o)
    && (f.rest != [] ==> Mark(f.out, o, |f.out|) <= LastAt(f.rest) < |items|)
  }

  /** Flushing the buffer adds one chunk, whose audit deltas are the difference of two running tallies. */
  lemma FlushedOne(items: seq<Item>, o: nat, start: nat, f: Feed)
    requires Tracks(items, o, f) && f.rest != []
    ensures Tracks(items, o, Feed(f.out + [f.rest], []))
    ensures Mark(f.out + [f.rest], o, |f.out| + 1) == LastAt(f.rest) + 1
    ensures var lo, hi := Mark(f.out, o, |f.out|), LastAt(f.rest) + 1;
      ChunksOf(items, f.out + [f.rest], start, o)
        == ChunksOf(items, f.out, start, o)
           + [Chunk(start + |f.out|, Bytes(f.rest), items[hi - 1].pos, DeltaList(Diff(Tally(items, o, hi), Tally(items, o, lo))))]
  {
    hide Bytes, DeltaList, Diff, Tally;
    var out, n := f.out + [f.rest], |f.out|;
    assert forall j :: 0 <= j < n ==> out[j] == f.out[j];
    assert forall j :: 0 <= j <= n ==> Mark(out, o, j) == Mark(f.out, o, j);
    assert Mark(f.out, o, n) >= o;
    DiffIsTally(items, o, Mark(f.out, o, n), LastAt(f.rest) + 1);
    var a, b := ChunksOf(items, out, start, o), ChunksOf(items, f.out, start, o);
    forall i | 0 <= i < n ensures a[i] == b[i] {
      assert a[i] == ChunkOf(items, out, start, o, i) && b[i] == ChunkOf(items, f.out, start, o, i);
    }
    assert a[n] == ChunkOf(items, out, start, o, n);
    assert a == b + [a[n]];
  }

  lemma PrefixIsDue(items: seq<Item>, a: seq<seq<Entry>>, b: seq<seq<Entry>>, o: nat, start: nat, committed: int)
    requires a <= b && Marked(items, a, o) && Marked(items, b, o)
    ensures Due(ChunksOf(items, a, start, o), start, committed) <= Due(ChunksOf(items, b, start, o), start, committed)
  {
    hide Bytes, Tally, DeltaList;
    var x, y := ChunksOf(items, a, start, o), ChunksOf(items, b, start, o);
    forall i | 0 <= i < |a| ensures x[i] == y[i] {
      assert x[i] == ChunkOf(items, a, start, o, i) && y[i] == ChunkOf(items, b, start, o, i);
      assert Mark(a, o, i) == Mark(b, o, i) && Mark(a, o, i + 1) == Mark(b, o, i + 1);
    }
  }

  /** What one run has to send: the chunks from item o on, less those already in Arc. */
  ghost function ToSend(items: seq<Item>, o: nat, start: nat, max: nat, committed: int): seq<Chunk>
    requires max > 0 && o <= |items|
  {
    Due(ChunksFrom(items, o, start, max), start, committed)
  }

  // ---- the flush callback and the buffers the sender holds ----

  class Uploader {
    const committed: int
    const link: Stage.Uplink
    var baseline: Snapshot?
    var held: seq<Buffer>      // of jobs not known to be retired
    var skipped: nat
    var returned: seq<bool>    // whether each coming buffer finds room in the bounded channel back

    constructor (committed: int, link: Stage.Uplink, returned: seq<bool>)
      ensures this.committed == committed && this.link == link
      ensures baseline == null && held == []
    {
      this.committed, this.link, this.returned := committed, link, returned;
      baseline, held, skipped := null, [], 0;
    }

    /** Every unretired job's buffer is held, and whoever reads it finds the bytes that were submitted; there
        are never more than k+1 such buffers. */
    ghost predicate Intact()
      reads this`held, link`jobs, link.comm`next, held
    {
      && (if link.pipelined then link.Outstanding() <= |held| <= link.k + 1 else held == [])
      && |held| <= |link.jobs| && forall i :: 0 <= i < |held| ==> held[i].bytes == link.jobs[|link.jobs| - |held| + i].lp
    }

    /** Takes back the buffer of the oldest job, which is retired, if the channel had room for it. */
    method TakeBack() returns (b: Buffer, back: bool)
      requires Intact() && held != [] && link.Outstanding() < |held|
      modifies this`held, this`returned
      ensures Intact() && held == old(held)[1..] && b == old(held)[0]
    {
      b, held := held[0], held[1..];
      back := returned == [] || returned[0];
      returned := if returned == [] then [] else returned[1..];
    }

    method Submit(job: Chunk, buf: Buffer) returns (ok: bool)
      requires Intact() && buf.bytes == job.lp && (link.pipelined ==> |held| <= link.k)
      requires link.Valid() && link.Open() && link.tried + [job] <= link.plan
      modifies this`held, link, link.comm, link.store
      ensures Intact() && link.Valid() && (if ok then link.Open() else link.Refused())
      ensures link.tried == old(link.tried) + [job] && link.jobs == if ok then link.tried else old(link.jobs)
      ensures held == if ok && link.pipelined then old(held) + [buf] else old(held)
    {
      hide Stage.Uplink.Valid;
      assert link.tried == link.jobs;
      ok := link.Submit(job);
      if ok && link.pipelined { held := held + [buf]; }
    }
  }

  class Accumulator {
    const maxBytes: nat
    var buf: Buffer
    var seqNo: nat
    var last: Marker
    var inFlush: bool
    var detached: bool
    var spareCap: int
    var spares: seq<Buffer>

    constructor NewAt(maxBytes: int, startSeq: nat)
      ensures this.maxBytes == if maxBytes <= 0 then DEFAULT_MAX_BYTES else maxBytes
      ensures fresh(buf) && buf.bytes == [] && seqNo == startSeq && !inFlush && !detached && spares == []
    {
      this.maxBytes := if maxBytes <= 0 then DEFAULT_MAX_BYTES else maxBytes;
      buf := new Buffer();
      seqNo, last, inFlush, detached, spareCap, spares := startSeq, Marker(Cursor([], 0), null), false, false, 2, [];
    }

    method SpareCapacity(n: int)
      modifies this`spareCap
      ensures spareCap == if n > old(spareCap) then n else old(spareCap)
    {
      if n > spareCap { spareCap := n; }
    }

    method Detach()
      modifies this`detached
      ensures detached == (old(detached) || inFlush)
    {
      if inFlush { detached := true; }
    }

    method Recycle(b: Buffer)
      modifies this`spares
      ensures spares == if |old(spares)| < spareCap then old(spares) + [b] else old(spares)
    {
      if |spares| < spareCap { spares := spares + [b]; }
    }

    /** Every buffer in use: those of unretired jobs, then the spares. */
    ghost function Pool(up: Uploader): seq<Buffer>
      reads this`spares, up`held
    {
      up.held + spares
    }

    /** The buffer being filled is nobody else's, every other buffer is in one place, and no unretired
        job's buffer was written since the job was submitted. */
    ghost predicate Owned(up: Uploader)
      reads this`buf, this`spares, up`held, up.link`jobs, up.link.comm`next, up.held
    {
      NoDup(Pool(up)) && buf !in Pool(up) && up.Intact()
    }

    lemma OwnedIntact(up: Uploader)
      ensures Owned(up) ==> up.Intact()
    {}

    /** The chunk a flush would submit now. */
    ghost function NextChunk(up: Uploader): Chunk
      reads this`seqNo, this`buf, buf, this`last, last.tally, up`baseline, up.baseline
    {
      Chunk(seqNo, buf.bytes, last.pos, DeltaList(Diff(CountsOf(last.tally), CountsOf(up.baseline))))
    }

    /** Recycle the buffers the sender has finished with: those of retired jobs, and no others. */
    method Reclaim(up: Uploader)
      requires Owned(up) && up.link.Valid() && up.link.pipelined
      modifies up`held, up`returned, this`spares
      ensures Owned(up) && |up.held| == up.link.Outstanding() <= up.link.k
      ensures forall b :: b in Pool(up) ==> b in old(Pool(up))
    {
      hide NoDup;
      up.link.OutstandingBound();
      while |up.held| > up.link.Outstanding()
        invariant Owned(up)
        invariant forall b :: b in Pool(up) ==> b in old(Pool(up))
        decreases |up.held|
      {
        DropHead(up.held, spares);
        HeadToBack(up.held, spares);
        var b, back := up.TakeBack();
        if back { Recycle(b); }
      }
    }

    /** The flush callback: skip a chunk that is already in Arc, else compute its audit deltas and submit it. */
    method OnFlush(up: Uploader) returns (ok: bool)
      requires Owned(up) && inFlush && !detached && up.link.Valid() && up.link.Open()
      requires seqNo > up.committed ==> up.link.tried + [NextChunk(up)] <= up.link.plan
      modifies up, up.link, up.link.comm, up.link.store, this`detached, this`spares
      ensures up.Intact() && NoDup(Pool(up)) && (!detached ==> buf !in Pool(up))
      ensures up.link.Valid() && (if ok then up.link.Open() else up.link.Refused())
      ensures ok ==> detached == (up.link.pipelined && seqNo > up.committed)
      ensures forall b :: b in Pool(up) ==> b == buf || b in old(Pool(up))
      ensures up.baseline == last.tally
      ensures up.link.tried == old(up.link.tried) + (if seqNo > up.committed then [old(NextChunk(up))] else [])
      ensures up.link.jobs == if ok then up.link.tried else old(up.link.jobs)
    {
      hide Diff, DeltaList, NoDup, Stage.Uplink.Valid;
      assert up.link.tried == up.link.jobs;
      if seqNo <= up.committed {
        up.skipped, up.baseline := up.skipped + 1, last.tally;
        return true;
      }
      var deltas := TallyDeltas(CountsOf(last.tally), CountsOf(up.baseline));
      up.baseline := last.tally;
      if up.link.pipelined {
        Reclaim(up);
        Detach();
      }
      SubmitOne(up.held, spares, buf);
      ok := up.Submit(Chunk(seqNo, buf.bytes, last.pos, deltas), buf);
    }

    /** Continue on a spare or fresh buffer if the callback kept this one, else reuse it. */
    method NextBuffer(up: Uploader)
      requires up.Intact() && NoDup(Pool(up)) && (!detached ==> buf !in Pool(up))
      modifies this`detached, this`buf, this`spares, buf, set b | b in Pool(up)
      ensures Owned(up) && !detached && buf.bytes == []
      ensures fresh(buf) || buf == old(buf) || buf in old(Pool(up))
      ensures forall b :: b in Pool(up) ==> b in old(Pool(up))
    {
      hide NoDup;
      if detached {
        detached := false;
        if spares != [] {
          TakeSpare(up.held, spares);
          assert spares[|spares| - 1] in Pool(up);
          buf, spares := spares[|spares| - 1], spares[..|spares| - 1];
        } else {
          buf := new Buffer();
        }
      }
      buf.bytes := [];
    }

    method DoFlush(up: Uploader) returns (ok: bool)
      requires Owned(up) && !inFlush && !detached && up.link.Valid() && up.link.Open()
      requires seqNo > up.committed ==> up.link.tried + [NextChunk(up)] <= up.link.plan
      modifies this, up, up.link, up.link.comm, up.link.store, buf, set b | b in Pool(up)
      ensures ok ==> Owned(up) && !inFlush && !detached && buf.bytes == [] && seqNo == old(seqNo) + 1
      ensures last == old(last) && up.baseline == last.tally
      ensures up.Intact() && up.link.Valid() && (if ok then up.link.Open() else up.link.Refused())
      ensures up.link.tried == old(up.link.tried) + (if old(seqNo) > up.committed then [old(NextChunk(up))] else [])
      ensures up.link.jobs == if ok then up.link.tried else old(up.link.jobs)
      ensures ok ==> fresh(buf) || buf == old(buf) || buf in old(Pool(up))
      ensures ok ==> forall b :: b in Pool(up) ==> b == old(buf) || b in old(Pool(up))
    {
      hide NoDup, Uploader.Intact, Stage.Uplink.Valid, Stage.Uplink.Open, Stage.Uplink.Refused, Diff, DeltaList;
      inFlush := true;
      ok := OnFlush(up);
      inFlush := false;
      if ok {
        seqNo := seqNo + 1;
        assert forall b :: b in Pool(up) ==> b == buf || b in old(Pool(up));
        NextBuffer(up);
      }
    }

    /** The accumulator and the callback are where feeding the lines of items o.. has brought them. */
    ghost predicate At(up: Uploader, items: seq<Item>, o: nat, start: nat, f: Feed)
      reads this`buf, buf, this`seqNo, this`last, last.tally, up`baseline, up.baseline, up.link`jobs
    {
      && Tracks(items, o, f)
      && buf.bytes == Bytes(f.rest) && seqNo == start + |f.out|
      && (f.rest != [] ==> last.pos == items[LastAt(f.rest)].pos && CountsOf(last.tally) == Tally(items, o, LastAt(f.rest) + 1))
      && CountsOf(up.baseline) == Tally(items, o, Mark(f.out, o, |f.out|))
      && up.link.jobs == Due(ChunksOf(items, f.out, start, o), start, up.committed)
    }

    /** What the sender expects is what feeding all lines of items o.. yields. */
    ghost predicate Planned(up: Uploader, items: seq<Item>, o: nat, start: nat) {
      maxBytes > 0 && o <= |items| && up.link.plan == ToSend(items, o, start, maxBytes, up.committed)
    }

    /** The next chunk of this feed is the next one the sender expects. */
    lemma NextIsPlanned(up: Uploader, items: seq<Item>, o: nat, start: nat, f: Feed)
      requires At(up, items, o, start, f) && Planned(up, items, o, start) && up.link.Open()
      requires f.rest != [] && f.out + [f.rest] <= Groups(items, o, maxBytes)
      ensures Tracks(items, o, Feed(f.out + [f.rest], [])) && Mark(f.out + [f.rest], o, |f.out| + 1) == LastAt(f.rest) + 1
      ensures Marked(items, f.out + [f.rest], o) && Bytes([]) == []
      ensures up.link.tried + (if seqNo > up.committed then [NextChunk(up)] else [])
        == Due(ChunksOf(items, f.out + [f.rest], start, o), start, up.committed) <= up.link.plan
    {
      hide Bytes, Tally, DeltaList, Diff, Groups, Due;
      SomeBytes([]);
      FlushedOne(items, o, start, f);
      GroupsMarked(items, o, maxBytes);
      DueOneMore(ChunksOf(items, f.out, start, o), NextChunk(up), start, up.committed);
      PrefixIsDue(items, f.out + [f.rest], Groups(items, o, maxBytes), o, start, up.committed);
    }

    method FlushBuffer(up: Uploader, ghost items: seq<Item>, ghost o: nat, ghost start: nat, ghost f: Feed) returns (ok: bool)
      requires Owned(up) && !inFlush && !detached && At(up, items, o, start, f) && up.link.Valid() && up.link.Open()
      requires Planned(up, items, o, start) && f.rest != [] && f.out + [f.rest] <= Groups(items, o, maxBytes)
      modifies this, up, up.link, up.link.comm, up.link.store, buf, set b | b in Pool(up)
      ensures ok ==> Owned(up) && !inFlush && !detached && At(up, items, o, start, Feed(f.out + [f.rest], []))
      ensures up.Intact() && up.link.Valid() && (if ok then up.link.Open() else up.link.Refused())
      ensures last == old(last) && up.baseline == last.tally
      ensures ok ==> fresh(buf) || buf == old(buf) || buf in old(Pool(up))
      ensures ok ==> forall b :: b in Pool(up) ==> b == old(buf) || b in old(Pool(up))
    {
      hide Owned, Pool, Bytes, Tally, DeltaList, Diff, ChunksOf, Due, Planned, Groups, Tracks, Mark, LastAt, NextChunk;
      hide Uploader.Intact, Stage.Uplink.Valid, Stage.Uplink.Open, Stage.Uplink.Refused;
      NextIsPlanned(up, items, o, start, f);
      ok := DoFlush(up);
    }

    method Write(up: Uploader, line: Line)
      requires Owned(up)
      modifies buf
      ensures Owned(up) && buf.bytes == old(buf.bytes) + line
    {
      hide NoDup;
      assert forall b :: b in up.held ==> b in Pool(up);
      buf.bytes := buf.bytes + line;
    }

    /** The line goes into the buffer, which is flushed if that fills the chunk. */
    method AppendLine(up: Uploader, line: Line, m: Marker, ghost items: seq<Item>, ghost o: nat, ghost start: nat,
        ghost g: Feed, ghost at: nat)
      returns (ok: bool)
      requires Owned(up) && !inFlush && !detached && At(up, items, o, start, g) && up.link.Valid() && up.link.Open()
      requires Mark(g.out, o, |g.out|) <= at < |items| && m.pos == items[at].pos && CountsOf(m.tally) == Tally(items, o, at + 1)
      requires Planned(up, items, o, start)
      requires FlushAfter(Feed(g.out, g.rest + [Entry(line, at)]), maxBytes).out <= Groups(items, o, maxBytes)
      modifies this, up, up.link, up.link.comm, up.link.store, buf, set b | b in Pool(up)
      ensures ok ==> Owned(up) && !inFlush && !detached
      ensures ok ==> At(up, items, o, start, FlushAfter(Feed(g.out, g.rest + [Entry(line, at)]), maxBytes))
      ensures last == m && up.baseline in {old(up.baseline), m.tally}
      ensures up.Intact() && up.link.Valid() && (if ok then up.link.Open() else up.link.Refused())
      ensures ok ==> fresh(buf) || buf == old(buf) || buf in old(Pool(up))
      ensures ok ==> forall b :: b in Pool(up) ==> b == old(buf) || b in old(Pool(up))
    {
      hide Owned, Pool, Bytes, Tally, DeltaList, Diff, ChunksOf, Due, Groups, Planned, Stage.Uplink.Valid, Stage.Uplink.Open, Stage.Uplink.Refused;
      ghost var f := Feed(g.out, g.rest + [Entry(line, at)]);
      BytesOneMore(g.rest, Entry(line, at));
      Write(up, line);
      last := m;
      assert At(up, items, o, start, f);
      OwnedIntact(up);
      ok := true;
      if |buf.bytes| >= maxBytes {
        ok := FlushBuffer(up, items, o, start, f);
      }
    }

    /** Append the line of item `at`, flushing before it if it does not fit and after it if the chunk is full. */
    method Append(up: Uploader, line: Line, m: Marker, ghost items: seq<Item>, ghost o: nat, ghost start: nat,
        ghost f: Feed, ghost at: nat)
      returns (ok: bool)
      requires Owned(up) && !inFlush && !detached && At(up, items, o, start, f) && up.link.Valid() && up.link.Open()
      requires Mark(f.out, o, |f.out|) <= at < |items| && (f.rest != [] ==> LastAt(f.rest) < at)
      requires m.pos == items[at].pos && CountsOf(m.tally) == Tally(items, o, at + 1)
      requires Planned(up, items, o, start) && AppendTo(f, Entry(line, at), maxBytes).out <= Groups(items, o, maxBytes)
      modifies this, up, up.link, up.link.comm, up.link.store, buf, set b | b in Pool(up)
      ensures ok ==> Owned(up) && !inFlush && !detached && At(up, items, o, start, AppendTo(f, Entry(line, at), maxBytes))
      ensures ok ==> last == m
      ensures up.baseline in {old(up.baseline), old(last.tally), m.tally}
      ensures up.Intact() && up.link.Valid() && (if ok then up.link.Open() else up.link.Refused())
      ensures ok ==> fresh(buf) || buf == old(buf) || buf in old(Pool(up))
      ensures ok ==> forall b :: b in Pool(up) ==> b == old(buf) || b in old(Pool(up)) || fresh(b)
    {
      hide Owned, Pool, Bytes, Tally, DeltaList, Diff, ChunksOf, Due, Groups, Planned, Stage.Uplink.Valid, Stage.Uplink.Open, Stage.Uplink.Refused;
      ghost var e, g := Entry(line, at), f;
      ok := true;
      SomeBytes(f.rest);
      if |buf.bytes| > 0 && |buf.bytes| + |line| > maxBytes {
        ok := FlushBuffer(up, items, o, start, f);
        if !ok { return; }
        g := Feed(f.out + [f.rest], []);
      }
      assert g == FlushBefore(f, e, maxBytes);
      ok := AppendLine(up, line, m, items, o, start, g, at);
    }

    /** Emit whatever is buffered as the final chunk. */
    method Flush(up: Uploader, ghost items: seq<Item>, ghost o: nat, ghost start: nat, ghost f: Feed) returns (ok: bool)
      requires Owned(up) && !inFlush && !detached && At(up, items, o, start, f) && up.link.Valid() && up.link.Open()
      requires Planned(up, items, o, start) && Closed(f) <= Groups(items, o, maxBytes)
      modifies this, up, up.link, up.link.comm, up.link.store, buf, set b | b in Pool(up)
      ensures ok ==> At(up, items, o, start, Feed(Closed(f), []))
      ensures up.Intact() && up.link.Valid() && (if ok then up.link.Open() else up.link.Refused())
    {
      hide Owned, Pool, Bytes, Tally, DeltaList, Diff, ChunksOf, Due, Groups, Planned, Stage.Uplink.Valid, Stage.Uplink.Open, Stage.Uplink.Refused;
      SomeBytes(f.rest);
      OwnedIntact(up);
      if |buf.bytes| == 0 { return true; }
      ok := FlushBuffer(up, items, o, start, f);
    }
  }

  // ---- the load loop ----

  function Next(f: Feed, it: Item, n: nat, max: nat): Feed {
    if it.act.Send? || it.act.Rename? then AppendTo(f, Entry(it.act.line, n), max) else f
  }

  lemma FedNext(items: seq<Item>, o: nat, n: nat, max: nat)
    requires o <= n < |items|
    ensures Fed(Entries(items, o, n + 1), max) == Next(Fed(Entries(items, o, n), max), items[n], n, max)
  {
    hide AppendTo;
    var es := Entries(items, o, n);
    if EntryOf(items[n], n) != [] {
      assert (es + EntryOf(items[n], n))[..|es|] == es;
    } else {
      assert es + [] == es;
    }
  }

  /** Flushed chunks stay as they are. */
  lemma {:induction false} FedGrows(items: seq<Item>, o: nat, m: nat, n: nat, max: nat)
    requires o <= m <= n <= |items|
    ensures Fed(Entries(items, o, m), max).out <= Fed(Entries(items, o, n), max).out
    decreases n
  {
    hide Fed, Entries, Bytes;
    if m < n {
      FedGrows(items, o, m, n - 1, max);
      FedNext(items, o, n - 1, max);
    }
  }

  /** After n items, everything buffered or flushed lies before n. */
  ghost predicate Behind(f: Feed, o: nat, n: nat) {
    && (forall j :: 0 <= j < |f.out| ==> f.out[j] != [])
    && Mark(f.out, o, |f.out|) <= n && (f.rest != [] ==> LastAt(f.rest) < n)
  }

  lemma {:induction false} FedBehind(items: seq<Item>, o: nat, n: nat, max: nat)
    requires o <= n <= |items|
    ensures Behind(Fed(Entries(items, o, n), max), o, n)
    decreases n
  {
    hide Bytes, Fed, Entries;
    if o < n {
      FedBehind(items, o, n - 1, max);
      FedNext(items, o, n - 1, max);
    } else {
      assert Fed(Entries(items, o, n), max) == Feed([], []) by { FedNone(items, o, n, max); }
    }
  }

  lemma FedNone(items: seq<Item>, o: nat, n: nat, max: nat)
    requires n <= o && n <= |items|
    ensures Fed(Entries(items, o, n), max) == Feed([], [])
  {}

  /** Copy the tally before writing to it if a marker refers to it. */
  method BumpTally(tally: Snapshot?, shared: bool, k: Str) returns (t: Snapshot)
    modifies if tally != null && !shared then {tally} else {}
    ensures t.counts == Bump(old(CountsOf(tally)), k)
    ensures fresh(t) || (t == tally && !shared)
  {
    if tally == null || shared {
      t := new Snapshot(CountsOf(tally));
    } else {
      t := tally;
    }
    t.counts := Bump(t.counts, k);
  }

  datatype Loaded = Complete(total: nat, last: seq<Delta>) | Aborted

  /** The load loop's state between two points: n items were taken, with the tally counted up to there and
      not aliased by any marker unless it is marked as shared. */
  ghost predicate Ready(acc: Accumulator, up: Uploader, items: seq<Item>, o: nat, n: nat, start: nat, tally: Snapshot?, shared: bool)
    requires n <= |items|
    reads acc, acc.buf, up, up.link, up.link.comm, up.link.store, up.held, acc.last.tally, up.baseline, tally
  {
    && acc.Owned(up) && !acc.inFlush && !acc.detached && up.link.Valid() && up.link.Open()
    && acc.At(up, items, o, start, Fed(Entries(items, o, n), acc.maxBytes))
    && CountsOf(tally) == Tally(items, o, n)
    && (tally != null && !shared ==> tally != acc.last.tally && tally != up.baseline)
  }

  lemma FedInGroups(items: seq<Item>, o: nat, n: nat, max: nat)
    requires max > 0 && o <= n <= Stop(items)
    ensures Fed(Entries(items, o, n), max).out <= Groups(items, o, max)
  {
    FedGrows(items, o, n, Stop(items), max);
    FedIsDropPartial(Entries(items, o, Stop(items)), max);
  }

  /** One point: count it if its measurement is renamed or skipped, append its line if it has one. */
  method LoadItem(acc: Accumulator, up: Uploader, it: Item, tally: Snapshot?, shared: bool,
                  ghost items: seq<Item>, ghost o: nat, ghost n: nat, ghost start: nat)
    returns (ok: bool, tally': Snapshot?, shared': bool)
    requires acc.Planned(up, items, o, start) && o <= n < Stop(items) && items[n] == it && !it.act.Invalid?
    requires Ready(acc, up, items, o, n, start, tally, shared)
    modifies acc, up, up.link, up.link.comm, up.link.store, acc.buf, set b | b in acc.Pool(up)
    modifies if tally != null && !shared then {tally} else {}
    ensures ok ==> Ready(acc, up, items, o, n + 1, start, tally', shared')
    ensures up.Intact() && up.link.Valid() && (if ok then up.link.Open() else up.link.Refused())
    ensures tally' == tally || fresh(tally')
    ensures !shared' ==> (tally' == tally && !shared) || fresh(tally')
    ensures ok ==> fresh(acc.buf) || acc.buf == old(acc.buf) || acc.buf in old(acc.Pool(up))
    ensures ok ==> forall b :: b in acc.Pool(up) ==> b == old(acc.buf) || b in old(acc.Pool(up)) || fresh(b)
  {
    hide Accumulator.Owned, Accumulator.Pool, Bytes, Fed, Entries, AppendTo, Due, ChunksOf, Tracks, Groups, Stage.Uplink.Valid,
      Stage.Uplink.Open, Stage.Uplink.Refused, Accumulator.Planned;
    ok, tally', shared' := true, tally, shared;
    acc.OwnedIntact(up);
    assert acc.maxBytes > 0 by { PlannedBounds(acc, up, items, o, start); }
    ghost var f := Fed(Entries(items, o, n), acc.maxBytes);
    FedNext(items, o, n, acc.maxBytes);
    if it.act.Rename? || it.act.Omit? {
      tally' := BumpTally(tally, shared, it.act.name);
      shared' := false;
    }
    assert CountsOf(tally') == Tally(items, o, n + 1);
    assert acc.At(up, items, o, start, f);
    if !it.act.Omit? {
      FedBehind(items, o, n, acc.maxBytes);
      FedInGroups(items, o, n + 1, acc.maxBytes);
      ok := acc.Append(up, it.act.line, Marker(it.pos, tally'), items, o, start, f, n);
      shared' := true;
    }
  }

  lemma PlannedBounds(acc: Accumulator, up: Uploader, items: seq<Item>, o: nat, start: nat)
    requires acc.Planned(up, items, o, start)
    ensures acc.maxBytes > 0
  {}

  lemma Started(acc: Accumulator, up: Uploader, items: seq<Item>, o: nat, start: nat)
    requires acc.buf.bytes == [] && acc.seqNo == start && !acc.inFlush && !acc.detached && acc.spares == []
    requires up.Intact() && up.link.Valid() && up.link.Open()
    requires o <= |items| && up.link.jobs == [] && up.held == [] && up.baseline == null
    ensures Ready(acc, up, items, o, o, start, null, false) && acc.Pool(up) == []
  {
    hide Stage.Uplink.Valid, Stage.Uplink.Open;
    FedNone(items, o, o, acc.maxBytes);
  }

  lemma FlushedAll(items: seq<Item>, o: nat, max: nat)
    requires max > 0 && o <= Stop(items) == |items|
    ensures var f := Fed(Entries(items, o, |items|), max);
      Closed(f) == Groups(items, o, max) && Behind(Feed(Closed(f), []), o, |items|)
  {
    FedBehind(items, o, |items|, max);
  }

  function MaxBytes(chunkSize: int): nat { if chunkSize <= 0 then DEFAULT_MAX_BYTES else chunkSize }

  /** Nothing was submitted yet, and the sender expects the chunks of items o.. that are not in Arc. */
  ghost predicate AtStart(up: Uploader, items: seq<Item>, o: nat, start: nat, max: nat)
    requires max > 0 && o <= |items|
    reads up, up.link, up.link.comm, up.link.store, up.held
  {
    && up.link.Valid() && up.link.Open() && up.link.tried == [] && up.held == [] && up.baseline == null && up.Intact()
    && up.link.plan == ToSend(items, o, start, max, up.committed)
  }

  lemma NewIsAtStart(up: Uploader, items: seq<Item>, o: nat, start: nat, max: nat)
    requires max > 0 && o <= |items| && up.link.plan == ToSend(items, o, start, max, up.committed)
    requires up.link.Valid() && up.link.Open() && up.link.tried == [] && up.held == [] && up.baseline == null
    ensures AtStart(up, items, o, start, max)
  {
    hide Stage.Uplink.Piped, Stage.Uplink.Inlined, ToSend;
    if up.link.pipelined { up.link.NothingOutstanding(); }
  }

  /** Load what an extraction from item o emitted. Whatever happens, what was handed to the sender is the
      beginning of what the run had to send (`link.Valid`). If the extraction emitted everything and no submit
      was refused, that is all of it, and the run knows the shard's chunk count and the audit deltas behind
      the last chunk. */
  method LoadItems(emitted: seq<Item>, extractOk: bool, up: Uploader, chunkSize: int, inflight: int, startSeq: nat,
                   ghost items: seq<Item>, ghost o: nat)
    returns (r: Loaded)
    requires o <= Stop(items) && o + |emitted| <= |items| && emitted == items[o..o + |emitted|]
    requires extractOk ==> o + |emitted| == |items|
    requires AtStart(up, items, o, startSeq, MaxBytes(chunkSize))
    modifies up, up.link, up.link.comm, up.link.store
    ensures up.link.Valid() && up.Intact()
    ensures r.Complete? ==> extractOk && Stop(items) == |items| && up.link.Open() && up.link.tried == up.link.plan
    ensures up.link.Open() || up.link.Refused()
    ensures extractOk && Stop(items) == |items| && !r.Complete? ==> up.link.Refused()
    ensures r.Complete? ==> r.total == startSeq + |ChunksFrom(items, o, startSeq, MaxBytes(chunkSize))|
    ensures r.Complete? ==> Marked(items, Groups(items, o, MaxBytes(chunkSize)), o)
    ensures r.Complete? ==>
      var gs := Groups(items, o, MaxBytes(chunkSize));
      r.last == DeltaList(Tally(items, Mark(gs, o, |gs|), |items|))
  {
    hide Accumulator.Owned, Accumulator.Pool, Bytes, Fed, Entries, Due, ChunksOf, Groups, Stop, Tally, DeltaList, Diff,
      Stage.Uplink.Valid, Stage.Uplink.Open, Stage.Uplink.Refused;
    var acc := new Accumulator.NewAt(chunkSize, startSeq);
    if inflight > 1 { acc.SpareCapacity(inflight + 1); }
    NothingHanded(up.link);
    Started(acc, up, items, o, startSeq);
    var ok, tally, shared := LoadEach(acc, up, emitted, items, o, startSeq);
    if !ok || !extractOk { return Aborted; }
    r := EndLoad(acc, up, tally, shared, items, o, startSeq);
  }

  /** The loop over the emitted points, up to the first that cannot be loaded. */
  method LoadEach(acc: Accumulator, up: Uploader, emitted: seq<Item>, ghost items: seq<Item>, ghost o: nat, ghost start: nat)
    returns (ok: bool, tally: Snapshot?, shared: bool)
    requires o <= Stop(items) && o + |emitted| <= |items| && emitted == items[o..o + |emitted|]
    requires acc.Planned(up, items, o, start) && Ready(acc, up, items, o, o, start, null, false)
    modifies acc, up, up.link, up.link.comm, up.link.store, acc.buf, set b | b in acc.Pool(up)
    ensures ok ==> o + |emitted| <= Stop(items) && Ready(acc, up, items, o, o + |emitted|, start, tally, shared)
    ensures up.Intact() && up.link.Valid()
    ensures !ok ==> (Stop(items) < |items| && up.link.Open()) || up.link.Refused()
    ensures ok ==> fresh(acc.buf) || acc.buf == old(acc.buf) || acc.buf in old(acc.Pool(up))
    ensures ok ==> forall b :: b in acc.Pool(up) ==> b == old(acc.buf) || b in old(acc.Pool(up)) || fresh(b)
  {
    hide Accumulator.Owned, Accumulator.Pool, Bytes, Fed, Entries, Due, ChunksOf, Groups, Stop, Tally, DeltaList, Diff,
      Stage.Uplink.Valid, Stage.Uplink.Open, Stage.Uplink.Refused, Tracks, Mark, LastAt, Accumulator.At;
    var i := 0;
    ok, tally, shared := true, null, false;
    acc.OwnedIntact(up);
    while i < |emitted| && ok
      invariant i <= |emitted| && o + i <= Stop(items) && (!ok ==> i < |emitted|)
      invariant ok ==> Ready(acc, up, items, o, o + i, start, tally, shared)
      invariant up.Intact() && up.link.Valid()
      invariant !ok ==> (Stop(items) < |items| && up.link.Open()) || up.link.Refused()
      decreases |emitted| - i, ok
      invariant !shared && tally != null ==> fresh(tally)
      invariant ok ==> fresh(acc.buf) || acc.buf == old(acc.buf) || acc.buf in old(acc.Pool(up))
      invariant ok ==> forall b :: b in acc.Pool(up) ==> b == old(acc.buf) || b in old(acc.Pool(up)) || fresh(b)
    {
      assert emitted[i] == items[o + i];
      if emitted[i].act.Invalid? {
        ok := false;
      } else {
        ok, tally, shared := LoadItem(acc, up, emitted[i], tally, shared, items, o, o + i, start);
        if ok { i := i + 1; }
      }
    }
  }

  lemma NothingHanded(link: Stage.Uplink)
    requires link.Open() && link.tried == []
    ensures link.jobs == []
  {}

  /** Flush the rest and take the audit deltas behind the last chunk. */
  method EndLoad(acc: Accumulator, up: Uploader, tally: Snapshot?, ghost shared: bool, ghost items: seq<Item>, ghost o: nat,
      ghost start: nat)
    returns (r: Loaded)
    requires acc.Planned(up, items, o, start) && o <= Stop(items) == |items|
    requires Ready(acc, up, items, o, |items|, start, tally, shared)
    modifies acc, up, up.link, up.link.comm, up.link.store, acc.buf, set b | b in acc.Pool(up)
    ensures up.link.Valid() && up.Intact()
    ensures if r.Complete? then up.link.Open() && up.link.tried == up.link.plan else up.link.Refused()
    ensures r.Complete? ==> Marked(items, Groups(items, o, acc.maxBytes), o)
    ensures r.Complete? ==>
      var gs := Groups(items, o, acc.maxBytes);
      && r.total == start + |ChunksFrom(items, o, start, acc.maxBytes)|
      && r.last == DeltaList(Tally(items, Mark(gs, o, |gs|), |items|))
  {
    hide Accumulator.Owned, Accumulator.Pool, Bytes, Fed, Entries, Due, ChunksOf, Groups, Stop, Tally, DeltaList, Diff,
      Stage.Uplink.Valid, Stage.Uplink.Open, Stage.Uplink.Refused;
    ghost var f := Fed(Entries(items, o, |items|), acc.maxBytes);
    FlushedAll(items, o, acc.maxBytes);
    var ok := acc.Flush(up, items, o, start, f);
    if !ok { return Aborted; }
    DiffIsTally(items, o, Mark(Closed(f), o, |Closed(f)|), |items|);
    var last := TallyDeltas(CountsOf(tally), CountsOf(up.baseline));
    AllHanded(up.link);
    r := Complete(acc.seqNo, last);
  }

  lemma AllHanded(link: Stage.Uplink)
    requires link.Open()
    ensures link.tried == link.jobs
  {}
}
