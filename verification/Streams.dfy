/** Value streams: one field's values for one series, ascending and filtered to a time window.

    `SliceStream` walks a materialised slice (WAL); `BlockStream` decodes one TSM block at a time
    through a `FileSet` that opens files lazily and closes each with its last reference. Whatever a
    stream keeps in its fields, `rest` is the sequence it has still to deliver: `Peek` shows its
    head, `Advance` drops it. Opening or reading a file may fail at any time (`faults`). */
module Streams {
  import opened Values
  import opened Blocks
  import opened Orders

  /** One TSM file: series key to field name to blocks. */
  type File = map<Str, map<Str, seq<Block>>>

  ghost predicate IndexBounds(f: File) {
    forall sk, fd :: sk in f && fd in f[sk] ==> Bounded(f[sk][fd])
  }

  datatype Peeked = Got(v: Value) | End | Fail

  ghost function Holders(live: set<BlockStream>, fi: nat): set<BlockStream> {
    set s | s in live && s.fi == fi
  }

  class FileSet {
    const files: seq<File>
    var rs: set<nat>           // open readers
    var refs: map<nat, nat>
    var faults: seq<bool>      // environment: whether each coming open or read fails
    ghost var live: set<BlockStream>  // registered and not yet released

    /** refs counts the unreleased streams of each file; a file is open only while referenced. */
    ghost predicate Valid()
      reads this
    {
      && (forall fi: nat :: |Holders(live, fi)| == if fi in refs then refs[fi] else 0)
      && (forall fi :: fi in refs ==> refs[fi] > 0)
      && rs <= refs.Keys
      && (forall f :: f in files ==> IndexBounds(f))
    }

    constructor (files: seq<File>, faults: seq<bool>)
      requires forall f :: f in files ==> IndexBounds(f)
      ensures Valid() && this.files == files && this.faults == faults && live == {} && rs == {}
    {
      this.files, this.faults := files, faults;
      rs, refs, live := {}, map[], {};
      new;
      assert forall fi: nat :: Holders(live, fi) == {};
    }

    method Faulty() returns (bad: bool)
      modifies this`faults
      ensures bad == (old(faults) != [] && old(faults)[0]) && faults == if old(faults) == [] then [] else old(faults)[1..]
    {
      bad := faults != [] && faults[0];
      if faults != [] { faults := faults[1..]; }
    }

    /** Registers a reference to file fi and returns its lazy stream. */
    method NewBlockStream(field: Str, fi: nat, blocks: seq<Block>, start: Time, end: Time)
        returns (s: BlockStream)
      requires Valid() && fi < |files| && Bounded(blocks)
      modifies this`refs, this`live
      ensures Valid() && fresh(s) && live == old(live) + {s}
      ensures s.fs == this && s.fi == fi && s.Valid() && s.Registered() && !s.released
      ensures s.field == field && s.rest == InRange(KeySorted(blocks), start, end)
    {
      s := new BlockStream(this, field, fi, blocks, start, end);
      refs := refs[fi := if fi in refs then refs[fi] + 1 else 1];
      live := live + {s};
      assert Holders(live, fi) == Holders(old(live), fi) + {s};
      assert forall o: nat :: o != fi ==> Holders(live, o) == Holders(old(live), o);
    }

    /** The reader for file fi, opened on first use: a file that is open is not opened again. */
    method Get(fi: nat) returns (ok: bool)
      requires Valid() && fi in refs
      modifies this`rs, this`faults
      ensures Valid() && rs == if ok then old(rs) + {fi} else old(rs)
      ensures old(fi in rs) ==> ok && faults == old(faults)
      ensures old(fi !in rs) ==> ok == (old(faults) == [] || !old(faults)[0])
      ensures old(faults) == [] ==> ok && faults == []
    {
      if fi in rs { return true; }
      var bad := Faulty();
      if bad { return false; }
      rs := rs + {fi};
      return true;
    }

    /** Drops one reference to file fi, closing it at zero. */
    method Release(fi: nat, ghost s: BlockStream)
      requires Valid() && s in live && s.fi == fi
      modifies this`rs, this`refs, this`live
      ensures Valid() && live == old(live) - {s}
    {
      assert s in Holders(live, fi);
      assert Holders(live - {s}, fi) == Holders(live, fi) - {s};
      assert forall o: nat :: o != fi ==> Holders(live - {s}, o) == Holders(live, o);
      live := live - {s};
      refs := refs[fi := refs[fi] - 1];
      if refs[fi] > 0 { return; }
      refs := refs - {fi};
      if fi in rs { rs := rs - {fi}; }
    }

    /** No stream left unreleased: nothing is referenced and nothing is open. */
    lemma QuiescentIsClosed()
      requires Valid() && live == {}
      ensures refs == map[] && rs == {}
    {
      forall fi: nat ensures fi !in refs { assert Holders(live, fi) == {}; }
    }

    method CloseAll()
      modifies this
      ensures rs == {} && refs == map[]
    {
      rs, refs := {}, map[];
    }
  }

  method AscendingByTime(vals: seq<Value>) returns (ok: bool)
    ensures ok <==> Ascending(vals)
  {
    AscendingIndices(vals);
    for i := 1 to if vals == [] then 1 else |vals|
      invariant forall a, b :: 0 <= a < b < i && b < |vals| ==> vals[a].ts <= vals[b].ts
    {
      if vals[i].ts < vals[i - 1].ts { return false; }
    }
    return true;
  }

  /** Sorted only when needed; either way the stable time sort. */
  method TimeSorted(vals: seq<Value>) returns (r: seq<Value>)
    ensures r == StableSort(vals)
  {
    var ok := AscendingByTime(vals);
    if ok {
      SortOfAscending(vals);
      return vals;
    }
    return StableSort(vals);
  }

  lemma InRangePast(s: seq<Value>, lo: int, hi: int)
    requires Ascending(s) && s != [] && s[0].ts > hi
    ensures InRange(s, lo, hi) == []
  {
    InRangeNone(s, lo, hi);
  }

  lemma HeadOfConcat(buf: seq<Value>, i: nat, tail: seq<Value>)
    requires i < |buf|
    ensures buf[i..] + tail != [] && (buf[i..] + tail)[0] == buf[i]
    ensures (buf[i..] + tail)[1..] == buf[i + 1..] + tail
  {}

  class BlockStream {
    const fs: FileSet
    const field: Str
    const fi: nat
    const blocks: seq<Block>     // the key's blocks in file fi
    const start: Time
    const end: Time
    var loaded: bool
    var entries: seq<Block>
    var nextE: nat
    var buf: seq<Value>
    var i: nat
    var done: bool
    var released: bool
    var err: bool
    ghost var touched: set<Block>   // blocks decoded so far
    ghost var pending: seq<Value>   // what is still to come, before the range filter
    ghost var rest: seq<Value>      // what the stream has still to deliver

    /** pending is what the fields say: the whole sorted key before the index is loaded, then the rest
        of the buffer followed by the entries not yet decoded. */
    ghost predicate Shape()
      reads this
    {
      if released then pending == []
      else if !loaded then pending == KeySorted(blocks)
      else nextE <= |entries| && i <= |buf| && pending == buf[i..] + BlockWise(entries[nextE..])
    }

    /** On ordered blocks only those that intersect the window are ever read. */
    ghost predicate ReadsOnlyWindow()
      reads this
    {
      Chain(blocks) ==>
        && (forall b :: b in touched ==> Intersects(b, start, end))
        && (loaded ==> forall b :: b in entries ==> Intersects(b, start, end))
    }

    /** Counted by its file set exactly while unreleased. */
    ghost predicate Registered()
      reads this`released, fs`live
    {
      !released <==> this in fs.live
    }

    ghost predicate Sound()
      reads this
    {
      && Bounded(blocks) && fi < |fs.files|
      && (released ==> pending == [] && rest == [])
      && ReadsOnlyWindow()
    }

    ghost predicate Valid()
      reads this
    {
      && Sound()
      && (done || err ==> released)
      && Shape() && Ascending(pending) && rest == InRange(pending, start, end)
    }

    /** The head has been looked at and may be consumed. */
    predicate Ready()
      reads this
    {
      loaded && !released && i < |buf| && start <= buf[i].ts <= end
    }

    constructor (fs: FileSet, field: Str, fi: nat, blocks: seq<Block>, start: Time, end: Time)
      requires Bounded(blocks)
      ensures this.fs == fs && this.field == field && this.fi == fi && this.blocks == blocks
      ensures this.start == start && this.end == end && !loaded && !done && !released && !err && touched == {}
      ensures pending == KeySorted(blocks) && rest == InRange(pending, start, end)
    {
      this.fs, this.field, this.fi, this.blocks, this.start, this.end := fs, field, fi, blocks, start, end;
      loaded, entries, nextE, buf, i, done, released, err := false, [], 0, [], 0, false, false, false;
      touched, pending, rest := {}, KeySorted(blocks), InRange(KeySorted(blocks), start, end);
    }

    method Peek() returns (r: Peeked)
      requires Valid() && Registered() && fs.Valid() && (released ==> done)
      modifies this, fs`rs, fs`refs, fs`faults, fs`live
      ensures Valid() && Registered() && fs.Valid() && (released ==> done)
      ensures fs.live == old(fs.live) || fs.live == old(fs.live) - {this}
      ensures (r.Fail? <==> err) && (old(err) ==> err)
      ensures old(fs.faults) == [] ==> fs.faults == [] && err == old(err)
      ensures !r.Fail? ==> rest == old(rest)
      ensures r.Got? ==> Ready() && rest != [] && r.v == rest[0]
      ensures r.End? ==> rest == []
    {
      while true
        invariant old(fs.faults) == [] ==> fs.faults == [] && err == old(err)
        invariant Valid() && Registered() && fs.Valid() && (released ==> done)
        invariant fs.live == old(fs.live) || fs.live == old(fs.live) - {this}
        invariant (!err ==> rest == old(rest)) && (old(err) ==> err)
        decreases !done, !loaded, |entries| - nextE, |buf| - i
      {
        hide Valid, Sound, FileSet.Valid, InRange;
        if err { return Fail; }
        if done {
          DoneIsEmpty();
          return End;
        }
        if !loaded {
          LoadIndex();
        } else if i >= |buf| {
          AtEndOfBuffer();
          LoadNext();
        } else {
          var v := buf[i];
          if v.ts < start {
            Skip();
          } else if v.ts > end {
            PastWindow();
            Finish();
          } else {
            HeadOfRest();
            return Got(v);
          }
        }
      }
    }

    lemma DoneIsEmpty()
      requires Valid() && done
      ensures rest == []
    {}

    lemma AtEndOfBuffer()
      requires Valid() && loaded && !released && i >= |buf|
      ensures i == |buf|
    {}

    /** The value before the window is passed over. */
    method Skip()
      requires Valid() && loaded && !released && i < |buf| && buf[i].ts < start
      modifies this`i, this`pending
      ensures Valid() && i == old(i) + 1
    {
      HeadOfConcat(buf, i, BlockWise(entries[nextE..]));
      i := i + 1;
      pending := pending[1..];
    }

    lemma PastWindow()
      requires Valid() && loaded && !released && i < |buf| && buf[i].ts > end
      ensures rest == [] && Sound()
    {
      HeadOfConcat(buf, i, BlockWise(entries[nextE..]));
      InRangePast(pending, start, end);
    }

    lemma HeadOfRest()
      requires Valid() && loaded && !released && i < |buf| && start <= buf[i].ts <= end
      ensures rest != [] && rest[0] == buf[i]
    {
      HeadOfConcat(buf, i, BlockWise(entries[nextE..]));
    }

    method Advance()
      requires Valid() && Ready()
      modifies this`i, this`pending, this`rest
      ensures Valid() && rest == old(rest)[1..]
    {
      HeadOfConcat(buf, i, BlockWise(entries[nextE..]));
      i := i + 1;
      pending, rest := pending[1..], rest[1..];
    }

    /** Makes sure the file is open; a failure ends the stream. */
    method Open() returns (ok: bool)
      requires Sound() && Registered() && fs.Valid() && !released
      modifies this, fs`rs, fs`refs, fs`faults, fs`live
      ensures fs.Valid() && Registered()
      ensures ok ==> unchanged(this) && fs.live == old(fs.live)
      ensures old(fs.faults) == [] ==> ok && fs.faults == []
      ensures !ok ==> Valid() && done && released && err && loaded == old(loaded) && fs.live == old(fs.live) - {this}
    {
      assert this in Holders(fs.live, fi);
      ok := fs.Get(fi);
      if !ok { Failed(); }
    }

    /** One read of the open file; a failure ends the stream. */
    method Read() returns (ok: bool)
      requires Sound() && Registered() && fs.Valid() && !released
      modifies this, fs`rs, fs`refs, fs`faults, fs`live
      ensures fs.Valid() && Registered()
      ensures ok ==> unchanged(this) && fs.live == old(fs.live)
      ensures old(fs.faults) == [] ==> ok && fs.faults == []
      ensures !ok ==> Valid() && done && released && err && loaded == old(loaded) && fs.live == old(fs.live) - {this}
    {
      var bad := fs.Faulty();
      if bad { Failed(); }
      ok := !bad;
    }

    /** Resolves the entries on first use: the pruned entries, or the whole key when they are not
        ordered. */
    method LoadIndex()
      requires Valid() && Registered() && fs.Valid() && !released && !loaded && !done && !err
      modifies this, fs`rs, fs`refs, fs`faults, fs`live
      ensures Valid() && Registered() && fs.Valid() && loaded && (released ==> done)
      ensures fs.live == old(fs.live) || fs.live == old(fs.live) - {this}
      ensures !err ==> rest == old(rest)
      ensures old(fs.faults) == [] ==> !err && fs.faults == []
    {
      loaded, entries := true, [];
      var ok := Open();
      if !ok { return; }
      if |blocks| == 0 { Finish(); return; }
      var asc := EntriesAscending(blocks);
      if asc { UsePruned(); } else { UseWholeKey(); }
    }

    method UseWholeKey()
      requires Sound() && Registered() && fs.Valid() && !released && loaded && entries == [] && !done && !err
      requires !Chain(blocks) && pending == KeySorted(blocks) && rest == InRange(pending, start, end)
      modifies this, fs`rs, fs`refs, fs`faults, fs`live
      ensures Valid() && Registered() && fs.Valid() && loaded && (released ==> done)
      ensures fs.live == old(fs.live) || fs.live == old(fs.live) - {this}
      ensures !err ==> rest == old(rest)
      ensures old(fs.faults) == [] ==> !err && fs.faults == []
    {
      hide StableSort, KeyVals, Chain, InRange;
      var ok := Read();
      if !ok { return; }
      buf := TimeSorted(KeyVals(blocks));
      i, nextE := 0, 0;
      touched := set b | b in blocks;
    }

    method UsePruned()
      requires ReadsOnlyWindow() && Bounded(blocks) && !released && loaded
      requires Chain(blocks) && pending == KeySorted(blocks) && rest == InRange(pending, start, end)
      modifies this`entries, this`buf, this`i, this`nextE, this`pending
      ensures Shape() && Ascending(pending) && ReadsOnlyWindow() && rest == InRange(pending, start, end)
    {
      entries := PruneEntries(blocks, start, end);
      buf, i, nextE, pending := [], 0, 0, BlockWise(entries);
      assert entries[0..] == entries;
    }

    /** Decodes the next entry into the buffer. */
    method LoadNext()
      requires Valid() && Registered() && fs.Valid() && !released && loaded && !done && !err && i == |buf|
      modifies this, fs`rs, fs`refs, fs`faults, fs`live
      ensures Valid() && Registered() && fs.Valid() && loaded && (released ==> done)
      ensures fs.live == old(fs.live) || fs.live == old(fs.live) - {this}
      ensures !err ==> rest == old(rest)
      ensures old(fs.faults) == [] ==> !err && fs.faults == []
      ensures !done ==> entries == old(entries) && nextE == old(nextE) + 1 <= |entries|
    {
      if nextE >= |entries| { Finish(); return; }
      var ok := Open();
      if !ok { return; }
      ok := Read();
      if !ok { return; }
      UseNext();
    }

    /** The next block becomes the buffer. */
    method UseNext()
      requires Valid() && !released && loaded && !done && !err && i == |buf| && nextE < |entries|
      modifies this`touched, this`nextE, this`buf, this`i
      ensures Valid() && nextE == old(nextE) + 1
    {
      var e := entries[nextE];
      assert e in entries;
      BlockWiseNext(entries, nextE);
      touched := touched + {e};
      nextE := nextE + 1;
      buf := TimeSorted(e.vals);
      i := 0;
    }

    method Finish()
      requires Sound() && Registered() && fs.Valid() && !err && !released
      modifies this, fs`rs, fs`refs, fs`live
      ensures Valid() && Registered() && fs.Valid() && done && released && !err && loaded == old(loaded)
      ensures fs.live == old(fs.live) - {this} && pending == [] && rest == []
    {
      done := true;
      Release();
    }

    method Failed()
      requires Sound() && Registered() && fs.Valid() && !released
      modifies this, fs`rs, fs`refs, fs`live
      ensures Valid() && Registered() && fs.Valid() && done && released && err && loaded == old(loaded)
      ensures fs.live == old(fs.live) - {this}
    {
      err, done := true, true;
      Release();
    }

    /** Drops the block and the file reference, at most once. */
    method Release()
      requires Sound() && Registered() && fs.Valid()
      modifies this`released, this`buf, this`i, this`entries, this`pending, this`rest, fs`rs, fs`refs, fs`live
      ensures Valid() && Registered() && fs.Valid() && released && loaded == old(loaded)
      ensures fs.live == old(fs.live) - {this}
    {
      if released { return; }
      released := true;
      buf, i, entries, pending, rest := [], 0, [], [], [];
      fs.Release(fi, this);
    }
  }

  class SliceStream {
    const field: Str
    const start: Time
    const end: Time
    var vals: seq<Value>
    var i: nat
    ghost var rest: seq<Value>

    ghost predicate Valid()
      reads this
    {
      i <= |vals| && Ascending(vals[i..]) && rest == InRange(vals[i..], start, end)
    }

    predicate Ready()
      reads this
    {
      i < |vals| && start <= vals[i].ts <= end
    }

    constructor (field: Str, vals: seq<Value>, start: Time, end: Time)
      ensures Valid() && this.field == field
      ensures rest == InRange(StableSort(vals), start, end)
    {
      var sorted := TimeSorted(vals);
      this.field, this.start, this.end := field, start, end;
      this.vals, i, rest := sorted, 0, InRange(sorted, start, end);
      new;
      assert this.vals[0..] == sorted;
    }

    method Peek() returns (r: Peeked)
      requires Valid()
      modifies this`i
      ensures Valid() && rest == old(rest)
      ensures r.Got? ==> Ready() && rest != [] && r.v == rest[0]
      ensures r.End? ==> rest == []
      ensures !r.Fail?
    {
      while i < |vals|
        invariant Valid() && rest == old(rest)
      {
        var v := vals[i];
        assert vals[i..][0] == v && vals[i..][1..] == vals[i + 1..];
        if v.ts < start {
          i := i + 1;
        } else if v.ts > end {
          InRangePast(vals[i..], start, end);
          i := |vals|;
          break;
        } else {
          return Got(v);
        }
      }
      return End;
    }

    method Advance()
      requires Valid() && Ready()
      modifies this`i, this`rest
      ensures Valid() && rest == old(rest)[1..]
    {
      assert vals[i..][0] == vals[i] && vals[i..][1..] == vals[i + 1..];
      i, rest := i + 1, rest[1..];
    }

    method Release()
      modifies this
      ensures Valid() && rest == []
    {
      vals, i, rest := [], 0, [];
    }
  }
}
