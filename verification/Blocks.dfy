/** One TSM key as its file stores it: index entries that bound decoded blocks. The spec of a key is
    the stable time sort of everything it holds (`KeySorted`); this module proves that the block-wise
    form the extractor reads, pruned by the index to a time window, is that same sequence. */
module Blocks {
  import opened Values

  /** An index entry together with the values its block decodes to. */
  datatype Block = Block(min: Time, max: Time, size: nat, vals: seq<Value>)

  /** Environment: an index entry bounds the timestamps of its block. */
  ghost predicate Bounded(bs: seq<Block>) {
    forall b, v :: b in bs && v in b.vals ==> b.min <= v.ts <= b.max
  }

  /** Everything the key holds, in entry order. */
  function KeyVals(bs: seq<Block>): (r: seq<Value>) {
    if bs == [] then [] else bs[0].vals + KeyVals(bs[1..])
  }

  /** The reference content of a key. */
  function KeySorted(bs: seq<Block>): seq<Value> { StableSort(KeyVals(bs)) }

  /** Block after block, each sorted on its own: what the streaming path yields. */
  function BlockWise(bs: seq<Block>): seq<Value> {
    if bs == [] then [] else StableSort(bs[0].vals) + BlockWise(bs[1..])
  }

  predicate Intersects(b: Block, lo: int, hi: int) { b.min <= hi && b.max >= lo }

  /** Ordered, non-overlapping blocks; equal boundary timestamps are allowed. */
  ghost predicate Chain(bs: seq<Block>) {
    && (forall i :: 0 <= i < |bs| ==> bs[i].min <= bs[i].max)
    && (forall i :: 0 < i < |bs| ==> bs[i].min >= bs[i - 1].max)
  }

  method EntriesAscending(ents: seq<Block>) returns (ok: bool)
    ensures ok <==> Chain(ents)
  {
    for i := 0 to |ents|
      invariant Chain(ents[..i])
    {
      assert ents[..i + 1] == ents[..i] + [ents[i]];
      if ents[i].min > ents[i].max { return false; }
      if i > 0 && ents[i].min < ents[i - 1].max { return false; }
    }
    assert ents[..|ents|] == ents;
    return true;
  }

  lemma {:induction false} ChainBound(bs: seq<Block>, i: nat, j: nat)
    requires Chain(bs) && i < j < |bs|
    ensures bs[i].max <= bs[j].min
    decreases j
  {
    if i + 1 < j { ChainBound(bs, i, j - 1); }
  }

  lemma KeyValsMember(bs: seq<Block>, v: Value)
    ensures v in KeyVals(bs) <==> exists b :: b in bs && v in b.vals
  {
    if bs != [] { KeyValsMember(bs[1..], v); }
  }

  lemma BlockWiseMember(bs: seq<Block>, v: Value)
    ensures v in BlockWise(bs) <==> exists b :: b in bs && v in b.vals
  {
    if bs != [] {
      StableSortMembers(bs[0].vals);
      BlockWiseMember(bs[1..], v);
    }
  }

  lemma BlockWiseNext(bs: seq<Block>, n: nat)
    requires n < |bs|
    ensures BlockWise(bs[n..]) == StableSort(bs[n].vals) + BlockWise(bs[n + 1..])
  {
    assert bs[n..][1..] == bs[n + 1..];
  }

  lemma ChainTail(bs: seq<Block>)
    requires Chain(bs) && Bounded(bs) && bs != []
    ensures Chain(bs[1..]) && Bounded(bs[1..])
  {
    assert forall i :: 0 <= i < |bs[1..]| ==> bs[1..][i] == bs[i + 1];
  }

  lemma NothingAscends()
    ensures Ascending([])
  {}

  lemma FirstBlockFirst(bs: seq<Block>, x: Value, y: Value)
    requires Chain(bs) && Bounded(bs) && bs != [] && x in bs[0].vals && y in BlockWise(bs[1..])
    ensures x.ts <= y.ts
  {
    hide Chain, BlockWise;
    BlockWiseMember(bs[1..], y);
    var b :| b in bs[1..] && y in b.vals;
    var j :| 0 <= j < |bs[1..]| && bs[1..][j] == b;
    ChainBound(bs, 0, j + 1);
    assert bs[0] in bs && b in bs;
  }

  lemma {:induction false} BlockWiseAscending(bs: seq<Block>)
    requires Chain(bs) && Bounded(bs)
    ensures Ascending(BlockWise(bs))
    decreases |bs|
  {
    hide Chain, Bounded, StableSort, Ascending;
    if bs == [] {
      assert Ascending([]) by { NothingAscends(); }
    } else {
      ChainTail(bs);
      BlockWiseAscending(bs[1..]);
      StableSortMembers(bs[0].vals);
      forall x, y | x in StableSort(bs[0].vals) && y in BlockWise(bs[1..]) ensures x.ts <= y.ts { FirstBlockFirst(bs, x, y); }
      AscendingConcat(StableSort(bs[0].vals), BlockWise(bs[1..]));
    }
  }

  lemma {:induction false} BlockWiseAt(bs: seq<Block>, t: int)
    ensures At(BlockWise(bs), t) == At(KeyVals(bs), t)
    decreases |bs|
  {
    if bs != [] {
      BlockWiseAt(bs[1..], t);
      StableSortIsStable(bs[0].vals);
      AtConcat(StableSort(bs[0].vals), BlockWise(bs[1..]), t);
      AtConcat(bs[0].vals, KeyVals(bs[1..]), t);
    }
  }

  /** On ordered blocks the streaming path yields the materialised key. */
  lemma BlockWiseIsSorted(bs: seq<Block>)
    requires Chain(bs) && Bounded(bs)
    ensures BlockWise(bs) == KeySorted(bs)
  {
    BlockWiseAscending(bs);
    StableSortIsStable(KeyVals(bs));
    forall t: int ensures At(BlockWise(bs), t) == At(KeySorted(bs), t) { BlockWiseAt(bs, t); }
    StableUnique(BlockWise(bs), KeySorted(bs));
  }

  // ---- index pruning ----

  lemma {:induction false} BlockWiseConcat(a: seq<Block>, b: seq<Block>)
    ensures BlockWise(a + b) == BlockWise(a) + BlockWise(b)
    decreases |a|
  {
    if a == [] {
      assert a + b == b;
    } else {
      assert (a + b)[1..] == a[1..] + b;
      BlockWiseConcat(a[1..], b);
    }
  }

  lemma MissesWindow(bs: seq<Block>, lo: int, hi: int)
    requires Bounded(bs) && forall b :: b in bs ==> !Intersects(b, lo, hi)
    ensures InRange(BlockWise(bs), lo, hi) == []
    ensures InRange(KeySorted(bs), lo, hi) == []
  {
    forall v | v in BlockWise(bs) || v in KeySorted(bs) ensures !(lo <= v.ts <= hi) {
      BlockWiseMember(bs, v);
      StableSortMembers(KeyVals(bs));
      KeyValsMember(bs, v);
    }
    InRangeNone(BlockWise(bs), lo, hi);
    InRangeNone(KeySorted(bs), lo, hi);
  }

  /** The entries that intersect [start, end]: contiguous, because the blocks are ordered. The blocks
      outside are never needed and the blocks inside all intersect. */
  method PruneEntries(ents: seq<Block>, start: Time, end: Time) returns (kept: seq<Block>)
    requires Chain(ents) && Bounded(ents)
    ensures forall b :: b in kept <==> b in ents && Intersects(b, start, end)
    ensures InRange(BlockWise(kept), start, end) == InRange(KeySorted(ents), start, end)
    ensures Ascending(BlockWise(kept))
  {
    var lo := 0;
    while lo < |ents| && ents[lo].max < start
      invariant 0 <= lo <= |ents|
      invariant forall i :: 0 <= i < lo ==> ents[i].max < start
    {
      lo := lo + 1;
    }
    var hi := lo;
    while hi < |ents| && ents[hi].min <= end
      invariant lo <= hi <= |ents|
      invariant forall i :: lo <= i < hi ==> ents[i].min <= end
    {
      hi := hi + 1;
    }
    kept := ents[lo..hi];
    Pruned(ents, lo, hi, start, end);
  }

  lemma Pruned(ents: seq<Block>, lo: nat, hi: nat, start: int, end: int)
    requires Chain(ents) && Bounded(ents) && lo <= hi <= |ents|
    requires forall i :: 0 <= i < lo ==> ents[i].max < start
    requires lo < |ents| ==> ents[lo].max >= start
    requires forall i :: lo <= i < hi ==> ents[i].min <= end
    requires hi < |ents| ==> ents[hi].min > end
    ensures forall b :: b in ents[lo..hi] <==> b in ents && Intersects(b, start, end)
    ensures InRange(BlockWise(ents[lo..hi]), start, end) == InRange(KeySorted(ents), start, end)
    ensures Ascending(BlockWise(ents[lo..hi]))
  {
    var kept := ents[lo..hi];
    forall i | lo <= i < |ents| ensures ents[i].max >= start {
      if i > lo { ChainBound(ents, lo, i); }
    }
    forall i | hi <= i < |ents| ensures ents[i].min > end {
      if i > hi { ChainBound(ents, hi, i); }
    }
    PruneKeeps(ents, lo, hi, start, end);
    assert forall i :: 0 <= i < |kept| ==> kept[i] == ents[lo + i];
    hide BlockWise, KeySorted, Bounded, Chain;
    ChainSlice(ents, lo, hi);
    BlockWiseAscending(kept);
  }

  lemma ChainSlice(ents: seq<Block>, lo: nat, hi: nat)
    requires Chain(ents) && Bounded(ents) && lo <= hi <= |ents|
    ensures Chain(ents[lo..hi]) && Bounded(ents[lo..hi]) && forall b :: b in ents[lo..hi] ==> b in ents
  {
    var kept := ents[lo..hi];
    assert forall i :: 0 <= i < |kept| ==> kept[i] == ents[lo + i];
  }

  lemma PruneKeeps(ents: seq<Block>, lo: nat, hi: nat, start: int, end: int)
    requires Chain(ents) && Bounded(ents) && lo <= hi <= |ents|
    requires forall i :: 0 <= i < lo ==> ents[i].max < start
    requires forall i :: hi <= i < |ents| ==> ents[i].min > end
    ensures forall b :: b in ents && Intersects(b, start, end) ==> b in ents[lo..hi]
    ensures InRange(BlockWise(ents[lo..hi]), start, end) == InRange(KeySorted(ents), start, end)
  {
    var a, m, z := ents[..lo], ents[lo..hi], ents[hi..];
    assert ents == a + (m + z);
    BlockWiseConcat(a, m + z);
    BlockWiseConcat(m, z);
    InRangeConcat(BlockWise(a), BlockWise(m + z), start, end);
    InRangeConcat(BlockWise(m), BlockWise(z), start, end);
    assert forall b :: b in a ==> b in ents && b.max < start;
    assert forall b :: b in z ==> b in ents && b.min > end;
    MissesWindow(a, start, end);
    MissesWindow(z, start, end);
    BlockWiseIsSorted(ents);
  }
}
