/** Where the chunk boundaries fall, and which audit counts travel with each chunk.

    `IsCut` says what the accumulator promises (nothing lost or reordered, the byte bound, no chunk that
    could have taken the next line). At most one list of chunks satisfies it (`CutUnique`), so cutting is
    deterministic and can restart at any chunk boundary (`CutSuffix`). */
module Chunks {
  import opened Orders
  import opened Values
  import opened Shard

  /** An encoded point: never empty, it ends in a newline. */
  type Line = l: Str | l != [] witness [10]

  /** A line and the position of its point in the shard's emission order. */
  datatype Entry = Entry(line: Line, at: nat)

  function Bytes(es: seq<Entry>): Str {
    if es == [] then [] else es[0].line + Bytes(es[1..])
  }

  lemma {:induction false} BytesConcat(a: seq<Entry>, b: seq<Entry>)
    ensures Bytes(a + b) == Bytes(a) + Bytes(b)
    decreases |a|
  {
    if a == [] {
      assert a + b == b;
    } else {
      assert (a + b)[1..] == a[1..] + b;
      BytesConcat(a[1..], b);
    }
  }

  lemma BytesOneMore(a: seq<Entry>, e: Entry)
    ensures Bytes(a + [e]) == Bytes(a) + e.line
  {
    BytesConcat(a, [e]);
    assert Bytes([e]) == e.line + Bytes([][0..]);
  }

  // ---- what the chunks must be ----

  ghost predicate Sized(g: seq<Entry>, max: nat) {
    g != [] && (|Bytes(g)| <= max || |g| == 1)
  }

  /** No line is lost, repeated or moved; a chunk holds at most `max` bytes unless it is one oversized
      line; and no chunk had room for the line after it. */
  ghost predicate IsCut(gs: seq<seq<Entry>>, es: seq<Entry>, max: nat) {
    && Flatten(gs) == es
    && (forall i :: 0 <= i < |gs| ==> Sized(gs[i], max))
    && (forall i :: 0 <= i < |gs| - 1 ==> |Bytes(gs[i])| + |gs[i + 1][0].line| > max)
  }

  lemma CutTail(gs: seq<seq<Entry>>, es: seq<Entry>, max: nat)
    requires IsCut(gs, es, max) && gs != []
    ensures es == gs[0] + Flatten(gs[1..]) && IsCut(gs[1..], es[|gs[0]|..], max)
    ensures |gs| > 1 ==> |gs[0]| < |es| && es[|gs[0]|] == gs[1][0]
  {
    var t := gs[1..];
    assert forall i :: 0 <= i < |t| ==> t[i] == gs[i + 1];
    assert es[|gs[0]|..] == Flatten(t);
    if t != [] { assert Flatten(t) == t[0] + Flatten(t[1..]); }
  }

  lemma LongerIsBigger(a: seq<Entry>, b: seq<Entry>)
    requires |a| < |b| && a == b[..|a|]
    ensures |Bytes(a)| + |b[|a|].line| <= |Bytes(b)|
  {
    var n := |a|;
    assert b == a + [b[n]] + b[n + 1..];
    BytesOneMore(a, b[n]);
    BytesConcat(a + [b[n]], b[n + 1..]);
  }

  lemma FirstNotShorter(a: seq<seq<Entry>>, b: seq<seq<Entry>>, es: seq<Entry>, max: nat)
    requires IsCut(a, es, max) && IsCut(b, es, max) && a != [] && b != []
    ensures |a[0]| >= |b[0]|
  {
    CutTail(a, es, max);
    CutTail(b, es, max);
    assert Sized(a[0], max) && Sized(b[0], max);
    assert a[0] == es[..|a[0]|] && b[0] == es[..|b[0]|];
    if |a[0]| < |b[0]| { LongerIsBigger(a[0], b[0]); }
  }

  /** The boundaries are determined by the lines alone. */
  lemma {:induction false} CutUnique(a: seq<seq<Entry>>, b: seq<seq<Entry>>, es: seq<Entry>, max: nat)
    requires IsCut(a, es, max) && IsCut(b, es, max)
    ensures a == b
    decreases |a|
  {
    if a == [] || b == [] {
      assert a != [] ==> Sized(a[0], max);
      assert b != [] ==> Sized(b[0], max);
    } else {
      FirstNotShorter(a, b, es, max);
      FirstNotShorter(b, a, es, max);
      CutTail(a, es, max);
      CutTail(b, es, max);
      assert a[0] == es[..|a[0]|] == b[0];
      CutUnique(a[1..], b[1..], es[|a[0]|..], max);
      assert a == [a[0]] + a[1..] && b == [b[0]] + b[1..];
    }
  }

  // ---- the accumulator's decisions ----

  /** Chunks flushed so far, and the lines in the buffer. */
  datatype Feed = Feed(out: seq<seq<Entry>>, rest: seq<Entry>)

  function FlushBefore(f: Feed, e: Entry, max: nat): Feed {
    if f.rest != [] && |Bytes(f.rest)| + |e.line| > max then Feed(f.out + [f.rest], []) else f
  }

  function FlushAfter(f: Feed, max: nat): Feed {
    if f.rest != [] && |Bytes(f.rest)| >= max then Feed(f.out + [f.rest], []) else f
  }

  function AppendTo(f: Feed, e: Entry, max: nat): Feed {
    var g := FlushBefore(f, e, max);
    FlushAfter(Feed(g.out, g.rest + [e]), max)
  }

  function Fed(es: seq<Entry>, max: nat): Feed {
    if es == [] then Feed([], []) else AppendTo(Fed(es[..|es| - 1], max), es[|es| - 1], max)
  }

  function Closed(f: Feed): seq<seq<Entry>> { if f.rest == [] then f.out else f.out + [f.rest] }

  /** Appending every line and flushing at the end. */
  function Cut(es: seq<Entry>, max: nat): seq<seq<Entry>> { Closed(Fed(es, max)) }

  ghost predicate FeedOk(f: Feed, es: seq<Entry>, max: nat) {
    && IsCut(Closed(f), es, max)
    && (f.rest != [] ==> |Bytes(f.rest)| < max)
    && (f.rest == [] && f.out != [] ==> |Bytes(f.out[|f.out| - 1])| >= max)
  }

  lemma FlattenLast(gs: seq<seq<Entry>>, g: seq<Entry>)
    ensures Flatten(gs + [g]) == Flatten(gs) + g
  {
    FlattenConcat(gs, [g]);
    assert Flatten([g]) == g + Flatten([g][1..]);
  }

  lemma AppendKeeps(f: Feed, es: seq<Entry>, e: Entry, max: nat)
    requires max > 0 && FeedOk(f, es, max)
    ensures FeedOk(AppendTo(f, e, max), es + [e], max)
  {
    hide Bytes, Flatten;
    var g := FlushBefore(f, e, max);
    var last := g.rest + [e];
    var old_, gs, n := Closed(f), g.out + [last], |g.out|;
    assert Closed(AppendTo(f, e, max)) == gs;
    BytesOneMore(g.rest, e);
    FlattenLast(g.out, last);
    FlattenLast(f.out, f.rest);
    assert Sized(last, max) by { SomeBytes([]); }
    assert Flatten(g.out) + g.rest == es;
    assert forall i :: 0 <= i < n ==> gs[i] == g.out[i] == old_[i];
    if n > 0 && g.rest != [] {
      assert old_[n] == f.rest && last[0] == old_[n - 1 + 1][0];
    }
    assert n > 0 ==> |Bytes(old_[n - 1])| + |last[0].line| > max;
  }

  lemma SomeBytes(es: seq<Entry>)
    ensures es != [] <==> |Bytes(es)| > 0
  {}

  lemma EmptyFeedOk(max: nat)
    ensures FeedOk(Feed([], []), [], max)
  {}

  lemma {:induction false} FedIsOk(es: seq<Entry>, max: nat)
    requires max > 0
    ensures FeedOk(Fed(es, max), es, max)
    decreases |es|
  {
    hide FeedOk, AppendTo;
    if es == [] {
      EmptyFeedOk(max);
    } else {
      FedIsOk(es[..|es| - 1], max);
      AppendKeeps(Fed(es[..|es| - 1], max), es[..|es| - 1], es[|es| - 1], max);
      assert es == es[..|es| - 1] + [es[|es| - 1]];
    }
  }

  /** The accumulator cuts as promised. */
  lemma CutIsCut(es: seq<Entry>, max: nat)
    requires max > 0
    ensures IsCut(Cut(es, max), es, max)
  {
    FedIsOk(es, max);
  }

  lemma {:induction false} CutDrop(gs: seq<seq<Entry>>, es: seq<Entry>, max: nat, k: nat)
    requires IsCut(gs, es, max) && k <= |gs|
    ensures |Flatten(gs[..k])| <= |es| && IsCut(gs[k..], es[|Flatten(gs[..k])|..], max)
    decreases k
  {
    if k == 0 {
      assert gs[..0] == [] && gs[0..] == gs && es[0..] == es;
    } else {
      CutTail(gs, es, max);
      CutDrop(gs[1..], es[|gs[0]|..], max, k - 1);
      assert gs[..k] == [gs[0]] + gs[1..][..k - 1];
      assert Flatten(gs[..k]) == gs[0] + Flatten(gs[1..][..k - 1]) by { assert gs[..k][1..] == gs[1..][..k - 1]; }
      assert gs[k..] == gs[1..][k - 1..];
      assert es[|Flatten(gs[..k])|..] == es[|gs[0]|..][|Flatten(gs[1..][..k - 1])|..];
    }
  }

  /** Starting over at a chunk boundary yields the remaining chunks. */
  lemma CutSuffix(es: seq<Entry>, max: nat, k: nat)
    requires max > 0 && k <= |Cut(es, max)|
    ensures var n := |Flatten(Cut(es, max)[..k])|;
      n <= |es| && Cut(es[n..], max) == Cut(es, max)[k..]
  {
    hide Cut, IsCut;
    CutIsCut(es, max);
    CutDrop(Cut(es, max), es, max, k);
    var n := |Flatten(Cut(es, max)[..k])|;
    CutIsCut(es[n..], max);
    CutUnique(Cut(es[n..], max), Cut(es, max)[k..], es[n..], max);
  }

  /** What is flushed when the run stops before the final flush: every chunk but a partly filled last one. */
  function DropPartial(gs: seq<seq<Entry>>, max: nat): seq<seq<Entry>> {
    if gs == [] || |Bytes(gs[|gs| - 1])| >= max then gs else gs[..|gs| - 1]
  }

  lemma FedIsDropPartial(es: seq<Entry>, max: nat)
    requires max > 0
    ensures Fed(es, max).out == DropPartial(Cut(es, max), max)
  {
    FedIsOk(es, max);
  }

  // ---- what the shard emits, line by line ----

  /** The resolver's verdict on one point, with the line it is encoded to. */
  datatype Act = Send(line: Line) | Rename(line: Line, name: Str) | Omit(name: Str) | Invalid

  datatype Item = Item(pos: Cursor, act: Act)

  /** The load stops at the first invalid measurement. */
  function Stop(items: seq<Item>): (n: nat)
    ensures n <= |items| && (n < |items| ==> items[n].act.Invalid?)
    ensures forall i :: 0 <= i < n ==> !items[i].act.Invalid?
  {
    if items == [] || items[0].act.Invalid? then 0
    else
      var n := Stop(items[1..]);
      assert forall i :: 0 < i <= n ==> items[i] == items[1..][i - 1];
      n + 1
  }

  function EntryOf(it: Item, at: nat): seq<Entry> {
    if it.act.Send? || it.act.Rename? then [Entry(it.act.line, at)] else []
  }

  /** The lines of items lo..hi-1. */
  function Entries(items: seq<Item>, lo: nat, hi: nat): seq<Entry>
    requires hi <= |items|
    decreases hi
  {
    if hi <= lo then [] else Entries(items, lo, hi - 1) + EntryOf(items[hi - 1], hi - 1)
  }

  /** Item i has a line among these. */
  ghost predicate HasLine(es: seq<Entry>, i: nat) { exists j :: 0 <= j < |es| && es[j].at == i }

  predicate LineOf(items: seq<Item>, e: Entry) {
    e.at < |items| && (items[e.at].act.Send? || items[e.at].act.Rename?) && e.line == items[e.at].act.line
  }

  lemma HasLineNext(es: seq<Entry>, more: seq<Entry>, i: nat)
    ensures HasLine(es + more, i) <==> HasLine(es, i) || HasLine(more, i)
  {
    var all := es + more;
    if j :| 0 <= j < |es| && es[j].at == i { assert all[j].at == i; }
    if j :| 0 <= j < |more| && more[j].at == i { assert all[|es| + j].at == i; }
    if j :| 0 <= j < |all| && all[j].at == i { assert if j < |es| then es[j].at == i else more[j - |es|].at == i; }
  }

  lemma EntryMeaning(items: seq<Item>, at: nat, i: nat)
    requires at < |items|
    ensures HasLine(EntryOf(items[at], at), i) <==> i == at && (items[i].act.Send? || items[i].act.Rename?)
    ensures |EntryOf(items[at], at)| <= 1 && forall e :: e in EntryOf(items[at], at) ==> LineOf(items, e) && e.at == at
  {
    var es := EntryOf(items[at], at);
    assert es != [] ==> es[0].at == at;
  }

  /** Every item that is sent or renamed has a line among these, and no other item has any ... */
  lemma {:induction false} LinesMeaning(items: seq<Item>, lo: nat, hi: nat, i: nat)
    requires hi <= |items| && lo <= i < hi
    ensures HasLine(Entries(items, lo, hi), i) <==> items[i].act.Send? || items[i].act.Rename?
    decreases hi
  {
    hide HasLine, EntryOf;
    var fs := Entries(items, lo, hi - 1);
    HasLineNext(fs, EntryOf(items[hi - 1], hi - 1), i);
    EntryMeaning(items, hi - 1, i);
    if i < hi - 1 {
      LinesMeaning(items, lo, hi - 1, i);
    } else {
      EntriesMeaning(items, lo, hi - 1);
      NoLine(fs, i);
    }
  }

  lemma NoLine(es: seq<Entry>, i: nat)
    requires forall e :: e in es ==> e.at < i
    ensures !HasLine(es, i)
  {
    forall j | 0 <= j < |es| ensures es[j].at != i { assert es[j] in es; }
  }

  /** ... each of them is the item's own, and they stand in emission order. */
  lemma {:induction false} EntriesMeaning(items: seq<Item>, lo: nat, hi: nat)
    requires hi <= |items|
    ensures forall e :: e in Entries(items, lo, hi) ==> LineOf(items, e) && lo <= e.at < hi
    ensures forall i, j :: 0 <= i < j < |Entries(items, lo, hi)| ==> Entries(items, lo, hi)[i].at < Entries(items, lo, hi)[j].at
    decreases hi
  {
    if lo < hi {
      hide LineOf, EntryOf;
      EntriesMeaning(items, lo, hi - 1);
      EntryMeaning(items, hi - 1, 0);
      var es, fs := Entries(items, lo, hi), Entries(items, lo, hi - 1);
      forall i, j | 0 <= i < j < |es| ensures es[i].at < es[j].at { assert i < |fs| ==> fs[i] in fs; }
    }
  }

  lemma {:induction false} EntriesSplit(items: seq<Item>, lo: nat, m: nat, hi: nat)
    requires lo <= m <= hi <= |items|
    ensures Entries(items, lo, hi) == Entries(items, lo, m) + Entries(items, m, hi)
    decreases hi
  {
    if m < hi { EntriesSplit(items, lo, m, hi - 1); }
  }

  /** The lines after the i-th one are the lines of the items after its item. */
  lemma {:induction false} EntriesAfter(items: seq<Item>, lo: nat, hi: nat, i: nat)
    requires hi <= |items| && i < |Entries(items, lo, hi)|
    ensures lo <= Entries(items, lo, hi)[i].at < hi
    ensures Entries(items, lo, hi)[i + 1..] == Entries(items, Entries(items, lo, hi)[i].at + 1, hi)
    decreases hi
  {
    var es, fs := Entries(items, lo, hi), Entries(items, lo, hi - 1);
    var at := es[i].at;
    if i < |fs| {
      EntriesAfter(items, lo, hi - 1, i);
      assert es[i + 1..] == fs[i + 1..] + EntryOf(items[hi - 1], hi - 1);
      assert at + 1 <= hi - 1;
    } else {
      assert es[i + 1..] == [];
      assert Entries(items, hi, hi) == [];
    }
  }

  // ---- audit counts ----

  function Get(m: map<Str, nat>, k: Str): nat { if k in m then m[k] else 0 }

  function Bump(m: map<Str, nat>, k: Str): map<Str, nat> { m[k := Get(m, k) + 1] }

  predicate Acted(it: Item, k: Str) { (it.act.Rename? || it.act.Omit?) && it.act.name == k }

  function BumpFor(m: map<Str, nat>, it: Item): map<Str, nat> {
    if it.act.Rename? || it.act.Omit? then Bump(m, it.act.name) else m
  }

  /** The counts of renamed and skipped points per measurement among items lo..hi-1. */
  function Tally(items: seq<Item>, lo: nat, hi: nat): map<Str, nat>
    requires hi <= |items|
    decreases hi
  {
    if hi <= lo then map[] else BumpFor(Tally(items, lo, hi - 1), items[hi - 1])
  }

  function Count(items: seq<Item>, k: Str, lo: nat, hi: nat): nat
    requires hi <= |items|
    decreases hi
  {
    if hi <= lo then 0 else Count(items, k, lo, hi - 1) + (if Acted(items[hi - 1], k) then 1 else 0)
  }

  lemma {:induction false} TallyCounts(items: seq<Item>, lo: nat, hi: nat, k: Str)
    requires hi <= |items|
    ensures Get(Tally(items, lo, hi), k) == Count(items, k, lo, hi)
    ensures k in Tally(items, lo, hi) <==> Count(items, k, lo, hi) > 0
    decreases hi
  {
    if lo < hi { TallyCounts(items, lo, hi - 1, k); }
  }

  /** The items renamed or skipped under this name. */
  ghost function ActedOn(items: seq<Item>, k: Str, lo: nat, hi: nat): set<nat>
    requires hi <= |items|
  {
    set i | lo <= i < hi && (items[i].act == Omit(k) || (items[i].act.Rename? && items[i].act.name == k)) :: i
  }

  lemma ActedOnNext(items: seq<Item>, k: Str, lo: nat, hi: nat)
    requires lo < hi <= |items|
    ensures hi - 1 !in ActedOn(items, k, lo, hi - 1)
    ensures ActedOn(items, k, lo, hi) == ActedOn(items, k, lo, hi - 1) + if Acted(items[hi - 1], k) then {hi - 1} else {}
  {}

  lemma {:induction false} CountMeaning(items: seq<Item>, k: Str, lo: nat, hi: nat)
    requires lo <= hi <= |items|
    ensures Count(items, k, lo, hi) == |ActedOn(items, k, lo, hi)|
    decreases hi
  {
    hide Acted;
    if lo < hi {
      CountMeaning(items, k, lo, hi - 1);
      ActedOnNext(items, k, lo, hi);
    } else {
      assert ActedOn(items, k, lo, hi) == {};
    }
  }

  lemma {:induction false} CountSplit(items: seq<Item>, k: Str, lo: nat, m: nat, hi: nat)
    requires lo <= m <= hi <= |items|
    ensures Count(items, k, lo, hi) == Count(items, k, lo, m) + Count(items, k, m, hi)
    decreases hi
  {
    if m < hi { CountSplit(items, k, lo, m, hi - 1); }
  }

  /** What a snapshot holds beyond an earlier one. */
  function Diff(cur: map<Str, nat>, base: map<Str, nat>): map<Str, nat> {
    map k | k in cur && cur[k] > Get(base, k) :: cur[k] - Get(base, k)
  }

  /** The difference of two running counts is the count of the items between, wherever counting began. */
  lemma DiffIsTally(items: seq<Item>, o: nat, lo: nat, hi: nat)
    requires o <= lo <= hi <= |items|
    ensures Diff(Tally(items, o, hi), Tally(items, o, lo)) == Tally(items, lo, hi)
  {
    hide Tally, Count;
    var d, t := Diff(Tally(items, o, hi), Tally(items, o, lo)), Tally(items, lo, hi);
    forall k: Str ensures (k in d <==> k in t) && Get(d, k) == Get(t, k) {
      TallyCounts(items, o, hi, k);
      TallyCounts(items, o, lo, k);
      TallyCounts(items, lo, hi, k);
      CountSplit(items, k, o, lo, hi);
    }
    assert forall k :: k in d ==> d[k] == Get(d, k) == Get(t, k);
  }

  // ---- audit deltas ----

  /** So many more points of a measurement were renamed or skipped. */
  datatype Delta = Delta(name: Str, points: nat)

  function DeltasFor(m: map<Str, nat>, names: seq<Str>): seq<Delta> {
    if names == [] then [] else [Delta(names[0], Get(m, names[0]))] + DeltasFor(m, names[1..])
  }

  /** A count per measurement as a list in measurement order. */
  ghost function DeltaList(m: map<Str, nat>): seq<Delta> {
    StrTotal();
    DeltasFor(m, Sorted(m.Keys, StrLess))
  }

  // ---- the chunks of a shard ----

  /** One chunk on its way to Arc: its seq, its bytes, and what is committed with it. */
  datatype Chunk = Chunk(n: nat, lp: Str, cur: Cursor, deltas: seq<Delta>)

  /** The item after chunk i-1's last line; chunk i's audit counts start there. */
  function Mark(gs: seq<seq<Entry>>, o: nat, i: nat): nat
    requires i <= |gs| && forall j :: 0 <= j < |gs| ==> gs[j] != []
  {
    if i == 0 then o else gs[i - 1][|gs[i - 1]| - 1].at + 1
  }

  /** The chunks an extraction starting at item o flushes, stopping at the first invalid measurement. */
  function Groups(items: seq<Item>, o: nat, max: nat): seq<seq<Entry>> {
    var gs := Cut(Entries(items, o, Stop(items)), max);
    if Stop(items) == |items| then gs else DropPartial(gs, max)
  }

  ghost predicate Marked(items: seq<Item>, gs: seq<seq<Entry>>, o: nat) {
    && (forall j :: 0 <= j < |gs| ==> gs[j] != [])
    && (forall j :: 0 < j <= |gs| ==> o < Mark(gs, o, j) <= |items|)
  }

  ghost function ChunkOf(items: seq<Item>, gs: seq<seq<Entry>>, start: nat, o: nat, i: nat): Chunk
    requires Marked(items, gs, o) && i < |gs|
  {
    var lo, hi := Mark(gs, o, i), Mark(gs, o, i + 1);
    Chunk(start + i, Bytes(gs[i]), items[hi - 1].pos, DeltaList(Tally(items, lo, hi)))
  }

  ghost function ChunksOf(items: seq<Item>, gs: seq<seq<Entry>>, start: nat, o: nat): (cs: seq<Chunk>)
    requires Marked(items, gs, o)
    ensures |cs| == |gs|
  {
    seq(|gs|, i requires 0 <= i < |gs| => ChunkOf(items, gs, start, o, i))
  }

  lemma {:induction false} FlattenIndex(gs: seq<seq<Entry>>, i: nat)
    requires i < |gs| && gs[i] != []
    ensures var n := |Flatten(gs[..i + 1])|;
      0 < n <= |Flatten(gs)| && Flatten(gs)[n - 1] == gs[i][|gs[i]| - 1]
    decreases i
  {
    var t := gs[1..];
    if i > 0 {
      FlattenIndex(t, i - 1);
      assert gs[..i + 1][1..] == t[..i];
    } else {
      assert gs[..1][1..] == [] && Flatten(gs[..1]) == gs[0] + Flatten([][0..]);
    }
  }

  lemma DropIsPrefix(gs: seq<seq<Entry>>, max: nat)
    ensures var d := DropPartial(gs, max); |d| <= |gs| && d == gs[..|d|]
  {}

  /** Chunk k of an extraction from item o ends at some line; the lines behind it are those of the items
      behind that line's item. */
  lemma GroupEnds(items: seq<Item>, o: nat, max: nat, k: nat)
    requires max > 0 && o <= |items| && k < |Cut(Entries(items, o, Stop(items)), max)|
    ensures var gs, es := Cut(Entries(items, o, Stop(items)), max), Entries(items, o, Stop(items));
      gs[k] != [] && o <= gs[k][|gs[k]| - 1].at < Stop(items) && |Flatten(gs[..k + 1])| <= |es|
      && es[|Flatten(gs[..k + 1])|..] == Entries(items, gs[k][|gs[k]| - 1].at + 1, Stop(items))
  {
    hide Cut, Entries, Stop;
    var es := Entries(items, o, Stop(items));
    var gs := Cut(es, max);
    CutIsCut(es, max);
    assert Sized(gs[k], max);
    FlattenIndex(gs, k);
    EntriesAfter(items, o, Stop(items), |Flatten(gs[..k + 1])| - 1);
  }

  lemma GroupsMarked(items: seq<Item>, o: nat, max: nat)
    requires max > 0 && o <= |items|
    ensures Marked(items, Groups(items, o, max), o)
  {
    hide Cut, Entries, Stop;
    var all, gs := Cut(Entries(items, o, Stop(items)), max), Groups(items, o, max);
    DropIsPrefix(all, max);
    assert |gs| <= |all| && gs == all[..|gs|];
    forall j | 0 <= j < |gs| ensures gs[j] != [] { GroupEnds(items, o, max, j); }
    forall j | 0 < j <= |gs| ensures o < Mark(gs, o, j) <= |items| { GroupEnds(items, o, max, j - 1); }
  }

  lemma FlattenGrows(gs: seq<seq<Entry>>, i: nat)
    requires i < |gs|
    ensures |Flatten(gs[..i + 1])| == |Flatten(gs[..i])| + |gs[i]|
  {
    assert gs[..i + 1] == gs[..i] + [gs[i]];
    FlattenLast(gs[..i], gs[i]);
  }

  lemma NextGroupEnds(items: seq<Item>, o: nat, max: nat, i: nat)
    requires max > 0 && o <= |items| && 0 < i < |Cut(Entries(items, o, Stop(items)), max)|
    ensures var gs := Cut(Entries(items, o, Stop(items)), max);
      gs[i - 1] != [] && gs[i] != [] && gs[i - 1][|gs[i - 1]| - 1].at < gs[i][|gs[i]| - 1].at
  {
    hide Cut, Entries, Stop;
    var es := Entries(items, o, Stop(items));
    var gs := Cut(es, max);
    GroupEnds(items, o, max, i - 1);
    GroupEnds(items, o, max, i);
    FlattenGrows(gs, i);
    CutIsCut(es, max);
    FlattenIndex(gs, i);
    var n, lo := |Flatten(gs[..i])|, gs[i - 1][|gs[i - 1]| - 1].at + 1;
    var rest := Entries(items, lo, Stop(items));
    EntriesMeaning(items, lo, Stop(items));
    assert rest[|gs[i]| - 1] == es[n..][|gs[i]| - 1] == es[n + |gs[i]| - 1] == gs[i][|gs[i]| - 1];
  }

  /** Each chunk ends behind the one before it. */
  lemma MarksAscend(items: seq<Item>, o: nat, max: nat, i: nat)
    requires max > 0 && o <= |items| && i < |Groups(items, o, max)|
    ensures Marked(items, Groups(items, o, max), o)
    ensures Mark(Groups(items, o, max), o, i) < Mark(Groups(items, o, max), o, i + 1)
  {
    hide Cut, Entries, Stop, Bytes;
    GroupsMarked(items, o, max);
    DropIsPrefix(Cut(Entries(items, o, Stop(items)), max), max);
    GroupEnds(items, o, max, i);
    if i > 0 { NextGroupEnds(items, o, max, i); }
  }

  /** The chunks of one uninterrupted run. */
  ghost function FullChunks(items: seq<Item>, max: nat): seq<Chunk>
    requires max > 0
  {
    GroupsMarked(items, 0, max);
    ChunksOf(items, Groups(items, 0, max), 0, 0)
  }

  /** The chunks of a run that starts at item o with seq `start`. */
  ghost function ChunksFrom(items: seq<Item>, o: nat, start: nat, max: nat): seq<Chunk>
    requires max > 0 && o <= |items|
  {
    GroupsMarked(items, o, max);
    ChunksOf(items, Groups(items, o, max), start, o)
  }

  lemma DropPartialTail(gs: seq<seq<Entry>>, max: nat, k: nat)
    requires k <= |DropPartial(gs, max)|
    ensures k <= |gs| && DropPartial(gs[k..], max) == DropPartial(gs, max)[k..]
  {}

  lemma GroupsAfter(items: seq<Item>, max: nat, k: nat)
    requires max > 0 && k < |Groups(items, 0, max)|
    ensures var gs := Groups(items, 0, max);
      gs[k] != [] && Mark(gs[k..k + 1], 0, 1) <= |items| && Groups(items, Mark(gs[k..k + 1], 0, 1), max) == gs[k + 1..]
  {
    hide Cut, Entries, Stop;
    var es := Entries(items, 0, Stop(items));
    var all := Cut(es, max);
    DropIsPrefix(all, max);
    GroupEnds(items, 0, max, k);
    CutSuffix(es, max, k + 1);
    var o := all[k][|all[k]| - 1].at + 1;
    assert Cut(Entries(items, o, Stop(items)), max) == all[k + 1..];
    if Stop(items) < |items| { DropPartialTail(all, max, k + 1); }
  }

  /** The item behind the first n chunks of the uninterrupted run. */
  ghost function Boundary(items: seq<Item>, max: nat, n: nat): (b: nat)
    requires max > 0 && n <= |FullChunks(items, max)|
    ensures b <= |items|
  {
    GroupsMarked(items, 0, max);
    Mark(Groups(items, 0, max), 0, n)
  }

  /** Restarting behind chunk k's last line, with seqs from k+1, yields the remaining chunks of the
      uninterrupted run: same seqs, same bytes, same cursors, same audit deltas. */
  lemma ResumedChunks(items: seq<Item>, max: nat, k: nat)
    requires max > 0 && k < |FullChunks(items, max)|
    ensures ChunksFrom(items, Boundary(items, max, k + 1), k + 1, max) == FullChunks(items, max)[k + 1..]
  {
    hide Groups, Tally, DeltaList, Bytes;
    var gs := Groups(items, 0, max);
    GroupsMarked(items, 0, max);
    GroupsAfter(items, max, k);
    var o := Mark(gs, 0, k + 1);
    assert o == Mark(gs[k..k + 1], 0, 1);
    var rest := gs[k + 1..];
    GroupsMarked(items, o, max);
    var part, full := ChunksFrom(items, o, k + 1, max), FullChunks(items, max);
    forall i | 0 <= i < |rest| ensures part[i] == full[k + 1 + i] {
      assert part[i] == ChunkOf(items, rest, k + 1, o, i) && full[k + 1 + i] == ChunkOf(items, gs, 0, 0, k + 1 + i);
      assert Mark(rest, o, i) == Mark(gs, 0, k + 1 + i) && Mark(rest, o, i + 1) == Mark(gs, 0, k + 2 + i);
    }
  }
}
