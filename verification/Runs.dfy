/** partitionRuns: files whose time ranges cannot interleave are merged one after the other. Sound
    because the runs are ordered in time, and because at any timestamp only one run has anything. */
module Runs {
  import opened Orders
  import opened Values
  import opened SeriesSpec

  /** The time range one series spans in one file. */
  datatype Span = Span(min: int, max: int)

  ghost predicate Increasing(s: seq<nat>) {
    forall i, j :: 0 <= i < j < |s| ==> s[i] < s[j]
  }

  method SortedIntKeys(m: map<nat, Span>) returns (out: seq<nat>)
    ensures Increasing(out)
    ensures forall k :: k in out <==> k in m
  {
    out := [];
    var left := m.Keys;
    while left != {}
      invariant left <= m.Keys && Increasing(out)
      invariant forall k :: k in out <==> k in m && k !in left
      decreases left
    {
      var k :| k in left;
      out := InsertInt(k, out);
      left := left - {k};
    }
  }

  /** One step of sort.Ints. */
  function InsertInt(k: nat, s: seq<nat>): (r: seq<nat>)
    requires Increasing(s) && k !in s
    ensures Increasing(r)
    ensures forall x :: x in r <==> x == k || x in s
  {
    if s == [] || k < s[0] then [k] + s
    else
      assert s[0] in s && forall j :: 0 <= j < |s[1..]| ==> s[1..][j] == s[j + 1];
      var t := InsertInt(k, s[1..]);
      assert forall j :: 0 <= j < |t| ==> t[j] in t;
      [s[0]] + t
  }

  /** sort.Ints on distinct integers. */
  function SortInts(s: seq<nat>): (r: seq<nat>)
    requires forall i, j :: 0 <= i < j < |s| ==> s[i] != s[j]
    ensures Increasing(r)
    ensures forall x :: x in r <==> x in s
  {
    if s == [] then [] else InsertInt(s[0], SortInts(s[1..]))
  }

  predicate Earlier(byFile: map<nat, Span>, a: nat, b: nat)
    requires a in byFile && b in byFile
  {
    if byFile[a].min != byFile[b].min then byFile[a].min < byFile[b].min else a < b
  }

  ghost predicate ByStart(byFile: map<nat, Span>, s: seq<nat>) {
    && (forall x :: x in s ==> x in byFile)
    && (forall i, j :: 0 <= i < j < |s| ==> s[i] != s[j] && byFile[s[i]].min <= byFile[s[j]].min)
  }

  /** One step of the stable sort by start time. */
  function InsertByStart(byFile: map<nat, Span>, k: nat, s: seq<nat>): (r: seq<nat>)
    requires ByStart(byFile, s) && k in byFile && k !in s
    ensures ByStart(byFile, r)
    ensures forall x :: x in r <==> x == k || x in s
  {
    if s == [] || !Earlier(byFile, s[0], k) then [k] + s
    else
      assert s[0] in s && forall j :: 0 <= j < |s[1..]| ==> s[1..][j] == s[j + 1];
      var t := InsertByStart(byFile, k, s[1..]);
      assert forall j :: 0 <= j < |t| ==> t[j] in t;
      [s[0]] + t
  }

  function SortByStart(byFile: map<nat, Span>, s: seq<nat>): (r: seq<nat>)
    requires forall x :: x in s ==> x in byFile
    requires forall i, j :: 0 <= i < j < |s| ==> s[i] != s[j]
    ensures ByStart(byFile, r)
    ensures forall x :: x in r <==> x in s
  {
    if s == [] then [] else InsertByStart(byFile, s[0], SortByStart(byFile, s[1..]))
  }

  /** Every file of r ends strictly before every file of s begins. */
  ghost predicate EndsFirst(byFile: map<nat, Span>, r: seq<nat>, s: seq<nat>) {
    forall x, y :: x in r && y in s ==> x in byFile && y in byFile && byFile[x].max < byFile[y].min
  }

  /** Every file of an earlier run ends strictly before every file of a later run begins. */
  ghost predicate InTime(byFile: map<nat, Span>, runs: seq<seq<nat>>) {
    forall a, b :: 0 <= a < b < |runs| ==> EndsFirst(byFile, runs[a], runs[b])
  }

  ghost predicate AllAscend(runs: seq<seq<nat>>) {
    forall a :: 0 <= a < |runs| ==> Increasing(runs[a])
  }

  ghost predicate InRuns(runs: seq<seq<nat>>, x: nat) {
    exists a :: 0 <= a < |runs| && x in runs[a]
  }

  /** Every file is in exactly one run. */
  ghost predicate Partition(byFile: map<nat, Span>, runs: seq<seq<nat>>) {
    && (forall x :: x in byFile <==> InRuns(runs, x))
    && (forall a, b, x :: 0 <= a < b < |runs| && x in runs[a] ==> x !in runs[b])
  }

  /** The loop's state: the closed runs and the open one hold the files seen so far. */
  ghost predicate Building(byFile: map<nat, Span>, seen: seq<nat>, runs: seq<seq<nat>>, cur: seq<nat>, curMax: int) {
    && (forall x :: x in seen <==> x in cur || InRuns(runs, x))
    && (forall x :: x in seen ==> x in byFile)
    && (forall x :: x in cur ==> x in byFile && byFile[x].max <= curMax)
    && (forall j, k :: 0 <= j < k < |cur| ==> cur[j] != cur[k])
    && (forall a :: 0 <= a < |runs| ==> Increasing(runs[a]) && runs[a] != [])
    && InTime(byFile, runs + [cur])
    && (forall a, b, x :: 0 <= a < b < |runs| && x in runs[a] ==> x !in runs[b])
    && (forall x :: x in cur ==> !InRuns(runs, x))
  }

  lemma CloseRun(byFile: map<nat, Span>, seen: seq<nat>, runs: seq<seq<nat>>, cur: seq<nat>, curMax: int, max': int)
    requires Building(byFile, seen, runs, cur, curMax) && cur != []
    ensures Building(byFile, seen, runs + [SortInts(cur)], [], max')
  {
    var r := SortInts(cur);
    var runs' := runs + [r];
    assert r != [] by { assert cur[0] in r; }
    ClosedInTime(byFile, runs, cur, r);
    hide InTime;
    forall x ensures InRuns(runs', x) <==> x in cur || InRuns(runs, x) {
      if x in cur { assert runs'[|runs|] == r && x in runs'[|runs|]; }
      if a :| 0 <= a < |runs| && x in runs[a] { assert x in runs'[a]; }
    }
  }

  lemma ClosedInTime(byFile: map<nat, Span>, runs: seq<seq<nat>>, cur: seq<nat>, r: seq<nat>)
    requires InTime(byFile, runs + [cur]) && forall x :: x in r <==> x in cur
    ensures InTime(byFile, runs + [r] + [[]])
  {
    var runs' := runs + [r] + [[]];
    forall a, b | 0 <= a < b < |runs'| ensures EndsFirst(byFile, runs'[a], runs'[b]) {
      if b <= |runs| { assert EndsFirst(byFile, (runs + [cur])[a], (runs + [cur])[b]); }
    }
  }

  lemma GrownInTime(byFile: map<nat, Span>, runs: seq<seq<nat>>, cur: seq<nat>, fi: nat)
    requires InTime(byFile, runs + [cur]) && fi in byFile && EndBefore(byFile, runs, byFile[fi].min)
    ensures InTime(byFile, runs + [cur + [fi]])
  {
    var runs' := runs + [cur + [fi]];
    forall a, b | 0 <= a < b < |runs'| ensures EndsFirst(byFile, runs'[a], runs'[b]) {
      assert EndsFirst(byFile, (runs + [cur])[a], (runs + [cur])[b]);
      assert forall x :: x in runs[a] ==> InRuns(runs, x);
    }
  }

  lemma AddFile(byFile: map<nat, Span>, seen: seq<nat>, runs: seq<seq<nat>>, cur: seq<nat>, curMax: int, fi: nat, max': int)
    requires Building(byFile, seen, runs, cur, curMax)
    requires fi in byFile && fi !in seen && max' >= curMax && max' >= byFile[fi].max
    requires EndBefore(byFile, runs, byFile[fi].min)
    ensures Building(byFile, seen + [fi], runs, cur + [fi], max')
  {
    GrownInTime(byFile, runs, cur, fi);
    hide InTime;
  }

  lemma NoFiles(byFile: map<nat, Span>, curMax: int)
    ensures Building(byFile, [], [], [], curMax)
    ensures forall t :: EndBefore(byFile, [], t)
  {
    assert forall x :: !InRuns([], x);
  }

  lemma OneRun(byFile: map<nat, Span>, fis: seq<nat>)
    requires forall k :: k in fis <==> k in byFile
    requires Increasing(fis)
    ensures Partition(byFile, [fis]) && InTime(byFile, [fis]) && AllAscend([fis])
  {
    forall x ensures InRuns([fis], x) <==> x in fis {
      if x in fis { assert x in [fis][0]; }
    }
  }

  ghost predicate EndBefore(byFile: map<nat, Span>, runs: seq<seq<nat>>, t: int) {
    forall x :: InRuns(runs, x) ==> x in byFile && byFile[x].max < t
  }

  /** A closed run ends before the file that closed it begins. */
  lemma Closing(byFile: map<nat, Span>, seen: seq<nat>, runs: seq<seq<nat>>, cur: seq<nat>, curMax: int, t: int)
    requires Building(byFile, seen, runs, cur, curMax) && t > curMax && EndBefore(byFile, runs, t)
    ensures EndBefore(byFile, runs + [SortInts(cur)], t)
  {
    forall x | InRuns(runs + [SortInts(cur)], x) ensures x in byFile && byFile[x].max < t {
      var a :| 0 <= a < |runs + [SortInts(cur)]| && x in (runs + [SortInts(cur)])[a];
      if a < |runs| {
        assert x in runs[a];
        assert InRuns(runs, x);
      }
    }
  }

  lemma StillBefore(byFile: map<nat, Span>, runs: seq<seq<nat>>, t: int, u: int)
    requires EndBefore(byFile, runs, t) && t <= u
    ensures EndBefore(byFile, runs, u)
  {}

  lemma OpenIsDistinct(byFile: map<nat, Span>, seen: seq<nat>, runs: seq<seq<nat>>, cur: seq<nat>, curMax: int)
    requires Building(byFile, seen, runs, cur, curMax)
    ensures forall j, k :: 0 <= j < k < |cur| ==> cur[j] != cur[k]
  {}

  lemma Finished(byFile: map<nat, Span>, order: seq<nat>, runs: seq<seq<nat>>)
    requires Building(byFile, order, runs, [], 0) && forall x :: x in order <==> x in byFile
    ensures Partition(byFile, runs) && InTime(byFile, runs) && AllAscend(runs)
  {
    forall a, b, x, y | 0 <= a < b < |runs| && x in runs[a] && y in runs[b]
      ensures x in byFile && y in byFile && byFile[x].max < byFile[y].min
    {
      assert x in (runs + [[]])[a] && y in (runs + [[]])[b];
    }
  }

  method PartitionRuns(byFile: map<nat, Span>, hasWAL: bool) returns (runs: seq<seq<nat>>)
    ensures Partition(byFile, runs) && InTime(byFile, runs) && AllAscend(runs)
    ensures hasWAL ==> |runs| == 1
  {
    hide InTime, Partition, AllAscend;
    var fis := SortedIntKeys(byFile);
    if hasWAL || |fis| < 2 {
      OneRun(byFile, fis);
      return [fis];
    }
    var order := SortByStart(byFile, fis);
    assert fis[0] in order;
    runs := RunsInOrder(byFile, order);
  }

  /** Cuts the files, ordered by start, wherever the next one begins after everything before it ended;
      within a run the file order is restored. */
  method RunsInOrder(byFile: map<nat, Span>, order: seq<nat>) returns (runs: seq<seq<nat>>)
    requires ByStart(byFile, order) && order != [] && forall k :: k in order <==> k in byFile
    ensures Partition(byFile, runs) && InTime(byFile, runs) && AllAscend(runs)
  {
    hide Building, EndBefore, Partition, InTime, AllAscend, InRuns, SortInts;
    runs := [];
    var cur: seq<nat> := [];
    var curMax: int := MIN_TIME;
    assert order[..0] == [];
    NoFiles(byFile, curMax);
    for i := 0 to |order|
      invariant Building(byFile, order[..i], runs, cur, curMax)
      invariant i > 0 ==> cur != []
      invariant i < |order| ==> EndBefore(byFile, runs, byFile[order[i]].min)
    {
      var fi := order[i];
      assert order[..i + 1] == order[..i] + [fi];
      OpenIsDistinct(byFile, order[..i], runs, cur, curMax);
      if |cur| > 0 && byFile[fi].min > curMax {
        Closing(byFile, order[..i], runs, cur, curMax, byFile[fi].min);
        CloseRun(byFile, order[..i], runs, cur, curMax, MIN_TIME);
        runs := runs + [SortInts(cur)];
        cur, curMax := [], MIN_TIME;
      }
      AddFile(byFile, order[..i], runs, cur, curMax, fi, if byFile[fi].max > curMax then byFile[fi].max else curMax);
      cur := cur + [fi];
      if byFile[fi].max > curMax { curMax := byFile[fi].max; }
      if i + 1 < |order| { StillBefore(byFile, runs, byFile[fi].min, byFile[order[i + 1]].min); }
    }
    assert order[..|order|] == order;
    OpenIsDistinct(byFile, order, runs, cur, curMax);
    CloseRun(byFile, order, runs, cur, curMax, 0);
    runs := runs + [SortInts(cur)];
    Finished(byFile, order, runs);
  }

  /** Files whose ranges overlap share a run. */
  lemma OverlapSharesRun(byFile: map<nat, Span>, runs: seq<seq<nat>>, x: nat, y: nat, a: nat, b: nat)
    requires Partition(byFile, runs) && InTime(byFile, runs) && x in byFile && y in byFile
    requires byFile[x].min <= byFile[y].max && byFile[y].min <= byFile[x].max
    requires a < |runs| && b < |runs| && x in runs[a] && y in runs[b]
    ensures a == b
  {}

  // ---- run by run is all at once ----

  /** The sources of several files, in list order. */
  ghost function SrcsOf(f: nat -> seq<Src>, fis: seq<nat>): seq<Src> {
    if fis == [] then [] else f(fis[0]) + SrcsOf(f, fis[1..])
  }

  /** The files keep what they have at t within their time range. */
  ghost predicate InSpan(f: nat -> seq<Src>, byFile: map<nat, Span>) {
    forall fi, n, t :: fi in byFile && Occurs(f(fi), n, t) ==> byFile[fi].min <= t <= byFile[fi].max
  }

  lemma {:induction false} FieldValsConcat(a: seq<Src>, b: seq<Src>, n: Str)
    ensures FieldVals(a + b, n) == FieldVals(a, n) + FieldVals(b, n)
    decreases |a|
  {
    if a == [] {
      assert a + b == b;
    } else {
      assert (a + b)[1..] == a[1..] + b;
      FieldValsConcat(a[1..], b, n);
    }
  }

  lemma ContentConcat(a: seq<Src>, b: seq<Src>, n: Str, t: int)
    ensures Content(a + b, n, t) == Content(a, n, t) + Content(b, n, t)
  {
    FieldValsConcat(a, b, n);
    AtConcat(FieldVals(a, n), FieldVals(b, n), t);
  }

  function Kept(all: seq<nat>, keep: set<nat>): seq<nat> {
    if all == [] then [] else (if all[0] in keep then [all[0]] else []) + Kept(all[1..], keep)
  }

  lemma {:induction false} KeptIncreases(all: seq<nat>, keep: set<nat>)
    requires Increasing(all)
    ensures Increasing(Kept(all, keep))
    ensures forall x :: x in Kept(all, keep) <==> x in all && x in keep
    decreases |all|
  {
    hide Kept;
    KeptMembers(all, keep);
    if all == [] {
      KeptNone(keep);
    } else {
      var t := all[1..];
      assert forall j :: 0 <= j < |t| ==> t[j] == all[j + 1];
      KeptIncreases(t, keep);
      KeptCons(all, keep);
      var r := Kept(t, keep);
      forall j | 0 <= j < |r| ensures all[0] < r[j] {
        assert r[j] in r && r[j] in t;
        var k :| 0 <= k < |t| && t[k] == r[j];
        assert all[0] < all[k + 1];
      }
    }
  }

  lemma KeptNone(keep: set<nat>)
    ensures Kept([], keep) == []
  {}

  lemma KeptCons(all: seq<nat>, keep: set<nat>)
    requires all != []
    ensures Kept(all, keep) == if all[0] in keep then [all[0]] + Kept(all[1..], keep) else Kept(all[1..], keep)
  {}

  lemma IncreasingUnique(a: seq<nat>, b: seq<nat>)
    requires Increasing(a) && Increasing(b) && forall x :: x in a <==> x in b
    ensures a == b
  {
    IntTotal();
    forall i, j | 0 <= i < j < |a| ensures IntLess(a[i], a[j]) {}
    forall i, j | 0 <= i < j < |b| ensures IntLess(b[i], b[j]) {}
    var c: seq<int>, d: seq<int> := a, b;
    forall x: int ensures x in c <==> x in d {
      if x in c { assert (x as nat) in a; }
      if x in d { assert (x as nat) in b; }
    }
    SortedUnique(c, d, IntLess);
  }

  /** Leaving out files that have nothing at t changes nothing at t. */
  lemma {:induction false} LeaveOut(f: nat -> seq<Src>, all: seq<nat>, keep: set<nat>, n: Str, t: int)
    requires forall x :: x in all && x !in keep ==> !Occurs(f(x), n, t)
    ensures Content(SrcsOf(f, all), n, t) == Content(SrcsOf(f, Kept(all, keep)), n, t)
    decreases |all|
  {
    hide Content;
    if all != [] {
      ContentConcat(f(all[0]), SrcsOf(f, all[1..]), n, t);
      LeaveOut(f, all[1..], keep, n, t);
      var k := Kept(all[1..], keep);
      if all[0] in keep {
        assert Kept(all, keep)[1..] == k;
        ContentConcat(f(all[0]), SrcsOf(f, k), n, t);
      } else {
        assert all[0] in all && Kept(all, keep) == k;
      }
    }
  }

  /** The points of one run after the other. */
  ghost function RunPoints(sk: Str, f: nat -> seq<Src>, runs: seq<seq<nat>>, lo: int, hi: int): seq<Point> {
    if runs == [] then [] else SeriesPoints(sk, SrcsOf(f, runs[0]), lo, hi) + RunPoints(sk, f, runs[1..], lo, hi)
  }

  lemma KeptAgrees(f: nat -> seq<Src>, all: seq<nat>, keep: set<nat>, lo: int, hi: int)
    requires forall x, n, t :: x in all && x !in keep && lo <= t <= hi ==> !Occurs(f(x), n, t)
    ensures Agree(SrcsOf(f, all), SrcsOf(f, Kept(all, keep)), lo, hi)
  {
    forall t | lo <= t <= hi ensures AgreeAt(SrcsOf(f, all), SrcsOf(f, Kept(all, keep)), t) {
      forall n ensures Content(SrcsOf(f, all), n, t) == Content(SrcsOf(f, Kept(all, keep)), n, t) {
        LeaveOut(f, all, keep, n, t);
      }
    }
  }

  lemma {:induction false} NoneOccur(f: nat -> seq<Src>, fis: seq<nat>, n: Str, t: int)
    requires forall x :: x in fis ==> !Occurs(f(x), n, t)
    ensures !Occurs(SrcsOf(f, fis), n, t)
    decreases |fis|
  {
    if fis != [] {
      ContentConcat(f(fis[0]), SrcsOf(f, fis[1..]), n, t);
      NoneOccur(f, fis[1..], n, t);
    }
  }

  lemma {:induction false} LatestEnd(byFile: map<nat, Span>, run: seq<nat>) returns (m: int)
    requires run != [] && forall x :: x in run ==> x in byFile
    ensures (forall x :: x in run ==> byFile[x].max <= m) && exists x :: x in run && byFile[x].max == m
    decreases |run|
  {
    m := byFile[run[0]].max;
    if |run| > 1 {
      var k := LatestEnd(byFile, run[1..]);
      if k > m { m := k; }
    }
    assert run[0] in run;
  }

  /** A file that has nothing between lo and hi. */
  ghost predicate Silent(src: seq<Src>, lo: int, hi: int) {
    forall n, t :: lo <= t <= hi ==> !Occurs(src, n, t)
  }

  lemma OutOfSpan(f: nat -> seq<Src>, byFile: map<nat, Span>, x: nat, lo: int, hi: int)
    requires InSpan(f, byFile) && x in byFile && (byFile[x].max < lo || hi < byFile[x].min)
    ensures Silent(f(x), lo, hi)
  {}

  lemma OthersSilent(sk: Str, f: nat -> seq<Src>, all: seq<nat>, keep: set<nat>, lo: int, hi: int)
    requires forall x :: x in all && x !in keep ==> Silent(f(x), lo, hi)
    ensures SeriesPoints(sk, SrcsOf(f, all), lo, hi) == SeriesPoints(sk, SrcsOf(f, Kept(all, keep)), lo, hi)
  {
    hide SeriesPoints, SrcsOf, Kept, Occurs;
    KeptAgrees(f, all, keep, lo, hi);
    SamePoints(sk, SrcsOf(f, all), SrcsOf(f, Kept(all, keep)), lo, hi);
  }

  lemma AllSilent(sk: Str, f: nat -> seq<Src>, fis: seq<nat>, lo: int, hi: int)
    requires forall x :: x in fis ==> Silent(f(x), lo, hi)
    ensures SeriesPoints(sk, SrcsOf(f, fis), lo, hi) == []
  {
    hide SeriesPoints, SrcsOf, Occurs;
    forall n, t | lo <= t <= hi ensures !Occurs(SrcsOf(f, fis), n, t) { NoneOccur(f, fis, n, t); }
    NoPoints(sk, SrcsOf(f, fis), lo, hi);
  }

  /** Two groups of files, one all before the cut, the other all after: merging them one after the other
      is merging them together. */
  lemma TwoGroups(sk: Str, f: nat -> seq<Src>, byFile: map<nat, Span>, all: seq<nat>, first: set<nat>, m: int,
      lo: int, hi: int)
    requires InSpan(f, byFile) && forall x :: x in all ==> x in byFile
    requires forall x :: x in all && x in first ==> byFile[x].max <= m
    requires forall x :: x in all && x !in first ==> m < byFile[x].min
    ensures SeriesPoints(sk, SrcsOf(f, all), lo, hi) ==
      SeriesPoints(sk, SrcsOf(f, Kept(all, first)), lo, hi) +
      SeriesPoints(sk, SrcsOf(f, Kept(all, (set x | x in all) - first)), lo, hi)
  {
    hide SeriesPoints, SrcsOf, Kept, Silent, InSpan;
    var later := (set x | x in all) - first;
    if lo > hi {
      NoPoints(sk, SrcsOf(f, all), lo, hi);
      NoPoints(sk, SrcsOf(f, Kept(all, first)), lo, hi);
      NoPoints(sk, SrcsOf(f, Kept(all, later)), lo, hi);
    } else {
      var c := if m < lo then lo - 1 else if m > hi then hi else m;
      KeptMembers(all, first);
      KeptMembers(all, later);
      SplitPoints(sk, SrcsOf(f, all), lo, c, hi);
      SplitPoints(sk, SrcsOf(f, Kept(all, first)), lo, c, hi);
      SplitPoints(sk, SrcsOf(f, Kept(all, later)), lo, c, hi);
      forall x | x in all && x !in first ensures Silent(f(x), lo, c) {
        if c >= lo { OutOfSpan(f, byFile, x, lo, c); } else { NoTime(f(x), lo, c); }
      }
      forall x | x in all && x in first ensures Silent(f(x), c + 1, hi) {
        if c < hi { OutOfSpan(f, byFile, x, c + 1, hi); } else { NoTime(f(x), c + 1, hi); }
      }
      OthersSilent(sk, f, all, first, lo, c);
      OthersSilent(sk, f, all, later, c + 1, hi);
      AllSilent(sk, f, Kept(all, first), c + 1, hi);
      AllSilent(sk, f, Kept(all, later), lo, c);
    }
  }

  lemma NoTime(src: seq<Src>, lo: int, hi: int)
    requires lo > hi
    ensures Silent(src, lo, hi)
  {}

  lemma {:induction false} KeptMembers(all: seq<nat>, keep: set<nat>)
    ensures forall x :: x in Kept(all, keep) <==> x in all && x in keep
    decreases |all|
  {
    if all != [] { KeptMembers(all[1..], keep); }
  }

  /** runs is a time-ordered partition of the files in all. */
  ghost predicate RunsOf(byFile: map<nat, Span>, runs: seq<seq<nat>>, all: seq<nat>) {
    && Increasing(all) && (forall x :: x in all ==> x in byFile)
    && (forall x :: x in all <==> InRuns(runs, x))
    && (forall a, b, x :: 0 <= a < b < |runs| && x in runs[a] ==> x !in runs[b])
    && InTime(byFile, runs) && AllAscend(runs)
  }

  lemma FirstRun(byFile: map<nat, Span>, runs: seq<seq<nat>>, all: seq<nat>)
    requires RunsOf(byFile, runs, all) && runs != []
    ensures Kept(all, set x | x in runs[0]) == runs[0]
    ensures forall x :: x in runs[0] ==> x in all
  {
    forall x | x in runs[0] ensures x in all { assert InRuns(runs, x); }
    KeptIncreases(all, set x | x in runs[0]);
    IncreasingUnique(Kept(all, set x | x in runs[0]), runs[0]);
  }

  lemma LaterInTime(byFile: map<nat, Span>, runs: seq<seq<nat>>)
    requires InTime(byFile, runs) && runs != []
    ensures InTime(byFile, runs[1..])
  {
    var rest := runs[1..];
    assert forall a :: 0 <= a < |rest| ==> rest[a] == runs[a + 1];
  }

  lemma OtherRuns(byFile: map<nat, Span>, runs: seq<seq<nat>>, all: seq<nat>, later: set<nat>)
    requires RunsOf(byFile, runs, all) && runs != []
    requires forall x :: x in later <==> x in all && x !in runs[0]
    ensures RunsOf(byFile, runs[1..], Kept(all, later))
  {
    LaterInTime(byFile, runs);
    hide InTime;
    var rest := runs[1..];
    assert forall a :: 0 <= a < |rest| ==> rest[a] == runs[a + 1];
    KeptIncreases(all, later);
    forall x ensures x in Kept(all, later) <==> InRuns(rest, x) {
      if InRuns(rest, x) {
        var a :| 0 <= a < |rest| && x in rest[a];
        assert x in runs[a + 1] && InRuns(runs, x);
      }
      if x in Kept(all, later) {
        var a :| 0 <= a < |runs| && x in runs[a];
        assert a > 0 && x in rest[a - 1];
      }
    }
  }

  /** Merging run by run equals merging all the files at once. */
  lemma {:induction false} RunByRun(sk: Str, f: nat -> seq<Src>, byFile: map<nat, Span>, runs: seq<seq<nat>>,
      all: seq<nat>, lo: int, hi: int)
    requires InSpan(f, byFile) && RunsOf(byFile, runs, all)
    ensures SeriesPoints(sk, SrcsOf(f, all), lo, hi) == RunPoints(sk, f, runs, lo, hi)
    decreases |runs|
  {
    hide SeriesPoints, SrcsOf, InSpan, Kept, InTime, AllAscend;
    if runs == [] {
      assert forall x :: !InRuns(runs, x);
      AllGone(sk, f, all, lo, hi);
    } else {
      var first := set x | x in runs[0];
      var later := (set x | x in all) - first;
      FirstRun(byFile, runs, all);
      OtherRuns(byFile, runs, all, later);
      var m := CutAfter(byFile, runs, all);
      hide RunsOf;
      RunByRun(sk, f, byFile, runs[1..], Kept(all, later), lo, hi);
      TwoGroups(sk, f, byFile, all, first, m, lo, hi);
    }
  }

  lemma AllGone(sk: Str, f: nat -> seq<Src>, all: seq<nat>, lo: int, hi: int)
    requires forall x :: x !in all
    ensures SeriesPoints(sk, SrcsOf(f, all), lo, hi) == []
  {
    forall n, t | lo <= t <= hi ensures !Occurs(SrcsOf(f, all), n, t) { NoneOccur(f, all, n, t); }
    NoPoints(sk, SrcsOf(f, all), lo, hi);
  }

  /** A time after the first run and before every other one. */
  lemma CutAfter(byFile: map<nat, Span>, runs: seq<seq<nat>>, all: seq<nat>) returns (m: int)
    requires runs != [] && InTime(byFile, runs) && forall x :: x in all <==> InRuns(runs, x)
    requires forall x :: x in all ==> x in byFile
    requires forall x :: x in runs[0] ==> x in all
    ensures forall x :: x in all && x in runs[0] ==> byFile[x].max <= m
    ensures forall x :: x in all && x !in runs[0] ==> m < byFile[x].min
  {
    if runs[0] == [] {
      m := Below(byFile, all);
    } else {
      m := LatestEnd(byFile, runs[0]);
      var z :| z in runs[0] && byFile[z].max == m;
      hide InTime, InRuns;
      forall x | x in all && x !in runs[0] ensures m < byFile[x].min { LaterRun(byFile, runs, x, z); }
    }
  }

  lemma LaterRun(byFile: map<nat, Span>, runs: seq<seq<nat>>, x: nat, z: nat)
    requires runs != [] && InTime(byFile, runs) && InRuns(runs, x) && x !in runs[0] && z in runs[0]
    ensures x in byFile && z in byFile && byFile[z].max < byFile[x].min
  {
    var a :| 0 <= a < |runs| && x in runs[a];
    assert 0 < a;
    assert EndsFirst(byFile, runs[0], runs[a]);
  }

  lemma {:induction false} Below(byFile: map<nat, Span>, all: seq<nat>) returns (m: int)
    requires forall x :: x in all ==> x in byFile
    ensures forall x :: x in all ==> m < byFile[x].min
    decreases |all|
  {
    m := 0;
    if all != [] {
      m := Below(byFile, all[1..]);
      if m >= byFile[all[0]].min { m := byFile[all[0]].min - 1; }
    }
  }
}
