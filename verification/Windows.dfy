/** Splitting a run into time windows.

    Window membership is a pure function of the timestamp: the windows tile the run's span, so the
    windows' points, one window after the other, are the run's points. Index entries only choose the cut
    points and prune streams that have nothing in a window. */
module Windows {
  import opened Orders
  import opened Blocks
  import opened SeriesSpec
  import opened Words

  datatype Window = Window(lo: int, hi: int)

  /** Consecutive inclusive windows from lo to hi. */
  ghost predicate Tiles(ws: seq<Window>, lo: int, hi: int) {
    && ws != [] && ws[0].lo == lo && ws[|ws| - 1].hi == hi
    && (forall i :: 0 <= i < |ws| - 1 ==> ws[i].lo <= ws[i].hi && ws[i + 1].lo == ws[i].hi + 1)
  }

  /** Go's division truncates toward zero. */
  function TruncDiv(a: int, b: int): int
    requires b > 0
  {
    if a >= 0 then a / b else -((-a) / b)
  }

  predicate EntryLess(a: Block, b: Block) {
    if a.min != b.min then a.min < b.min else a.max < b.max
  }

  function InsertEntry(e: Block, es: seq<Block>): seq<Block> {
    if es == [] || !EntryLess(es[0], e) then [e] + es else [es[0]] + InsertEntry(e, es[1..])
  }

  function SortEntries(es: seq<Block>): seq<Block> {
    if es == [] then [] else InsertEntry(es[0], SortEntries(es[1..]))
  }

  method TotalSize(es: seq<Block>) returns (total: int)
  {
    total := 0;
    for i := 0 to |es| { total := Wrap64(total + es[i].size); }
  }

  /** Up to k - 1 cut points, strictly increasing and below max, at which the windows carry roughly equal
      bytes. */
  method ChooseSplits(es: seq<Block>, max: int, k: int) returns (splits: seq<int>)
    ensures forall i :: 0 <= i < |splits| ==> splits[i] < max
    ensures forall i, j :: 0 <= i < j < |splits| ==> splits[i] < splits[j]
    ensures |splits| <= if k > 1 then k - 1 else 0
  {
    var total := TotalSize(es);
    var cum, next := 0, 1;
    splits := [];
    for i := 0 to |es|
      invariant forall j :: 0 <= j < |splits| ==> splits[j] < max
      invariant forall a, b :: 0 <= a < b < |splits| ==> splits[a] < splits[b]
      invariant |splits| < next && (next == 1 || next <= k)
    {
      cum := Wrap64(cum + es[i].size);
      if next < k && cum >= TruncDiv(Wrap64(total * next), k) {
        var s := es[i].max;
        if s < max && (|splits| == 0 || s > splits[|splits| - 1]) { splits := splits + [s]; }
        next := next + 1;
      }
    }
  }

  /** Inclusive disjoint windows covering [min, max]. */
  method SplitWindows(entries: seq<Block>, min: int, max: int, k: int) returns (out: seq<Window>)
    ensures Tiles(out, min, max)
    ensures |out| <= if k > 1 then k else 1
    ensures if min <= max then forall i :: 0 <= i < |out| ==> out[i].lo <= out[i].hi else |out| == 1
  {
    var splits := ChooseSplits(SortEntries(entries), max, k);
    out := [];
    var start := min;
    for i := 0 to |splits|
      invariant |out| <= i
      invariant forall j :: 0 <= j < |out| ==> out[j].lo <= out[j].hi
      invariant forall j :: 0 <= j < |out| - 1 ==> out[j + 1].lo == out[j].hi + 1
      invariant if out == [] then start == min else out[0].lo == min && start == out[|out| - 1].hi + 1
      invariant if min <= max then start <= max else out == []
    {
      var s := splits[i];
      if s >= start {
        out := out + [Window(start, s)];
        start := s + 1;
      }
    }
    out := out + [Window(start, max)];
  }

  method AnyIntersects(entries: seq<Block>, w0: int, w1: int) returns (found: bool)
    ensures found <==> exists e :: e in entries && Intersects(e, w0, w1)
  {
    for i := 0 to |entries|
      invariant forall j :: 0 <= j < i ==> !Intersects(entries[j], w0, w1)
    {
      if entries[i].min <= w1 && entries[i].max >= w0 {
        assert Intersects(entries[i], w0, w1);
        return true;
      }
    }
    return false;
  }

  // ---- window after window is all at once ----

  function Max(a: int, b: int): int { if a > b then a else b }
  function Min(a: int, b: int): int { if a < b then a else b }

  /** The points of a window clipped to [s, e]. */
  ghost function Clipped(sk: Str, srcs: seq<Src>, w: Window, s: int, e: int): seq<Point> {
    SeriesPoints(sk, srcs, Max(w.lo, s), Min(w.hi, e))
  }

  ghost function WindowsOut(sk: Str, srcs: seq<Src>, ws: seq<Window>, s: int, e: int): seq<Point> {
    if ws == [] then [] else Clipped(sk, srcs, ws[0], s, e) + WindowsOut(sk, srcs, ws[1..], s, e)
  }

  lemma EmptyRange(sk: Str, srcs: seq<Src>, lo: int, hi: int)
    requires lo > hi
    ensures SeriesPoints(sk, srcs, lo, hi) == []
  {
    NoPoints(sk, srcs, lo, hi);
  }

  /** Clipping commutes with splitting. */
  lemma SplitClipped(sk: Str, srcs: seq<Src>, lo: int, m: int, hi: int, s: int, e: int)
    requires lo <= m + 1
    ensures Clipped(sk, srcs, Window(lo, Max(m, hi)), s, e) ==
      Clipped(sk, srcs, Window(lo, m), s, e) + Clipped(sk, srcs, Window(m + 1, Max(m, hi)), s, e)
  {
    hide SeriesPoints;
    var h := Max(m, hi);
    if m < s {
      EmptyRange(sk, srcs, Max(lo, s), Min(m, e));
    } else if m >= e {
      EmptyRange(sk, srcs, Max(m + 1, s), Min(h, e));
    } else if Max(lo, s) <= m + 1 {
      SplitPoints(sk, srcs, Max(lo, s), m, Min(h, e));
    }
  }

  lemma TilesTail(ws: seq<Window>, lo: int, hi: int)
    requires Tiles(ws, lo, hi) && |ws| > 1
    ensures Tiles(ws[1..], ws[0].hi + 1, hi) && ws[0].lo == lo <= ws[0].hi
  {
    assert forall i :: 0 <= i < |ws[1..]| ==> ws[1..][i] == ws[i + 1];
  }

  lemma {:induction false} TilesCover(sk: Str, srcs: seq<Src>, ws: seq<Window>, lo: int, hi: int, s: int, e: int)
    requires Tiles(ws, lo, hi) && lo <= hi && (forall i :: 0 <= i < |ws| ==> ws[i].lo <= ws[i].hi)
    ensures WindowsOut(sk, srcs, ws, s, e) == Clipped(sk, srcs, Window(lo, hi), s, e)
    decreases |ws|
  {
    hide SeriesPoints, Clipped;
    if |ws| == 1 {
      assert ws[1..] == [];
    } else {
      TilesTail(ws, lo, hi);
      assert ws[1].lo <= ws[1].hi;
      assert forall i :: 0 <= i < |ws[1..]| ==> ws[1..][i] == ws[i + 1];
      TilesOrdered(ws[1..], ws[0].hi + 1, hi);
      TilesCover(sk, srcs, ws[1..], ws[0].hi + 1, hi, s, e);
      SplitClipped(sk, srcs, lo, ws[0].hi, hi, s, e);
      assert ws[0] == Window(lo, ws[0].hi);
    }
  }

  lemma {:induction false} TilesOrdered(ws: seq<Window>, lo: int, hi: int)
    requires Tiles(ws, lo, hi) && forall i :: 0 <= i < |ws| ==> ws[i].lo <= ws[i].hi
    ensures lo <= hi
    decreases |ws|
  {
    if |ws| > 1 {
      TilesTail(ws, lo, hi);
      assert forall i :: 0 <= i < |ws[1..]| ==> ws[1..][i] == ws[i + 1];
      TilesOrdered(ws[1..], ws[0].hi + 1, hi);
    }
  }

  /** A run whose content lies in [lo, hi], cut into windows: their clipped points are the run's points
      in [s, e], whatever the cuts. */
  lemma WindowsAddUp(sk: Str, srcs: seq<Src>, ws: seq<Window>, lo: int, hi: int, s: int, e: int)
    requires Tiles(ws, lo, hi) && (lo <= hi ==> forall i :: 0 <= i < |ws| ==> ws[i].lo <= ws[i].hi)
    requires lo > hi ==> |ws| == 1
    requires forall n, t :: Occurs(srcs, n, t) ==> lo <= t <= hi
    ensures WindowsOut(sk, srcs, ws, s, e) == SeriesPoints(sk, srcs, s, e)
  {
    hide SeriesPoints, Occurs;
    if lo > hi {
      assert ws[1..] == [];
      NoPoints(sk, srcs, s, e);
      NoPoints(sk, srcs, Max(ws[0].lo, s), Min(ws[0].hi, e));
    } else {
      TilesCover(sk, srcs, ws, lo, hi, s, e);
      if s > e {
        NoPoints(sk, srcs, s, e);
        EmptyRange(sk, srcs, Max(lo, s), Min(hi, e));
      } else {
        if e < lo || hi < s {
          NoPoints(sk, srcs, s, e);
          EmptyRange(sk, srcs, Max(lo, s), Min(hi, e));
        } else {
          SplitPoints(sk, srcs, s, Max(lo, s) - 1, e);
          NoPoints(sk, srcs, s, Max(lo, s) - 1);
          SplitPoints(sk, srcs, Max(lo, s), Min(hi, e), e);
          NoPoints(sk, srcs, Min(hi, e) + 1, e);
        }
      }
    }
  }
}
