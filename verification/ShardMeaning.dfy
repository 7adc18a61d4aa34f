/** What a shard's points say about its files and WAL entries, read directly: a point for every series and time with a
    value, and in it, for every field, the value written last. */
module ShardMeaning {
  import opened Orders
  import opened Values
  import opened Blocks
  import opened SeriesSpec
  import opened Runs
  import opened Shard
  import Extract

  /** Where a value is stored. */
  datatype Place = InBlock(file: nat, block: nat, at: nat) | InWal(entry: nat, at: nat)

  /** The shard stores v there, as a value of field n of series sk. */
  predicate Holds(sh: Shard, sk: Str, n: Str, pl: Place, v: Value) {
    match pl
    case InBlock(fi, b, i) =>
      && fi < |sh.files| && sk in sh.files[fi] && n in sh.files[fi][sk]
      && b < |sh.files[fi][sk][n]| && i < |sh.files[fi][sk][n][b].vals| && sh.files[fi][sk][n][b].vals[i] == v
    case InWal(e, i) =>
      e < |sh.wal| && sh.wal[e].series == sk && sh.wal[e].field == n && i < |sh.wal[e].vals| && sh.wal[e].vals[i] == v
  }

  /** The order of writing: older files first, the WAL last, and in each of them as stored. */
  predicate Before(a: Place, b: Place) {
    if a.InBlock? && b.InBlock? then
      a.file < b.file || (a.file == b.file && (a.block < b.block || (a.block == b.block && a.at < b.at)))
    else if a.InWal? && b.InWal? then a.entry < b.entry || (a.entry == b.entry && a.at < b.at)
    else a.InBlock?
  }

  ghost predicate WrittenAt(sh: Shard, sk: Str, n: Str, t: int) { exists pl, v :: Holds(sh, sk, n, pl, v) && v.ts == t }

  /** v is a value of field n at time t that no other one was written after. */
  ghost predicate LastWritten(sh: Shard, sk: Str, n: Str, t: int, v: Value) {
    exists pl :: Holds(sh, sk, n, pl, v) && v.ts == t && forall q, u :: Holds(sh, sk, n, q, u) && u.ts == t ==> !Before(pl, q)
  }

  // ---- the places of a field's values, in order ----

  /** vs are the field's values before `end`, ps their places. */
  ghost predicate Listed(sh: Shard, sk: Str, n: Str, vs: seq<Value>, ps: seq<Place>, end: Place) {
    && |ps| == |vs| && Strict(ps, Before)
    && (forall i :: 0 <= i < |ps| ==> Holds(sh, sk, n, ps[i], vs[i]) && Before(ps[i], end))
    && (forall q, u :: Holds(sh, sk, n, q, u) && Before(q, end) ==> q in ps)
  }

  /** The same between two places. */
  ghost predicate Between(sh: Shard, sk: Str, n: Str, start: Place, add: seq<Value>, more: seq<Place>, end: Place) {
    && |more| == |add| && Strict(more, Before) && (start == end || Before(start, end))
    && (forall i :: 0 <= i < |more| ==> Holds(sh, sk, n, more[i], add[i]) && !Before(more[i], start) && Before(more[i], end))
    && (forall q, u :: Holds(sh, sk, n, q, u) && !Before(q, start) && Before(q, end) ==> q in more)
  }

  lemma Extend(sh: Shard, sk: Str, n: Str, vs: seq<Value>, ps: seq<Place>, start: Place, add: seq<Value>, more: seq<Place>, end: Place)
    requires Listed(sh, sk, n, vs, ps, start) && Between(sh, sk, n, start, add, more, end)
    ensures Listed(sh, sk, n, vs + add, ps + more, end)
  {
    hide Holds;
    forall x, y | x in ps && y in more ensures Before(x, y) {}
    StrictConcat(ps, more, Before);
  }

  /** The values of one block. */
  lemma BlockBetween(sh: Shard, sk: Str, n: Str, fi: nat, b: nat) returns (more: seq<Place>)
    requires fi < |sh.files| && sk in sh.files[fi] && n in sh.files[fi][sk] && b < |sh.files[fi][sk][n]|
    ensures Between(sh, sk, n, InBlock(fi, b, 0), sh.files[fi][sk][n][b].vals, more, InBlock(fi, b + 1, 0))
  {
    var add := sh.files[fi][sk][n][b].vals;
    more := seq(|add|, i requires 0 <= i < |add| => InBlock(fi, b, i));
    forall q, u | Holds(sh, sk, n, q, u) && !Before(q, InBlock(fi, b, 0)) && Before(q, InBlock(fi, b + 1, 0)) ensures q in more {
      assert more[q.at] == q;
    }
  }

  /** What WAL entry e holds of the field. */
  function EntryVals(sh: Shard, sk: Str, n: Str, e: nat): seq<Value>
    requires e < |sh.wal|
  {
    if sh.wal[e].series == sk && sh.wal[e].field == n then sh.wal[e].vals else []
  }

  lemma WalBetween(sh: Shard, sk: Str, n: Str, e: nat) returns (more: seq<Place>)
    requires e < |sh.wal|
    ensures Between(sh, sk, n, InWal(e, 0), EntryVals(sh, sk, n, e), more, InWal(e + 1, 0))
  {
    var add := EntryVals(sh, sk, n, e);
    more := seq(|add|, i requires 0 <= i < |add| => InWal(e, i));
    forall q, u | Holds(sh, sk, n, q, u) && !Before(q, InWal(e, 0)) && Before(q, InWal(e + 1, 0)) ensures q in more {
      assert more[q.at] == q;
    }
  }

  /** No value of the field is stored between these places. */
  lemma NothingBetween(sh: Shard, sk: Str, n: Str, start: Place, end: Place)
    requires start == end || Before(start, end)
    requires forall q, u :: Holds(sh, sk, n, q, u) && !Before(q, start) ==> !Before(q, end)
    ensures Between(sh, sk, n, start, [], [], end)
  {}

  lemma {:induction false} KeyValsOneMore(bs: seq<Block>, b: Block)
    ensures KeyVals(bs + [b]) == KeyVals(bs) + b.vals
    decreases |bs|
  {
    if bs == [] {
      assert bs + [b] == [b] && [b][1..] == [];
    } else {
      assert (bs + [b])[1..] == bs[1..] + [b];
      KeyValsOneMore(bs[1..], b);
    }
  }

  /** The first k blocks of a field in file fi. */
  lemma {:induction false} BlocksListed(sh: Shard, sk: Str, n: Str, vs: seq<Value>, ps0: seq<Place>, fi: nat, k: nat) returns (ps: seq<Place>)
    requires fi < |sh.files| && sk in sh.files[fi] && n in sh.files[fi][sk] && k <= |sh.files[fi][sk][n]|
    requires Listed(sh, sk, n, vs, ps0, InBlock(fi, 0, 0))
    ensures Listed(sh, sk, n, vs + KeyVals(sh.files[fi][sk][n][..k]), ps, InBlock(fi, k, 0))
    decreases k
  {
    hide Listed, Between;
    var bs := sh.files[fi][sk][n];
    if k == 0 {
      assert bs[..0] == [] && vs + [] == vs;
      ps := ps0;
    } else {
      ps := BlocksListed(sh, sk, n, vs, ps0, fi, k - 1);
      var more := BlockBetween(sh, sk, n, fi, k - 1);
      Extend(sh, sk, n, vs + KeyVals(bs[..k - 1]), ps, InBlock(fi, k - 1, 0), bs[k - 1].vals, more, InBlock(fi, k, 0));
      KeyValsOneMore(bs[..k - 1], bs[k - 1]);
      assert bs[..k] == bs[..k - 1] + [bs[k - 1]];
      assert vs + KeyVals(bs[..k - 1]) + bs[k - 1].vals == vs + KeyVals(bs[..k]);
      ps := ps + more;
    }
  }

  lemma {:induction false} FieldOfSrcs(fields: map<Str, seq<Block>>, names: seq<Str>, n: Str)
    requires forall m :: m in names ==> m in fields
    requires forall i, j :: 0 <= i < j < |names| ==> names[i] != names[j]
    ensures FieldVals(FieldSrcs(fields, names), n) == if n in names then KeyVals(fields[n]) else []
    decreases |names|
  {
    hide KeyVals;
    if names != [] {
      var rest := names[1..];
      assert forall i :: 0 <= i < |rest| ==> rest[i] == names[i + 1];
      FieldOfSrcs(fields, rest, n);
      assert FieldSrcs(fields, names)[1..] == FieldSrcs(fields, rest);
    }
  }

  lemma FieldOfFile(sh: Shard, sk: Str, fi: nat, n: Str)
    requires fi < |sh.files|
    ensures FieldVals(FileSrcs(sh, sk, fi), n) == if sk in sh.files[fi] && n in sh.files[fi][sk] then KeyVals(sh.files[fi][sk][n]) else []
  {
    hide KeyVals;
    StrTotal();
    if sk in sh.files[fi] {
      var names := Sorted(sh.files[fi][sk].Keys, StrLess);
      forall i, j | 0 <= i < j < |names| ensures names[i] != names[j] { assert StrLess(names[i], names[j]); }
      FieldOfSrcs(sh.files[fi][sk], names, n);
    }
  }

  lemma FileListed(sh: Shard, sk: Str, n: Str, vs: seq<Value>, ps0: seq<Place>, fi: nat) returns (ps: seq<Place>)
    requires fi < |sh.files| && Listed(sh, sk, n, vs, ps0, InBlock(fi, 0, 0))
    ensures Listed(sh, sk, n, vs + FieldVals(FileSrcs(sh, sk, fi), n), ps, InBlock(fi + 1, 0, 0))
  {
    hide Listed, Between, KeyVals, FileSrcs;
    FieldOfFile(sh, sk, fi, n);
    var k := 0;
    ps := ps0;
    if sk in sh.files[fi] && n in sh.files[fi][sk] {
      k := |sh.files[fi][sk][n]|;
      ps := BlocksListed(sh, sk, n, vs, ps0, fi, k);
      assert sh.files[fi][sk][n][..k] == sh.files[fi][sk][n];
    }
    var all := vs + FieldVals(FileSrcs(sh, sk, fi), n);
    assert k == 0 ==> Listed(sh, sk, n, all, ps, InBlock(fi, k, 0)) by { assert vs + [] == vs; }
    NothingBetween(sh, sk, n, InBlock(fi, k, 0), InBlock(fi + 1, 0, 0));
    Extend(sh, sk, n, all, ps, InBlock(fi, k, 0), [], [], InBlock(fi + 1, 0, 0));
    assert all + [] == all && ps + [] == ps;
  }

  lemma {:induction false} FilesListed(sh: Shard, sk: Str, n: Str, k: nat) returns (ps: seq<Place>)
    requires k <= |sh.files|
    ensures Listed(sh, sk, n, FieldVals(SrcsOf(FilesOf(sh, sk), UpTo(k)), n), ps, InBlock(k, 0, 0))
    decreases k
  {
    hide FileSrcs;
    if k == 0 {
      ps := [];
    } else {
      hide Listed;
      ps := FilesListed(sh, sk, n, k - 1);
      var f := FilesOf(sh, sk);
      ps := FileListed(sh, sk, n, FieldVals(SrcsOf(f, UpTo(k - 1)), n), ps, k - 1);
      Extract.SrcsOfOneMore(f, UpTo(k - 1), k - 1);
      FieldValsConcat(SrcsOf(f, UpTo(k - 1)), f(k - 1), n);
    }
  }

  lemma WalFieldOneMore(sh: Shard, sk: Str, n: Str, e: nat)
    requires e < |sh.wal|
    ensures FieldVals(WalSrcs(sh.wal[..e + 1], sk), n) == FieldVals(WalSrcs(sh.wal[..e], sk), n) + EntryVals(sh, sk, n, e)
  {
    var w := sh.wal[e];
    assert sh.wal[..e + 1] == sh.wal[..e] + [w];
    Extract.WalSrcsOneMore(sh.wal[..e], w, sk);
    var one := if w.series == sk then [Src(w.field, w.vals)] else [];
    FieldValsConcat(WalSrcs(sh.wal[..e], sk), one, n);
    OneSource(one, n);
  }

  lemma {:induction false} WalListed(sh: Shard, sk: Str, n: Str, vs: seq<Value>, ps0: seq<Place>, k: nat) returns (ps: seq<Place>)
    requires k <= |sh.wal| && Listed(sh, sk, n, vs, ps0, InWal(0, 0))
    ensures Listed(sh, sk, n, vs + FieldVals(WalSrcs(sh.wal[..k], sk), n), ps, InWal(k, 0))
    decreases k
  {
    hide Listed, Between, EntryVals;
    if k == 0 {
      assert sh.wal[..0] == [] && vs + [] == vs;
      ps := ps0;
    } else {
      hide FieldVals, WalSrcs;
      ps := WalListed(sh, sk, n, vs, ps0, k - 1);
      var more := WalBetween(sh, sk, n, k - 1);
      var a, add := FieldVals(WalSrcs(sh.wal[..k - 1], sk), n), EntryVals(sh, sk, n, k - 1);
      Extend(sh, sk, n, vs + a, ps, InWal(k - 1, 0), add, more, InWal(k, 0));
      WalFieldOneMore(sh, sk, n, k - 1);
      assert vs + a + add == vs + (a + add);
      ps := ps + more;
    }
  }

  lemma OneSource(one: seq<Src>, n: Str)
    requires |one| <= 1
    ensures FieldVals(one, n) == if |one| == 1 && one[0].name == n then one[0].vals else []
  {}

  /** All values of a field of a series, with their places. */
  lemma AllListed(sh: Shard, sk: Str, n: Str) returns (ps: seq<Place>)
    ensures Listed(sh, sk, n, FieldVals(SeriesSrcs(sh, sk), n), ps, InWal(|sh.wal|, 0))
  {
    hide Listed, Between;
    var files := SrcsOf(FilesOf(sh, sk), UpTo(|sh.files|));
    ps := FilesListed(sh, sk, n, |sh.files|);
    NothingBetween(sh, sk, n, InBlock(|sh.files|, 0, 0), InWal(0, 0));
    Extend(sh, sk, n, FieldVals(files, n), ps, InBlock(|sh.files|, 0, 0), [], [], InWal(0, 0));
    assert FieldVals(files, n) + [] == FieldVals(files, n) && ps + [] == ps;
    ps := WalListed(sh, sk, n, FieldVals(files, n), ps, |sh.wal|);
    assert sh.wal[..|sh.wal|] == sh.wal;
    FieldValsConcat(files, WalSrcs(sh.wal, sk), n);
  }

  // ---- what is written at a time ----

  /** The last value at t is the one with the greatest index. */
  lemma {:induction false} LastAt(vs: seq<Value>, t: int) returns (i: nat)
    requires At(vs, t) != []
    ensures i < |vs| && vs[i].ts == t && At(vs, t)[|At(vs, t)| - 1] == vs[i]
    ensures forall j :: i < j < |vs| ==> vs[j].ts != t
    decreases |vs|
  {
    if At(vs[1..], t) != [] {
      i := LastAt(vs[1..], t);
      i := i + 1;
      assert forall j :: 0 < j < |vs| ==> vs[j] == vs[1..][j - 1];
    } else {
      AtEmpty(vs[1..], t);
      i := 0;
      assert forall j :: 0 < j < |vs| ==> vs[j] == vs[1..][j - 1] && vs[1..][j - 1] in vs[1..];
    }
  }

  lemma OccursIsWritten(sh: Shard, sk: Str, n: Str, t: int)
    ensures Occurs(SeriesSrcs(sh, sk), n, t) <==> WrittenAt(sh, sk, n, t)
  {
    hide SeriesSrcs, Holds;
    var vs := FieldVals(SeriesSrcs(sh, sk), n);
    var ps := AllListed(sh, sk, n);
    AtEmpty(vs, t);
    if pl, v :| Holds(sh, sk, n, pl, v) && v.ts == t {
      BeforeEnd(sh, sk, n, pl, v);
      var i :| 0 <= i < |ps| && ps[i] == pl;
      OneValue(sh, sk, n, pl, v, vs[i]);
      assert vs[i] in vs;
    }
    if v :| v in vs && v.ts == t {
      var i :| 0 <= i < |vs| && vs[i] == v;
      assert Holds(sh, sk, n, ps[i], v);
    }
  }

  lemma BeforeEnd(sh: Shard, sk: Str, n: Str, pl: Place, v: Value)
    requires Holds(sh, sk, n, pl, v)
    ensures Before(pl, InWal(|sh.wal|, 0))
  {}

  lemma OneValue(sh: Shard, sk: Str, n: Str, pl: Place, v: Value, u: Value)
    requires Holds(sh, sk, n, pl, v) && Holds(sh, sk, n, pl, u)
    ensures u == v
  {}

  /** The value at the greatest index with this time is one that nothing was written after. */
  lemma LastIndex(sh: Shard, sk: Str, n: Str, vs: seq<Value>, ps: seq<Place>, i: nat)
    requires Listed(sh, sk, n, vs, ps, InWal(|sh.wal|, 0)) && i < |vs| && forall j :: i < j < |vs| ==> vs[j].ts != vs[i].ts
    ensures LastWritten(sh, sk, n, vs[i].ts, vs[i])
  {
    hide Holds;
    forall q, u | Holds(sh, sk, n, q, u) && u.ts == vs[i].ts ensures !Before(ps[i], q) {
      BeforeEnd(sh, sk, n, q, u);
      var j :| 0 <= j < |ps| && ps[j] == q;
      OneValue(sh, sk, n, q, u, vs[j]);
      if j < i { assert Before(ps[j], ps[i]); }
    }
  }

  lemma LastIsOne(sh: Shard, sk: Str, n: Str, t: int, v: Value, u: Value)
    requires LastWritten(sh, sk, n, t, v) && LastWritten(sh, sk, n, t, u)
    ensures v == u
  {
    hide Holds;
    var p :| Holds(sh, sk, n, p, v) && v.ts == t && forall q, x :: Holds(sh, sk, n, q, x) && x.ts == t ==> !Before(p, q);
    var q :| Holds(sh, sk, n, q, u) && u.ts == t && forall p, x :: Holds(sh, sk, n, p, x) && x.ts == t ==> !Before(q, p);
    assert p == q;
    OneValue(sh, sk, n, p, v, u);
  }

  lemma WinnerIsLast(sh: Shard, sk: Str, n: Str, t: int, v: Value)
    requires Occurs(SeriesSrcs(sh, sk), n, t)
    ensures Winner(SeriesSrcs(sh, sk), n, t) == Field(n, v) <==> LastWritten(sh, sk, n, t, v)
  {
    hide SeriesSrcs, Listed, LastWritten;
    var vs := FieldVals(SeriesSrcs(sh, sk), n);
    var ps := AllListed(sh, sk, n);
    var i := LastAt(vs, t);
    LastIndex(sh, sk, n, vs, ps, i);
    if LastWritten(sh, sk, n, t, v) { LastIsOne(sh, sk, n, t, v, vs[i]); }
  }

  // ---- the points of the shard ----

  lemma {:induction false} PointOfListed(sh: Shard, sks: seq<Str>, lo: int, hi: int, p: Point)
    ensures p in PointsOf(sh, sks, lo, hi) <==> p.series in sks && p in SeriesPoints(p.series, SeriesSrcs(sh, p.series), lo, hi)
    decreases |sks|
  {
    hide SeriesPoints, SeriesSrcs;
    if sks != [] {
      PointOfListed(sh, sks[1..], lo, hi, p);
      PointMembership(p, sks[0], SeriesSrcs(sh, sks[0]), lo, hi);
      assert sks == [sks[0]] + sks[1..];
    }
  }

  /** The series of a shard are those of its files and of its WAL. */
  lemma SeriesExists(sh: Shard, sk: Str)
    ensures sk in SeriesSet(sh) <==> (exists f :: f in sh.files && sk in f) || (exists w :: w in sh.wal && w.series == sk)
  {
    if f :| f in sh.files && sk in f { var i :| 0 <= i < |sh.files| && sh.files[i] == f; }
    if w :| w in sh.wal && w.series == sk { var i :| 0 <= i < |sh.wal| && sh.wal[i] == w; }
  }

  lemma WrittenIsListed(sh: Shard, sk: Str, n: Str, t: int)
    requires WrittenAt(sh, sk, n, t)
    ensures sk in SeriesOrder(sh)
  {
    StrTotal();
    var pl, v :| Holds(sh, sk, n, pl, v) && v.ts == t;
    assert sk in SeriesSet(sh);
  }

  /** p is what was written last of one series at one time within the window. */
  ghost predicate IsPoint(sh: Shard, lo: int, hi: int, p: Point) {
    && lo <= p.ts <= hi && (exists n :: WrittenAt(sh, p.series, n, p.ts)) && FieldOrdered(p.fields)
    && forall f :: f in p.fields <==> LastWritten(sh, p.series, f.name, p.ts, f.v)
  }

  /** The points a shard emits are exactly those: one for every series and time at which some file or WAL entry holds a
      value, with the last written value of every field. */
  lemma ShardPointsMeaning(sh: Shard, lo: int, hi: int, p: Point)
    ensures p in ShardPoints(sh, lo, hi) <==> IsPoint(sh, lo, hi, p)
  {
    hide SeriesSrcs, SeriesPoints, SeriesOrder, LastWritten, WrittenAt;
    var srcs := SeriesSrcs(sh, p.series);
    PointOfListed(sh, SeriesOrder(sh), lo, hi, p);
    PointMembership(p, p.series, srcs, lo, hi);
    forall n ensures Occurs(srcs, n, p.ts) <==> WrittenAt(sh, p.series, n, p.ts) { OccursIsWritten(sh, p.series, n, p.ts); }
    if n :| WrittenAt(sh, p.series, n, p.ts) { WrittenIsListed(sh, p.series, n, p.ts); }
    FieldsMeaning(sh, p.series, p.ts, p.fields);
  }

  /** The last written values are those written at all. */
  lemma FieldsMeaning(sh: Shard, sk: Str, t: int, fs: seq<Field>)
    ensures fs == FieldsAt(SeriesSrcs(sh, sk), t) <==>
      FieldOrdered(fs) && forall f :: f in fs <==> LastWritten(sh, sk, f.name, t, f.v)
  {
    hide SeriesSrcs, FieldsAt, LastWritten, WrittenAt;
    var srcs := SeriesSrcs(sh, sk);
    FieldsAtMeaning(srcs, t);
    forall f: Field ensures (Occurs(srcs, f.name, t) && f == Winner(srcs, f.name, t)) <==> LastWritten(sh, sk, f.name, t, f.v) {
      OccursIsWritten(sh, sk, f.name, t);
      if Occurs(srcs, f.name, t) { WinnerIsLast(sh, sk, f.name, t, f.v); } else { LastIsWritten(sh, sk, f.name, t, f.v); }
    }
    if FieldOrdered(fs) && forall f :: f in fs <==> LastWritten(sh, sk, f.name, t, f.v) { FieldsAtUnique(srcs, t, fs); }
  }

  lemma LastIsWritten(sh: Shard, sk: Str, n: Str, t: int, v: Value)
    ensures LastWritten(sh, sk, n, t, v) ==> WrittenAt(sh, sk, n, t)
  {
    hide Holds;
  }

  /** In particular, a series has a point at a time exactly if something was written for it then, be it in the WAL
      only. */
  lemma PointExists(sh: Shard, lo: int, hi: int, sk: Str, t: int)
    requires lo <= t <= hi
    ensures (exists p :: p in ShardPoints(sh, lo, hi) && p.series == sk && p.ts == t) <==> exists n, pl, v :: Holds(sh, sk, n, pl, v) && v.ts == t
  {
    hide ShardPoints, Holds, SeriesSrcs, FieldsAt;
    var p := Point(sk, t, FieldsAt(SeriesSrcs(sh, sk), t));
    FieldsMeaning(sh, sk, t, p.fields);
    ShardPointsMeaning(sh, lo, hi, p);
    if q :| q in ShardPoints(sh, lo, hi) && q.series == sk && q.ts == t {
      ShardPointsMeaning(sh, lo, hi, q);
      var n :| WrittenAt(sh, sk, n, t);
    }
    if n, pl, v :| Holds(sh, sk, n, pl, v) && v.ts == t { assert WrittenAt(sh, sk, n, t); }
  }

  // ---- how many keys were read ----

  /** The keys of these series: one per file, series and field. */
  ghost function KeysIn(sh: Shard, sks: set<Str>): set<(nat, Str, Str)> {
    set fi, sk, n | 0 <= fi < |sh.files| && sk in sh.files[fi] && n in sh.files[fi][sk] && sk in sks :: (fi, sk, n)
  }

  /** The keys of one series in the first k files. */
  ghost function KeysUpTo(sh: Shard, sk: Str, k: nat): set<(nat, Str, Str)>
    requires k <= |sh.files|
  {
    set fi, n | 0 <= fi < k && sk in sh.files[fi] && n in sh.files[fi][sk] :: (fi, sk, n)
  }

  ghost function KeysAt(fi: nat, sk: Str, ns: set<Str>): set<(nat, Str, Str)> { set n | n in ns :: (fi, sk, n) }

  lemma {:induction false} KeysAtSize(fi: nat, sk: Str, ns: set<Str>)
    ensures |KeysAt(fi, sk, ns)| == |ns|
    decreases |ns|
  {
    if ns != {} {
      var m :| m in ns;
      KeysAtSize(fi, sk, ns - {m});
      assert KeysAt(fi, sk, ns) == KeysAt(fi, sk, ns - {m}) + {(fi, sk, m)};
    } else {
      assert KeysAt(fi, sk, ns) == {};
    }
  }

  /** The field names of a series in one file. */
  function NamesIn(sh: Shard, sk: Str, fi: nat): set<Str>
    requires fi < |sh.files|
  {
    if sk in sh.files[fi] then sh.files[fi][sk].Keys else {}
  }

  lemma NoKeys(sh: Shard, sk: Str)
    ensures KeysUpTo(sh, sk, 0) == {} && KeysIn(sh, {}) == {}
  {}

  lemma KeysUpToNext(sh: Shard, sk: Str, k: nat)
    requires k < |sh.files|
    ensures KeysUpTo(sh, sk, k + 1) == KeysUpTo(sh, sk, k) + KeysAt(k, sk, NamesIn(sh, sk, k))
    ensures KeysUpTo(sh, sk, k) !! KeysAt(k, sk, NamesIn(sh, sk, k))
    ensures |NamesIn(sh, sk, k)| == Extract.FieldCount(sh, sk, k)
  {}

  lemma KeyCountNext(sh: Shard, sk: Str, k: nat)
    ensures Extract.KeyCount(sh, sk, UpTo(0)) == 0
    ensures Extract.KeyCount(sh, sk, UpTo(k + 1)) == Extract.KeyCount(sh, sk, UpTo(k)) + Extract.FieldCount(sh, sk, k)
  {
    assert UpTo(k + 1)[..k] == UpTo(k);
  }

  lemma {:induction false} SeriesKeysUpTo(sh: Shard, sk: Str, k: nat)
    requires k <= |sh.files|
    ensures Extract.KeyCount(sh, sk, UpTo(k)) == |KeysUpTo(sh, sk, k)|
    decreases k
  {
    hide Extract.KeyCount, Extract.FieldCount, NamesIn, KeysAt, KeysUpTo, UpTo;
    KeyCountNext(sh, sk, 0);
    NoKeys(sh, sk);
    if k > 0 {
      SeriesKeysUpTo(sh, sk, k - 1);
      KeyCountNext(sh, sk, k - 1);
      KeysUpToNext(sh, sk, k - 1);
      KeysAtSize(k - 1, sk, NamesIn(sh, sk, k - 1));
      SizesAdd(KeysUpTo(sh, sk, k - 1), KeysAt(k - 1, sk, NamesIn(sh, sk, k - 1)));
    }
  }

  lemma KeysInNext(sh: Shard, sks: set<Str>, sk: Str)
    requires sk !in sks
    ensures KeysIn(sh, sks + {sk}) == KeysIn(sh, sks) + KeysUpTo(sh, sk, |sh.files|)
    ensures KeysIn(sh, sks) !! KeysUpTo(sh, sk, |sh.files|)
  {}

  function Members(sks: seq<Str>): set<Str> { set sk | sk in sks }

  lemma SizesAdd<T>(a: set<T>, b: set<T>)
    requires a !! b
    ensures |a + b| == |a| + |b|
  {}

  lemma KeysResumedNext(sh: Shard, sks: seq<Str>, lo: Time)
    ensures Extract.KeysResumed(sh, [], lo, FromStart) == 0
    ensures sks != [] ==>
      var n := |sks| - 1;
      Extract.KeysResumed(sh, sks, lo, FromStart)
        == Extract.KeysResumed(sh, sks[..n], lo, FromStart) + Extract.KeyCount(sh, sks[n], UpTo(|sh.files|))
  {
    hide Extract.KeyCount, UpTo;
  }

  lemma {:induction false} KeysOfListed(sh: Shard, sks: seq<Str>, lo: Time)
    requires forall i, j :: 0 <= i < j < |sks| ==> sks[i] != sks[j]
    ensures Extract.KeysResumed(sh, sks, lo, FromStart) == |KeysIn(sh, Members(sks))|
    decreases |sks|
  {
    hide Extract.KeyCount, Extract.KeysResumed, KeysUpTo, KeysIn, UpTo;
    KeysResumedNext(sh, sks, lo);
    if sks == [] {
      assert Members(sks) == {};
      NoKeys(sh, []);
    } else {
      var n := |sks| - 1;
      KeysOfListed(sh, sks[..n], lo);
      SeriesKeysUpTo(sh, sks[n], |sh.files|);
      KeysInNext(sh, Members(sks[..n]), sks[n]);
      SizesAdd(KeysIn(sh, Members(sks[..n])), KeysUpTo(sh, sks[n], |sh.files|));
      assert Members(sks) == Members(sks[..n]) + {sks[n]};
    }
  }

  /** A full extraction counts every key of every file once. */
  lemma KeysMeaning(sh: Shard, lo: Time)
    ensures Extract.KeysResumed(sh, SeriesOrder(sh), lo, FromStart)
      == |set fi, sk, n | 0 <= fi < |sh.files| && sk in sh.files[fi] && n in sh.files[fi][sk] :: (fi, sk, n)|
  {
    StrTotal();
    var sks := SeriesOrder(sh);
    forall i, j | 0 <= i < j < |sks| ensures sks[i] != sks[j] { assert StrLess(sks[i], sks[j]); }
    KeysOfListed(sh, sks, lo);
    assert KeysIn(sh, Members(sks))
      == set fi, sk, n | 0 <= fi < |sh.files| && sk in sh.files[fi] && n in sh.files[fi][sk] :: (fi, sk, n);
  }
}
