/** One series: coalesce its streams by field, sort them by name, merge them on the time axis. */
module SeriesMerge {
  import opened Orders
  import opened Values
  import opened Streams
  import opened FieldMerge
  import opened SeriesSpec

  /** A stream of the outer merge: a leaf, or one field's copies merged. */
  datatype Stream = One(l: Leaf) | Many(m: FieldMergeStream) {
    function Name(): Str {
      match this case One(l) => l.Field() case Many(m) => m.field
    }

    function Kids(): seq<Leaf> {
      match this case One(l) => [l] case Many(m) => m.children
    }

    ghost function Objs(): set<object> {
      match this case One(l) => {l.Obj()} case Many(m) => {m} + m.objs
    }

    ghost function Rest(): seq<Value>
      reads Objs()
    {
      match this case One(l) => l.Rest() case Many(m) => m.Rest()
    }

    ghost predicate Usable()
      reads Objs()
    {
      match this case One(l) => l.Usable() case Many(m) => m.Valid() && (m.err ==> m.inited)
    }

    ghost predicate On(fs: FileSet)
      reads Objs(), fs`live
    {
      match this
      case One(l) => l.On(fs)
      case Many(m) => m.fs == fs && m.Apart() && m.KidsOn()
    }

    ghost predicate Ready()
      reads Objs()
    {
      match this case One(l) => l.Ready() case Many(m) => m.Ready()
    }

    /** Failed; every later peek says so. */
    ghost predicate Broken()
      reads Objs()
    {
      match this case One(l) => l.Broken() case Many(m) => m.err
    }

    lemma RestAscending()
      requires Usable()
      ensures Ascending(Rest())
    {
      if One? { l.RestAscending(); }
    }

    method Peek(fs: FileSet) returns (r: Peeked)
      requires Usable() && On(fs) && fs.Valid() && fs !in Objs()
      modifies Objs(), fs`rs, fs`refs, fs`faults, fs`live
      ensures Usable() && On(fs) && fs.Valid()
      ensures forall b :: b in old(fs.live) && b !in fs.live ==> b in Objs()
      ensures fs.live <= old(fs.live)
      ensures (r.Fail? <==> Broken()) && (old(Broken()) ==> Broken())
      ensures old(fs.faults) == [] ==> fs.faults == [] && Broken() == old(Broken())
      ensures !r.Fail? ==> Rest() == old(Rest())
      ensures r.Got? ==> Ready() && Rest() != [] && r.v == Rest()[0]
      ensures r.End? ==> Rest() == []
    {
      match this
      case One(l) => r := l.Peek(fs);
      case Many(m) => r := m.Peek();
    }

    method Advance(fs: FileSet)
      requires Usable() && On(fs) && fs.Valid() && Ready() && fs !in Objs()
      modifies Objs(), fs`rs, fs`refs, fs`faults, fs`live
      ensures Usable() && On(fs) && fs.Valid()
      ensures forall b :: b in old(fs.live) && b !in fs.live ==> b in Objs()
      ensures fs.live <= old(fs.live)
      ensures old(Rest()) != []
      ensures !Broken() ==> Rest() == old(Rest())[1..]
      ensures old(fs.faults) == [] ==> fs.faults == [] && !Broken()
    {
      match this
      case One(l) => ReadyRest(l); l.Advance(fs);
      case Many(m) => m.Advance();
    }
  }

  lemma ReadyRest(l: Leaf)
    requires l.Usable() && l.Ready()
    ensures l.Rest() != []
  {
    match l
    case Mem(s) => assert s.vals[s.i..][0] == s.vals[s.i];
    case Lazy(b) => HeadOfConcat(b.buf, b.i, Blocks.BlockWise(b.entries[b.nextE..]));
  }

  // ---- statistics ----

  datatype Stats = Stats(points: nat, fields: nat, min: int, max: int, hasTime: bool) {
    function Observe(ts: int): Stats {
      if !hasTime then this.(min := ts, max := ts, hasTime := true)
      else this.(min := if ts < min then ts else min, max := if ts > max then ts else max)
    }

    function Add(p: Point): Stats {
      this.(points := points + 1, fields := fields + |p.fields|).Observe(p.ts)
    }
  }

  /** The statistics after emitting the points. */
  function Tally(st: Stats, pts: seq<Point>): Stats {
    if pts == [] then st else Tally(st, pts[..|pts| - 1]).Add(pts[|pts| - 1])
  }

  lemma {:induction false} TallyConcat(st: Stats, a: seq<Point>, b: seq<Point>)
    ensures Tally(st, a + b) == Tally(Tally(st, a), b)
    decreases |b|
  {
    if b == [] {
      assert a + b == a;
    } else {
      assert (a + b)[..|a + b| - 1] == a + b[..|b| - 1];
      TallyConcat(st, a, b[..|b| - 1]);
    }
  }

  // ---- the gather ----

  /** The values at exactly t come first; what follows is everything later. */
  lemma {:induction false} DrainIs(s: seq<Value>, t: int)
    requires Ascending(s) && AllFrom(s, t)
    ensures s == At(s, t) + InRange(s, t + 1, MAX_TIME)
    decreases |s|
  {
    if s != [] {
      if s[0].ts == t {
        DrainIs(s[1..], t);
        assert s == [s[0]] + s[1..];
      } else {
        AtNone(s, t);
        InRangeAll(s, t + 1, MAX_TIME);
      }
    }
  }

  /** Position j holds the first field of this name. */
  ghost predicate FirstOf(buf: seq<Field>, n: Str, j: int) {
    0 <= j < |buf| && buf[j].name == n && forall i :: 0 <= i < j ==> buf[i].name != n
  }

  /** fieldBuf: a later value of the same field overwrites in place, a new field is appended. */
  method PutField(buf: seq<Field>, n: Str, v: Value) returns (r: seq<Field>)
    ensures (forall j :: 0 <= j < |buf| ==> buf[j].name != n) ==> r == buf + [Field(n, v)]
    ensures forall j :: FirstOf(buf, n, j) ==> r == buf[j := Field(n, v)]
  {
    for j := 0 to |buf|
      invariant forall i :: 0 <= i < j ==> buf[i].name != n
    {
      if buf[j].name == n {
        r := buf[j := Field(n, v)];
        return;
      }
    }
    r := buf + [Field(n, v)];
  }

  // ---- the streams of one merge ----

  ghost predicate Apart(ss: seq<Stream>, objs: set<object>, fs: FileSet) {
    && fs !in objs
    && (forall k :: 0 <= k < |ss| ==> ss[k].Objs() <= objs)
    && (forall j, k :: 0 <= j < k < |ss| ==> ss[j].Objs() !! ss[k].Objs())
  }

  ghost predicate AllUsable(ss: seq<Stream>, objs: set<object>, fs: FileSet)
    requires Apart(ss, objs, fs)
    reads objs, fs`live
  {
    forall k :: 0 <= k < |ss| ==> ss[k].Usable() && ss[k].On(fs)
  }

  /** No stream has failed, and rests is what each has still to deliver. */
  ghost predicate Synced(ss: seq<Stream>, objs: set<object>, fs: FileSet, rests: seq<seq<Value>>)
    requires Apart(ss, objs, fs)
    reads objs
  {
    |rests| == |ss| && forall k :: 0 <= k < |ss| ==> !ss[k].Broken() && rests[k] == ss[k].Rest()
  }

  twostate predicate OnlyReleases(objs: set<object>, fs: FileSet)
    reads fs`live
  {
    fs.live <= old(fs.live) && forall b :: b in old(fs.live) && b !in fs.live ==> b in objs
  }

  method PeekAt(ss: seq<Stream>, k: nat, fs: FileSet, ghost objs: set<object>, ghost rests: seq<seq<Value>>)
      returns (r: Peeked)
    requires k < |ss| && Apart(ss, objs, fs) && AllUsable(ss, objs, fs) && fs.Valid() && Synced(ss, objs, fs, rests)
    modifies ss[k].Objs(), fs`rs, fs`refs, fs`faults, fs`live
    ensures AllUsable(ss, objs, fs) && fs.Valid() && OnlyReleases(objs, fs)
    ensures !r.Fail? ==> Synced(ss, objs, fs, rests)
    ensures old(fs.faults) == [] ==> fs.faults == [] && !r.Fail?
    ensures r.Got? ==> rests[k] != [] && r.v == rests[k][0]
    ensures r.End? ==> rests[k] == []
  {
    hide Stream.Usable, Stream.Ready, Stream.Broken, Stream.Rest, FileSet.Valid;
    r := ss[k].Peek(fs);
  }

  /** The minimum next timestamp across all streams. */
  method FindMin(ss: seq<Stream>, fs: FileSet, ghost objs: set<object>, ghost rests: seq<seq<Value>>)
      returns (ok: bool, have: bool, minTS: Time)
    requires Apart(ss, objs, fs) && AllUsable(ss, objs, fs) && fs.Valid() && Synced(ss, objs, fs, rests)
    modifies objs, fs`rs, fs`refs, fs`faults, fs`live
    ensures AllUsable(ss, objs, fs) && fs.Valid() && OnlyReleases(objs, fs)
    ensures ok ==> Synced(ss, objs, fs, rests)
    ensures old(fs.faults) == [] ==> fs.faults == [] && ok
    ensures ok && !have ==> forall k :: 0 <= k < |rests| ==> rests[k] == []
    ensures ok && have ==> exists k :: 0 <= k < |rests| && rests[k] != [] && rests[k][0].ts == minTS
    ensures ok && have ==> forall k :: 0 <= k < |rests| && rests[k] != [] ==> minTS <= rests[k][0].ts
  {
    hide Stream.Usable, Stream.Ready, Stream.Broken, Stream.Rest, FileSet.Valid, Stream.On, AllUsable;
    minTS, have := 0, false;
    for k := 0 to |ss|
      invariant AllUsable(ss, objs, fs) && fs.Valid() && OnlyReleases(objs, fs) && Synced(ss, objs, fs, rests)
      invariant !have ==> forall j :: 0 <= j < k ==> rests[j] == []
      invariant old(fs.faults) == [] ==> fs.faults == []
      invariant have ==> exists j :: 0 <= j < k && rests[j] != [] && rests[j][0].ts == minTS
      invariant have ==> forall j :: 0 <= j < k && rests[j] != [] ==> minTS <= rests[j][0].ts
    {
      var r := PeekAt(ss, k, fs, objs, rests);
      if r.Fail? { return false, have, minTS; }
      if r.Got? && (!have || r.v.ts < minTS) { minTS, have := r.v.ts, true; }
    }
    ok := true;
  }

  /** The field a stream contributes to the point at t: the last of its values there. */
  function FieldOf(n: Str, vals: seq<Value>, t: int): seq<Field> {
    var c := At(vals, t);
    if c == [] then [] else [Field(n, c[|c| - 1])]
  }

  /** The buffer after stream n's values `gone` went through it. */
  ghost function Buffered(buf: seq<Field>, n: Str, gone: seq<Value>): seq<Field> {
    if gone == [] then buf else buf + [Field(n, gone[|gone| - 1])]
  }

  method PutNext(buf: seq<Field>, ghost was: seq<Field>, n: Str, ghost gone: seq<Value>, v: Value)
      returns (r: seq<Field>)
    requires buf == Buffered(was, n, gone) && forall j :: 0 <= j < |was| ==> was[j].name != n
    ensures r == Buffered(was, n, gone + [v])
  {
    assert gone != [] ==> FirstOf(buf, n, |was|);
    r := PutField(buf, n, v);
  }

  /** Consumes every value of a stream at time t; the last one stays in the buffer. */
  method Drain(s: Stream, t: Time, buf: seq<Field>, fs: FileSet) returns (ok: bool, r: seq<Field>)
    requires s.Usable() && s.On(fs) && fs.Valid() && !s.Broken() && fs !in s.Objs()
    requires forall j :: 0 <= j < |buf| ==> buf[j].name != s.Name()
    requires AllFrom(s.Rest(), t)
    modifies s.Objs(), fs`rs, fs`refs, fs`faults, fs`live
    ensures s.Usable() && s.On(fs) && fs.Valid() && OnlyReleases(s.Objs(), fs)
    ensures ok ==> !s.Broken() && s.Rest() == InRange(old(s.Rest()), t + 1, MAX_TIME)
    ensures ok ==> r == buf + FieldOf(s.Name(), old(s.Rest()), t)
    ensures old(fs.faults) == [] ==> fs.faults == [] && ok
  {
    hide Stream.Usable, Stream.On, Stream.Ready, Stream.Broken, Stream.Rest, FileSet.Valid, Ascending, AllFrom, At,
      InRange;
    r := buf;
    ghost var all, gone, left := s.Rest(), [], s.Rest();
    s.RestAscending();
    while true
      invariant s.Usable() && s.On(fs) && fs.Valid() && OnlyReleases(s.Objs(), fs)
      invariant !s.Broken() ==> left == s.Rest()
      invariant old(fs.faults) == [] ==> fs.faults == [] && !s.Broken()
      invariant all == gone + left && forall v :: v in gone ==> v.ts == t
      invariant r == Buffered(buf, s.Name(), gone)
      decreases |left|
    {
      var p := s.Peek(fs);
      if p.Fail? { return false, r; }
      if p.End? || p.v.ts != t {
        DrainEnds(all, gone, left, t);
        return true, r;
      }
      s.Advance(fs);
      r := PutNext(r, buf, s.Name(), gone, p.v);
      gone, left := gone + [p.v], left[1..];
    }
  }

  method DrainAt(ss: seq<Stream>, k: nat, t: Time, buf: seq<Field>, fs: FileSet, ghost objs: set<object>,
      ghost rests: seq<seq<Value>>) returns (ok: bool, r: seq<Field>)
    requires k < |ss| && Apart(ss, objs, fs) && AllUsable(ss, objs, fs) && fs.Valid() && Synced(ss, objs, fs, rests)
    requires forall j :: 0 <= j < |buf| ==> buf[j].name != ss[k].Name()
    requires AllFrom(rests[k], t)
    modifies ss[k].Objs(), fs`rs, fs`refs, fs`faults, fs`live
    ensures AllUsable(ss, objs, fs) && fs.Valid() && OnlyReleases(objs, fs)
    ensures ok ==> Synced(ss, objs, fs, rests[k := InRange(rests[k], t + 1, MAX_TIME)])
    ensures ok ==> r == buf + FieldOf(ss[k].Name(), rests[k], t)
    ensures old(fs.faults) == [] ==> fs.faults == [] && ok
  {
    hide Stream.Usable, Stream.Ready, Stream.Broken, Stream.Rest, FileSet.Valid;
    ok, r := Drain(ss[k], t, buf, fs);
  }

  lemma DrainEnds(s: seq<Value>, gone: seq<Value>, left: seq<Value>, t: int)
    requires Ascending(s) && AllFrom(s, t) && s == gone + left
    requires forall v :: v in gone ==> v.ts == t
    requires left != [] ==> left[0].ts != t
    ensures gone == At(s, t) && left == InRange(s, t + 1, MAX_TIME)
  {
    hide Ascending, At, InRange;
    SuffixAscending(gone, left);
    assert forall v :: v in left ==> v in s;
    LaterThan(left, t);
    AtConcat(gone, left, t);
    AtNone(left, t);
    AtAll(gone, t);
    InRangeConcat(gone, left, t + 1, MAX_TIME);
    InRangeNone(gone, t + 1, MAX_TIME);
    InRangeAll(left, t + 1, MAX_TIME);
  }

  lemma LaterThan(s: seq<Value>, t: int)
    requires Ascending(s) && AllFrom(s, t) && (s != [] ==> s[0].ts != t)
    ensures AllFrom(s, t + 1)
  {
    if s != [] { assert s[0] in s; }
  }

  lemma {:induction false} SuffixAscending(a: seq<Value>, b: seq<Value>)
    requires Ascending(a + b)
    ensures Ascending(b)
    decreases |a|
  {
    if a == [] {
      assert a + b == b;
    } else {
      assert (a + b)[1..] == a[1..] + b;
      SuffixAscending(a[1..], b);
    }
  }

  lemma {:induction false} AtAll(s: seq<Value>, t: int)
    requires forall v :: v in s ==> v.ts == t
    ensures At(s, t) == s
    decreases |s|
  {
    if s != [] { AtAll(s[1..], t); }
  }

  // ---- one point ----

  /** The streams' names with what each has still to deliver. */
  function Named(ss: seq<Stream>, rests: seq<seq<Value>>): seq<Src>
    requires |ss| == |rests|
  {
    seq(|ss|, k requires 0 <= k < |ss| => Src(ss[k].Name(), rests[k]))
  }

  ghost predicate NamesAscend(cs: seq<Src>) {
    forall j, k :: 0 <= j < k < |cs| ==> StrLess(cs[j].name, cs[k].name)
  }

  /** What the gather loop collects from the first n streams. */
  ghost function Gathered(cs: seq<Src>, t: int, n: nat): seq<Field>
    requires n <= |cs|
  {
    if n == 0 then [] else Gathered(cs, t, n - 1) + FieldOf(cs[n - 1].name, cs[n - 1].vals, t)
  }

  lemma {:induction false} GatheredMembers(cs: seq<Src>, t: int, n: nat)
    requires n <= |cs| && NamesAscend(cs)
    ensures forall f :: f in Gathered(cs, t, n) <==> exists k :: 0 <= k < n && f in FieldOf(cs[k].name, cs[k].vals, t)
    ensures FieldOrdered(Gathered(cs, t, n))
    decreases n
  {
    hide FieldOf, StrLess;
    if n > 0 {
      GatheredMembers(cs, t, n - 1);
      var a: seq<Field>, b: seq<Field> := Gathered(cs, t, n - 1), FieldOf(cs[n - 1].name, cs[n - 1].vals, t);
      forall i, j | 0 <= i < j < |a + b| ensures StrLess((a + b)[i].name, (a + b)[j].name) {
        FieldOfOne(cs[n - 1].name, cs[n - 1].vals, t);
        if j >= |a| {
          assert a[i] in a;
          var k :| 0 <= k < n - 1 && a[i] in FieldOf(cs[k].name, cs[k].vals, t);
          FieldOfOne(cs[k].name, cs[k].vals, t);
        }
      }
    }
  }

  lemma FieldOfOne(n: Str, vs: seq<Value>, t: int)
    ensures |FieldOf(n, vs, t)| <= 1 && forall f :: f in FieldOf(n, vs, t) ==> f.name == n
  {}

  /** With one stream per name, a field's content is its stream's values. */
  lemma {:induction false} ContentOfOne(cs: seq<Src>, k: nat, t: int)
    requires k < |cs| && NamesAscend(cs)
    ensures Content(cs, cs[k].name, t) == At(cs[k].vals, t)
    decreases |cs|
  {
    StrTotal();
    var n := cs[k].name;
    AtConcat(if cs[0].name == n then cs[0].vals else [], FieldVals(cs[1..], n), t);
    if k > 0 {
      assert cs[1..][k - 1] == cs[k];
      assert NamesAscend(cs[1..]);
      ContentOfOne(cs[1..], k - 1, t);
    } else {
      forall j | 0 <= j < |cs[1..]| ensures cs[1..][j].name != n { assert cs[1..][j] == cs[j + 1]; }
      NoSuchName(cs[1..], n);
    }
  }

  lemma {:induction false} NoSuchName(cs: seq<Src>, n: Str)
    requires forall j :: 0 <= j < |cs| ==> cs[j].name != n
    ensures FieldVals(cs, n) == []
    decreases |cs|
  {
    if cs != [] {
      forall j | 0 <= j < |cs[1..]| ensures cs[1..][j].name != n { assert cs[1..][j] == cs[j + 1]; }
      NoSuchName(cs[1..], n);
    }
  }

  lemma GatheredMember(cs: seq<Src>, t: int, f: Field)
    requires NamesAscend(cs)
    ensures (exists k :: 0 <= k < |cs| && f in FieldOf(cs[k].name, cs[k].vals, t)) <==>
      Occurs(cs, f.name, t) && f == Winner(cs, f.name, t)
  {
    hide FieldVals, At, Content, NamesAscend, StrLess;
    OccursIn(cs, f.name, t);
    if k :| 0 <= k < |cs| && f in FieldOf(cs[k].name, cs[k].vals, t) {
      ContentOfOne(cs, k, t);
    }
    if Occurs(cs, f.name, t) && f == Winner(cs, f.name, t) {
      var k :| 0 <= k < |cs| && cs[k].name == f.name && At(cs[k].vals, t) != [];
      ContentOfOne(cs, k, t);
      assert f in FieldOf(cs[k].name, cs[k].vals, t);
    }
  }

  /** The gathered buffer is the model's field list. */
  lemma GatheredIsFields(cs: seq<Src>, t: int)
    requires NamesAscend(cs)
    ensures Gathered(cs, t, |cs|) == FieldsAt(cs, t)
  {
    hide Gathered, FieldsAt, FieldOf, Occurs, Winner, FieldOrdered;
    GatheredMembers(cs, t, |cs|);
    forall f ensures f in Gathered(cs, t, |cs|) <==> Occurs(cs, f.name, t) && f == Winner(cs, f.name, t) {
      GatheredMember(cs, t, f);
    }
    FieldsAtUnique(cs, t, Gathered(cs, t, |cs|));
  }

  /** A stream's name is not in the buffer before its turn. */
  lemma NotYetGathered(cs: seq<Src>, t: int, k: nat)
    requires NamesAscend(cs) && k < |cs|
    ensures forall j :: 0 <= j < |Gathered(cs, t, k)| ==> Gathered(cs, t, k)[j].name != cs[k].name
  {
    hide Gathered, At;
    GatheredMembers(cs, t, k);
    StrTotal();
    var buf: seq<Field> := Gathered(cs, t, k);
    forall j | 0 <= j < |buf| ensures buf[j].name != cs[k].name {
      assert buf[j] in buf;
      var i :| 0 <= i < k && buf[j] in FieldOf(cs[i].name, cs[i].vals, t);
      assert StrLess(cs[i].name, cs[k].name);
    }
  }

  /** Gathers every stream's values at t, advancing those cursors. */
  method Gather(ss: seq<Stream>, t: Time, fs: FileSet, ghost objs: set<object>, ghost rests: seq<seq<Value>>)
      returns (ok: bool, buf: seq<Field>, ghost after: seq<seq<Value>>)
    requires Apart(ss, objs, fs) && AllUsable(ss, objs, fs) && fs.Valid() && Synced(ss, objs, fs, rests)
    requires NamesAscend(Named(ss, rests))
    requires forall k :: 0 <= k < |rests| ==> AllFrom(rests[k], t)
    modifies objs, fs`rs, fs`refs, fs`faults, fs`live
    ensures AllUsable(ss, objs, fs) && fs.Valid() && OnlyReleases(objs, fs)
    ensures |after| == |rests| && (ok ==> Synced(ss, objs, fs, after))
    ensures ok ==> forall k :: 0 <= k < |rests| ==> after[k] == InRange(rests[k], t + 1, MAX_TIME)
    ensures ok ==> buf == FieldsAt(Named(ss, rests), t)
    ensures old(fs.faults) == [] ==> fs.faults == [] && ok
  {
    hide Stream.Usable, Stream.Ready, Stream.Broken, Stream.Rest, FileSet.Valid, Stream.On, AllUsable, FieldsAt,
      FieldOf, InRange, NamesAscend;
    buf, after := [], rests;
    ghost var cs := Named(ss, rests);
    for k := 0 to |ss|
      invariant AllUsable(ss, objs, fs) && fs.Valid() && OnlyReleases(objs, fs) && Synced(ss, objs, fs, after)
      invariant |after| == |rests|
      invariant old(fs.faults) == [] ==> fs.faults == []
      invariant forall j :: 0 <= j < |rests| ==>
        after[j] == if j < k then InRange(rests[j], t + 1, MAX_TIME) else rests[j]
      invariant buf == Gathered(cs, t, k)
    {
      NotYetGathered(cs, t, k);
      ok, buf := DrainAt(ss, k, t, buf, fs, objs, after);
      if !ok { return; }
      after := after[k := InRange(after[k], t + 1, MAX_TIME)];
    }
    GatheredIsFields(cs, t);
    ok := true;
  }

  // ---- the merge loop ----

  /** What is left of each stream once everything before cut is out. */
  ghost function From(rests0: seq<seq<Value>>, cut: int): seq<seq<Value>> {
    seq(|rests0|, k requires 0 <= k < |rests0| => InRange(rests0[k], cut, MAX_TIME))
  }

  lemma {:induction false} InRangeTwice(s: seq<Value>, a: int, b: int)
    requires a <= b
    ensures InRange(InRange(s, a, MAX_TIME), b, MAX_TIME) == InRange(s, b, MAX_TIME)
    decreases |s|
  {
    if s != [] { InRangeTwice(s[1..], a, b); }
  }

  lemma {:induction false} GatheredAfter(cs: seq<Src>, ds: seq<Src>, t: int, n: nat)
    requires n <= |cs| == |ds|
    requires forall k :: 0 <= k < n ==> cs[k].name == ds[k].name && At(cs[k].vals, t) == At(ds[k].vals, t)
    ensures Gathered(cs, t, n) == Gathered(ds, t, n)
    decreases n
  {
    if n > 0 { GatheredAfter(cs, ds, t, n - 1); }
  }

  /** The fields at t do not change when earlier times are cut off. */
  lemma FieldsAfterCut(ss: seq<Stream>, rests0: seq<seq<Value>>, cut: int, t: int)
    requires |ss| == |rests0| && cut <= t <= MAX_TIME && NamesAscend(Named(ss, rests0))
    ensures NamesAscend(Named(ss, From(rests0, cut)))
    ensures FieldsAt(Named(ss, From(rests0, cut)), t) == FieldsAt(Named(ss, rests0), t)
  {
    var a, b := Named(ss, From(rests0, cut)), Named(ss, rests0);
    assert forall k :: 0 <= k < |a| ==> a[k].name == b[k].name;
    forall k | 0 <= k < |a| ensures At(a[k].vals, t) == At(b[k].vals, t) {
      AtInRange(rests0[k], cut, MAX_TIME, t);
    }
    GatheredAfter(a, b, t, |a|);
    GatheredIsFields(a, t);
    GatheredIsFields(b, t);
  }

  lemma OnlyTime(cs: seq<Src>, cut: int, t: int)
    requires cut <= t <= MAX_TIME
    requires forall k :: 0 <= k < |cs| ==> AllFrom(InRange(cs[k].vals, cut, MAX_TIME), t)
    requires exists k :: 0 <= k < |cs| && At(cs[k].vals, t) != []
    ensures Times(cs, cut, t) == {t}
  {
    hide At, InRange, Occurs;
    forall u ensures u in Times(cs, cut, t) <==> u == t {
      TimesOccur(cs, cut, t, u);
      if u in Times(cs, cut, t) {
        var k, j :| 0 <= k < |cs| && 0 <= j < |cs[k].vals| && cs[k].vals[j].ts == u;
        InRangeMembers(cs[k].vals, cut, MAX_TIME);
        assert cs[k].vals[j] in InRange(cs[k].vals, cut, MAX_TIME);
      }
      if u == t {
        var k :| 0 <= k < |cs| && At(cs[k].vals, t) != [];
        OccursIn(cs, cs[k].name, t);
      }
    }
  }

  /** Nothing occurs between the cut and the least head: the next point of the model is the one at that
      head. */
  lemma NextPoint(sk: Str, cs: seq<Src>, cut: int, t: int)
    requires MIN_TIME <= cut <= t <= MAX_TIME
    requires forall k :: 0 <= k < |cs| ==> AllFrom(InRange(cs[k].vals, cut, MAX_TIME), t)
    requires exists k :: 0 <= k < |cs| && At(cs[k].vals, t) != []
    ensures SeriesPoints(sk, cs, MIN_TIME, t) ==
      SeriesPoints(sk, cs, MIN_TIME, cut - 1) + [Point(sk, t, FieldsAt(cs, t))]
  {
    SplitPoints(sk, cs, MIN_TIME, cut - 1, t);
    OnlyTime(cs, cut, t);
    hide *;
    OnePoint(sk, cs, cut, t);
  }

  lemma OnePoint(sk: Str, cs: seq<Src>, cut: int, t: int)
    requires Times(cs, cut, t) == {t}
    ensures SeriesPoints(sk, cs, cut, t) == [Point(sk, t, FieldsAt(cs, t))]
  {
    hide Times, FieldsAt, Sorted;
    var times := Sorted(Times(cs, cut, t), IntLess);
    assert |times| == 1 && times[0] in times;
    assert times == [t] && times[1..] == [];
    assert PointsAt(sk, cs, times) == [Point(sk, t, FieldsAt(cs, t))] + PointsAt(sk, cs, times[1..]);
  }

  lemma NothingLeft(sk: Str, ss: seq<Stream>, rests0: seq<seq<Value>>, cut: int)
    requires |ss| == |rests0| && MIN_TIME <= cut <= MAX_TIME + 1
    requires forall k :: 0 <= k < |rests0| ==> InRange(rests0[k], cut, MAX_TIME) == []
    ensures SeriesPoints(sk, Named(ss, rests0), MIN_TIME, cut - 1) == SeriesPoints(sk, Named(ss, rests0), MIN_TIME, MAX_TIME)
  {
    var cs := Named(ss, rests0);
    SplitPoints(sk, cs, MIN_TIME, cut - 1, MAX_TIME);
    forall n, t | cut <= t <= MAX_TIME ensures !Occurs(cs, n, t) {
      OccursIn(cs, n, t);
      if k :| 0 <= k < |cs| && cs[k].name == n && At(cs[k].vals, t) != [] {
        AtInRange(rests0[k], cut, MAX_TIME, t);
      }
    }
    NoPoints(sk, cs, cut, MAX_TIME);
  }

  /** The points up to a cut are a prefix of all the points. */
  lemma PointsPrefix(sk: Str, cs: seq<Src>, cut: int)
    requires MIN_TIME <= cut <= MAX_TIME + 1
    ensures SeriesPoints(sk, cs, MIN_TIME, cut - 1) <= SeriesPoints(sk, cs, MIN_TIME, MAX_TIME)
  {
    SplitPoints(sk, cs, MIN_TIME, cut - 1, MAX_TIME);
  }

  lemma HeadTimes(rests0: seq<seq<Value>>, cut: int, t: int)
    requires MIN_TIME <= cut && forall k :: 0 <= k < |rests0| ==> Ascending(rests0[k])
    requires exists k :: 0 <= k < |rests0| && From(rests0, cut)[k] != [] && From(rests0, cut)[k][0].ts == t
    requires forall k :: 0 <= k < |rests0| && From(rests0, cut)[k] != [] ==> t <= From(rests0, cut)[k][0].ts
    ensures cut <= t
    ensures forall k :: 0 <= k < |rests0| ==> AllFrom(InRange(rests0[k], cut, MAX_TIME), t)
    ensures exists k :: 0 <= k < |rests0| && At(rests0[k], t) != []
  {
    forall k | 0 <= k < |rests0| ensures AllFrom(InRange(rests0[k], cut, MAX_TIME), t) {
      InRangeAscending(rests0[k], cut, MAX_TIME);
      assert From(rests0, cut)[k] == InRange(rests0[k], cut, MAX_TIME);
    }
    var k :| 0 <= k < |rests0| && From(rests0, cut)[k] != [] && From(rests0, cut)[k][0].ts == t;
    var v := From(rests0, cut)[k][0];
    InRangeMembers(rests0[k], cut, MAX_TIME);
    assert v in InRange(rests0[k], cut, MAX_TIME);
    AtEmpty(rests0[k], t);
  }

  /** One round of the merge: the next point and what it leaves of each stream, or the end. */
  method NextOf(sk: Str, ss: seq<Stream>, fs: FileSet, ghost objs: set<object>, ghost rests0: seq<seq<Value>>, ghost cut: int)
      returns (ok: bool, have: bool, p: Point, ghost after: seq<seq<Value>>)
    requires |rests0| == |ss| && MIN_TIME <= cut <= MAX_TIME + 1
    requires Apart(ss, objs, fs) && AllUsable(ss, objs, fs) && fs.Valid() && Synced(ss, objs, fs, From(rests0, cut))
    requires NamesAscend(Named(ss, rests0))
    requires forall k :: 0 <= k < |rests0| ==> Ascending(rests0[k])
    modifies objs, fs`rs, fs`refs, fs`faults, fs`live
    ensures AllUsable(ss, objs, fs) && fs.Valid() && OnlyReleases(objs, fs)
    ensures ok && !have ==>
      SeriesPoints(sk, Named(ss, rests0), MIN_TIME, MAX_TIME) == SeriesPoints(sk, Named(ss, rests0), MIN_TIME, cut - 1)
    ensures ok && have ==> cut <= p.ts <= MAX_TIME && after == From(rests0, p.ts + 1) && Synced(ss, objs, fs, after)
    ensures ok && have ==>
      SeriesPoints(sk, Named(ss, rests0), MIN_TIME, p.ts) == SeriesPoints(sk, Named(ss, rests0), MIN_TIME, cut - 1) + [p]
    ensures old(fs.faults) == [] ==> fs.faults == [] && ok
  {
    hide Stream.Usable, Stream.Ready, Stream.Broken, Stream.Rest, FileSet.Valid, Stream.On, AllUsable, FieldsAt,
      SeriesPoints, Ascending, AllFrom, At, InRange, NamesAscend;
    ghost var cs, rests := Named(ss, rests0), From(rests0, cut);
    var t: Time;
    p, after := Point([], 0, []), [];
    ok, have, t := FindMin(ss, fs, objs, rests);
    if !ok { return; }
    if !have {
      forall k | 0 <= k < |rests0| ensures InRange(rests0[k], cut, MAX_TIME) == [] { assert rests[k] == []; }
      NothingLeft(sk, ss, rests0, cut);
      return;
    }
    HeadTimes(rests0, cut, t);
    FieldsAfterCut(ss, rests0, cut, t);
    ghost var k :| 0 <= k < |rests0| && At(rests0[k], t) != [];
    assert At(cs[k].vals, t) != [];
    NextPoint(sk, cs, cut, t);
    var fields;
    ok, fields, after := Gather(ss, t, fs, objs, rests);
    if !ok { return; }
    p := Point(sk, t, fields);
    CutFurther(rests0, cut, t as int + 1, after);
  }

  /** Merges streams with distinct, ascending names. Without a failure the output is exactly the
      model's points; with one it is a prefix of them. */
  method MergeStreams(sk: Str, ss: seq<Stream>, fs: FileSet, ghost objs: set<object>, ghost rests0: seq<seq<Value>>,
      st0: Stats) returns (ok: bool, out: seq<Point>, st: Stats)
    requires Apart(ss, objs, fs) && AllUsable(ss, objs, fs) && fs.Valid() && Synced(ss, objs, fs, rests0)
    requires NamesAscend(Named(ss, rests0))
    requires forall k :: 0 <= k < |rests0| ==> Ascending(rests0[k])
    modifies objs, fs`rs, fs`refs, fs`faults, fs`live
    ensures AllUsable(ss, objs, fs) && fs.Valid() && OnlyReleases(objs, fs)
    ensures out <= SeriesPoints(sk, Named(ss, rests0), MIN_TIME, MAX_TIME)
    ensures ok ==> out == SeriesPoints(sk, Named(ss, rests0), MIN_TIME, MAX_TIME)
    ensures st == Tally(st0, out)
    ensures old(fs.faults) == [] ==> fs.faults == [] && ok
  {
    hide Stream.Usable, Stream.Ready, Stream.Broken, Stream.Rest, FileSet.Valid, Stream.On, AllUsable, FieldsAt,
      SeriesPoints, Ascending, AllFrom, At, InRange, NamesAscend, Stats.Add, Stats.Observe;
    ghost var cs := Named(ss, rests0);
    ghost var cut := MIN_TIME;
    ghost var rests := rests0;
    out, st := [], st0;
    EmptyStart(sk, rests0, cs);
    while true
      invariant AllUsable(ss, objs, fs) && fs.Valid() && OnlyReleases(objs, fs) && Synced(ss, objs, fs, rests)
      invariant MIN_TIME <= cut <= MAX_TIME + 1 && rests == From(rests0, cut)
      invariant out == SeriesPoints(sk, cs, MIN_TIME, cut - 1) && st == Tally(st0, out)
      invariant old(fs.faults) == [] ==> fs.faults == []
      decreases MAX_TIME + 1 - cut
    {
      PointsPrefix(sk, cs, cut);
      var have, p;
      ghost var after;
      ok, have, p, after := NextOf(sk, ss, fs, objs, rests0, cut);
      if !ok { return; }
      if !have { return; }
      out, st := out + [p], st.Add(p);
      assert out[..|out| - 1] + [p] == out;
      cut, rests := p.ts + 1, after;
    }
  }

  lemma CutFurther(rests0: seq<seq<Value>>, a: int, b: int, after: seq<seq<Value>>)
    requires a <= b && |after| == |rests0|
    requires forall k :: 0 <= k < |rests0| ==> after[k] == InRange(From(rests0, a)[k], b, MAX_TIME)
    ensures after == From(rests0, b)
  {
    forall k | 0 <= k < |rests0| ensures after[k] == InRange(rests0[k], b, MAX_TIME) {
      assert after[k] == InRange(From(rests0, a)[k], b, MAX_TIME);
      InRangeTwice(rests0[k], a, b);
    }
  }

  lemma EmptyStart(sk: Str, rests0: seq<seq<Value>>, cs: seq<Src>)
    ensures rests0 == From(rests0, MIN_TIME)
    ensures SeriesPoints(sk, cs, MIN_TIME, MIN_TIME - 1) == []
  {
    forall k | 0 <= k < |rests0| ensures InRange(rests0[k], MIN_TIME, MAX_TIME) == rests0[k] {
      InRangeAll(rests0[k], MIN_TIME, MAX_TIME);
    }
    NoPoints(sk, cs, MIN_TIME, MIN_TIME - 1);
  }
}
