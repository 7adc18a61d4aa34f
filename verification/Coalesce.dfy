/** mergeSeries as a whole: coalesce by field, sort by name, merge. */
module Coalesce {
  import opened Orders
  import opened Values
  import opened Streams
  import opened FieldMerge
  import opened SeriesSpec
  import opened SeriesMerge

  /** The leaves of field n, in their original order: that order is the precedence. */
  function Pick(ls: seq<Leaf>, n: Str): seq<Leaf> {
    if ls == [] then [] else (if ls[0].Field() == n then [ls[0]] else []) + Pick(ls[1..], n)
  }

  lemma {:induction false} PickAppend(ls: seq<Leaf>, l: Leaf, n: Str)
    ensures Pick(ls + [l], n) == Pick(ls, n) + if l.Field() == n then [l] else []
    decreases |ls|
  {
    hide Leaf.Field;
    if ls == [] {
      assert ls + [l] == [l] && [l][1..] == [];
    } else {
      assert (ls + [l])[0] == ls[0] && (ls + [l])[1..] == ls[1..] + [l];
      PickAppend(ls[1..], l, n);
      var h, p, x := if ls[0].Field() == n then [ls[0]] else [], Pick(ls[1..], n), if l.Field() == n then [l] else [];
      assert h + (p + x) == (h + p) + x;
    }
  }

  lemma {:induction false} PickMembers(ls: seq<Leaf>, n: Str)
    ensures forall j :: 0 <= j < |Pick(ls, n)| ==> Pick(ls, n)[j] in ls && Pick(ls, n)[j].Field() == n
    decreases |ls|
  {
    if ls != [] { PickMembers(ls[1..], n); }
  }

  ghost predicate LeavesApart(ls: seq<Leaf>) {
    forall i, j :: 0 <= i < j < |ls| ==> ls[i].Obj() != ls[j].Obj()
  }

  lemma {:induction false} PickApart(ls: seq<Leaf>, n: Str)
    requires LeavesApart(ls)
    ensures LeavesApart(Pick(ls, n))
    decreases |ls|
  {
    if ls != [] {
      assert LeavesApart(ls[1..]);
      PickApart(ls[1..], n);
      var rest := Pick(ls[1..], n);
      PickMembers(ls[1..], n);
      forall j | 0 <= j < |rest| ensures rest[j].Obj() != ls[0].Obj() {
        var i :| 0 <= i < |ls[1..]| && ls[1..][i] == rest[j];
        assert ls[i + 1] == rest[j];
      }
    }
  }

  /** The leaves with what each has to deliver. */
  ghost predicate Sources(ls: seq<Leaf>, srcs: seq<Src>)
    reads set k | 0 <= k < |ls| :: ls[k].Obj()
  {
    |srcs| == |ls| && forall k :: 0 <= k < |ls| ==> srcs[k] == Src(ls[k].Field(), ls[k].Rest())
  }

  function PickVals(srcs: seq<Src>, n: Str): seq<seq<Value>> {
    if srcs == [] then [] else (if srcs[0].name == n then [srcs[0].vals] else []) + PickVals(srcs[1..], n)
  }

  lemma {:induction false} FieldValsFlatten(srcs: seq<Src>, n: Str)
    ensures FieldVals(srcs, n) == Flatten(PickVals(srcs, n))
    decreases |srcs|
  {
    if srcs != [] {
      FieldValsFlatten(srcs[1..], n);
      FlattenConcat(if srcs[0].name == n then [srcs[0].vals] else [], PickVals(srcs[1..], n));
      if srcs[0].name == n {
        var one := [srcs[0].vals];
        assert one[1..] == [] && Flatten(one) == srcs[0].vals + Flatten(one[1..]);
      }
    }
  }

  lemma {:induction false} PickRests(ls: seq<Leaf>, srcs: seq<Src>, n: Str)
    requires Sources(ls, srcs)
    ensures |Pick(ls, n)| == |PickVals(srcs, n)|
    ensures forall j :: 0 <= j < |Pick(ls, n)| ==> Pick(ls, n)[j].Rest() == PickVals(srcs, n)[j]
    decreases |ls|
  {
    if ls != [] {
      assert Sources(ls[1..], srcs[1..]) by {
        forall k | 0 <= k < |ls[1..]| ensures srcs[1..][k] == Src(ls[1..][k].Field(), ls[1..][k].Rest()) {
          assert srcs[k + 1] == Src(ls[k + 1].Field(), ls[k + 1].Rest());
        }
      }
      PickRests(ls[1..], srcs[1..], n);
    }
  }

  /** A coalesced stream: the copies of its field, in order, with their stable merge still to come. */
  ghost predicate Coalesced(s: Stream, ls: seq<Leaf>, srcs: seq<Src>, fs: FileSet)
    reads s.Objs(), fs`live
  {
    && s.Kids() == Pick(ls, s.Name()) && s.Kids() != []
    && s.Usable() && s.On(fs) && !s.Broken()
    && (s.Many? ==> s.m.objs == set k | 0 <= k < |s.m.children| :: s.m.children[k].Obj())
    && (forall t :: At(s.Rest(), t) == Content(srcs, s.Name(), t))
  }

  lemma {:induction false} DistinctPick(ls: seq<Leaf>, i: nat)
    requires i < |ls| && forall j, k :: 0 <= j < k < |ls| ==> ls[j].Field() != ls[k].Field()
    ensures Pick(ls, ls[i].Field()) == [ls[i]]
    decreases |ls|
  {
    var n := ls[i].Field();
    if i > 0 {
      assert ls[1..][i - 1] == ls[i];
      DistinctPick(ls[1..], i - 1);
    } else {
      assert forall k :: 0 <= k < |ls[1..]| ==> ls[1..][k] == ls[k + 1];
      NoPick(ls[1..], n);
    }
  }

  lemma {:induction false} NoPick(ls: seq<Leaf>, n: Str)
    requires forall k :: 0 <= k < |ls| ==> ls[k].Field() != n
    ensures Pick(ls, n) == []
    decreases |ls|
  {
    if ls != [] {
      assert forall k :: 0 <= k < |ls[1..]| ==> ls[1..][k] == ls[k + 1];
      NoPick(ls[1..], n);
    }
  }

  lemma SingleCoalesced(ls: seq<Leaf>, l: Leaf, srcs: seq<Src>, fs: FileSet)
    requires Sources(ls, srcs) && l in ls && Pick(ls, l.Field()) == [l]
    requires l.Usable() && l.On(fs) && !l.Broken()
    ensures Coalesced(One(l), ls, srcs, fs)
  {
    hide Leaf.Usable, Leaf.On, Leaf.Broken;
    var n := l.Field();
    PickRests(ls, srcs, n);
    FieldValsFlatten(srcs, n);
    var vs := PickVals(srcs, n);
    assert vs == [l.Rest()] && vs[1..] == [];
    assert Flatten(vs) == vs[0] + Flatten(vs[1..]) == vs[0];
  }

  method Wrap(ls: seq<Leaf>, n: Str, fs: FileSet, ghost srcs: seq<Src>) returns (s: Stream)
    requires LeavesApart(ls) && Sources(ls, srcs) && Pick(ls, n) != []
    requires forall l :: l in ls ==> l.Usable() && l.On(fs) && !l.Broken() && l.Obj() != fs
    ensures Coalesced(s, ls, srcs, fs) && s.Name() == n && s.Many? && fresh(s.m)
  {
    hide Leaf.Usable, Leaf.On, Leaf.Broken, Leaf.Rest, HeapFrom, Heads;
    var g := Pick(ls, n);
    PickMembers(ls, n);
    PickApart(ls, n);
    var m := new FieldMergeStream(fs, n, g);
    s := Many(m);
    PickRests(ls, srcs, n);
    FieldValsFlatten(srcs, n);
    assert m.rests == PickVals(srcs, n);
    StableSortIsStable(Flatten(m.rests));
  }

  ghost predicate Distinct(names: seq<Str>) {
    forall j, k :: 0 <= j < k < |names| ==> names[j] != names[k]
  }

  /** The names that occur, each once, and each name's leaves. */
  ghost predicate Grouped(ls: seq<Leaf>, byName: map<Str, seq<Leaf>>, order: seq<Str>) {
    && Distinct(order)
    && (forall n :: n in byName <==> n in order)
    && (forall n :: n in order ==> byName[n] == Pick(ls, n))
    && (forall n :: n in order <==> Pick(ls, n) != [])
  }

  lemma GroupOneMore(ls: seq<Leaf>, l: Leaf, byName: map<Str, seq<Leaf>>, order: seq<Str>)
    requires Grouped(ls, byName, order)
    ensures var n := l.Field();
      Grouped(ls + [l], byName[n := if n in byName then byName[n] + [l] else [l]],
        if n in byName then order else order + [n])
  {
    hide Pick;
    forall m ensures Pick(ls + [l], m) == Pick(ls, m) + if l.Field() == m then [l] else [] { PickAppend(ls, l, m); }
  }

  /** Name j of the order appears first at leaf at[j], and these positions ascend. */
  ghost predicate FirstSeen(ls: seq<Leaf>, order: seq<Str>, at: seq<nat>) {
    && |at| == |order|
    && (forall j :: 0 <= j < |at| ==> at[j] < |ls| && ls[at[j]].Field() == order[j])
    && (forall i, j :: 0 <= j < |at| && 0 <= i < at[j] ==> ls[i].Field() != order[j])
    && (forall j, k :: 0 <= j < k < |at| ==> at[j] < at[k])
  }

  lemma SeenOneMore(ls: seq<Leaf>, l: Leaf, order: seq<Str>, at: seq<nat>)
    requires FirstSeen(ls, order, at)
    ensures FirstSeen(ls + [l], order, at)
    ensures (forall i :: 0 <= i < |ls| ==> ls[i].Field() != l.Field()) ==> FirstSeen(ls + [l], order + [l.Field()], at + [|ls|])
  {
    hide Leaf.Field;
  }

  lemma {:induction false} PickSome(ls: seq<Leaf>, i: nat)
    requires i < |ls|
    ensures Pick(ls, ls[i].Field()) != []
    decreases i
  {
    if i > 0 {
      assert ls[1..][i - 1] == ls[i];
      PickSome(ls[1..], i - 1);
    }
  }

  /** The names in order of first appearance, and each name's leaves. */
  method GroupByName(ls: seq<Leaf>) returns (byName: map<Str, seq<Leaf>>, order: seq<Str>, ghost at: seq<nat>)
    ensures Grouped(ls, byName, order) && FirstSeen(ls, order, at)
    ensures |order| == |ls| ==> forall j :: 0 <= j < |ls| ==> order[j] == ls[j].Field()
  {
    hide Grouped, FirstSeen;
    byName, order, at := map[], [], [];
    assert FirstSeen([], order, at) by { NoneSeen(); }
    assert Grouped([], byName, order) by { GroupNone(); }
    for i := 0 to |ls|
      invariant Grouped(ls[..i], byName, order) && FirstSeen(ls[..i], order, at)
      invariant |order| <= i && (|order| == i ==> forall j :: 0 <= j < i ==> order[j] == ls[j].Field())
    {
      var n := ls[i].Field();
      assert ls[..i + 1] == ls[..i] + [ls[i]];
      GroupOneMore(ls[..i], ls[i], byName, order);
      SeenOneMore(ls[..i], ls[i], order, at);
      if n !in byName {
        NewName(ls[..i], n, byName, order);
        order, at := order + [n], at + [i];
      }
      byName := byName[n := if n in byName then byName[n] + [ls[i]] else [ls[i]]];
    }
    assert ls[..|ls|] == ls;
  }

  lemma NoneSeen()
    ensures FirstSeen([], [], [])
  {}

  lemma NewName(ls: seq<Leaf>, n: Str, byName: map<Str, seq<Leaf>>, order: seq<Str>)
    requires Grouped(ls, byName, order) && n !in byName
    ensures forall i :: 0 <= i < |ls| ==> ls[i].Field() != n
  {
    forall i | 0 <= i < |ls| ensures ls[i].Field() != n { PickSome(ls, i); }
  }

  lemma GroupNone()
    ensures Grouped([], map[], [])
  {}

  method FieldStream(ls: seq<Leaf>, n: Str, g: seq<Leaf>, fs: FileSet, ghost srcs: seq<Src>) returns (s: Stream)
    requires LeavesApart(ls) && Sources(ls, srcs) && g == Pick(ls, n) && g != []
    requires forall l :: l in ls ==> l.Usable() && l.On(fs) && !l.Broken() && l.Obj() != fs
    ensures Coalesced(s, ls, srcs, fs) && s.Name() == n && (s.Many? ==> fresh(s.m))
  {
    hide Leaf.Usable, Leaf.On, Leaf.Broken, Leaf.Rest, Coalesced, Pick;
    if |g| == 1 {
      PickMembers(ls, n);
      assert g == [g[0]];
      s := One(g[0]);
      SingleCoalesced(ls, g[0], srcs, fs);
    } else {
      s := Wrap(ls, n, fs, srcs);
    }
  }

  lemma NamesGrouped(ls: seq<Leaf>, byName: map<Str, seq<Leaf>>, order: seq<Str>)
    requires Grouped(ls, byName, order)
    ensures Distinct(order) && forall n :: Pick(ls, n) != [] ==> n in order
  {}

  /** One stream per field: a leaf on its own, several copies merged. */
  method CoalesceByField(ls: seq<Leaf>, fs: FileSet, ghost srcs: seq<Src>) returns (ss: seq<Stream>)
    requires LeavesApart(ls) && Sources(ls, srcs)
    requires forall l :: l in ls ==> l.Usable() && l.On(fs) && !l.Broken() && l.Obj() != fs
    ensures forall j, k :: 0 <= j < k < |ss| ==> ss[j].Name() != ss[k].Name()
    ensures forall k :: 0 <= k < |ss| ==> Coalesced(ss[k], ls, srcs, fs) && (ss[k].Many? ==> fresh(ss[k].m))
    ensures forall n :: Pick(ls, n) != [] ==> exists k :: 0 <= k < |ss| && ss[k].Name() == n
  {
    hide Leaf.Usable, Leaf.On, Leaf.Broken, Leaf.Rest, Coalesced, Pick, Sources, LeavesApart, FirstSeen, Grouped;
    var byName, order, _ := GroupByName(ls);
    NamesGrouped(ls, byName, order);
    if |order| == |ls| {
      ss := KeepAll(ls, fs, srcs, order);
    } else {
      ss := WrapEach(ls, fs, srcs, byName, order);
    }
    forall n | Pick(ls, n) != [] ensures exists k :: 0 <= k < |ss| && ss[k].Name() == n {
      var k :| 0 <= k < |order| && order[k] == n;
      assert ss[k].Name() == n;
    }
  }

  /** Every field has one stream: nothing to wrap. */
  method KeepAll(ls: seq<Leaf>, fs: FileSet, ghost srcs: seq<Src>, ghost order: seq<Str>) returns (ss: seq<Stream>)
    requires LeavesApart(ls) && Sources(ls, srcs) && |order| == |ls| && Distinct(order)
    requires forall i :: 0 <= i < |ls| ==> ls[i].Field() == order[i]
    requires forall l :: l in ls ==> l.Usable() && l.On(fs) && !l.Broken() && l.Obj() != fs
    ensures |ss| == |order| && forall k :: 0 <= k < |ss| ==> ss[k].Name() == order[k] && Coalesced(ss[k], ls, srcs, fs) && !ss[k].Many?
  {
    hide Leaf.Usable, Leaf.On, Leaf.Broken, Leaf.Rest, Coalesced, Pick, Sources, LeavesApart;
    ss := [];
    for i := 0 to |ls|
      invariant |ss| == i && forall k :: 0 <= k < i ==> ss[k] == One(ls[k]) && Coalesced(ss[k], ls, srcs, fs)
    {
      DistinctPick(ls, i);
      SingleCoalesced(ls, ls[i], srcs, fs);
      ss := ss + [One(ls[i])];
    }
  }

  method WrapEach(ls: seq<Leaf>, fs: FileSet, ghost srcs: seq<Src>, byName: map<Str, seq<Leaf>>, order: seq<Str>)
      returns (ss: seq<Stream>)
    requires LeavesApart(ls) && Sources(ls, srcs) && Grouped(ls, byName, order)
    requires forall l :: l in ls ==> l.Usable() && l.On(fs) && !l.Broken() && l.Obj() != fs
    ensures |ss| == |order| && forall k :: 0 <= k < |ss| ==> ss[k].Name() == order[k]
    ensures forall k :: 0 <= k < |ss| ==> Coalesced(ss[k], ls, srcs, fs) && (ss[k].Many? ==> fresh(ss[k].m))
  {
    hide Leaf.Usable, Leaf.On, Leaf.Broken, Leaf.Rest, Coalesced, Pick, Sources, LeavesApart;
    ss := [];
    for i := 0 to |order|
      invariant |ss| == i && forall k :: 0 <= k < i ==> ss[k].Name() == order[k]
      invariant forall k :: 0 <= k < i ==> Coalesced(ss[k], ls, srcs, fs) && (ss[k].Many? ==> fresh(ss[k].m))
    {
      assert forall k :: 0 <= k < i ==> allocated(ss[k].Objs());
      var s := FieldStream(ls, order[i], byName[order[i]], fs, srcs);
      assert forall k :: 0 <= k < i ==> Coalesced(ss[k], ls, srcs, fs);
      ss := ss + [s];
    }
  }

  // ---- sort.SliceStable by name ----

  ghost predicate Ascend(ss: seq<Stream>) {
    forall j, k :: 0 <= j < k < |ss| ==> StrLess(ss[j].Name(), ss[k].Name())
  }

  function InsertByName(s: Stream, ss: seq<Stream>): (r: seq<Stream>)
    ensures multiset(r) == multiset([s]) + multiset(ss)
  {
    if ss == [] || !StrLess(ss[0].Name(), s.Name()) then [s] + ss
    else
      assert ss == [ss[0]] + ss[1..];
      [ss[0]] + InsertByName(s, ss[1..])
  }

  function SortByName(ss: seq<Stream>): (r: seq<Stream>)
    ensures multiset(r) == multiset(ss)
  {
    if ss == [] then []
    else
      assert ss == [ss[0]] + ss[1..];
      InsertByName(ss[0], SortByName(ss[1..]))
  }

  lemma {:induction false} InsertAscends(s: Stream, ss: seq<Stream>)
    requires Ascend(ss) && forall k :: 0 <= k < |ss| ==> ss[k].Name() != s.Name()
    ensures Ascend(InsertByName(s, ss))
    decreases |ss|
  {
    hide Stream.Name, StrLess;
    StrTotal();
    if ss != [] && StrLess(ss[0].Name(), s.Name()) {
      assert forall k :: 0 <= k < |ss[1..]| ==> ss[1..][k] == ss[k + 1];
      InsertAscends(s, ss[1..]);
      var r := InsertByName(s, ss[1..]);
      forall k | 0 <= k < |r| ensures StrLess(ss[0].Name(), r[k].Name()) { InsertedMember(s, ss[1..], k); }
    } else if ss != [] {
      assert StrLess(s.Name(), ss[0].Name());
    }
  }

  lemma InsertedMember(s: Stream, ss: seq<Stream>, k: nat)
    requires k < |InsertByName(s, ss)|
    ensures InsertByName(s, ss)[k] == s || exists j :: 0 <= j < |ss| && ss[j] == InsertByName(s, ss)[k]
  {
    hide InsertByName;
    var r := InsertByName(s, ss);
    assert r[k] in multiset(r);
    assert r[k] in multiset([s]) + multiset(ss);
  }

  lemma {:induction false} SortAscends(ss: seq<Stream>)
    requires forall j, k :: 0 <= j < k < |ss| ==> ss[j].Name() != ss[k].Name()
    ensures Ascend(SortByName(ss))
    decreases |ss|
  {
    hide Stream.Name;
    if ss != [] {
      assert forall k :: 0 <= k < |ss[1..]| ==> ss[1..][k] == ss[k + 1];
      SortAscends(ss[1..]);
      var r := SortByName(ss[1..]);
      forall k | 0 <= k < |r| ensures r[k].Name() != ss[0].Name() {
        assert r[k] in multiset(r);
        assert r[k] in ss[1..];
        var j :| 0 <= j < |ss[1..]| && ss[1..][j] == r[k];
      }
      InsertAscends(ss[0], r);
    }
  }

  // ---- the merge of a series ----

  lemma SortedMembers(ss: seq<Stream>, k: nat)
    requires k < |SortByName(ss)|
    ensures SortByName(ss)[k] in ss
  {
    assert SortByName(ss)[k] in multiset(SortByName(ss));
  }

  lemma SortedCovers(ss: seq<Stream>, k: nat) returns (i: nat)
    requires k < |ss|
    ensures i < |SortByName(ss)| && SortByName(ss)[i] == ss[k]
  {
    assert ss[k] in multiset(ss);
    assert ss[k] in SortByName(ss);
    i :| 0 <= i < |SortByName(ss)| && SortByName(ss)[i] == ss[k];
  }

  lemma SameObjSameLeaf(ls: seq<Leaf>, a: Leaf, b: Leaf)
    requires LeavesApart(ls) && a in ls && b in ls && a.Obj() == b.Obj()
    ensures a == b
  {}

  ghost predicate Feeds(l: Leaf, s: Stream, ls: seq<Leaf>, o: object) {
    l.Obj() == o && l in ls && l.Field() == s.Name()
  }

  /** The leaves that feed a coalesced stream. */
  lemma KidsAre(s: Stream, ls: seq<Leaf>, srcs: seq<Src>, fs: FileSet, o: object)
    requires Coalesced(s, ls, srcs, fs) && o in s.Objs()
    ensures (s.Many? && o == s.m) || exists k :: 0 <= k < |s.Kids()| && Feeds(s.Kids()[k], s, ls, o)
  {
    hide Leaf.Usable, Leaf.On, Leaf.Broken, Stream.Usable, Stream.On, Stream.Broken, At, Content;
    PickMembers(ls, s.Name());
    if s.One? { assert s.Kids()[0] == s.l; }
  }

  /** Streams of different fields share no object. */
  lemma StreamsApart(s: Stream, t: Stream, ls: seq<Leaf>, srcs: seq<Src>, fs: FileSet, objs: set<object>)
    requires Coalesced(s, ls, srcs, fs) && Coalesced(t, ls, srcs, fs) && s.Name() != t.Name() && LeavesApart(ls)
    requires forall l :: l in ls ==> l.Obj() in objs
    requires (s.Many? ==> s.m !in objs) && (t.Many? ==> t.m !in objs)
    ensures s.Objs() !! t.Objs()
  {
    hide Coalesced, LeavesApart, Leaf.Field, Leaf.Obj;
    forall o | o in s.Objs() && o in t.Objs() ensures false {
      KidsAre(s, ls, srcs, fs, o);
      KidsAre(t, ls, srcs, fs, o);
      if j, k :| 0 <= j < |s.Kids()| && Feeds(s.Kids()[j], s, ls, o) && 0 <= k < |t.Kids()| && Feeds(t.Kids()[k], t, ls, o) {
        SameObjSameLeaf(ls, s.Kids()[j], t.Kids()[k]);
      }
    }
  }

  /** Coalescing and sorting change no content. */
  lemma SameContent(ss: seq<Stream>, rests: seq<seq<Value>>, ls: seq<Leaf>, srcs: seq<Src>)
    requires |rests| == |ss| && NamesAscend(Named(ss, rests)) && Sources(ls, srcs)
    requires forall k, t :: 0 <= k < |ss| ==> At(rests[k], t) == Content(srcs, ss[k].Name(), t)
    requires forall n :: Pick(ls, n) != [] ==> exists k :: 0 <= k < |ss| && ss[k].Name() == n
    ensures Agree(Named(ss, rests), srcs, MIN_TIME, MAX_TIME)
  {
    var cs := Named(ss, rests);
    forall n, t ensures Content(cs, n, t) == Content(srcs, n, t) {
      if k :| 0 <= k < |ss| && ss[k].Name() == n {
        ContentOfOne(cs, k, t);
        assert At(rests[k], t) == Content(srcs, ss[k].Name(), t);
      } else {
        NoSuchName(cs, n);
        PickRests(ls, srcs, n);
        FieldValsFlatten(srcs, n);
      }
    }
    forall t | MIN_TIME <= t <= MAX_TIME ensures AgreeAt(cs, srcs, t) {
      assert forall n :: Content(cs, n, t) == Content(srcs, n, t);
    }
  }

  /** After the merge every leaf can still be released. */
  lemma LeavesValid(ss: seq<Stream>, objs: set<object>, ls: seq<Leaf>, fs: FileSet, i: nat)
    requires Apart(ss, objs, fs) && AllUsable(ss, objs, fs) && i < |ls|
    requires forall k :: 0 <= k < |ss| ==> ss[k].Kids() == Pick(ls, ss[k].Name())
    requires forall n :: Pick(ls, n) != [] ==> exists k :: 0 <= k < |ss| && ss[k].Name() == n
    ensures ls[i].Valid() && ls[i].On(fs)
  {
    hide Leaf.Valid, Leaf.On, Stream.Usable, Stream.On, Pick;
    var j := PickHas(ls, i);
    var n := ls[i].Field();
    var k :| 0 <= k < |ss| && ss[k].Name() == n;
    StreamKid(ss[k], fs, j);
  }

  lemma StreamKid(s: Stream, fs: FileSet, j: nat)
    requires s.Usable() && s.On(fs) && j < |s.Kids()|
    ensures s.Kids()[j].Valid() && s.Kids()[j].On(fs)
  {
    hide Leaf.Valid, Leaf.On;
    if s.Many? { assert s.m.children[j].Usable(); }
  }

  lemma {:induction false} PickHas(ls: seq<Leaf>, i: nat) returns (j: nat)
    requires i < |ls|
    ensures j < |Pick(ls, ls[i].Field())| && Pick(ls, ls[i].Field())[j] == ls[i]
    decreases |ls|
  {
    hide Leaf.Field;
    if i == 0 {
      j := 0;
    } else {
      assert ls[1..][i - 1] == ls[i];
      j := PickHas(ls[1..], i - 1);
      if ls[0].Field() == ls[i].Field() { j := j + 1; }
    }
  }

  /** Merges the streams of one series. Without a failure the output is exactly the model's points of
      what the streams deliver; with one it is a prefix. */
  method MergeSeries(sk: Str, ls: seq<Leaf>, fs: FileSet, ghost objs: set<object>, ghost srcs: seq<Src>, st0: Stats)
      returns (ok: bool, out: seq<Point>, st: Stats)
    requires LeavesApart(ls) && Sources(ls, srcs) && fs.Valid() && fs !in objs
    requires forall l :: l in ls ==> l.Usable() && l.On(fs) && !l.Broken() && l.Obj() in objs
    modifies objs, fs`rs, fs`refs, fs`faults, fs`live
    ensures fs.Valid() && OnlyReleases(objs, fs)
    ensures forall k :: 0 <= k < |ls| ==> ls[k].Valid() && ls[k].On(fs)
    ensures out <= SeriesPoints(sk, srcs, MIN_TIME, MAX_TIME)
    ensures ok ==> out == SeriesPoints(sk, srcs, MIN_TIME, MAX_TIME)
    ensures st == Tally(st0, out)
    ensures old(fs.faults) == [] ==> fs.faults == [] && ok
  {
    hide Leaf.Usable, Leaf.On, Leaf.Broken, Leaf.Rest, Leaf.Valid, Pick, FileSet.Valid, Stream.Usable, Stream.On,
      Stream.Broken, SeriesPoints;
    var grouped := CoalesceByField(ls, fs, srcs);
    var ss := SortByName(grouped);
    SortAscends(grouped);
    forall k | 0 <= k < |ss| ensures Coalesced(ss[k], ls, srcs, fs) && (ss[k].Many? ==> fresh(ss[k].m)) {
      SortedMembers(grouped, k);
    }
    forall n | Pick(ls, n) != [] ensures exists k :: 0 <= k < |ss| && ss[k].Name() == n {
      var g :| 0 <= g < |grouped| && grouped[g].Name() == n;
      var i := SortedCovers(grouped, g);
      assert ss[i].Name() == n;
    }
    ghost var all, rests := Gathering(ss, ls, srcs, fs, objs);
    SameContent(ss, rests, ls, srcs);
    SamePoints(sk, Named(ss, rests), srcs, MIN_TIME, MAX_TIME);
    ok, out, st := MergeStreams(sk, ss, fs, all, rests, st0);
    forall k | 0 <= k < |ls| ensures ls[k].Valid() && ls[k].On(fs) { LeavesValid(ss, all, ls, fs, k); }
  }

  /** All objects of the coalesced streams. */
  lemma ObjectsApart(ss: seq<Stream>, ls: seq<Leaf>, srcs: seq<Src>, fs: FileSet, objs: set<object>) returns (all: set<object>)
    requires LeavesApart(ls) && fs !in objs && Ascend(ss)
    requires forall l :: l in ls ==> l.Obj() in objs
    requires forall k :: 0 <= k < |ss| ==> Coalesced(ss[k], ls, srcs, fs)
    requires forall k :: 0 <= k < |ss| && ss[k].Many? ==> ss[k].m !in objs
    ensures Apart(ss, all, fs)
    ensures forall o :: o in all ==> o in objs || exists k :: 0 <= k < |ss| && ss[k].Many? && o == ss[k].m
  {
    hide Leaf.Usable, Leaf.On, Leaf.Broken, Leaf.Rest, Pick, Content, At, Stream.Usable, Stream.On, Stream.Broken,
      Stream.Rest, LeavesApart, StrLess;
    all := set k, o | 0 <= k < |ss| && o in ss[k].Objs() :: o;
    forall j, k | 0 <= j < k < |ss| ensures ss[j].Objs() !! ss[k].Objs() {
      StrTrichotomy(ss[j].Name(), ss[k].Name());
      StreamsApart(ss[j], ss[k], ls, srcs, fs, objs);
    }
    forall o | o in all ensures o in objs || exists k :: 0 <= k < |ss| && ss[k].Many? && o == ss[k].m {
      var k :| 0 <= k < |ss| && o in ss[k].Objs();
      KidsAre(ss[k], ls, srcs, fs, o);
    }
  }

  /** The coalesced streams as the merge wants them. */
  lemma Gathering(ss: seq<Stream>, ls: seq<Leaf>, srcs: seq<Src>, fs: FileSet, objs: set<object>)
      returns (all: set<object>, rests: seq<seq<Value>>)
    requires LeavesApart(ls) && fs !in objs && Ascend(ss)
    requires forall l :: l in ls ==> l.Obj() in objs
    requires forall k :: 0 <= k < |ss| ==> Coalesced(ss[k], ls, srcs, fs)
    requires forall k :: 0 <= k < |ss| && ss[k].Many? ==> ss[k].m !in objs
    ensures Apart(ss, all, fs) && AllUsable(ss, all, fs) && Synced(ss, all, fs, rests) && NamesAscend(Named(ss, rests))
    ensures forall k :: 0 <= k < |rests| ==> Ascending(rests[k])
    ensures forall k, t :: 0 <= k < |ss| ==> At(rests[k], t) == Content(srcs, ss[k].Name(), t)
    ensures forall o :: o in all ==> o in objs || exists k :: 0 <= k < |ss| && ss[k].Many? && o == ss[k].m
    ensures forall k :: 0 <= k < |ss| ==> ss[k].Kids() == Pick(ls, ss[k].Name())
  {
    hide Leaf.Usable, Leaf.On, Leaf.Broken, Leaf.Rest, Pick, Content, At, Stream.Usable, Stream.On, Stream.Broken,
      Stream.Rest, LeavesApart, StrLess;
    all := ObjectsApart(ss, ls, srcs, fs, objs);
    hide Apart;
    rests := seq(|ss|, k requires 0 <= k < |ss| reads if 0 <= k < |ss| then ss[k].Objs() else {} => ss[k].Rest());
    forall k | 0 <= k < |ss| ensures Ascending(rests[k]) { ss[k].RestAscending(); }
  }
}
