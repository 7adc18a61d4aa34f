/** One field's copies, merged: a min-heap over the heads of its child streams.

    The reference is `Merged(rests)`: the stable time sort of the children's values in child order.
    The heap stream delivers exactly that, value for value. */
module FieldMerge {
  import opened Orders
  import opened Values
  import opened Streams

  // ---- what a leaf stream is, whichever kind it is ----

  datatype Leaf = Mem(s: SliceStream) | Lazy(b: BlockStream) {
    function Field(): Str {
      match this case Mem(s) => s.field case Lazy(b) => b.field
    }

    function Obj(): object {
      match this case Mem(s) => s case Lazy(b) => b
    }

    ghost function Blocks(): set<BlockStream> {
      if Lazy? then {b} else {}
    }

    ghost function Rest(): seq<Value>
      reads Obj()
    {
      match this case Mem(s) => s.rest case Lazy(b) => b.rest
    }

    /** Valid, and not released under the caller's feet. */
    ghost predicate Usable()
      reads Obj()
    {
      Valid() && (Lazy? ==> (b.released ==> b.done))
    }

    ghost predicate Valid()
      reads Obj()
    {
      match this case Mem(s) => s.Valid() case Lazy(b) => b.Valid()
    }

    /** Served by fs, and counted there exactly while unreleased. */
    ghost predicate On(fs: FileSet)
      reads Obj(), fs`live
    {
      Lazy? ==> b.fs == fs && (!b.released <==> b in fs.live)
    }

    ghost predicate Ready()
      reads Obj()
    {
      match this case Mem(s) => s.Ready() case Lazy(b) => b.Ready()
    }

    /** Failed; every later peek says so. */
    ghost predicate Broken()
      reads Obj()
    {
      Lazy? && b.err
    }

    lemma RestAscending()
      requires Valid()
      ensures Ascending(Rest())
    {
      match this
      case Mem(s) => InRangeAscending(s.vals[s.i..], s.start, s.end);
      case Lazy(b) => InRangeAscending(b.pending, b.start, b.end);
    }

    method Peek(fs: FileSet) returns (r: Peeked)
      requires Usable() && On(fs) && fs.Valid()
      modifies Obj(), fs`rs, fs`refs, fs`faults, fs`live
      ensures Usable() && On(fs) && fs.Valid()
      ensures fs.live == old(fs.live) || fs.live == old(fs.live) - Blocks()
      ensures (r.Fail? <==> Broken()) && (old(Broken()) ==> Broken())
      ensures old(fs.faults) == [] ==> fs.faults == [] && Broken() == old(Broken())
      ensures !r.Fail? ==> Rest() == old(Rest())
      ensures r.Got? ==> Ready() && Rest() != [] && r.v == Rest()[0]
      ensures r.End? ==> Rest() == []
    {
      match this
      case Mem(s) => r := s.Peek();
      case Lazy(b) => r := b.Peek();
    }

    method Advance(fs: FileSet)
      requires Usable() && On(fs) && Ready()
      modifies Obj()
      ensures Usable() && On(fs) && !Broken() && Rest() == old(Rest())[1..]
    {
      match this
      case Mem(s) => s.Advance();
      case Lazy(b) => b.Advance();
    }

    method Release(fs: FileSet)
      requires Valid() && On(fs) && fs.Valid()
      modifies Obj(), fs`rs, fs`refs, fs`live
      ensures Valid() && On(fs) && fs.Valid() && fs.live == old(fs.live) - Blocks()
    {
      match this
      case Mem(s) => s.Release();
      case Lazy(b) => b.Release();
    }
  }

  // ---- the stable merge ----

  /** The stable merge of several ascending sequences: ties in sequence order. */
  ghost function Merged(rests: seq<seq<Value>>): seq<Value> { StableSort(Flatten(rests)) }

  datatype Entry = Entry(v: Value, idx: nat)

  predicate Less(a: Entry, b: Entry) {
    if a.v.ts != b.v.ts then a.v.ts < b.v.ts else a.idx < b.idx
  }

  /** The head of every child that has one. */
  ghost function Heads(rests: seq<seq<Value>>, n: nat): multiset<Entry>
    requires n <= |rests|
  {
    if n == 0 then multiset{}
    else Heads(rests, n - 1) + Head(rests[n - 1], n - 1)
  }

  ghost function Head(rest: seq<Value>, k: nat): multiset<Entry> {
    if rest == [] then multiset{} else multiset{Entry(rest[0], k)}
  }

  lemma {:induction false} HeadsMember(rests: seq<seq<Value>>, n: nat, e: Entry)
    requires n <= |rests|
    ensures e in Heads(rests, n) <==> e.idx < n && rests[e.idx] != [] && e.v == rests[e.idx][0]
    decreases n
  {
    if n > 0 { HeadsMember(rests, n - 1, e); }
  }

  lemma {:induction false} HeadsSame(a: seq<seq<Value>>, b: seq<seq<Value>>, n: nat)
    requires n <= |a| && n <= |b| && a[..n] == b[..n]
    ensures Heads(a, n) == Heads(b, n)
    decreases n
  {
    if n > 0 {
      assert a[..n][..n - 1] == b[..n][..n - 1];
      assert a[..n][n - 1] == b[..n][n - 1];
      HeadsSame(a, b, n - 1);
    }
  }

  /** Replacing one child replaces its head and no other. */
  lemma {:induction false} HeadsUpdate(rests: seq<seq<Value>>, n: nat, k: nat, r: seq<Value>)
    requires k < n <= |rests|
    ensures Heads(rests[k := r], n) + Head(rests[k], k) == Heads(rests, n) + Head(r, k)
    decreases n
  {
    if k == n - 1 {
      HeadsSame(rests[k := r], rests, n - 1);
    } else {
      HeadsUpdate(rests, n - 1, k, r);
      var a, b, h := Heads(rests[k := r], n - 1), Heads(rests, n - 1), Head(rests[n - 1], n - 1);
      assert (a + h) + Head(rests[k], k) == (a + Head(rests[k], k)) + h;
      assert (b + h) + Head(r, k) == (b + Head(r, k)) + h;
    }
  }

  lemma HeadsReplaced(m: multiset<Entry>, rests: seq<seq<Value>>, k: nat, r: seq<Value>)
    requires k < |rests| && m == Heads(rests, |rests|) - Head(rests[k], k) + Head(r, k)
    ensures m == Heads(rests[k := r], |rests|)
  {
    HeadsUpdate(rests, |rests|, k, r);
    if rests[k] != [] { HeadsMember(rests, |rests|, Entry(rests[k][0], k)); }
    Cancel(Heads(rests, |rests|), Head(rests[k], k), Head(r, k), Heads(rests[k := r], |rests|));
  }

  lemma Cancel(all: multiset<Entry>, gone: multiset<Entry>, come: multiset<Entry>, new_: multiset<Entry>)
    requires gone <= all && new_ + gone == all + come
    ensures all - gone + come == new_
  {
    assert (new_ + gone) - gone == new_;
    assert (all + come) - gone == all - gone + come;
  }

  lemma {:induction false} AtFlattenNone(ss: seq<seq<Value>>, t: int)
    requires forall j :: 0 <= j < |ss| ==> At(ss[j], t) == []
    ensures At(Flatten(ss), t) == []
    decreases |ss|
  {
    if ss != [] {
      AtConcat(ss[0], Flatten(ss[1..]), t);
      forall j | 0 <= j < |ss[1..]| ensures At(ss[1..][j], t) == [] { assert ss[1..][j] == ss[j + 1]; }
      AtFlattenNone(ss[1..], t);
    }
  }

  lemma FlattenAround(ss: seq<seq<Value>>, k: nat)
    requires k < |ss|
    ensures Flatten(ss) == Flatten(ss[..k]) + (ss[k] + Flatten(ss[k + 1..]))
  {
    assert ss == ss[..k] + ss[k..];
    FlattenConcat(ss[..k], ss[k..]);
    assert ss[k..][1..] == ss[k + 1..];
  }

  lemma FlattenAdvance(rests: seq<seq<Value>>, k: nat)
    requires k < |rests| && rests[k] != []
    ensures Flatten(rests) == Flatten(rests[..k]) + ([rests[k][0]] + (rests[k][1..] + Flatten(rests[k + 1..])))
    ensures Flatten(rests[k := rests[k][1..]]) == Flatten(rests[..k]) + (rests[k][1..] + Flatten(rests[k + 1..]))
  {
    var after := rests[k := rests[k][1..]];
    FlattenAround(rests, k);
    FlattenAround(after, k);
    assert after[..k] == rests[..k] && after[k + 1..] == rests[k + 1..];
  }

  lemma AtPullForward(a: seq<Value>, v: Value, z: seq<Value>, t: int)
    requires t == v.ts ==> At(a, t) == []
    ensures At(a + ([v] + z), t) == At([v], t) + At(a + z, t)
  {
    AtConcat(a, [v] + z, t);
    AtConcat(a, z, t);
    AtConcat([v], z, t);
    if t != v.ts { assert At([v], t) == []; }
  }

  lemma MergeStepAt(rests: seq<seq<Value>>, k: nat, t: int)
    requires k < |rests| && rests[k] != []
    requires t == rests[k][0].ts ==> forall j :: 0 <= j < k ==> At(rests[j], t) == []
    ensures At(Flatten(rests), t) == At([rests[k][0]], t) + At(Flatten(rests[k := rests[k][1..]]), t)
  {
    FlattenAdvance(rests, k);
    if t == rests[k][0].ts { AtFlattenNone(rests[..k], t); }
    AtPullForward(Flatten(rests[..k]), rests[k][0], rests[k][1..] + Flatten(rests[k + 1..]), t);
  }

  /** The least head (time first, then child) is the head of the merge; what is left is the merge of
      what is left. */
  lemma MergeStep(rests: seq<seq<Value>>, k: nat)
    requires k < |rests| && rests[k] != []
    requires forall j :: 0 <= j < |rests| ==> Ascending(rests[j])
    requires forall j :: 0 <= j < |rests| && rests[j] != [] ==>
      !Less(Entry(rests[j][0], j), Entry(rests[k][0], k))
    ensures Merged(rests) == [rests[k][0]] + Merged(rests[k := rests[k][1..]])
  {
    var v, after := rests[k][0], rests[k := rests[k][1..]];
    var rhs := [v] + Merged(after);
    StableSortIsStable(Flatten(rests));
    StableSortIsStable(Flatten(after));
    forall x | x in Merged(after) ensures v.ts <= x.ts {
      StableSortMembers(Flatten(after));
      FlattenMember(after, x);
      var j :| 0 <= j < |after| && x in after[j];
      assert !Less(Entry(rests[j][0], j), Entry(rests[k][0], k));
    }
    assert rhs[1..] == Merged(after);
    forall t: int ensures At(rhs, t) == At(Merged(rests), t) {
      forall j | 0 <= j < k && t == v.ts ensures At(rests[j], t) == [] {
        if rests[j] != [] { assert !Less(Entry(rests[j][0], j), Entry(rests[k][0], k)); }
        AtNone(rests[j], t);
      }
      MergeStepAt(rests, k, t);
      AtConcat([v], Merged(after), t);
    }
    StableUnique(rhs, Merged(rests));
  }

  lemma MergedEmpty(rests: seq<seq<Value>>)
    requires forall j :: 0 <= j < |rests| ==> rests[j] == []
    ensures Merged(rests) == []
  {
    FlattenNil(rests);
  }

  lemma {:induction false} FlattenNil(ss: seq<seq<Value>>)
    requires forall j :: 0 <= j < |ss| ==> ss[j] == []
    ensures Flatten(ss) == []
    decreases |ss|
  {
    if ss != [] {
      assert forall j :: 0 <= j < |ss[1..]| ==> ss[1..][j] == ss[j + 1];
      FlattenNil(ss[1..]);
    }
  }

  // ---- the heap ----

  predicate Child(p: int, c: int) { c == 2 * p + 1 || c == 2 * p + 2 }

  /** Every node from lo on is no greater than its children. */
  ghost predicate HeapFrom(h: seq<Entry>, lo: int) {
    forall p, c :: Child(p, c) && lo <= p && 0 <= p && c < |h| ==> !Less(h[c], h[p])
  }

  lemma {:induction false} RootLeast(h: seq<Entry>, j: nat)
    requires HeapFrom(h, 0) && j < |h|
    ensures !Less(h[j], h[0])
    decreases j
  {
    if j > 0 {
      var p := (j - 1) / 2;
      assert Child(p, j);
      RootLeast(h, p);
    }
  }

  /** HeapFrom except between i and its children; i's children are in order with i's parent. */
  ghost predicate HeapExcept(h: seq<Entry>, start: nat, i: nat) {
    && (forall p, c :: Child(p, c) && start <= p != i && c < |h| ==> !Less(h[c], h[p]))
    && (forall p, c :: Child(p, i) && Child(i, c) && start <= p && c < |h| ==> !Less(h[c], h[p]))
  }

  function Swap(h: seq<Entry>, i: nat, j: nat): (r: seq<Entry>)
    requires i < |h| && j < |h|
    ensures |r| == |h| && multiset(r) == multiset(h)
  {
    h[i := h[j]][j := h[i]]
  }

  lemma SiftStep(h: seq<Entry>, start: nat, i: nat, min: nat)
    requires HeapExcept(h, start, i) && start <= i && Child(i, min) && min < |h| && Less(h[min], h[i])
    requires forall c :: Child(i, c) && c < |h| ==> !Less(h[c], h[min])
    ensures HeapExcept(Swap(h, i, min), start, min)
  {
    var h' := Swap(h, i, min);
    forall p, c | Child(p, c) && start <= p != min && c < |h| ensures !Less(h'[c], h'[p]) {
      assert p == i || !Less(h[c], h[p]);
      if c == i { assert Child(p, i) && Child(i, min); }
    }
    forall p, c | Child(p, min) && Child(min, c) && start <= p && c < |h| ensures !Less(h'[c], h'[p]) {
      assert p == i && !Less(h[c], h[min]);
    }
  }

  class FieldMergeStream {
    const fs: FileSet
    const field: Str
    const children: seq<Leaf>
    ghost const objs: set<object>        // the children's objects
    var h: seq<Entry>
    var inited: bool
    var err: bool
    var released: bool
    ghost var rests: seq<seq<Value>>   // what each child has still to deliver

    ghost function Rest(): seq<Value>
      reads this
    {
      Merged(rests)
    }

    /** Distinct child objects, none of them this or the file set. */
    ghost predicate Apart() {
      && this !in objs && fs !in objs
      && (forall k :: 0 <= k < |children| ==> children[k].Obj() in objs)
      && (forall j, k :: 0 <= j < k < |children| ==> children[j].Obj() != children[k].Obj())
    }

    ghost predicate KidsOn()
      requires Apart()
      reads objs, fs`live
    {
      forall k :: 0 <= k < |children| ==> children[k].On(fs)
    }

    ghost predicate KidsValid()
      requires Apart()
      reads objs
    {
      forall k :: 0 <= k < |children| ==> children[k].Usable()
    }

    ghost predicate Synced()
      requires Apart()
      reads this`rests, objs
    {
      && |rests| == |children|
      && (forall k :: 0 <= k < |children| ==> rests[k] == children[k].Rest() && !children[k].Broken())
    }

    /** The first n children have been looked at: whoever has a head is ready to give it up. */
    ghost predicate Looked(n: nat)
      requires Apart()
      reads this`rests, objs
    {
      forall k :: 0 <= k < n && k < |children| && k < |rests| && rests[k] != [] ==> children[k].Ready()
    }

    /** The heap holds exactly the heads of the children. */
    ghost predicate HeapValid()
      reads this`h, this`rests
    {
      |rests| == |children| && HeapFrom(h, 0) && multiset(h) == Heads(rests, |rests|)
    }

    ghost predicate Valid()
      reads this, objs
    {
      && Apart() && KidsValid()
      && (!err ==> Synced() && if inited then HeapValid() && Looked(|children|) else h == [])
    }

    ghost predicate Ready()
      reads this
    {
      inited && !err && h != []
    }

    constructor (fs: FileSet, field: Str, children: seq<Leaf>)
      requires forall k :: 0 <= k < |children| ==> children[k].Usable() && children[k].On(fs) && !children[k].Broken()
      requires forall j, k :: 0 <= j < k < |children| ==> children[j].Obj() != children[k].Obj()
      ensures Valid() && KidsOn() && !err && !inited && !released && Synced()
      ensures this.fs == fs && this.field == field && this.children == children
      ensures objs == (set k | 0 <= k < |children| :: children[k].Obj())
    {
      this.fs, this.field, this.children := fs, field, children;
      objs := set k | 0 <= k < |children| :: children[k].Obj();
      h, inited, err, released := [], false, false, false;
      rests := seq(|children|, k requires 0 <= k < |children|
        reads if 0 <= k < |children| then {children[k].Obj()} else {} => children[k].Rest());
    }

    method SiftDown(start: nat)
      requires HeapFrom(h, start + 1)
      modifies this`h
      ensures HeapFrom(h, start) && multiset(h) == multiset(old(h))
    {
      var i := start;
      while true
        invariant start <= i && |h| == |old(h)| && multiset(h) == multiset(old(h))
        invariant HeapExcept(h, start, i)
        decreases |h| - i
      {
        var l, r := 2 * i + 1, 2 * i + 2;
        assert Child(i, l) && Child(i, r);
        var min := i;
        if l < |h| && Less(h[l], h[min]) { min := l; }
        if r < |h| && Less(h[r], h[min]) { min := r; }
        if min == i { return; }
        SiftStep(h, start, i, min);
        h := Swap(h, i, min);
        i := min;
      }
    }

    /** Only streams of this field have been released since. */
    twostate predicate OnlyMineReleased()
      reads fs
    {
      fs.live <= old(fs.live) && forall b :: b in old(fs.live) && b !in fs.live ==> b in objs
    }

    method PeekChild(k: nat) returns (r: Peeked)
      requires k < |children| && Apart() && KidsValid() && fs.Valid() && KidsOn() && Synced()
      modifies children[k].Obj(), fs`rs, fs`refs, fs`faults, fs`live
      ensures KidsValid() && fs.Valid() && KidsOn() && OnlyMineReleased()
      ensures forall j :: 0 <= j < |children| && j != k ==> children[j].Ready() == old(children[j].Ready())
      ensures !r.Fail? ==> Synced()
      ensures old(fs.faults) == [] ==> fs.faults == [] && !r.Fail?
      ensures r.Got? ==> children[k].Ready() && rests[k] != [] && r.v == rests[k][0]
      ensures r.End? ==> rests[k] == []
    {
      hide Leaf.Usable, Leaf.Ready, Leaf.Rest, Leaf.Valid, FileSet.Valid, Heads;
      r := children[k].Peek(fs);
    }

    method AdvanceChild(k: nat)
      requires k < |children| && Apart() && KidsValid() && children[k].Ready() && Synced() && rests[k] != [] && KidsOn()
      modifies children[k].Obj(), this`rests
      ensures KidsValid() && KidsOn() && Synced() && rests == old(rests)[k := old(rests)[k][1..]]
      ensures forall j :: 0 <= j < |children| && j != k ==> children[j].Ready() == old(children[j].Ready())
    {
      hide Leaf.Usable, Leaf.Ready, Leaf.Rest, Leaf.Valid, FileSet.Valid, Heads;
      children[k].Advance(fs);
      rests := rests[k := rests[k][1..]];
    }

    method Heapify()
      modifies this`h
      ensures HeapFrom(h, 0) && multiset(h) == multiset(old(h))
    {
      var i := |h| / 2 - 1;
      while i >= 0
        invariant multiset(h) == multiset(old(h))
        invariant -1 <= i && HeapFrom(h, i + 1)
      {
        SiftDown(i);
        i := i - 1;
      }
    }

    /** Replaces the root by the child's next value, or drops it when there is none. */
    method ReplaceRoot(next: Peeked, k: nat, ghost rest: seq<Value>)
      requires HeapFrom(h, 0) && h != []
      requires (next.Got? && rest != [] && next.v == rest[0]) || (next.End? && rest == [])
      modifies this`h
      ensures HeapFrom(h, 0)
      ensures multiset(h) == multiset(old(h)) - multiset{old(h)[0]} + Head(rest, k)
    {
      if next.Got? {
        h := h[0 := Entry(next.v, k)];
        assert HeapFrom(h, 1);
        SiftDown(0);
      } else {
        var last := |h| - 1;
        assert h == h[..last] + [h[last]];
        h := h[0 := h[last]][..last];
        assert HeapFrom(h, 1);
        if |h| > 0 { SiftDown(0); }
      }
    }

    method CollectHead(i: nat) returns (ok: bool)
      requires i < |children| && Apart() && KidsValid() && Synced() && Looked(i) && fs.Valid() && KidsOn()
      requires multiset(h) == Heads(rests, i)
      modifies this`h, objs, fs`rs, fs`refs, fs`faults, fs`live
      ensures KidsValid() && fs.Valid() && KidsOn() && OnlyMineReleased()
      ensures ok ==> Synced() && Looked(i + 1) && multiset(h) == Heads(rests, i + 1)
      ensures old(fs.faults) == [] ==> fs.faults == [] && ok
    {
      hide Leaf.Usable, Leaf.Ready, Leaf.Rest, Leaf.Valid, FileSet.Valid, Leaf.On, Leaf.Broken, KidsValid, KidsOn;
      var r := PeekChild(i);
      if r.Got? { h := h + [Entry(r.v, i)]; }
      return !r.Fail?;
    }

    method CollectHeads() returns (ok: bool)
      requires Apart() && KidsValid() && Synced() && fs.Valid() && KidsOn() && h == []
      modifies this`h, objs, fs`rs, fs`refs, fs`faults, fs`live
      ensures KidsValid() && fs.Valid() && KidsOn() && OnlyMineReleased()
      ensures ok ==> Synced() && Looked(|children|) && multiset(h) == Heads(rests, |rests|)
      ensures old(fs.faults) == [] ==> fs.faults == [] && ok
    {
      hide Leaf.Usable, Leaf.Ready, Leaf.Rest, Leaf.Valid, FileSet.Valid, Leaf.On, Leaf.Broken, KidsValid, KidsOn, Apart;
      for i := 0 to |children|
        invariant KidsValid() && fs.Valid() && KidsOn() && OnlyMineReleased() && Synced() && Looked(i)
        invariant multiset(h) == Heads(rests, i) && (old(fs.faults) == [] ==> fs.faults == [])
      {
        ok := CollectHead(i);
        if !ok { return; }
      }
      return true;
    }

    /** Peeks every child and builds the heap of their heads. */
    method Init() returns (ok: bool)
      requires Valid() && fs.Valid() && KidsOn() && !inited && !err
      modifies this`h, this`err, this`inited, objs, fs`rs, fs`refs, fs`faults, fs`live
      ensures Valid() && fs.Valid() && KidsOn() && OnlyMineReleased() && inited && ok == !err
      ensures old(fs.faults) == [] ==> fs.faults == [] && ok
    {
      hide Leaf.Usable, Leaf.Ready, Leaf.Rest, Leaf.Valid, FileSet.Valid, Leaf.On, Leaf.Broken, KidsValid, KidsOn, Looked, Heads;
      inited := true;
      ok := CollectHeads();
      if !ok { err := true; return; }
      Heapify();
    }

    method Peek() returns (r: Peeked)
      requires Valid() && fs.Valid() && KidsOn() && (err ==> inited)
      modifies this`h, this`err, this`inited, objs, fs`rs, fs`refs, fs`faults, fs`live
      ensures Valid() && fs.Valid() && KidsOn() && OnlyMineReleased() && inited
      ensures (r.Fail? <==> err) && (old(err) ==> err)
      ensures old(fs.faults) == [] ==> fs.faults == [] && err == old(err)
      ensures !r.Fail? ==> Rest() == old(Rest())
      ensures r.Got? ==> Ready() && Rest() != [] && r.v == Rest()[0]
      ensures r.End? ==> Rest() == []
    {
      hide Leaf.Usable, Leaf.Ready, Leaf.Rest, Leaf.Valid, FileSet.Valid, Leaf.On, Leaf.Broken, KidsOn, HeapFrom;
      if err { return Fail; }
      if !inited {
        var ok := Init();
        if !ok { return Fail; }
      }
      if |h| == 0 {
        NoHeads();
        return End;
      }
      RestsAscending();
      HeadIsLeast();
      return Got(h[0].v);
    }

    lemma NoHeads()
      requires HeapValid() && h == []
      ensures Rest() == []
    {
      forall k | 0 <= k < |rests| ensures rests[k] == [] {
        if rests[k] != [] { HeadsMember(rests, |rests|, Entry(rests[k][0], k)); }
      }
      MergedEmpty(rests);
    }

    /** The root of the heap is the head of the merge. */
    lemma HeadIsLeast()
      requires HeapValid() && h != []
      requires forall k :: 0 <= k < |rests| ==> Ascending(rests[k])
      ensures var k := h[0].idx;
        && k < |rests| && rests[k] != [] && h[0].v == rests[k][0]
        && Rest() == [h[0].v] + Merged(rests[k := rests[k][1..]])
    {
      assert h[0] in multiset(h);
      HeadsMember(rests, |rests|, h[0]);
      forall j | 0 <= j < |rests| && rests[j] != [] ensures !Less(Entry(rests[j][0], j), h[0]) {
        HeadsMember(rests, |rests|, Entry(rests[j][0], j));
        assert Entry(rests[j][0], j) in multiset(h);
        var n :| 0 <= n < |h| && h[n] == Entry(rests[j][0], j);
        RootLeast(h, n);
      }
      MergeStep(rests, h[0].idx);
    }

    lemma RestsAscending()
      requires Apart() && KidsValid() && Synced()
      ensures forall k :: 0 <= k < |rests| ==> Ascending(rests[k])
    {
      forall k | 0 <= k < |rests| ensures Ascending(rests[k]) { children[k].RestAscending(); }
    }

    /** Takes the root's value off its child; the heap still shows it. */
    method AdvanceRoot() returns (k: nat)
      requires Valid() && Ready() && KidsOn()
      modifies this`rests, objs
      ensures KidsValid() && KidsOn() && Synced() && Looked(0) && k == h[0].idx && k < |old(rests)|
      ensures old(rests)[k] != [] && h[0].v == old(rests)[k][0] && rests == old(rests)[k := old(rests)[k][1..]]
      ensures forall j :: 0 <= j < |children| && j != k && rests[j] != [] ==> children[j].Ready()
      ensures old(Rest()) != [] && Rest() == old(Rest())[1..]
    {
      hide Leaf.Usable, Leaf.Ready, Leaf.Rest, Leaf.Valid, FileSet.Valid, Leaf.On, Leaf.Broken;
      RestsAscending();
      HeadIsLeast();
      k := h[0].idx;
      AdvanceChild(k);
    }

    /** Shows the child's next value in the root's place. */
    method ShowNext(next: Peeked, k: nat, ghost before: seq<seq<Value>>)
      requires HeapFrom(h, 0) && multiset(h) == Heads(before, |before|) && h != []
      requires k < |before| && before[k] != [] && h[0] == Entry(before[k][0], k)
      requires rests == before[k := before[k][1..]]
      requires (next.Got? && rests[k] != [] && next.v == rests[k][0]) || (next.End? && rests[k] == [])
      modifies this`h
      ensures HeapFrom(h, 0) && multiset(h) == Heads(rests, |rests|)
    {
      ReplaceRoot(next, k, rests[k]);
      HeadsReplaced(multiset(h), before, k, before[k][1..]);
    }

    method Refill(k: nat, ghost before: seq<seq<Value>>)
      requires Apart() && KidsValid() && Synced() && fs.Valid() && KidsOn() && inited && !err
      requires HeapFrom(h, 0) && multiset(h) == Heads(before, |before|) && h != []
      requires k < |before| && before[k] != [] && h[0] == Entry(before[k][0], k)
      requires rests == before[k := before[k][1..]]
      requires forall j :: 0 <= j < |children| && j != k && rests[j] != [] ==> children[j].Ready()
      modifies this`h, this`err, objs, fs`rs, fs`refs, fs`faults, fs`live
      ensures Valid() && fs.Valid() && KidsOn() && OnlyMineReleased()
      ensures old(fs.faults) == [] ==> fs.faults == [] && !err
    {
      hide Leaf.Usable, Leaf.Ready, Leaf.Rest, Leaf.Valid, FileSet.Valid, Leaf.On, Leaf.Broken;
      var r := PeekChild(k);
      if r.Fail? { err := true; return; }
      assert Looked(|children|);
      ShowNext(r, k, before);
    }

    /** Consumes the head and refills from the child it came from. */
    method Advance()
      requires Valid() && Ready() && fs.Valid() && KidsOn()
      modifies this`h, this`err, this`rests, objs, fs`rs, fs`refs, fs`faults, fs`live
      ensures Valid() && fs.Valid() && KidsOn() && OnlyMineReleased() && inited
      ensures old(Rest()) != []
      ensures !err ==> Rest() == old(Rest())[1..]
      ensures old(fs.faults) == [] ==> fs.faults == [] && !err
    {
      hide Leaf.Usable, Leaf.Ready, Leaf.Rest, Leaf.Valid, FileSet.Valid, Leaf.On, Leaf.Broken;
      ghost var before := rests;
      var k := AdvanceRoot();
      Refill(k, before);
    }
  }
}
