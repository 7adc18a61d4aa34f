/** Timestamped values, and what a stable time sort is.

    `At(s, t)` is the subsequence of the values with timestamp t. A sequence is *the* stable time
    sort of another exactly when it is ascending and both have the same `At` for every t
    (`StableUnique`): sorting, merging, windowing and last-write-wins are all stated through `At`. */
module Values {

  const MIN_TIME: int := -0x8000_0000_0000_0000
  const MAX_TIME: int := 0x7fff_ffff_ffff_ffff
  type Time = t: int | MIN_TIME <= t <= MAX_TIME

  /** The content of a field value is never looked at. */
  type Payload(==, !new, 0)

  datatype Value = Value(ts: Time, data: Payload)

  ghost predicate AllFrom(s: seq<Value>, t: int) {
    forall v :: v in s ==> t <= v.ts
  }

  ghost predicate Ascending(s: seq<Value>) {
    s == [] || (AllFrom(s[1..], s[0].ts) && Ascending(s[1..]))
  }

  lemma {:induction false} AscendingIndices(s: seq<Value>)
    ensures Ascending(s) <==> forall i, j :: 0 <= i < j < |s| ==> s[i].ts <= s[j].ts
    decreases |s|
  {
    if s != [] {
      AscendingIndices(s[1..]);
      if Ascending(s) {
        forall i, j | 0 <= i < j < |s| ensures s[i].ts <= s[j].ts {
          assert s[j] == s[1..][j - 1] && s[j] in s[1..];
          if i > 0 { assert s[i] == s[1..][i - 1]; }
        }
      }
      if forall i, j :: 0 <= i < j < |s| ==> s[i].ts <= s[j].ts {
        forall i, j | 0 <= i < j < |s[1..]| ensures s[1..][i].ts <= s[1..][j].ts {
          assert s[i + 1].ts <= s[j + 1].ts;
        }
        assert AllFrom(s[1..], s[0].ts);
      }
    }
  }

  function At(s: seq<Value>, t: int): seq<Value> {
    if s == [] then []
    else if s[0].ts == t then [s[0]] + At(s[1..], t)
    else At(s[1..], t)
  }

  lemma {:induction false} AtMembers(s: seq<Value>, t: int)
    ensures forall v :: v in At(s, t) <==> v in s && v.ts == t
    decreases |s|
  {
    if s != [] { AtMembers(s[1..], t); }
  }

  lemma {:induction false} AtNone(s: seq<Value>, t: int)
    requires forall v :: v in s ==> v.ts != t
    ensures At(s, t) == []
    decreases |s|
  {
    if s != [] { AtNone(s[1..], t); }
  }

  /** A timestamp that no value carries has no values, and only such a one. */
  lemma AtEmpty(s: seq<Value>, t: int)
    ensures At(s, t) == [] <==> forall v :: v in s ==> v.ts != t
  {
    if forall v :: v in s ==> v.ts != t {
      AtNone(s, t);
    } else {
      AtMembers(s, t);
      var v :| v in s && v.ts == t;
      assert v in At(s, t);
    }
  }

  /** The values with lo <= ts <= hi, in order. */
  function InRange(s: seq<Value>, lo: int, hi: int): seq<Value>
  {
    if s == [] then []
    else if lo <= s[0].ts <= hi then [s[0]] + InRange(s[1..], lo, hi)
    else InRange(s[1..], lo, hi)
  }

  lemma {:induction false} InRangeMembers(s: seq<Value>, lo: int, hi: int)
    ensures forall v :: v in InRange(s, lo, hi) <==> v in s && lo <= v.ts <= hi
    decreases |s|
  {
    if s != [] { InRangeMembers(s[1..], lo, hi); }
  }

  lemma {:induction false} InRangeAscending(s: seq<Value>, lo: int, hi: int)
    requires Ascending(s)
    ensures Ascending(InRange(s, lo, hi))
    decreases |s|
  {
    if s != [] {
      InRangeAscending(s[1..], lo, hi);
      InRangeMembers(s[1..], lo, hi);
    }
  }

  lemma {:induction false} AtConcat(a: seq<Value>, b: seq<Value>, t: int)
    ensures At(a + b, t) == At(a, t) + At(b, t)
    decreases |a|
  {
    if a == [] {
      assert a + b == b;
    } else {
      assert (a + b)[1..] == a[1..] + b;
      AtConcat(a[1..], b, t);
    }
  }

  lemma {:induction false} AtInRange(s: seq<Value>, lo: int, hi: int, t: int)
    ensures At(InRange(s, lo, hi), t) == if lo <= t <= hi then At(s, t) else []
    decreases |s|
  {
    if s != [] { AtInRange(s[1..], lo, hi, t); }
  }

  lemma {:induction false} InRangeConcat(a: seq<Value>, b: seq<Value>, lo: int, hi: int)
    ensures InRange(a + b, lo, hi) == InRange(a, lo, hi) + InRange(b, lo, hi)
    decreases |a|
  {
    if a == [] {
      assert a + b == b;
    } else {
      assert (a + b)[1..] == a[1..] + b;
      InRangeConcat(a[1..], b, lo, hi);
    }
  }

  lemma {:induction false} InRangeAll(s: seq<Value>, lo: int, hi: int)
    requires forall v :: v in s ==> lo <= v.ts <= hi
    ensures InRange(s, lo, hi) == s
    decreases |s|
  {
    if s != [] { InRangeAll(s[1..], lo, hi); }
  }

  lemma {:induction false} InRangeNone(s: seq<Value>, lo: int, hi: int)
    requires forall v :: v in s ==> !(lo <= v.ts <= hi)
    ensures InRange(s, lo, hi) == []
  {
    InRangeMembers(s, lo, hi);
    assert InRange(s, lo, hi) == [] || InRange(s, lo, hi)[0] in InRange(s, lo, hi);
  }

  lemma {:induction false} AscendingConcat(a: seq<Value>, b: seq<Value>)
    requires Ascending(a) && Ascending(b)
    requires forall x, y :: x in a && y in b ==> x.ts <= y.ts
    ensures Ascending(a + b)
    decreases |a|
  {
    if a == [] {
      assert a + b == b;
    } else {
      assert (a + b)[1..] == a[1..] + b;
      AscendingConcat(a[1..], b);
    }
  }

  /** Ascending and the same values, in the same order, at every timestamp. */
  ghost predicate StablySorted(s: seq<Value>, of: seq<Value>) {
    && Ascending(s)
    && forall t: int :: At(s, t) == At(of, t)
  }

  /** ... which determines the sequence. */
  lemma {:induction false} StableUnique(a: seq<Value>, b: seq<Value>)
    requires Ascending(a) && Ascending(b)
    requires forall t: int :: At(a, t) == At(b, t)
    ensures a == b
    decreases |a|
  {
    if a != [] || b != [] {
      assert b != [] ==> At(a, b[0].ts) == At(b, b[0].ts);
      var t := a[0].ts;
      assert At(b, t) == At(a, t);
      AtEmpty(b, t);
      var v :| v in b && v.ts == t;
      assert b[0].ts <= t;
      assert At(a, b[0].ts) == At(b, b[0].ts);
      AtEmpty(a, b[0].ts);
      var w :| w in a && w.ts == b[0].ts;
      assert a[0].ts <= w.ts;
      assert a[0] == At(a, t)[0] == At(b, t)[0] == b[0];
      forall u: int ensures At(a[1..], u) == At(b[1..], u) {
        assert At(a, u) == At(b, u);
        AtTail(a, u);
        AtTail(b, u);
      }
      StableUnique(a[1..], b[1..]);
      assert a == [a[0]] + a[1..] && b == [b[0]] + b[1..];
    }
  }

  /** Dropping the head of an ascending sequence only changes the head's own timestamp. */
  lemma AtTail(s: seq<Value>, t: int)
    requires s != []
    ensures At(s[1..], t) == if t == s[0].ts then At(s, t)[1..] else At(s, t)
    ensures t == s[0].ts ==> At(s, t) != [] && At(s, t)[0] == s[0]
  {}

  // ---- sort.SliceStable by timestamp ----

  function Insert(v: Value, s: seq<Value>): (r: seq<Value>)
    requires Ascending(s)
    ensures Ascending(r)
    ensures forall t: int :: t <= v.ts && AllFrom(s, t) ==> AllFrom(r, t)
  {
    if s == [] || v.ts <= s[0].ts then [v] + s
    else [s[0]] + Insert(v, s[1..])
  }

  lemma {:induction false} InsertMembers(v: Value, s: seq<Value>)
    requires Ascending(s)
    ensures forall x :: x in Insert(v, s) <==> x == v || x in s
    ensures |Insert(v, s)| == |s| + 1
    decreases |s|
  {
    if s != [] && v.ts > s[0].ts { InsertMembers(v, s[1..]); }
  }

  lemma {:induction false} InsertAt(v: Value, s: seq<Value>, t: int)
    requires Ascending(s)
    ensures At(Insert(v, s), t) == At([v], t) + At(s, t)
    decreases |s|
  {
    if s == [] || v.ts <= s[0].ts {
      AtConcat([v], s, t);
    } else {
      InsertAt(v, s[1..], t);
      assert Insert(v, s)[1..] == Insert(v, s[1..]);
      assert t == v.ts ==> At(s, t) == At(s[1..], t);
    }
  }

  function StableSort(s: seq<Value>): (r: seq<Value>)
    ensures Ascending(r)
  {
    if s == [] then [] else Insert(s[0], StableSort(s[1..]))
  }

  lemma {:induction false} StableSortMembers(s: seq<Value>)
    ensures forall x :: x in StableSort(s) <==> x in s
    ensures |StableSort(s)| == |s|
    decreases |s|
  {
    if s != [] {
      StableSortMembers(s[1..]);
      InsertMembers(s[0], StableSort(s[1..]));
    }
  }

  lemma {:induction false} StableSortIsStable(s: seq<Value>)
    ensures StablySorted(StableSort(s), s)
    decreases |s|
  {
    if s != [] {
      StableSortIsStable(s[1..]);
      forall t: int ensures At(StableSort(s), t) == At(s, t) {
        InsertAt(s[0], StableSort(s[1..]), t);
        AtConcat([s[0]], s[1..], t);
        assert s == [s[0]] + s[1..];
      }
    }
  }

  /** The order-preserving sort leaves an ascending sequence alone, so the code may skip it. */
  lemma SortOfAscending(s: seq<Value>)
    requires Ascending(s)
    ensures StableSort(s) == s
  {
    StableSortIsStable(s);
    StableUnique(StableSort(s), s);
  }

  // ---- several sequences ----

  lemma TakeAll<T>(s: seq<T>)
    ensures s[..|s|] == s
  {}

  lemma TakeDrop<T>(s: seq<T>, i: nat)
    requires i <= |s|
    ensures s == s[..i] + s[i..]
  {}

  lemma TakeOneMore<T>(s: seq<T>, i: nat)
    requires i < |s|
    ensures s[..i + 1] == s[..i] + [s[i]]
  {}

  function Flatten<T>(ss: seq<seq<T>>): (r: seq<T>) {
    if ss == [] then [] else ss[0] + Flatten(ss[1..])
  }

  lemma {:induction false} FlattenConcat<T>(a: seq<seq<T>>, b: seq<seq<T>>)
    ensures Flatten(a + b) == Flatten(a) + Flatten(b)
    decreases |a|
  {
    if a == [] {
      assert a + b == b;
    } else {
      assert (a + b)[1..] == a[1..] + b;
      FlattenConcat(a[1..], b);
    }
  }

  lemma {:induction false} FlattenMember<T>(ss: seq<seq<T>>, x: T)
    ensures x in Flatten(ss) <==> exists i :: 0 <= i < |ss| && x in ss[i]
    decreases |ss|
  {
    if ss != [] {
      FlattenMember(ss[1..], x);
      if x in ss[0] { assert x in ss[0]; }
      if i :| 0 <= i < |ss[1..]| && x in ss[1..][i] { assert x in ss[i + 1]; }
      if i :| 0 <= i < |ss| && x in ss[i] {
        if i > 0 { assert x in ss[1..][i - 1]; }
      }
    }
  }
}
