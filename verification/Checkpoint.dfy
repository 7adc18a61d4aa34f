/** The checkpoint: per shard a progress row (committed seq, rows, cursor), a done mark and audit counts.

    Every operation is one transaction: it happens as a whole or not at all, and touches one shard. */
module Checkpoint {
  import opened Orders
  import opened Shard
  import opened Chunks

  datatype Row = Row(n: nat, rows: nat, cur: Option<Cursor>)
  datatype Done = Done(chunks: nat, rows: nat)

  /** What the database holds on one shard. */
  datatype Disk = Disk(row: Option<Row>, done: Option<Done>, actions: map<Str, nat>)

  const NEW_SHARD := Disk(None, None, map[])

  function Committed(d: Disk): int { if d.row.None? then -1 else d.row.value.n }

  function AddDeltas(m: map<Str, nat>, ds: seq<Delta>): map<Str, nat>
    decreases |ds|
  {
    if ds == [] then m else AddDeltas(m[ds[0].name := Get(m, ds[0].name) + ds[0].points], ds[1..])
  }

  lemma {:induction false} AddDeltasOneMore(m: map<Str, nat>, ds: seq<Delta>, d: Delta)
    ensures var a := AddDeltas(m, ds); AddDeltas(m, ds + [d]) == a[d.name := Get(a, d.name) + d.points]
    decreases |ds|
  {
    if ds == [] {
      assert [] + [d] == [d] && [d][1..] == [];
    } else {
      assert (ds + [d])[1..] == ds[1..] + [d];
      AddDeltasOneMore(m[ds[0].name := Get(m, ds[0].name) + ds[0].points], ds[1..], d);
    }
  }

  /** The upsert of one chunk: the seq never moves back, and the cursor only moves with it. */
  function CommitOn(d: Disk, n: nat, rows: nat, cur: Cursor, ds: seq<Delta>): Disk {
    var row := match d.row
      case None => Row(n, rows, Some(cur))
      case Some(r) => Row(if r.n >= n then r.n else n, r.rows + rows, if n >= r.n then Some(cur) else r.cur);
    Disk(Some(row), d.done, AddDeltas(d.actions, ds))
  }

  function FinishOn(d: Disk, total: nat, ds: seq<Delta>): Disk {
    Disk(d.row, Some(Done(total, if d.row.Some? then d.row.value.rows else 0)), AddDeltas(d.actions, ds))
  }

  type Key = (Str, Str)

  /** The audit rows of one shard. */
  ghost function OfShard(actions: map<(Key, Str), nat>, k: Key): map<Str, nat> {
    map p | p in actions && p.0 == k :: p.1 := actions[p]
  }

  ghost predicate SameElsewhere(k: Key, a: map<(Key, Str), nat>, b: map<(Key, Str), nat>) {
    forall p: (Key, Str) :: p.0 != k ==> (p in a <==> p in b) && (p in a ==> a[p] == b[p])
  }

  lemma OneRow(a: map<(Key, Str), nat>, k: Key, m: Str, v: nat)
    ensures OfShard(a[(k, m) := v], k) == OfShard(a, k)[m := v]
    ensures Get(OfShard(a, k), m) == if (k, m) in a then a[(k, m)] else 0
    ensures SameElsewhere(k, a, a[(k, m) := v])
  {
    var b := a[(k, m) := v];
    forall x: Str ensures x in OfShard(b, k) <==> x in OfShard(a, k)[m := v] {
      assert x in OfShard(a, k) <==> (k, x) in a;
      assert x in OfShard(b, k) <==> (k, x) in b;
    }
    assert m in OfShard(a, k) <==> (k, m) in a;
  }

  /** What the store holds on every other shard. */
  datatype Rest = Rest(progress: map<Key, Row>, finished: map<Key, Done>, actions: map<(Key, Str), nat>)

  ghost function Besides(actions: map<(Key, Str), nat>, k: Key): map<(Key, Str), nat> {
    map p | p in actions && p.0 != k :: actions[p]
  }

  lemma SameBesides(k: Key, a: map<(Key, Str), nat>, b: map<(Key, Str), nat>)
    requires SameElsewhere(k, a, b)
    ensures Besides(a, k) == Besides(b, k)
  {}

  class Store {
    var progress: map<Key, Row>
    var finished: map<Key, Done>
    var actions: map<(Key, Str), nat>

    ghost function On(k: Key): Disk
      reads this
    {
      Disk(if k in progress then Some(progress[k]) else None, if k in finished then Some(finished[k]) else None,
           OfShard(actions, k))
    }

    ghost function Elsewhere(k: Key): Rest
      reads this
    {
      Rest(progress - {k}, finished - {k}, Besides(actions, k))
    }

    constructor ()
      ensures forall k: Key :: On(k) == NEW_SHARD
    {
      progress, finished, actions := map[], map[], map[];
    }

    /** The committed seq, -1 if there is none, and the cursor; no cursor next to a seq means an old checkpoint. */
    method Progress(k: Key) returns (n: int, cur: Option<Cursor>)
      ensures n == Committed(On(k))
      ensures cur == if On(k).row.Some? then On(k).row.value.cur else None
    {
      if k !in progress { return -1, None; }
      n, cur := progress[k].n, progress[k].cur;
    }

    method IsShardDone(k: Key) returns (done: bool)
      ensures done <==> On(k).done.Some?
    {
      done := k in finished;
    }

    /** Add the deltas within a transaction; `faultAt` is how many statements succeed before one fails. */
    method ApplyDeltas(k: Key, ds: seq<Delta>, faultAt: nat) returns (ok: bool, acts: map<(Key, Str), nat>)
      ensures ok <==> |ds| <= faultAt
      ensures ok ==> OfShard(acts, k) == AddDeltas(On(k).actions, ds)
      ensures SameElsewhere(k, actions, acts)
    {
      hide OfShard;
      ok, acts := true, actions;
      for i := 0 to |ds|
        invariant ok <==> i <= faultAt
        invariant ok ==> OfShard(acts, k) == AddDeltas(On(k).actions, ds[..i])
        invariant SameElsewhere(k, actions, acts)
      {
        if i >= faultAt {
          ok := false;
        } else {
          var d := ds[i];
          assert ds[..i + 1] == ds[..i] + [d];
          AddDeltasOneMore(On(k).actions, ds[..i], d);
          var v := (if (k, d.name) in acts then acts[(k, d.name)] else 0) + d.points;
          OneRow(acts, k, d.name, v);
          acts := acts[(k, d.name) := v];
        }
      }
      assert ds[..|ds|] == ds;
    }

    method Commit(k: Key, n: nat, rows: nat, cur: Cursor, ds: seq<Delta>, faultAt: nat) returns (ok: bool)
      modifies this
      ensures ok <==> |ds| + 1 < faultAt
      ensures On(k) == if ok then old(CommitOn(On(k), n, rows, cur, ds)) else old(On(k))
      ensures ok ==> Committed(On(k)) == if n >= old(Committed(On(k))) then n else old(Committed(On(k)))
      ensures ok ==> On(k).row.value.cur == if n >= old(Committed(On(k))) then Some(cur) else old(On(k)).row.value.cur
      ensures Elsewhere(k) == old(Elsewhere(k))
    {
      hide OfShard, AddDeltas, SameElsewhere, Besides;
      if faultAt < 1 { return false; }
      var row := if k !in progress then Row(n, rows, Some(cur))
                 else var r := progress[k]; Row(if r.n >= n then r.n else n, r.rows + rows, if n >= r.n then Some(cur) else r.cur);
      var applied, acts := ApplyDeltas(k, ds, faultAt - 1);
      ok := applied && |ds| + 1 < faultAt;
      if ok {
        SameBesides(k, actions, acts);
        progress, actions := progress[k := row], acts;
      }
    }

    method FinishShard(k: Key, total: nat, ds: seq<Delta>, faultAt: nat) returns (ok: bool)
      modifies this
      ensures ok <==> |ds| + 2 < faultAt
      ensures On(k) == if ok then old(FinishOn(On(k), total, ds)) else old(On(k))
      ensures Elsewhere(k) == old(Elsewhere(k))
    {
      hide OfShard, AddDeltas, SameElsewhere, Besides;
      var applied, acts := ApplyDeltas(k, ds, faultAt);
      ok := applied && |ds| + 2 < faultAt;
      if ok {
        SameBesides(k, actions, acts);
        finished := finished[k := Done(total, if k in progress then progress[k].rows else 0)];
        actions := acts;
      }
    }
  }
}
