/** One shard's send and commit stage: the producer, K POST workers and the single committer.

    The pipelined sender is a step system. A `Config` fixes K and the seqs first..last-1 of the chunks
    this run wants to send; a run is any list of enabled steps, in any interleaving, with any POST or
    commit failing, and a crash is simply the end of the list. What holds of a sender holds after every
    such list: `Good`, kept by every step (`StepKeepsGood`). */
module Sender {
  import opened Orders

  datatype Config = Config(k: nat, first: nat, last: nat)

  ghost predicate Wellformed(c: Config) { c.k >= 1 && c.first <= c.last }

  /** Where the goroutine that calls submit is: between submits, past `takeErr`, holding a token, or
      done with the jobs channel closed, with every chunk submitted (Drained) or not (Aborted). */
  datatype Producer = Idle | Checked | Holding | Drained | Aborted

  /** A busy worker: its POST is in flight (and Arc may have stored the payload), or it has a result to push. */
  datatype Worker = Posting(landed: bool) | Posted(ok: bool)

  datatype Result = Result(n: nat, ok: bool)

  /** The first failure in seq order: a POST that failed, or a commit that failed after its POST succeeded. */
  datatype Fault = PostFault(n: nat) | CommitFault(n: nat)

  /** The committer's own state; `commits` are the commits it performed, in order. */
  datatype Ledger = Ledger(next: nat, pending: map<nat, bool>, err: bool, commits: seq<nat>, fault: Option<Fault>)

  datatype State = State(
    producer: Producer, sub: nat, tokens: nat, workers: map<nat, Worker>, results: seq<Result>,
    book: Ledger, done: bool, accepted: set<nat>, acked: set<nat>)

  datatype Step =
    | Check | Acquire | Deliver | Refuse | Cancel | Finish
    | Accept(n: nat) | Return(n: nat, ok: bool) | Push(n: nat)
    | Receive | Retire(committed: bool) | Exit

  function Init(c: Config): State {
    State(Idle, c.first, 0, map[], [], Ledger(c.first, map[], false, [], None), false, {}, {})
  }

  // ---- the committer ----

  function TakeResult(b: Ledger, r: Result): Ledger {
    b.(pending := b.pending[r.n := r.ok], err := b.err || !r.ok)
  }

  /** Retire seq `next`, whose result is pending: commit it unless an earlier one failed. */
  function RetireOne(b: Ledger, committed: bool): Ledger
    requires b.next in b.pending
  {
    var n := b.next;
    var r := b.(next := n + 1, pending := b.pending - {n});
    if b.fault.Some? then r
    else if !b.pending[n] then r.(err := true, fault := Some(PostFault(n)))
    else if committed then r.(commits := b.commits + [n])
    else r.(err := true, fault := Some(CommitFault(n)))
  }

  /** Everything the committer can retire before it needs another result; `verdict(n)` says whether the
      database takes the commit of seq n. */
  function RetireAll(b: Ledger, verdict: nat -> bool): Ledger
    decreases |b.pending|
  {
    if b.next in b.pending then RetireAll(RetireOne(b, verdict(b.next)), verdict) else b
  }

  lemma RetireAllStep(b: Ledger, verdict: nat -> bool)
    requires b.next in b.pending
    ensures RetireAll(b, verdict) == RetireAll(RetireOne(b, verdict(b.next)), verdict)
  {}

  lemma RetireAllEnd(b: Ledger, verdict: nat -> bool)
    requires b.next !in b.pending
    ensures RetireAll(b, verdict) == b
  {}

  // ---- the steps ----

  /** The jobs channel is closed and everything submitted is retired. */
  predicate CanExit(s: State) {
    && !s.done && (s.producer.Drained? || s.producer.Aborted?)
    && s.workers == map[] && s.results == [] && s.book.next !in s.book.pending
  }

  predicate Enabled(c: Config, s: State, a: Step) {
    match a
    case Check => s.producer.Idle? && s.sub < c.last && !s.book.err
    case Acquire => s.producer.Checked? && s.tokens < c.k
    case Deliver => s.producer.Holding? && |s.workers| < c.k
    case Refuse => s.producer.Idle? && s.sub < c.last && s.book.err
    case Cancel => s.producer.Idle? || s.producer.Checked? || s.producer.Holding?
    case Finish => s.producer.Idle? && s.sub == c.last
    case Accept(n) => n in s.workers && s.workers[n] == Posting(false)
    case Return(n, ok) => n in s.workers && s.workers[n].Posting? && (ok ==> s.workers[n].landed)
    case Push(n) => n in s.workers && s.workers[n].Posted? && |s.results| < c.k
    case Receive => s.results != [] && s.book.next !in s.book.pending
    case Retire(_) => s.book.next in s.book.pending && s.tokens > 0
    case Exit => CanExit(s)
  }

  function Apply(c: Config, s: State, a: Step): State
    requires Enabled(c, s, a)
  {
    match a
    case Check => s.(producer := Checked)
    case Acquire => s.(producer := Holding, tokens := s.tokens + 1)
    case Deliver => s.(producer := Idle, workers := s.workers[s.sub := Posting(false)], sub := s.sub + 1)
    case Refuse => s.(producer := Aborted)
    case Cancel => s.(producer := Aborted, tokens := if s.producer.Holding? && s.tokens > 0 then s.tokens - 1 else s.tokens)
    case Finish => s.(producer := Drained)
    case Accept(n) => s.(workers := s.workers[n := Posting(true)], accepted := s.accepted + {n})
    case Return(n, ok) => s.(workers := s.workers[n := Posted(ok)], acked := if ok then s.acked + {n} else s.acked)
    case Push(n) => s.(workers := s.workers - {n}, results := s.results + [Result(n, s.workers[n].ok)])
    case Receive => s.(book := TakeResult(s.book, s.results[0]), results := s.results[1..])
    case Retire(committed) => s.(book := RetireOne(s.book, committed), tokens := s.tokens - 1)
    case Exit => s.(done := true)
  }

  /** A list of steps, each enabled when its turn comes. */
  predicate Runs(c: Config, s: State, steps: seq<Step>)
    decreases |steps|
  {
    steps == [] || (Enabled(c, s, steps[0]) && Runs(c, Apply(c, s, steps[0]), steps[1..]))
  }

  function Exec(c: Config, s: State, steps: seq<Step>): State
    requires Runs(c, s, steps)
    decreases |steps|
  {
    if steps == [] then s else Exec(c, Apply(c, s, steps[0]), steps[1..])
  }

  // ---- what every reachable state keeps ----

  ghost predicate InFlight(s: State, n: nat) {
    n in s.workers || n in s.book.pending || exists i :: 0 <= i < |s.results| && s.results[i].n == n
  }

  /** Every submitted, unretired seq is in exactly one place, and holds one token. */
  ghost predicate Conserved(c: Config, s: State) {
    && c.first <= s.book.next <= s.sub <= c.last
    && (forall n: nat :: s.book.next <= n < s.sub <==> InFlight(s, n))
    && (forall i, j :: 0 <= i < j < |s.results| ==> s.results[i].n != s.results[j].n)
    && (forall i :: 0 <= i < |s.results| ==> s.results[i].n !in s.workers && s.results[i].n !in s.book.pending)
    && (forall n :: n in s.workers ==> n !in s.book.pending)
    && |s.workers| + |s.results| + |s.book.pending| == s.sub - s.book.next
    && s.tokens == s.sub - s.book.next + (if s.producer.Holding? then 1 else 0)
    && s.tokens <= c.k
    && (s.producer.Checked? || s.producer.Holding? ==> s.sub < c.last)
    && (s.producer.Drained? ==> s.sub == c.last)
  }

  /** What the sender believes of a POST is true of Arc. */
  ghost predicate Truthful(c: Config, s: State) {
    && (forall n :: n in s.acked ==> n in s.accepted)
    && (forall n :: n in s.accepted ==> c.first <= n < s.sub)
    && (forall n :: n in s.workers && s.workers[n].Posting? ==> (s.workers[n].landed <==> n in s.accepted))
    && (forall n :: n in s.workers && s.workers[n] == Posted(true) ==> n in s.acked)
    && (forall i :: 0 <= i < |s.results| && s.results[i].ok ==> s.results[i].n in s.acked)
    && (forall n :: n in s.book.pending && s.book.pending[n] ==> n in s.acked)
  }

  function FaultSeq(f: Fault): nat { match f case PostFault(n) => n case CommitFault(n) => n }

  /** The commits are first, first+1, ... up to the first failure, each of an acknowledged POST. */
  ghost predicate InOrder(c: Config, s: State) {
    var b := s.book;
    && (forall i :: 0 <= i < |b.commits| ==> b.commits[i] == c.first + i && b.commits[i] in s.acked)
    && (b.fault.None? ==> c.first + |b.commits| == b.next)
    && (b.fault.Some? ==> c.first + |b.commits| == FaultSeq(b.fault.value) < b.next && b.err)
    && (b.fault.Some? && b.fault.value.CommitFault? ==> FaultSeq(b.fault.value) in s.acked)
    && (!b.err ==> forall n :: n in b.pending ==> b.pending[n])
  }

  /** How far submits can run past a failure: one of them may already be past `takeErr`. */
  ghost predicate Bounded(c: Config, s: State) {
    s.book.fault.Some? ==>
      s.sub + (if s.producer.Checked? || s.producer.Holding? then 1 else 0) <= FaultSeq(s.book.fault.value) + c.k + 1
  }

  ghost predicate Settled(s: State) {
    s.done ==> (s.producer.Drained? || s.producer.Aborted?) && s.book.next == s.sub && s.workers == map[] && s.results == []
  }

  ghost predicate Good(c: Config, s: State) {
    Conserved(c, s) && Truthful(c, s) && InOrder(c, s) && Bounded(c, s) && Settled(s)
  }

  lemma InitIsGood(c: Config)
    requires Wellformed(c)
    ensures Good(c, Init(c))
  {}

  lemma DeliverConserves(c: Config, s: State)
    requires Conserved(c, s) && Enabled(c, s, Deliver)
    ensures Conserved(c, Apply(c, s, Deliver))
  {
    var t, n := Apply(c, s, Deliver), s.sub;
    assert !InFlight(s, n);
    assert |t.workers| == |s.workers| + 1;
    assert forall m :: InFlight(t, m) <==> InFlight(s, m) || m == n;
  }

  lemma WorkerConserves(c: Config, s: State, a: Step)
    requires Conserved(c, s) && Enabled(c, s, a) && (a.Accept? || a.Return?)
    ensures Conserved(c, Apply(c, s, a))
  {
    var t := Apply(c, s, a);
    assert t.workers.Keys == s.workers.Keys;
    assert forall m :: InFlight(t, m) <==> InFlight(s, m);
    assert |t.workers| == |t.workers.Keys| == |s.workers.Keys| == |s.workers|;
  }

  lemma PushConserves(c: Config, s: State, a: Step)
    requires Conserved(c, s) && Enabled(c, s, a) && a.Push?
    ensures Conserved(c, Apply(c, s, a))
  {
    var t := Apply(c, s, a);
    assert t.results[|s.results|].n == a.n;
    assert forall i :: 0 <= i < |s.results| ==> t.results[i] == s.results[i];
    assert forall m :: InFlight(t, m) <==> InFlight(s, m);
    assert |t.workers| == |s.workers| - 1;
  }

  lemma ReceiveConserves(c: Config, s: State, a: Step)
    requires Conserved(c, s) && Enabled(c, s, a) && a.Receive?
    ensures Conserved(c, Apply(c, s, a))
  {
    var t := Apply(c, s, a);
    assert forall i :: 0 <= i < |t.results| ==> t.results[i] == s.results[i + 1];
    forall m: nat ensures InFlight(t, m) <==> InFlight(s, m) {
      if exists i :: 0 <= i < |s.results| && s.results[i].n == m {
        var i :| 0 <= i < |s.results| && s.results[i].n == m;
        assert i > 0 ==> t.results[i - 1].n == m;
      }
    }
  }

  lemma RetireConserves(c: Config, s: State, a: Step)
    requires Conserved(c, s) && Enabled(c, s, a) && a.Retire?
    ensures Conserved(c, Apply(c, s, a))
  {
    var t := Apply(c, s, a);
    assert forall m :: InFlight(t, m) <==> InFlight(s, m) && m != s.book.next;
    assert |t.book.pending| == |s.book.pending| - 1;
  }

  lemma StepConserves(c: Config, s: State, a: Step)
    requires Good(c, s) && Enabled(c, s, a)
    ensures Conserved(c, Apply(c, s, a))
  {
    if a.Deliver? { DeliverConserves(c, s); }
    else if a.Accept? || a.Return? { WorkerConserves(c, s, a); }
    else if a.Push? { PushConserves(c, s, a); }
    else if a.Receive? { ReceiveConserves(c, s, a); }
    else if a.Retire? { RetireConserves(c, s, a); }
    else { assert forall m :: InFlight(Apply(c, s, a), m) <==> InFlight(s, m); }
  }

  lemma WorkerIsTruthful(c: Config, s: State, a: Step)
    requires Conserved(c, s) && Truthful(c, s) && Enabled(c, s, a) && (a.Accept? || a.Return? || a.Push?)
    ensures Truthful(c, Apply(c, s, a))
  {
    WorkerInRange(c, s, a.n);
    hide Conserved;
    assert a.Push? ==> forall i :: 0 <= i < |s.results| ==> Apply(c, s, a).results[i] == s.results[i];
  }

  lemma CommitterIsTruthful(c: Config, s: State, a: Step)
    requires Truthful(c, s) && Enabled(c, s, a) && (a.Receive? || a.Retire?)
    ensures Truthful(c, Apply(c, s, a))
  {}

  lemma StepIsTruthful(c: Config, s: State, a: Step)
    requires Wellformed(c) && Good(c, s) && Enabled(c, s, a)
    ensures Truthful(c, Apply(c, s, a))
  {
    if a.Accept? || a.Return? || a.Push? {
      WorkerIsTruthful(c, s, a);
    } else if a.Receive? || a.Retire? {
      CommitterIsTruthful(c, s, a);
    }
  }

  lemma WorkerInRange(c: Config, s: State, n: nat)
    requires Conserved(c, s) && n in s.workers
    ensures c.first <= n < s.sub
  {
    assert InFlight(s, n);
  }

  lemma StepKeepsOrder(c: Config, s: State, a: Step)
    requires Wellformed(c) && Conserved(c, s) && Truthful(c, s) && InOrder(c, s) && Enabled(c, s, a)
    ensures InOrder(c, Apply(c, s, a))
  {
    hide Conserved;
    if a.Retire? { assert s.book.next < s.sub by { assert InFlight(s, s.book.next); NextInFlight(c, s); } }
  }

  lemma NextInFlight(c: Config, s: State)
    requires Conserved(c, s) && InFlight(s, s.book.next)
    ensures s.book.next < s.sub
  {}

  lemma StepKeepsBounds(c: Config, s: State, a: Step)
    requires Wellformed(c) && Conserved(c, s) && InOrder(c, s) && Bounded(c, s) && Enabled(c, s, a)
    ensures Bounded(c, Apply(c, s, a))
  {
    assert s.book.fault.Some? ==> s.book.err;
    if a.Retire? { assert InFlight(s, s.book.next); }
  }

  lemma StepKeepsSettled(c: Config, s: State, a: Step)
    requires Wellformed(c) && Conserved(c, s) && Settled(s) && Enabled(c, s, a)
    ensures Settled(Apply(c, s, a))
  {
    assert a.Exit? ==> !InFlight(s, s.book.next);
  }

  lemma StepKeepsGood(c: Config, s: State, a: Step)
    requires Wellformed(c) && Good(c, s) && Enabled(c, s, a)
    ensures Good(c, Apply(c, s, a))
  {
    hide Conserved, Truthful, InOrder, Bounded, Settled, Enabled, Apply;
    StepConserves(c, s, a);
    StepIsTruthful(c, s, a);
    StepKeepsOrder(c, s, a);
    StepKeepsBounds(c, s, a);
    StepKeepsSettled(c, s, a);
  }

  lemma {:induction false} RunKeepsGood(c: Config, s: State, steps: seq<Step>)
    requires Wellformed(c) && Good(c, s) && Runs(c, s, steps)
    ensures Good(c, Exec(c, s, steps))
    decreases |steps|
  {
    hide Good;
    if steps != [] {
      StepKeepsGood(c, s, steps[0]);
      RunKeepsGood(c, Apply(c, s, steps[0]), steps[1..]);
    }
  }

  ghost predicate Reachable(c: Config, s: State) {
    exists steps :: Runs(c, Init(c), steps) && Exec(c, Init(c), steps) == s
  }

  lemma ReachableIsGood(c: Config, s: State)
    requires Wellformed(c) && Reachable(c, s)
    ensures Good(c, s)
  {
    var steps :| Runs(c, Init(c), steps) && Exec(c, Init(c), steps) == s;
    InitIsGood(c);
    RunKeepsGood(c, Init(c), steps);
  }

  lemma {:induction false} RunsOneMore(c: Config, s: State, steps: seq<Step>, a: Step)
    requires Runs(c, s, steps) && Enabled(c, Exec(c, s, steps), a)
    ensures Runs(c, s, steps + [a]) && Exec(c, s, steps + [a]) == Apply(c, Exec(c, s, steps), a)
    decreases |steps|
  {
    if steps == [] {
      assert steps + [a] == [a];
      assert Runs(c, Apply(c, s, a), [a][1..]);
    } else {
      RunsOneMore(c, Apply(c, s, steps[0]), steps[1..], a);
      assert (steps + [a])[1..] == steps[1..] + [a];
    }
  }

  /** Reachability, one more step at a time. */
  lemma Extend(c: Config, s: State, a: Step) returns (t: State)
    requires Reachable(c, s) && Enabled(c, s, a)
    ensures Reachable(c, t) && t == Apply(c, s, a)
  {
    var steps :| Runs(c, Init(c), steps) && Exec(c, Init(c), steps) == s;
    RunsOneMore(c, Init(c), steps, a);
    t := Apply(c, s, a);
  }

  /** The committer's loop is a run of Retire steps. */
  lemma {:induction false} HandleIsSteps(c: Config, s: State, verdict: nat -> bool) returns (t: State)
    requires Wellformed(c) && Reachable(c, s)
    ensures Reachable(c, t) && t.book == RetireAll(s.book, verdict)
    ensures t.workers == s.workers && t.results == s.results && t.accepted == s.accepted && t.producer == s.producer
    ensures s.tokens - t.tokens == t.book.next - s.book.next
    decreases |s.book.pending|
  {
    hide Reachable;
    t := s;
    if s.book.next in s.book.pending {
      ReachableIsGood(c, s);
      assert s.tokens > 0 by { assert InFlight(s, s.book.next); }
      t := Extend(c, s, Retire(verdict(s.book.next)));
      t := HandleIsSteps(c, t, verdict);
    }
  }

  // ---- main results ----

  /** In every reachable state the commits are firstSeq, firstSeq+1, ... without a gap, each of a chunk
      whose own POST succeeded. */
  lemma CommitsInOrder(c: Config, s: State)
    requires Wellformed(c) && Reachable(c, s)
    ensures forall i :: 0 <= i < |s.book.commits| ==> s.book.commits[i] == c.first + i && s.book.commits[i] in s.acked
    ensures s.acked <= s.accepted
    ensures c.first + |s.book.commits| <= s.sub <= c.last
  {
    ReachableIsGood(c, s);
  }

  /** Nothing commits after the first failure in seq order, and that failure is never forgotten. */
  lemma {:induction false} NothingAfterFault(c: Config, s: State, steps: seq<Step>)
    requires s.book.fault.Some? && Runs(c, s, steps)
    ensures Exec(c, s, steps).book.commits == s.book.commits
    ensures Exec(c, s, steps).book.fault == s.book.fault
    decreases |steps|
  {
    if steps != [] { NothingAfterFault(c, Apply(c, s, steps[0]), steps[1..]); }
  }

  /** `wait` returning nil after every chunk was submitted means that every chunk is committed. */
  lemma WaitNilMeansCommitted(c: Config, s: State)
    requires Wellformed(c) && Reachable(c, s)
    requires s.done && s.producer.Drained? && !s.book.err
    ensures |s.book.commits| == c.last - c.first
    ensures forall n: nat :: c.first <= n < c.last ==> n in s.acked && n in s.accepted
  {
    ReachableIsGood(c, s);
    forall n: nat | c.first <= n < c.last ensures n in s.acked && n in s.accepted {
      assert s.book.commits[n - c.first] == n;
    }
  }

  lemma IsCommitted(c: Config, s: State, n: nat)
    requires InOrder(c, s) && c.first <= n < c.first + |s.book.commits|
    ensures n in s.book.commits
  {
    assert s.book.commits[n - c.first] == n;
  }

  /** Before any failure is retired, at most K chunks are submitted and unretired. */
  lemma OutstandingBound(c: Config, s: State)
    requires Wellformed(c) && Reachable(c, s)
    ensures s.sub - s.book.next <= c.k
    ensures s.book.fault.None? ==> forall n :: n in s.accepted && n !in s.book.commits ==> s.book.next <= n < s.book.next + c.k
  {
    ReachableIsGood(c, s);
    if s.book.fault.None? {
      forall n | n in s.accepted && n !in s.book.commits ensures s.book.next <= n < s.book.next + c.k {
        if n < s.book.next { IsCommitted(c, s, n); }
      }
    }
  }

  /** The duplicate window. After a failed POST of n, whatever Arc holds beyond the committed prefix, n
      itself aside, lies in [n+1, n+K]; after a failed commit of n it lies in [n, n+K]. */
  lemma DuplicateWindow(c: Config, s: State, m: nat)
    requires Wellformed(c) && Reachable(c, s)
    requires s.book.fault.Some? && m in s.accepted && m !in s.book.commits
    ensures var n := FaultSeq(s.book.fault.value);
      n <= m <= n + c.k && (s.book.fault.value.CommitFault? ==> n in s.accepted)
  {
    ReachableIsGood(c, s);
    if m < FaultSeq(s.book.fault.value) { IsCommitted(c, s, m); }
  }

  /** K submits whose POSTs all reached Arc, except that of `first` if it did not land. */
  lemma {:induction false} ManySent(c: Config, m: nat, landed: bool) returns (s: State)
    requires m <= c.k && c.first + m <= c.last
    ensures Reachable(c, s)
    ensures s.producer == Idle && s.sub == c.first + m && s.tokens == m && s.results == [] && s.book == Init(c).book
    ensures |s.workers| == m && forall n: nat :: n in s.workers <==> c.first <= n < c.first + m
    ensures forall n :: n in s.workers ==> s.workers[n] == Posting(landed || n > c.first)
    ensures forall n: nat :: n in s.accepted <==> c.first <= n < c.first + m && (landed || n > c.first)
    decreases m
  {
    hide Reachable;
    if m == 0 {
      InitIsReachable(c);
      s := Init(c);
    } else {
      s := ManySent(c, m - 1, landed);
      var n := s.sub;
      assert n !in s.workers;
      s := Extend(c, s, Check);
      s := Extend(c, s, Acquire);
      s := Extend(c, s, Deliver);
      if landed || n > c.first { s := Extend(c, s, Accept(n)); }
    }
  }

  /** ... and then the next submit is past `takeErr` before the result of `first` is received. */
  lemma FirstFails(c: Config, landed: bool) returns (s: State)
    requires Wellformed(c) && c.first + c.k < c.last
    ensures Reachable(c, s)
    ensures s.producer == Checked && s.sub == c.first + c.k && s.tokens == c.k - 1 && |s.workers| == c.k - 1
    ensures s.results == [] && s.book.commits == []
    ensures s.book.fault == Some(if landed then CommitFault(c.first) else PostFault(c.first))
    ensures forall n: nat :: n in s.accepted <==> c.first <= n < c.first + c.k && (landed || n > c.first)
    ensures forall n: nat :: n in s.workers <==> c.first < n < c.first + c.k
  {
    hide Reachable;
    s := ManySent(c, c.k, landed);
    s := Extend(c, s, Return(c.first, landed));
    s := Extend(c, s, Check);
    s := Extend(c, s, Push(c.first));
    s := Extend(c, s, Receive);
    s := Extend(c, s, Retire(false));
  }

  /** For every K the window is reached as a whole: all of [n+1, n+K] is in Arc and nothing is committed
      when the POST of n has failed, and n itself too when its commit has failed. */
  lemma DuplicateWindowIsTight(c: Config, landed: bool) returns (s: State)
    requires Wellformed(c) && c.first + c.k < c.last
    ensures Reachable(c, s) && s.book.commits == []
    ensures s.book.fault == Some(if landed then CommitFault(c.first) else PostFault(c.first))
    ensures forall n: nat :: c.first < n <= c.first + c.k ==> n in s.accepted
    ensures landed ==> c.first in s.accepted
  {
    hide Reachable;
    s := FirstFails(c, landed);
    s := Extend(c, s, Acquire);
    s := Extend(c, s, Deliver);
    s := Extend(c, s, Accept(c.first + c.k));
  }

  lemma InitIsReachable(c: Config)
    ensures Reachable(c, Init(c))
  {
    assert Runs(c, Init(c), []) && Exec(c, Init(c), []) == Init(c);
  }

  // ---- a run without failures ----

  /** No POST fails, no commit fails, and nobody cancels. */
  ghost predicate Clean(steps: seq<Step>) {
    forall a :: a in steps ==> !a.Cancel? && a != Retire(false) && !(a.Return? && !a.ok)
  }

  lemma CleanOneMore(steps: seq<Step>, a: Step)
    requires Clean(steps) && !a.Cancel? && a != Retire(false) && !(a.Return? && !a.ok)
    ensures Clean(steps + [a])
  {}

  ghost predicate Spotless(s: State) {
    && !s.book.err && s.book.fault.None? && !s.producer.Aborted?
    && (forall n :: n in s.workers && s.workers[n].Posted? ==> s.workers[n].ok)
    && (forall i :: 0 <= i < |s.results| ==> s.results[i].ok)
    && (forall n :: n in s.book.pending ==> s.book.pending[n])
  }

  lemma StepStaysSpotless(c: Config, s: State, a: Step)
    requires Spotless(s) && Enabled(c, s, a) && !a.Cancel? && a != Retire(false) && !(a.Return? && !a.ok)
    ensures Spotless(Apply(c, s, a))
  {}

  lemma {:induction false} CleanStaysSpotless(c: Config, s: State, steps: seq<Step>)
    requires Spotless(s) && Runs(c, s, steps) && Clean(steps)
    ensures Spotless(Exec(c, s, steps))
    decreases |steps|
  {
    hide Spotless, Enabled, Apply;
    if steps != [] {
      assert steps[0] in steps && forall a :: a in steps[1..] ==> a in steps;
      StepStaysSpotless(c, s, steps[0]);
      CleanStaysSpotless(c, Apply(c, s, steps[0]), steps[1..]);
    }
  }

  lemma CleanHasNoError(c: Config, steps: seq<Step>)
    requires Runs(c, Init(c), steps) && Clean(steps)
    ensures !Exec(c, Init(c), steps).book.err
  {
    CleanStaysSpotless(c, Init(c), steps);
  }

  /** If nothing fails and the committer has exited, `wait` returns nil behind the last submit. */
  lemma CleanRunDrains(c: Config, steps: seq<Step>)
    requires Wellformed(c) && Runs(c, Init(c), steps) && Clean(steps) && Exec(c, Init(c), steps).done
    ensures Exec(c, Init(c), steps).producer.Drained? && !Exec(c, Init(c), steps).book.err
  {
    var s := Exec(c, Init(c), steps);
    CleanStaysSpotless(c, Init(c), steps);
    assert Reachable(c, s);
    ReachableIsGood(c, s);
  }

  // ---- no deadlock ----

  /** A worker holding a result never blocks on the results channel. */
  lemma WorkerNeverBlocks(c: Config, s: State, n: nat)
    requires Wellformed(c) && Reachable(c, s) && n in s.workers && s.workers[n].Posted?
    ensures Enabled(c, s, Push(n))
  {
    ReachableIsGood(c, s);
    assert n in s.workers.Keys && |s.workers| >= 1 by {
      assert s.workers.Keys != {};
    }
  }

  /** Until the committer has exited, some step other than a cancellation is enabled. */
  lemma NeverStuck(c: Config, s: State) returns (a: Step)
    requires Wellformed(c) && Reachable(c, s) && !s.done
    ensures Enabled(c, s, a) && !a.Cancel?
  {
    ReachableIsGood(c, s);
    if s.book.next in s.book.pending {
      assert InFlight(s, s.book.next);
      a := Retire(true);
    } else if s.results != [] {
      a := Receive;
    } else if s.workers != map[] {
      assert s.workers.Keys != {};
      var n :| n in s.workers;
      if s.workers[n].Posted? { WorkerNeverBlocks(c, s, n); }
      a := if s.workers[n].Posted? then Push(n) else Return(n, false);
    } else {
      assert s.book.next < s.sub ==> InFlight(s, s.book.next);
      a := match s.producer
        case Idle => if s.sub == c.last then Finish else if s.book.err then Refuse else Check
        case Checked => Acquire
        case Holding => Deliver
        case _ => Exit;
    }
  }

  function Stage(w: Worker): nat { match w case Posting(false) => 5 case Posting(true) => 4 case Posted(_) => 3 }

  ghost function StageSum(ws: map<nat, Worker>): nat
    decreases |ws|
  {
    if ws == map[] then 0
    else
      assert ws.Keys != {};
      var n :| n in ws;
      Stage(ws[n]) + StageSum(ws - {n})
  }

  lemma {:induction false} StageSumWithout(ws: map<nat, Worker>, n: nat)
    requires n in ws
    ensures StageSum(ws) == Stage(ws[n]) + StageSum(ws - {n})
    decreases |ws|
  {
    var m :| m in ws && StageSum(ws) == Stage(ws[m]) + StageSum(ws - {m});
    if m != n {
      StageSumWithout(ws - {m}, n);
      StageSumWithout(ws - {n}, m);
      assert ws - {m} - {n} == ws - {n} - {m};
    }
  }

  /** What is left to do: every chunk not yet submitted, in a worker, on the channel or pending. */
  ghost function Left(c: Config, s: State): int {
    9 * (c.last - s.sub) + StageSum(s.workers) + 2 * |s.results| + |s.book.pending| + (if s.done then 0 else 1)
    + (match s.producer case Idle => 3 case Checked => 2 case Holding => 1 case _ => 0)
  }

  /** A worker set to a later stage, or a new one. */
  lemma StageSumSet(ws: map<nat, Worker>, n: nat, w: Worker)
    ensures StageSum(ws[n := w]) == StageSum(ws) + Stage(w) - (if n in ws then Stage(ws[n]) else 0)
  {
    hide StageSum, Stage;
    var us := ws[n := w];
    StageSumWithout(us, n);
    if n in ws {
      StageSumWithout(ws, n);
      assert us - {n} == ws - {n};
    } else {
      assert us - {n} == ws;
    }
  }

  lemma WorkerStepLowersLeft(c: Config, s: State, a: Step)
    requires Conserved(c, s) && Enabled(c, s, a) && (a.Deliver? || a.Accept? || a.Return? || a.Push?)
    ensures Left(c, Apply(c, s, a)) < Left(c, s)
  {
    hide StageSum, Conserved;
    match a
    case Deliver =>
      assert s.sub !in s.workers by { NewSeq(c, s); }
      StageSumSet(s.workers, s.sub, Posting(false));
    case Accept(n) => StageSumSet(s.workers, n, Posting(true));
    case Return(n, ok) => StageSumSet(s.workers, n, Posted(ok));
    case Push(n) => StageSumWithout(s.workers, n);
  }

  lemma NewSeq(c: Config, s: State)
    requires Conserved(c, s)
    ensures s.sub !in s.workers
  {
    assert !InFlight(s, s.sub);
  }

  /** Every step lowers `Left`, so every run ends; with `NeverStuck`, it ends with the committer's exit,
      in whatever order the results arrive. */
  lemma StepLowersLeft(c: Config, s: State, a: Step)
    requires Wellformed(c) && Good(c, s) && Enabled(c, s, a)
    ensures 0 <= Left(c, Apply(c, s, a)) < Left(c, s)
  {
    hide StageSum, Truthful, InOrder, Bounded, Settled;
    StepConserves(c, s, a);
    if a.Deliver? || a.Accept? || a.Return? || a.Push? {
      WorkerStepLowersLeft(c, s, a);
    } else if a.Receive? {
      var r := s.results[0];
      assert |s.book.pending[r.n := r.ok]| <= |s.book.pending| + 1;
    } else if a.Retire? {
      assert |s.book.pending - {s.book.next}| == |s.book.pending| - 1;
    }
  }

  /** No run takes more than `Left` steps. */
  lemma {:induction false} RunsEnd(c: Config, s: State, steps: seq<Step>)
    requires Wellformed(c) && Good(c, s) && Runs(c, s, steps)
    ensures |steps| <= Left(c, s) - Left(c, Exec(c, s, steps)) && Left(c, Exec(c, s, steps)) >= 0
    decreases |steps|
  {
    hide Good, Left;
    if steps != [] {
      StepLowersLeft(c, s, steps[0]);
      StepKeepsGood(c, s, steps[0]);
      RunsEnd(c, Apply(c, s, steps[0]), steps[1..]);
    } else {
      assert Left(c, s) >= 0 by { LeftIsNat(c, s); }
    }
  }

  lemma LeftIsNat(c: Config, s: State)
    requires Good(c, s)
    ensures Left(c, s) >= 0
  {}
}
