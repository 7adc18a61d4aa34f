/** One run's sender at work: chunks go to Arc, commits go to the checkpoint store.

    Inline, every submit POSTs and commits before it returns. Pipelined, the producer, the POST workers and
    the committer take turns as a script says (`turns`); each of their moves is a step of `Sender`, and
    `trace` is the run they make up. `Valid` ties what Arc and the store hold to the chunks this run has to
    send (`plan`): it holds whenever the process may die. */
module Stage {
  import opened Orders
  import opened Chunks
  import Checkpoint
  import Sender

  /** What survives a crash. */
  datatype World = World(disk: Checkpoint.Disk, arc: multiset<(nat, Str)>)

  /** What a POST comes to: an unanswered one was accepted all the same. */
  datatype Post = Denied | Unanswered | Acked

  /** What can happen to one chunk sent inline. */
  datatype Sent = Rejected | ReplyLost | CommitLost | Committed

  /** What the network and the database do in one run: the outcome of each inline POST, the rows Arc reports,
      and how many statements of a chunk's transaction succeed before one fails. */
  datatype Net = Net(post: nat -> Post, rows: nat -> nat, faultAt: nat -> nat)

  /** The database takes the commit of this chunk. */
  predicate Taken(net: Net, c: Chunk) { |c.deltas| + 1 < net.faultAt(c.n) }

  function Fate(net: Net, c: Chunk): Sent {
    match net.post(c.n)
    case Denied => Rejected
    case Unanswered => ReplyLost
    case Acked => if Taken(net, c) then Committed else CommitLost
  }

  function Fates(net: Net, cs: seq<Chunk>): (fs: seq<Sent>)
    ensures |fs| == |cs|
  {
    seq(|cs|, i requires 0 <= i < |cs| => Fate(net, cs[i]))
  }

  // ---- what a run does to the world ----

  function CommitChunk(d: Checkpoint.Disk, c: Chunk, rows: nat -> nat): Checkpoint.Disk {
    Checkpoint.CommitOn(d, c.n, rows(c.n), c.cur, c.deltas)
  }

  function CommitAll(d: Checkpoint.Disk, cs: seq<Chunk>, rows: nat -> nat): Checkpoint.Disk
    decreases |cs|
  {
    if cs == [] then d else CommitAll(CommitChunk(d, cs[0], rows), cs[1..], rows)
  }

  lemma {:induction false} CommitOneMore(d: Checkpoint.Disk, cs: seq<Chunk>, c: Chunk, rows: nat -> nat)
    ensures CommitAll(d, cs + [c], rows) == CommitChunk(CommitAll(d, cs, rows), c, rows)
    decreases |cs|
  {
    hide CommitChunk;
    if cs == [] {
      assert cs + [c] == [c] && [c][1..] == [];
    } else {
      assert (cs + [c])[1..] == cs[1..] + [c];
      CommitOneMore(CommitChunk(d, cs[0], rows), cs[1..], c, rows);
    }
  }

  /** The payloads Arc stored for the given seqs of cs, whose first seq is `first`. */
  function Stored(cs: seq<Chunk>, first: nat, accepted: set<nat>): multiset<(nat, Str)> {
    multiset(set n | n in accepted && first <= n < first + |cs| :: (n, cs[n - first].lp))
  }

  lemma StoredOneMore(cs: seq<Chunk>, first: nat, accepted: set<nat>, n: nat)
    requires n !in accepted && first <= n < first + |cs|
    ensures Stored(cs, first, accepted + {n}) == Stored(cs, first, accepted) + multiset{(n, cs[n - first].lp)}
  {
    var a := set m | m in accepted && first <= m < first + |cs| :: (m, cs[m - first].lp);
    var b := set m | m in accepted + {n} && first <= m < first + |cs| :: (m, cs[m - first].lp);
    assert (n, cs[n - first].lp) !in a;
    assert b == a + {(n, cs[n - first].lp)};
  }

  /** Arc stores one payload. */
  function Land(w: World, c: Chunk): World { w.(arc := w.arc + multiset{(c.n, c.lp)}) }

  /** POST and commit one chunk after the other; false if the run ended early. */
  function SendInline(w: World, cs: seq<Chunk>, sends: seq<Sent>, rows: nat -> nat): (World, bool)
    decreases |cs|
  {
    if cs == [] then (w, true)
    else if sends == [] then (w, false)
    else match sends[0]
      case Rejected => (w, false)
      case ReplyLost => (Land(w, cs[0]), false)
      case CommitLost => (Land(w, cs[0]), false)
      case Committed =>
        var v := Land(w, cs[0]);
        SendInline(World(CommitChunk(v.disk, cs[0], rows), v.arc), cs[1..], sends[1..], rows)
  }

  ghost predicate AllCommitted(sends: seq<Sent>) { forall i :: 0 <= i < |sends| ==> sends[i] == Committed }

  /** What one more chunk does to the world. */
  function SendOne(w: World, c: Chunk, s: Sent, rows: nat -> nat): World {
    match s
    case Rejected => w
    case ReplyLost => Land(w, c)
    case CommitLost => Land(w, c)
    case Committed => var v := Land(w, c); World(CommitChunk(v.disk, c, rows), v.arc)
  }

  lemma {:induction false} InlineOneMore(w: World, cs: seq<Chunk>, sends: seq<Sent>, s: Sent, rows: nat -> nat)
    requires |sends| < |cs| && AllCommitted(sends)
    ensures SendInline(w, cs, sends + [s], rows).0 == SendOne(SendInline(w, cs, sends, rows).0, cs[|sends|], s, rows)
    decreases |sends|
  {
    hide CommitChunk, Land;
    if sends == [] {
      assert sends + [s] == [s];
      assert SendInline(World(CommitChunk(Land(w, cs[0]).disk, cs[0], rows), Land(w, cs[0]).arc), cs[1..], [s][1..], rows).0
        == World(CommitChunk(Land(w, cs[0]).disk, cs[0], rows), Land(w, cs[0]).arc);
    } else {
      var v := Land(w, cs[0]);
      assert (sends + [s])[1..] == sends[1..] + [s];
      InlineOneMore(World(CommitChunk(v.disk, cs[0], rows), v.arc), cs[1..], sends[1..], s, rows);
    }
  }

  lemma {:induction false} InlineAll(w: World, cs: seq<Chunk>, sends: seq<Sent>, rows: nat -> nat)
    requires AllCommitted(sends)
    ensures SendInline(w, cs, sends, rows).1 <==> |cs| <= |sends|
    decreases |cs|
  {
    hide CommitChunk, Land;
    if cs != [] && sends != [] {
      var v := Land(w, cs[0]);
      InlineAll(World(CommitChunk(v.disk, cs[0], rows), v.arc), cs[1..], sends[1..], rows);
    }
  }

  // ---- the committer ----

  /** The committer goroutine's variables, and the body of its receive loop. */
  class Committer {
    const store: Checkpoint.Store
    const key: Checkpoint.Key
    const net: Net
    var next: nat
    var pending: map<nat, bool>
    var failed: bool
    var err: bool
    var commits: seq<nat>
    var released: nat
    ghost var fault: Option<Sender.Fault>

    ghost function Book(): Sender.Ledger
      reads this
    {
      Sender.Ledger(next, pending, err, commits, fault)
    }

    ghost predicate Valid()
      reads this
    {
      failed == fault.Some?
    }

    constructor (store: Checkpoint.Store, key: Checkpoint.Key, net: Net, first: nat)
      ensures Valid() && Book() == Sender.Ledger(first, map[], false, [], None) && released == 0
      ensures this.store == store && this.key == key && this.net == net
    {
      this.store, this.key, this.net := store, key, net;
      next, pending, failed, err, commits, released, fault := first, map[], false, false, [], 0, None;
    }

    /** A result arrives; a failed POST refuses new submits at once. */
    method Receive(r: Sender.Result)
      requires Valid()
      modifies this`pending, this`err
      ensures Valid() && Book() == Sender.TakeResult(old(Book()), r)
    {
      if !r.ok { err := true; }
      pending := pending[r.n := r.ok];
    }

    /** The commit of one chunk: one transaction. */
    method Commit(job: Chunk) returns (committed: bool)
      modifies store
      ensures committed <==> Taken(net, job)
      ensures store.On(key) == if committed then CommitChunk(old(store.On(key)), job, net.rows) else old(store.On(key))
      ensures store.Elsewhere(key) == old(store.Elsewhere(key))
    {
      hide Checkpoint.CommitOn, Checkpoint.Store.On;
      committed := store.Commit(key, job.n, net.rows(job.n), job.cur, job.deltas, net.faultAt(job.n));
    }

    /** Retire seq `next`: commit it unless an earlier one failed, and release its token in any case. */
    method RetireNext(job: Chunk)
      requires Valid() && next in pending && job.n == next
      modifies this, store
      ensures Valid() && Book() == Sender.RetireOne(old(Book()), Taken(net, job))
      ensures next == old(next) + 1 && released == old(released) + 1 && pending == old(pending) - {old(next)}
      ensures |old(commits)| <= |commits| <= |old(commits)| + 1 && (old(fault).Some? ==> commits == old(commits))
      ensures store.On(key) == if |commits| > |old(commits)| then CommitChunk(old(store.On(key)), job, net.rows) else old(store.On(key))
      ensures store.Elsewhere(key) == old(store.Elsewhere(key))
    {
      hide Checkpoint.Store.On, Checkpoint.Store.Elsewhere, CommitChunk, Taken;
      var n, ok := next, pending[next];
      pending := pending - {n};
      if !failed {
        if !ok {
          failed, err, fault := true, true, Some(Sender.PostFault(n));
        } else {
          var committed := Commit(job);
          if committed {
            commits := commits + [n];
          } else {
            failed, err, fault := true, true, Some(Sender.CommitFault(n));
          }
        }
      }
      released := released + 1;
      next := n + 1;
    }

    /** Results are pending of these jobs only. */
    ghost predicate PendingOf(first: nat, jobs: seq<Chunk>)
      reads this`pending
    {
      forall n :: n in pending ==> first <= n < first + |jobs|
    }

    method RetireNextOf(first: nat, jobs: seq<Chunk>)
      requires Valid() && Numbered(jobs, first) && PendingOf(first, jobs) && next in pending
      modifies this, store
      ensures Valid() && PendingOf(first, jobs) && |pending| < old(|pending|)
      ensures Sender.RetireAll(Book(), Verdict(net, jobs, first)) == old(Sender.RetireAll(Book(), Verdict(net, jobs, first)))
      ensures next == old(next) + 1 && released == old(released) + 1
    {
      hide Sender.RetireAll, Sender.RetireOne, Verdict, Taken, CommitChunk, Checkpoint.Store.On, Checkpoint.Store.Elsewhere;
      RetireStep(Book(), net, jobs, first);
      assert |pending - {next}| < |pending|;
      RetireNext(jobs[next - first]);
    }

    /** Retires whatever has become contiguous. */
    method RetireReady(first: nat, jobs: seq<Chunk>)
      requires Valid() && Numbered(jobs, first) && PendingOf(first, jobs)
      modifies this, store
      ensures Valid() && Book() == Sender.RetireAll(old(Book()), Verdict(net, jobs, first))
      ensures released - old(released) == next - old(next)
    {
      hide Sender.RetireAll, Sender.RetireOne, Verdict, Taken, CommitChunk, Checkpoint.Store.On, Checkpoint.Store.Elsewhere;
      ghost var verdict := Verdict(net, jobs, first);
      while next in pending
        invariant Valid() && PendingOf(first, jobs)
        invariant Sender.RetireAll(Book(), verdict) == Sender.RetireAll(old(Book()), verdict)
        invariant released - old(released) == next - old(next)
        decreases |pending|
      {
        RetireNextOf(first, jobs);
      }
      Sender.RetireAllEnd(Book(), verdict);
    }

    /** The body of the receive loop, if nobody interrupts it. */
    method Handle(r: Sender.Result, first: nat, jobs: seq<Chunk>)
      requires Valid() && Numbered(jobs, first) && PendingOf(first, jobs) && first <= r.n < first + |jobs|
      modifies this, store
      ensures Valid()
      ensures Book() == Sender.RetireAll(Sender.TakeResult(old(Book()), r), Verdict(net, jobs, first))
      ensures released - old(released) == next - old(next)
    {
      hide Sender.RetireAll, Verdict;
      Receive(r);
      RetireReady(first, jobs);
    }
  }

  /** The chunks carry the seqs first, first+1, ... */
  ghost predicate Numbered(cs: seq<Chunk>, first: nat) { forall i :: 0 <= i < |cs| ==> cs[i].n == first + i }

  /** Whether the database takes the commit of a seq. */
  function Verdict(net: Net, jobs: seq<Chunk>, first: nat): nat -> bool {
    (n: nat) => first <= n < first + |jobs| && Taken(net, jobs[n - first])
  }

  lemma RetireStep(b: Sender.Ledger, net: Net, jobs: seq<Chunk>, first: nat)
    requires b.next in b.pending && first <= b.next < first + |jobs|
    ensures Sender.RetireAll(b, Verdict(net, jobs, first))
      == Sender.RetireAll(Sender.RetireOne(b, Taken(net, jobs[b.next - first])), Verdict(net, jobs, first))
  {
    hide Sender.RetireAll, Sender.RetireOne, Taken;
    Sender.RetireAllStep(b, Verdict(net, jobs, first));
  }

  // ---- the sender of one run ----

  /** What the other goroutines do before the producer moves again, and whether its context ends meanwhile. */
  datatype Turn = Turn(steps: seq<Sender.Step>, cancel: bool)

  /** Nobody cancels, and no POST fails that this script decides. */
  ghost predicate CleanTurn(t: Turn) { !t.cancel && forall a :: a in t.steps ==> !(a.Return? && !a.ok) }

  ghost predicate CleanTurns(ts: seq<Turn>) { forall t :: t in ts ==> CleanTurn(t) }

  ghost predicate AllFine(net: Net, plan: seq<Chunk>) { forall i :: 0 <= i < |plan| ==> Fate(net, plan[i]) == Committed }

  class Uplink {
    const pipelined: bool
    const crash: bool               // the process dies where the script ends; else the others go on
    const k: nat
    const first: nat
    const store: Checkpoint.Store
    const key: Checkpoint.Key
    const net: Net
    const comm: Committer
    ghost const plan: seq<Chunk>    // the chunks this run has to send
    ghost const start: World        // the world this run found
    ghost const others: Checkpoint.Rest
    ghost const smooth: bool        // nothing is going to fail
    var turns: seq<Turn>
    var arc: multiset<(nat, Str)>
    var jobs: seq<Chunk>            // handed over
    ghost var tried: seq<Chunk>     // handed over or refused
    var producer: Sender.Producer
    var tokens: nat
    var workers: map<nat, Sender.Worker>
    var results: seq<Sender.Result>
    var done: bool
    ghost var accepted: set<nat>
    ghost var acked: set<nat>
    ghost var trace: seq<Sender.Step>

    ghost function Config(): Sender.Config { Sender.Config(k, first, first + |plan|) }

    ghost function State(): Sender.State
      reads this, comm
    {
      Sender.State(producer, first + |jobs|, tokens, workers, results, comm.Book(), done, accepted, acked)
    }

    /** One step of the system led here. */
    ghost predicate Moved(s: Sender.State, a: Sender.Step)
      reads this, comm
    {
      Sender.Enabled(Config(), s, a) && State() == Sender.Apply(Config(), s, a)
    }

    /** The moves so far are a run of the step system. */
    ghost predicate Traced()
      reads this, comm
    {
      && k >= 1 && comm.Valid()
      && Sender.Runs(Config(), Sender.Init(Config()), trace)
      && State() == Sender.Exec(Config(), Sender.Init(Config()), trace)
    }

    /** The store holds the committed chunks on top of what it held, Arc the accepted payloads. */
    ghost predicate Piped()
      reads this, comm, store
    {
      && Traced() && jobs <= plan && |comm.commits| <= |plan|
      && store.On(key) == CommitAll(start.disk, plan[..|comm.commits|], net.rows)
      && arc == start.arc + Stored(plan, first, accepted)
    }

    /** If nothing is going to fail, nothing has failed, unless the producer gave up. */
    ghost predicate Clear()
      reads this
    {
      smooth ==> !crash && AllFine(net, plan) && CleanTurns(turns) && (!producer.Aborted? ==> Sender.Clean(trace))
    }

    ghost predicate Inlined()
      reads this, store
    {
      && tried <= plan && World(store.On(key), arc) == SendInline(start, plan, Fates(net, tried), net.rows).0
      && AllCommitted(Fates(net, jobs)) && (jobs < tried ==> Fate(net, tried[|jobs|]) != Committed)
    }

    ghost predicate Valid()
      reads this, comm, store
    {
      && comm.store == store && comm.key == key && comm.net == net && Numbered(plan, first)
      && store.Elsewhere(key) == others
      && jobs <= tried <= plan && |tried| <= |jobs| + 1
      && (if pipelined then Piped() && Clear() else Inlined())
    }

    /** The next submit may be taken: nothing was refused so far. */
    ghost predicate Open()
      reads this
    {
      tried == jobs && (pipelined ==> producer.Idle?)
    }

    /** The last submit was refused: something failed, or the process died. */
    ghost predicate Refused()
      reads this
    {
      tried != jobs && (pipelined ==> !smooth && (crash || producer.Aborted?))
    }

    /** Jobs handed over whose result is not retired. */
    function Outstanding(): int
      reads this`jobs, comm`next
    {
      first + |jobs| - comm.next
    }

    constructor (pipelined: bool, inflight: int, store: Checkpoint.Store, key: Checkpoint.Key, net: Net, turns: seq<Turn>,
        crash: bool, arc: multiset<(nat, Str)>, first: nat, ghost plan: seq<Chunk>)
      requires Numbered(plan, first)
      ensures Valid() && Open() && tried == [] && fresh(comm)
      ensures smooth == (!crash && CleanTurns(turns) && AllFine(net, plan))
      ensures this.pipelined == pipelined && this.store == store && this.key == key && this.first == first && this.net == net
      ensures this.plan == plan && start == World(store.On(key), arc) && others == store.Elsewhere(key) && k == Inflight(inflight)
    {
      this.pipelined, this.k, this.first, this.store, this.key, this.net := pipelined, Inflight(inflight), first, store, key, net;
      this.plan, this.start, this.others := plan, World(store.On(key), arc), store.Elsewhere(key);
      this.crash, this.smooth := crash, !crash && CleanTurns(turns) && AllFine(net, plan);
      comm := new Committer(store, key, net, first);
      this.turns, this.arc, jobs, tried := turns, arc, [], [];
      producer, tokens, workers, results, done, accepted, acked, trace := Sender.Idle, 0, map[], [], false, {}, {}, [];
      new;
      NothingStored(plan, first);
      assert plan[..0] == [] && Fates(net, []) == [];
    }

    lemma GoodNow()
      requires Traced()
      ensures Sender.Good(Config(), State())
    {
      hide Sender.Good;
      Sender.InitIsGood(Config());
      Sender.RunKeepsGood(Config(), Sender.Init(Config()), trace);
    }

    /** A busy worker's seq is that of a job; Arc does not hold what was not accepted. */
    lemma WorkerJob(n: nat)
      requires Traced() && n in workers
      ensures first <= n < first + |jobs| && (workers[n] == Sender.Posting(false) ==> n !in accepted)
    {
      hide Sender.Runs, Sender.Exec;
      GoodNow();
      assert Sender.InFlight(State(), n);
    }

    lemma NextJob()
      requires Traced() && comm.next in comm.pending
      ensures first <= comm.next < first + |jobs| && tokens > 0
      ensures comm.fault.None? ==> first + |comm.commits| == comm.next
    {
      hide Sender.Runs, Sender.Exec;
      GoodNow();
      assert Sender.InFlight(State(), comm.next);
    }

    lemma InRange()
      requires Traced()
      ensures |comm.commits| <= |jobs| && first <= comm.next <= first + |jobs| && Outstanding() <= k
    {
      hide Sender.Runs, Sender.Exec;
      GoodNow();
    }

    lemma OutstandingBound()
      requires Valid() && pipelined
      ensures 0 <= Outstanding() <= k
    {
      hide Traced;
      InRange();
    }

    lemma NothingOutstanding()
      requires Valid() && pipelined && jobs == []
      ensures Outstanding() == 0
    {
      hide Traced;
      InRange();
    }

    /** Inline, the first refused chunk is one that was not committed. */
    lemma WhyRefused() returns (c: Chunk)
      requires Valid() && !pipelined && Refused()
      ensures c in plan && Fate(net, c) != Committed
    {
      c := tried[|jobs|];
      assert plan[|jobs|] == c;
    }

    lemma Untouched()
      requires Valid()
      ensures store.Elsewhere(key) == others
    {}

    // ---- moves of the workers and the committer ----

    /** Arc stores the payload of a POST in flight. */
    method Accept(n: nat)
      requires Piped() && Clear() && Numbered(plan, first) && n in workers && workers[n] == Sender.Posting(false)
      modifies this`workers, this`arc, this`accepted, this`trace
      ensures Piped() && Clear() && Moved(old(State()), Sender.Accept(n))
    {
      hide Sender.Runs, Sender.Exec, Sender.Clean, CleanTurns, AllFine, Stored, CommitAll, Checkpoint.Store.On;
      WorkerJob(n);
      Sender.RunsOneMore(Config(), Sender.Init(Config()), trace, Sender.Accept(n));
      StoredOneMore(plan, first, accepted, n);
      if Sender.Clean(trace) { Sender.CleanOneMore(trace, Sender.Accept(n)); }
      arc, workers := arc + multiset{(n, jobs[n - first].lp)}, workers[n := Sender.Posting(true)];
      accepted, trace := accepted + {n}, trace + [Sender.Accept(n)];
    }

    /** A POST returns; it cannot succeed unless Arc stored the payload. */
    method Return(n: nat, ok: bool)
      requires Piped() && Clear() && n in workers && workers[n].Posting? && (ok ==> workers[n].landed) && (smooth ==> ok)
      modifies this`workers, this`acked, this`trace
      ensures Moved(old(State()), Sender.Return(n, ok))
      ensures Piped() && Clear()
    {
      hide Sender.Runs, Sender.Exec, Sender.Clean, CleanTurns, AllFine, Stored, CommitAll, Checkpoint.Store.On;
      Sender.RunsOneMore(Config(), Sender.Init(Config()), trace, Sender.Return(n, ok));
      if ok && Sender.Clean(trace) { Sender.CleanOneMore(trace, Sender.Return(n, ok)); }
      workers := workers[n := Sender.Posted(ok)];
      acked, trace := if ok then acked + {n} else acked, trace + [Sender.Return(n, ok)];
    }

    /** A worker puts its result on the channel and is idle again. */
    method Push(n: nat)
      requires Piped() && Clear() && n in workers && workers[n].Posted? && |results| < k
      modifies this`workers, this`results, this`trace
      ensures Piped() && Clear() && Moved(old(State()), Sender.Push(n))
    {
      hide Sender.Runs, Sender.Exec, Sender.Clean, CleanTurns, AllFine, Stored, CommitAll, Checkpoint.Store.On;
      Sender.RunsOneMore(Config(), Sender.Init(Config()), trace, Sender.Push(n));
      if Sender.Clean(trace) { Sender.CleanOneMore(trace, Sender.Push(n)); }
      workers, results := workers - {n}, results + [Sender.Result(n, workers[n].ok)];
      trace := trace + [Sender.Push(n)];
    }

    method Receive()
      requires Piped() && Clear() && results != [] && comm.next !in comm.pending
      modifies this`results, this`trace, comm
      ensures Moved(old(State()), Sender.Receive)
      ensures Piped() && Clear() && comm.next == old(comm.next)
    {
      hide Sender.Runs, Sender.Exec, Sender.Clean, CleanTurns, AllFine, Stored, CommitAll, Checkpoint.Store.On, Sender.TakeResult;
      Sender.RunsOneMore(Config(), Sender.Init(Config()), trace, Sender.Receive);
      if Sender.Clean(trace) { Sender.CleanOneMore(trace, Sender.Receive); }
      comm.Receive(results[0]);
      results, trace := results[1..], trace + [Sender.Receive];
    }

    /** The committer retires the seq of this job, and its token is released. */
    method RetireJob(job: Chunk)
      requires Traced() && Clear() && comm.next in comm.pending && tokens > 0 && job.n == comm.next
      requires comm.fault.None? ==> first + |comm.commits| == comm.next
      requires smooth ==> Taken(comm.net, job)
      modifies this`tokens, this`trace, comm, comm.store
      ensures Traced() && Clear()
      ensures Moved(old(State()), Sender.Retire(Taken(comm.net, job)))
      ensures |old(comm.commits)| <= |comm.commits| <= |old(comm.commits)| + 1
      ensures |comm.commits| > |old(comm.commits)| ==> job.n == first + |old(comm.commits)|
      ensures comm.store.On(comm.key) == if |comm.commits| > |old(comm.commits)|
        then CommitChunk(old(comm.store.On(comm.key)), job, comm.net.rows) else old(comm.store.On(comm.key))
      ensures comm.store.Elsewhere(comm.key) == old(comm.store.Elsewhere(comm.key)) && comm.next >= old(comm.next)
    {
      hide Sender.Runs, Sender.Exec, Sender.Clean, CleanTurns, AllFine, Checkpoint.Store.On, Checkpoint.Store.Elsewhere,
        CommitChunk, Taken, Sender.RetireOne;
      ghost var a := Sender.Retire(Taken(comm.net, job));
      Sender.RunsOneMore(Config(), Sender.Init(Config()), trace, a);
      if smooth && Sender.Clean(trace) { Sender.CleanOneMore(trace, a); }
      comm.RetireNext(job);
      tokens, trace := tokens - 1, trace + [a];
    }

    /** If nothing is going to fail, neither does the commit of this job. */
    lemma TakenIfSmooth(i: nat)
      requires Clear() && smooth && jobs <= plan && i < |jobs|
      ensures Fate(net, jobs[i]) == Committed
    {
      assert plan[i] == jobs[i];
    }

    /** The committer retires the next seq, committing its chunk if every earlier one is. */
    method Retire()
      requires Piped() && Clear() && comm.store == store && comm.key == key && comm.net == net && Numbered(plan, first)
      requires comm.next in comm.pending
      modifies this`tokens, this`trace, comm, store
      ensures Piped() && Clear() && store.Elsewhere(key) == old(store.Elsewhere(key)) && comm.next >= old(comm.next)
      ensures exists b :: Moved(old(State()), Sender.Retire(b))
    {
      hide Traced, Clear, Stored, CommitAll, Checkpoint.Store.On, Checkpoint.Store.Elsewhere, CommitChunk, Taken, Sender.Apply;
      NextJob();
      InRange();
      ghost var n := |comm.commits|;
      var job := jobs[comm.next - first];
      if smooth { FineIsTaken(comm.next - first); }
      RetireJob(job);
      InRange();
      if |comm.commits| > n {
        CommitOneMore(start.disk, plan[..n], job, net.rows);
        assert plan[..n + 1] == plan[..n] + [job];
      }
    }

    lemma FineIsTaken(i: nat)
      requires Clear() && smooth && jobs <= plan && i < |jobs|
      ensures Taken(net, jobs[i])
    {
      TakenIfSmooth(i);
    }

    method Exit()
      requires Piped() && Clear() && !done && (producer.Drained? || producer.Aborted?)
      requires workers == map[] && results == [] && comm.next !in comm.pending
      modifies this`done, this`trace
      ensures Piped() && Clear() && Moved(old(State()), Sender.Exit)
    {
      hide Sender.Runs, Sender.Exec, Sender.Clean, CleanTurns, AllFine, Stored, CommitAll, Checkpoint.Store.On;
      Sender.RunsOneMore(Config(), Sender.Init(Config()), trace, Sender.Exit);
      if Sender.Clean(trace) { Sender.CleanOneMore(trace, Sender.Exit); }
      done, trace := true, trace + [Sender.Exit];
    }

    /** A move of another goroutine, if it is possible now. */
    method Move(a: Sender.Step)
      requires Valid() && pipelined && (smooth ==> !(a.Return? && !a.ok))
      modifies this`workers, this`results, this`arc, this`tokens, this`done, this`accepted, this`acked, this`trace, comm, store
      ensures Valid() && comm.next >= old(comm.next)
    {
      hide Piped, Clear, Checkpoint.Store.Elsewhere, Sender.Apply, Sender.Enabled;
      match a
      case Accept(n) => if n in workers && workers[n] == Sender.Posting(false) { Accept(n); }
      case Return(n, ok) => if n in workers && workers[n].Posting? && (ok ==> workers[n].landed) { Return(n, ok); }
      case Push(n) => if n in workers && workers[n].Posted? && |results| < k { Push(n); }
      case Receive => if results != [] && comm.next !in comm.pending { Receive(); }
      case Retire(_) => if comm.next in comm.pending { Retire(); }
      case Exit =>
        if !done && (producer.Drained? || producer.Aborted?) && |workers| == 0 && results == [] && comm.next !in comm.pending {
          Exit();
        }
      case _ =>
    }

    method NextTurn() returns (t: Turn)
      requires Valid() && pipelined && turns != []
      modifies this`turns
      ensures Valid() && t == old(turns)[0] && turns == old(turns)[1..] && (smooth ==> CleanTurn(t))
    {
      hide Sender.Runs, Sender.Exec, Sender.Clean, AllFine, CleanTurn, Stored, CommitAll, Checkpoint.Store.On, Checkpoint.Store.Elsewhere;
      t, turns := turns[0], turns[1..];
    }

    /** The other goroutines run for a turn. */
    method Others() returns (cancel: bool)
      requires Valid() && pipelined && turns != []
      modifies this`turns, this`workers, this`results, this`arc, this`tokens, this`done, this`accepted, this`acked, this`trace, comm, store
      ensures Valid() && comm.next >= old(comm.next) && turns == old(turns)[1..] && (smooth ==> !cancel)
    {
      hide Valid;
      var t := NextTurn();
      for i := 0 to |t.steps|
        invariant Valid() && comm.next >= old(comm.next) && turns == old(turns)[1..]
      {
        assert t.steps[i] in t.steps;
        Move(t.steps[i]);
      }
      cancel := t.cancel;
    }

    /** In this state the producer can only wait. */
    predicate Waiting()
      reads this
    {
      (producer.Checked? && tokens >= k) || (producer.Holding? && |workers| >= k) || producer.Drained? || producer.Aborted?
    }

    /** While the producer waits for a token or a worker, or for the committer to exit, somebody else can move. */
    lemma SomeoneMoves()
      requires Traced() && comm.next !in comm.pending && results == [] && workers == map[]
      requires Waiting()
      ensures producer.Drained? || producer.Aborted?
    {
      hide Sender.Runs, Sender.Exec;
      GoodNow();
      assert comm.next < first + |jobs| ==> Sender.InFlight(State(), comm.next);
    }

    lemma LeftLowers(s: Sender.State, a: Sender.Step)
      requires Sender.Good(Config(), s) && k >= 1 && Sender.Enabled(Config(), s, a)
      ensures 0 <= Sender.Left(Config(), Sender.Apply(Config(), s, a)) < Sender.Left(Config(), s)
    {
      Sender.StepLowersLeft(Config(), s, a);
    }

    lemma PostIfSmooth(n: nat)
      requires Piped() && Clear() && smooth && Numbered(plan, first) && n in workers
      ensures net.post(n) == Acked
    {
      hide Traced, Clear;
      WorkerJob(n);
      TakenIfSmooth(n - first);
      assert jobs[n - first].n == n;
    }

    /** One move of a worker; its POST does what the network makes of it. */
    method WorkerMoves()
      requires Valid() && pipelined && workers != map[] && results == []
      modifies this`workers, this`results, this`arc, this`accepted, this`acked, this`trace
      ensures Valid()
      ensures exists a :: Moved(old(State()), a)
    {
      hide Piped, Clear, Checkpoint.Store.Elsewhere, Sender.Apply;
      assert workers.Keys != {};
      var n :| n in workers;
      if smooth { PostIfSmooth(n); }
      PipedIsTraced();
      if workers[n].Posted? {
        Push(n);
      } else if !workers[n].landed && net.post(n) != Denied {
        Accept(n);
      } else {
        var ok := workers[n].landed && net.post(n) == Acked;
        Return(n, ok);
      }
    }

    /** One move of somebody else, whoever can. */
    method Fair()
      requires Valid() && pipelined && !done && Waiting()
      modifies this`workers, this`results, this`arc, this`tokens, this`done, this`accepted, this`acked, this`trace, comm, store
      ensures Valid() && comm.next >= old(comm.next)
      ensures exists a :: Moved(old(State()), a)
    {
      hide Piped, Clear, Checkpoint.Store.Elsewhere, Sender.Apply;
      if comm.next in comm.pending {
        Retire();
      } else if results != [] {
        Receive();
      } else if |workers| > 0 {
        WorkerMoves();
      } else {
        PipedIsTraced();
        SomeoneMoves();
        Exit();
      }
    }

    lemma PipedIsTraced()
      requires Piped()
      ensures Traced() && k >= 1
    {}

    /** ... and there is less left to do. */
    method FairLowers()
      requires Valid() && pipelined && !done && Waiting()
      modifies this`workers, this`results, this`arc, this`tokens, this`done, this`accepted, this`acked, this`trace, comm, store
      ensures Valid() && comm.next >= old(comm.next)
      ensures 0 <= Sender.Left(Config(), State()) < old(Sender.Left(Config(), State()))
    {
      hide Piped, Clear, Checkpoint.Store.Elsewhere, Sender.Apply, Sender.Enabled, Sender.Left;
      ghost var s := State();
      PipedIsTraced();
      GoodNow();
      Fair();
      ghost var a :| Moved(s, a);
      LeftLowers(s, a);
    }

    // ---- moves of the producer ----

    method Produce(a: Sender.Step)
      requires Piped() && Clear() && Sender.Enabled(Config(), State(), a)
      requires a.Check? || a.Acquire? || a.Refuse? || a.Cancel? || a.Finish?
      modifies this`producer, this`tokens, this`trace
      ensures Piped() && Clear() && Moved(old(State()), a)
    {
      hide Sender.Runs, Sender.Exec, Sender.Clean, CleanTurns, AllFine, Stored, CommitAll, Checkpoint.Store.On;
      Sender.RunsOneMore(Config(), Sender.Init(Config()), trace, a);
      if !a.Cancel? && Sender.Clean(trace) { Sender.CleanOneMore(trace, a); }
      trace := trace + [a];
      if a.Acquire? {
        tokens := tokens + 1;
      } else if a.Cancel? && producer.Holding? && tokens > 0 {
        tokens := tokens - 1;
      }
      producer := if a.Check? then Sender.Checked else if a.Acquire? then Sender.Holding
                  else if a.Finish? then Sender.Drained else Sender.Aborted;
    }

    method Deliver(job: Chunk)
      requires Piped() && Clear() && producer.Holding? && |workers| < k && jobs + [job] <= plan
      modifies this`jobs, this`workers, this`producer, this`trace
      ensures Piped() && Clear() && jobs == old(jobs) + [job] && producer.Idle?
    {
      hide Sender.Runs, Sender.Exec, Sender.Clean, CleanTurns, AllFine, Stored, CommitAll, Checkpoint.Store.On;
      Sender.RunsOneMore(Config(), Sender.Init(Config()), trace, Sender.Deliver);
      if Sender.Clean(trace) { Sender.CleanOneMore(trace, Sender.Deliver); }
      workers, producer := workers[first + |jobs| := Sender.Posting(false)], Sender.Idle;
      jobs, trace := jobs + [job], trace + [Sender.Deliver];
    }

    predicate CanGo(token: bool)
      reads this
    {
      if token then tokens < k else |workers| < k
    }

    /** Wait for a token, or for an idle worker to take the job; in vain only if the context ends or the process
        dies. */
    method Await(token: bool) returns (ok: bool)
      requires Valid() && pipelined && !done && (if token then producer.Checked? else producer.Holding?)
      modifies this`turns, this`producer, this`workers, this`results, this`arc, this`tokens, this`done, this`accepted, this`acked,
        this`trace, comm, store
      ensures Valid() && comm.next >= old(comm.next)
      ensures if ok then producer == old(producer) && CanGo(token) else !smooth && (crash || producer.Aborted?)
    {
      hide Piped, Clear, Checkpoint.Store.Elsewhere, Sender.Left;
      while turns != []
        invariant Valid() && comm.next >= old(comm.next) && producer == old(producer)
        decreases |turns|
      {
        var cancel := Others();
        if cancel {
          Produce(Sender.Cancel);
          return false;
        }
        if CanGo(token) { return true; }
      }
      if crash {
        CrashIsRough();
        return CanGo(token);
      }
      LeftNow();
      while !CanGo(token)
        invariant Valid() && comm.next >= old(comm.next) && producer == old(producer) && Sender.Left(Config(), State()) >= 0
        decreases Sender.Left(Config(), State())
      {
        NotDoneYet();
        FairLowers();
      }
      ok := true;
    }

    lemma CrashIsRough()
      requires Valid() && pipelined && crash
      ensures !smooth
    {}

    lemma LeftNow()
      requires Valid() && pipelined
      ensures Sender.Left(Config(), State()) >= 0
    {
      GoodNow();
      Sender.LeftIsNat(Config(), State());
    }

    /** The committer does not exit before the producer is done. */
    lemma NotDoneYet()
      requires Valid() && pipelined && (producer.Idle? || producer.Checked? || producer.Holding?)
      ensures !done
    {
      GoodNow();
    }

    // ---- submit and wait ----

    ghost method Attempt(job: Chunk)
      requires Valid() && Open() && tried + [job] <= plan && pipelined
      modifies this`tried
      ensures Valid() && tried == old(tried) + [job]
    {
      hide Sender.Runs, Sender.Exec, Sender.Clean, CleanTurns, AllFine, Stored, CommitAll, Checkpoint.Store.On, Checkpoint.Store.Elsewhere;
      tried := tried + [job];
    }

    /** Behind `takeErr`: wait for a token, then for a worker that takes the job. */
    method Handover(job: Chunk) returns (ok: bool)
      requires Valid() && pipelined && producer.Checked? && tried == jobs + [job]
      modifies this`jobs, this`turns, this`producer, this`workers, this`results, this`arc, this`tokens, this`done, this`accepted,
        this`acked, this`trace, comm, store
      ensures Valid() && comm.next >= old(comm.next)
      ensures jobs == (if ok then tried else old(jobs)) && (if ok then Open() else Refused())
    {
      hide Piped, Clear, Checkpoint.Store.Elsewhere;
      NotDoneYet();
      ok := Await(true);
      if !ok { return; }
      Produce(Sender.Acquire);
      NotDoneYet();
      ok := Await(false);
      if !ok { return; }
      Deliver(job);
    }

    lemma NoError()
      requires Piped() && Clear() && smooth && !producer.Aborted?
      ensures !comm.err
    {
      Sender.CleanHasNoError(Config(), trace);
    }

    method SubmitPiped(job: Chunk) returns (ok: bool)
      requires Valid() && Open() && tried + [job] <= plan && pipelined
      modifies this, comm, store
      ensures Valid() && tried == old(tried) + [job] && jobs == (if ok then tried else old(jobs))
      ensures if ok then Open() else Refused()
      ensures comm.next >= old(comm.next)
    {
      hide Piped, Clear, Checkpoint.Store.Elsewhere;
      Attempt(job);
      if turns != [] { var _ := Others(); }
      if comm.err {
        if smooth { NoError(); }
        Produce(Sender.Refuse);
        return false;
      }
      Produce(Sender.Check);
      ok := Handover(job);
    }

    /** Inline: POST, then commit. */
    method SubmitInline(job: Chunk) returns (ok: bool)
      requires Valid() && Open() && tried + [job] <= plan && !pipelined
      modifies this`arc, this`jobs, this`tried, store
      ensures Valid() && tried == old(tried) + [job] && jobs == (if ok then tried else old(jobs))
      ensures if ok then Open() else Refused()
      ensures ok <==> Fate(net, job) == Committed
      ensures ok <==> net.post(job.n) == Acked && |job.deltas| + 1 < net.faultAt(job.n)
      ensures arc == if net.post(job.n) == Denied then old(arc) else old(arc) + multiset{(job.n, job.lp)}
      ensures store.On(key) ==
        if ok then Checkpoint.CommitOn(old(store.On(key)), job.n, net.rows(job.n), job.cur, job.deltas) else old(store.On(key))
    {
      hide SendInline, Checkpoint.Store.On, Checkpoint.Store.Elsewhere, Checkpoint.CommitOn;
      InlineOneMore(start, plan, Fates(net, tried), Fate(net, job), net.rows);
      assert Fates(net, tried + [job]) == Fates(net, tried) + [Fate(net, job)];
      tried := tried + [job];
      var p := net.post(job.n);
      if p == Denied { return false; }
      arc := arc + multiset{(job.n, job.lp)};
      if p == Unanswered { return false; }
      ok := store.Commit(key, job.n, net.rows(job.n), job.cur, job.deltas, net.faultAt(job.n));
      if ok { jobs := jobs + [job]; }
    }

    /** Hand one chunk over. */
    method Submit(job: Chunk) returns (ok: bool)
      requires Valid() && Open() && tried + [job] <= plan
      modifies this, comm, store
      ensures Valid() && tried == old(tried) + [job] && jobs == (if ok then tried else old(jobs))
      ensures if ok then Open() else Refused()
      ensures comm.next >= old(comm.next)
      ensures !pipelined ==> (ok <==> Fate(net, job) == Committed)
    {
      if pipelined { ok := SubmitPiped(job); } else { ok := SubmitInline(job); }
    }

    /** wait returned nil behind the last submit. */
    ghost predicate Drained()
      reads this, comm
    {
      if pipelined then done && producer.Drained? && !comm.err else tried == plan && Open()
    }

    lemma SmoothDrain()
      requires Piped() && Clear() && smooth && producer.Drained? && done
      ensures !comm.err
    {
      Sender.CleanRunDrains(Config(), trace);
    }

    /** Close the jobs channel and let the others run until the committer has exited, unless the process dies
        first; false if a chunk failed. */
    method Wait(complete: bool) returns (ok: bool)
      requires Valid() && (Open() || Refused()) && (complete ==> Open() && tried == plan)
      modifies this, comm, store
      ensures Valid() && tried == old(tried) && jobs == old(jobs)
      ensures complete && ok ==> Drained()
      ensures complete && smooth ==> ok
      ensures pipelined && !crash ==> done
      ensures !pipelined ==> ok
    {
      hide Piped, Clear, Checkpoint.Store.Elsewhere, Sender.Left;
      if !pipelined { return true; }
      if producer.Idle? {
        NotDoneYet();
        Produce(if complete then Sender.Finish else Sender.Cancel);
      }
      ghost var p := producer;
      while turns != [] && !done
        invariant Valid() && producer == p && tried == old(tried) && jobs == old(jobs)
        decreases |turns|
      {
        var _ := Others();
      }
      LeftNow();
      while !crash && !done
        invariant Valid() && producer == p && tried == old(tried) && jobs == old(jobs) && Sender.Left(Config(), State()) >= 0
        decreases Sender.Left(Config(), State())
      {
        FairLowers();
      }
      if complete && smooth {
        if crash { CrashIsRough(); }
        SmoothDrain();
      }
      ok := done && !comm.err;
    }
  }

  function Inflight(n: int): nat { if n < 1 then 1 else n }

  lemma NothingStored(plan: seq<Chunk>, first: nat)
    ensures Stored(plan, first, {}) == multiset{}
  {}
}
