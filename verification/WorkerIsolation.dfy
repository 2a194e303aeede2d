/**
 Isolation and replacement of pool workers. The actor isolates workers and replaces the ones that
 report their exit; the workers look at the isolated set after each dispatch. Channels stay connected
 and threads can be spawned.
 */
module WorkerIsolation {
  import opened Sequences

  type WorkerId = nat

  /** A thread that is still counted, one that took itself off the count, one whose exit message is out. */
  datatype Worker = Serving | Uncounted | Reported

  datatype Pool = Pool(
    threads: nat, maxIsolated: nat, queueCapacity: nat,
    workers: map<WorkerId, Worker>, isolated: set<WorkerId>, degraded: bool,
    activeThreads: int, nextWorker: WorkerId)

  datatype Step =
    | Isolate(w: WorkerId)
    | LeaveCount(w: WorkerId)
    | ReportExit(w: WorkerId)
    | Replace(w: WorkerId)

  function Workers(n: nat): map<WorkerId, Worker> {
    map w | w in FirstN(n) :: Serving
  }

  /** A fresh pool; the configured cap on isolation is cut to the number of threads. */
  function Create(threads: nat, queueCapacity: nat, maxBytes: nat, maxIsolated: nat): Option<Pool> {
    if threads == 0 || queueCapacity == 0 || maxBytes == 0 || maxIsolated == 0 then None
    else Some(Pool(threads, Min(maxIsolated, threads), queueCapacity, Workers(threads), {}, false, threads, threads))
  }

  /** Marks a worker as isolated unless the cap is reached; either way the flag follows the set. */
  function IsolateWorker(p: Pool, w: WorkerId): (Pool, bool) {
    if w in p.isolated then (p, true)
    else if |p.isolated| >= p.maxIsolated then (p.(degraded := true), false)
    else
      var isolated := p.isolated + {w};
      (p.(isolated := isolated, degraded := p.degraded || |isolated| >= p.maxIsolated), true)
  }

  function SpawnWorker(p: Pool): Pool {
    p.(workers := p.workers[p.nextWorker := Serving], activeThreads := p.activeThreads + 1, nextWorker := p.nextWorker + 1)
  }

  /** Handles an exit message: an isolated worker is forgotten and a new thread takes its place. */
  function ReplaceExited(p: Pool, w: WorkerId): Pool {
    if w !in p.isolated then p
    else
      var isolated := p.isolated - {w};
      SpawnWorker(p.(workers := p.workers - {w}, isolated := isolated, degraded := |isolated| >= p.maxIsolated))
  }

  function AvailableSlots(p: Pool, queued: nat): int {
    if p.degraded || p.activeThreads == 0 then 0 else Max(0, p.queueCapacity - queued)
  }

  /** The capacity snapshot shown to the scheduler. */
  function ReportedThreads(p: Pool): int {
    Max(0, p.activeThreads - |p.isolated|)
  }

  /**
   The actor isolates workers that it knows to exist: a worker's start and completion messages precede
   its exit message in the mailbox, so no running batch names a worker that has been replaced.
   */
  predicate Enabled(p: Pool, s: Step) {
    match s
    case Isolate(w) => w in p.workers
    case LeaveCount(w) => w in p.workers && p.workers[w].Serving? && w in p.isolated
    case ReportExit(w) => w in p.workers && p.workers[w].Uncounted?
    case Replace(w) => w in p.workers && p.workers[w].Reported?
  }

  function Apply(p: Pool, s: Step): Pool
    requires Enabled(p, s)
  {
    match s
    case Isolate(w) => IsolateWorker(p, w).0
    case LeaveCount(w) => p.(workers := p.workers[w := Uncounted], activeThreads := p.activeThreads - 1)
    case ReportExit(w) => p.(workers := p.workers[w := Reported])
    case Replace(w) => ReplaceExited(p, w)
  }

  function ServingIds(p: Pool): set<WorkerId> {
    set w | w in p.workers && p.workers[w].Serving?
  }

  /** Exited, or about to, and not yet replaced. */
  function ExitedIds(p: Pool): set<WorkerId> {
    set w | w in p.workers && !p.workers[w].Serving?
  }

  /** Threads that will take another dispatch and stay. */
  function HealthyIds(p: Pool): set<WorkerId> {
    ServingIds(p) - p.isolated
  }

  ghost predicate Inv(p: Pool) {
    && 0 < p.maxIsolated <= p.threads
    && |p.workers.Keys| == p.threads
    && (forall w :: w in p.workers ==> w < p.nextWorker)
    && p.isolated <= p.workers.Keys
    && ExitedIds(p) <= p.isolated
    && p.activeThreads == |ServingIds(p)|
    && |p.isolated| <= p.maxIsolated
    && (p.degraded <==> |p.isolated| >= p.maxIsolated)
  }

  lemma Split(p: Pool)
    requires |p.workers.Keys| == p.threads
    ensures |ServingIds(p)| + |ExitedIds(p)| == p.threads
  {
    SetSame(ServingIds(p) + ExitedIds(p), p.workers.Keys);
    SetSame(ServingIds(p) * ExitedIds(p), {});
  }

  lemma CreateInv(threads: nat, queueCapacity: nat, maxBytes: nat, maxIsolated: nat)
    requires Create(threads, queueCapacity, maxBytes, maxIsolated).Some?
    ensures Inv(Create(threads, queueCapacity, maxBytes, maxIsolated).value)
  {
    var p := Create(threads, queueCapacity, maxBytes, maxIsolated).value;
    FirstIds(threads);
    SetSame(p.workers.Keys, FirstN(threads));
    SetSame(ServingIds(p), p.workers.Keys);
    SetSame(ExitedIds(p), {});
  }

  function FirstN(n: nat): set<WorkerId> {
    if n == 0 then {} else FirstN(n - 1) + {n - 1}
  }

  lemma {:induction false} FirstMember(n: nat, w: WorkerId)
    ensures w in FirstN(n) <==> w < n
  {
    if n > 0 {
      FirstMember(n - 1, w);
    }
  }

  lemma {:induction false} FirstIds(n: nat)
    ensures |FirstN(n)| == n
    ensures forall w: WorkerId :: w in FirstN(n) <==> w < n
  {
    forall w: WorkerId ensures w in FirstN(n) <==> w < n {
      FirstMember(n, w);
    }
    if n > 0 {
      FirstIds(n - 1);
      FirstMember(n - 1, n - 1);
    }
  }

  lemma IsolateKeeps(p: Pool, w: WorkerId)
    requires Inv(p) && w in p.workers
    ensures Inv(IsolateWorker(p, w).0)
  {
  }

  lemma LeaveKeeps(p: Pool, w: WorkerId)
    requires Inv(p) && Enabled(p, LeaveCount(w))
    ensures Inv(Apply(p, LeaveCount(w)))
  {
    var p' := Apply(p, LeaveCount(w));
    SetSame(p'.workers.Keys, p.workers.Keys);
    SetInserted(ServingIds(p'), ServingIds(p), w);
    SetSame(ExitedIds(p'), ExitedIds(p) + {w});
  }

  lemma ReportKeeps(p: Pool, w: WorkerId)
    requires Inv(p) && Enabled(p, ReportExit(w))
    ensures Inv(Apply(p, ReportExit(w)))
  {
    var p' := Apply(p, ReportExit(w));
    SetSame(p'.workers.Keys, p.workers.Keys);
    SetSame(ServingIds(p'), ServingIds(p));
    SetSame(ExitedIds(p'), ExitedIds(p));
  }

  lemma ReplaceKeeps(p: Pool, w: WorkerId)
    requires Inv(p) && Enabled(p, Replace(w))
    ensures Inv(Apply(p, Replace(w)))
  {
    var p' := Apply(p, Replace(w));
    assert w in ExitedIds(p);
    var kept := p.workers.Keys - {w};
    assert p.nextWorker !in kept;
    SetSame(p'.workers.Keys, kept + {p.nextWorker});
    assert |kept| == p.threads - 1;
    assert |kept + {p.nextWorker}| == p.threads;
    SetInserted(ServingIds(p), ServingIds(p'), p.nextWorker);
    SetSame(ExitedIds(p'), ExitedIds(p) - {w});
    assert |p.isolated - {w}| == |p.isolated| - 1;
  }

  lemma StepKeeps(p: Pool, s: Step)
    requires Inv(p) && Enabled(p, s)
    ensures Inv(Apply(p, s))
  {
    match s
    case Isolate(w) => IsolateKeeps(p, w);
    case LeaveCount(w) => LeaveKeeps(p, w);
    case ReportExit(w) => ReportKeeps(p, w);
    case Replace(w) => ReplaceKeeps(p, w);
  }

  ghost predicate IsRun(states: seq<Pool>, steps: seq<Step>) {
    && |states| == |steps| + 1
    && (exists threads: nat, capacity: nat, bytes: nat, cap: nat :: Create(threads, capacity, bytes, cap) == Some(states[0]))
    && forall i :: 0 <= i < |steps| ==> Enabled(states[i], steps[i]) && states[i + 1] == Apply(states[i], steps[i])
  }

  /**
   In every run the pool is degraded exactly when the isolated set has reached its cap, and the
   serving threads plus the exited ones awaiting replacement are the configured threads.
   */
  lemma {:induction false} ThreadsAreConserved(states: seq<Pool>, steps: seq<Step>, i: nat)
    requires IsRun(states, steps) && i < |states|
    ensures Inv(states[i])
    ensures states[i].degraded <==> |states[i].isolated| >= states[i].maxIsolated
    ensures |ServingIds(states[i])| + |ExitedIds(states[i])| == states[i].threads
    ensures states[i].activeThreads == |ServingIds(states[i])|
  {
    if i == 0 {
      var threads: nat, capacity: nat, bytes: nat, cap: nat :| Create(threads, capacity, bytes, cap) == Some(states[0]);
      CreateInv(threads, capacity, bytes, cap);
    } else {
      ThreadsAreConserved(states, steps, i - 1);
      StepKeeps(states[i - 1], steps[i - 1]);
    }
    Split(states[i]);
  }

  lemma HealthyCount(p: Pool)
    requires Inv(p)
    ensures |HealthyIds(p)| == p.threads - |p.isolated|
  {
    SetSame(HealthyIds(p), p.workers.Keys - p.isolated);
    assert |p.workers.Keys - p.isolated| == |p.workers.Keys| - |p.isolated|;
  }

  /**
   Isolating a worker succeeds exactly when it is already isolated or the cap leaves room. It adds that
   worker and no other to the isolated set and touches no thread.
   */
  lemma IsolateReaches(p: Pool, w: WorkerId)
    requires Inv(p) && w in p.workers
    ensures var (q, done) := IsolateWorker(p, w);
      && (done <==> w in p.isolated || |p.isolated| < p.maxIsolated)
      && (forall x :: x in q.isolated <==> x in p.isolated || (x == w && done))
      && (q.degraded <==> |q.isolated| == p.maxIsolated)
      && q.workers == p.workers && HealthyIds(q) == HealthyIds(p) - (if done then {w} else {})
  {
  }

  /**
   Handling an exit forgets that worker, keeps all others, lets one new thread serve, and opens a
   degraded pool again; the healthy threads are one more.
   */
  lemma ReplaceReaches(p: Pool, w: WorkerId)
    requires Inv(p) && Enabled(p, Replace(w))
    ensures var q := Apply(p, Replace(w));
      && w !in q.workers && q.isolated == p.isolated - {w} && !q.degraded
      && (forall x :: x in p.workers && x != w ==> x in q.workers && q.workers[x] == p.workers[x])
      && (exists x :: x !in p.workers && q.workers.Keys == p.workers.Keys - {w} + {x} && x in HealthyIds(q))
      && |HealthyIds(q)| == |HealthyIds(p)| + 1
  {
    var q := Apply(p, Replace(w));
    ReplaceKeeps(p, w);
    HealthyCount(p);
    HealthyCount(q);
    assert w in ExitedIds(p);
    assert |p.isolated - {w}| == |p.isolated| - 1;
    assert p.nextWorker !in p.workers && q.workers.Keys == p.workers.Keys - {w} + {p.nextWorker};
  }

  /** An isolated worker can leave, report its exit and be replaced, in that order and in no other. */
  lemma IsolatedGetsReplaced(p: Pool, w: WorkerId)
    requires Inv(p) && w in p.isolated && p.workers[w].Serving?
    ensures Enabled(p, LeaveCount(w)) && !Enabled(p, ReportExit(w)) && !Enabled(p, Replace(w))
    ensures var left := Apply(p, LeaveCount(w));
      && Enabled(left, ReportExit(w)) && !Enabled(left, LeaveCount(w)) && !Enabled(left, Replace(w))
      && var reported := Apply(left, ReportExit(w));
      && Enabled(reported, Replace(w)) && !Enabled(reported, LeaveCount(w)) && !Enabled(reported, ReportExit(w))
      && w !in Apply(reported, Replace(w)).workers && |Apply(reported, Replace(w)).workers.Keys| == p.threads
  {
    LeaveKeeps(p, w);
    var left := Apply(p, LeaveCount(w));
    ReportKeeps(left, w);
    ReplaceReaches(Apply(left, ReportExit(w)), w);
    ReplaceKeeps(Apply(left, ReportExit(w)), w);
  }

  /**
   Whenever the pool offers a slot, a thread that is not isolated is there to serve it; the slots are
   the free places of the queue, and none while the pool is degraded.
   */
  lemma SlotsMeanHealthyWorker(states: seq<Pool>, steps: seq<Step>, i: nat, queued: nat)
    requires IsRun(states, steps) && i < |states|
    ensures AvailableSlots(states[i], queued) > 0 ==> HealthyIds(states[i]) != {}
    ensures AvailableSlots(states[i], queued) ==
            if states[i].degraded || queued >= states[i].queueCapacity then 0 else states[i].queueCapacity - queued
  {
    ThreadsAreConserved(states, steps, i);
    HealthyCount(states[i]);
    Split(states[i]);
    var p := states[i];
    if !p.degraded {
      assert |HealthyIds(p)| > 0;
      assert HealthyIds(p) <= ServingIds(p);
      SubsetCount(HealthyIds(p), ServingIds(p));
    }
  }

  lemma SubsetCount(a: set<WorkerId>, b: set<WorkerId>)
    requires a <= b
    ensures |a| <= |b|
  {
    assert |b| == |a| + |b - a| by { assert b == a + (b - a); }
  }

  /**
   The snapshot counts an exited worker against the pool twice, once as inactive and once as isolated:
   it reports the healthy threads exactly when no exit awaits its replacement, and too few otherwise,
   unless no thread is healthy.
   */
  lemma SnapshotUndercounts(states: seq<Pool>, steps: seq<Step>, i: nat)
    requires IsRun(states, steps) && i < |states|
    ensures ReportedThreads(states[i]) == Max(0, |HealthyIds(states[i])| - |ExitedIds(states[i])|)
    ensures ReportedThreads(states[i]) == |HealthyIds(states[i])| <==> ExitedIds(states[i]) == {} || HealthyIds(states[i]) == {}
  {
    ThreadsAreConserved(states, steps, i);
    HealthyCount(states[i]);
  }

  /** Every pool of two or more threads reports one too few once a worker was isolated and has left. */
  lemma SnapshotMissesAWorker(threads: nat, queueCapacity: nat, maxBytes: nat, maxIsolated: nat)
    returns (states: seq<Pool>, steps: seq<Step>)
    requires threads >= 2 && queueCapacity > 0 && maxBytes > 0 && maxIsolated > 0
    ensures IsRun(states, steps)
    ensures var p := states[|states| - 1];
      && p.threads == threads && ExitedIds(p) == {0}
      && |HealthyIds(p)| == threads - 1 && ReportedThreads(p) == threads - 2
  {
    var p := Create(threads, queueCapacity, maxBytes, maxIsolated).value;
    FirstIds(threads);
    var isolated := Apply(p, Isolate(0));
    var left := Apply(isolated, LeaveCount(0));
    states, steps := [p, isolated, left], [Isolate(0), LeaveCount(0)];
    assert Create(threads, queueCapacity, maxBytes, maxIsolated) == Some(states[0]);
    SetSame(ExitedIds(left), {0});
    ThreadsAreConserved(states, steps, 2);
    HealthyCount(left);
  }

  // ---------------------------------------------------------------- the actor's side in place

  /** The fields the actor changes; the workers' own steps are those of the machine above. */
  class WorkerPool {
    const threads: nat
    const maxIsolated: nat
    const queueCapacity: nat
    var workers: map<WorkerId, Worker>
    var isolated: set<WorkerId>
    var degraded: bool
    var activeThreads: int
    var nextWorker: WorkerId

    ghost function Model(): Pool
      reads this
    {
      Pool(threads, maxIsolated, queueCapacity, workers, isolated, degraded, activeThreads, nextWorker)
    }

    /** Refuses a pool without threads, queue, byte budget or room for isolation. */
    static method Open(threads: nat, queueCapacity: nat, maxBytes: nat, maxIsolated: nat) returns (pool: Option<WorkerPool>)
      ensures pool.Some? <==> threads > 0 && queueCapacity > 0 && maxBytes > 0 && maxIsolated > 0
      ensures pool.Some? ==> fresh(pool.value) && Inv(pool.value.Model())
      ensures (if pool.Some? then Some(pool.value.Model()) else None) == Create(threads, queueCapacity, maxBytes, maxIsolated)
    {
      if threads == 0 || queueCapacity == 0 || maxBytes == 0 || maxIsolated == 0 {
        return None;
      }
      var created := new WorkerPool(threads, queueCapacity, maxBytes, maxIsolated);
      return Some(created);
    }

    constructor (threads: nat, queueCapacity: nat, maxBytes: nat, maxIsolated: nat)
      requires threads > 0 && queueCapacity > 0 && maxBytes > 0 && maxIsolated > 0
      ensures Some(Model()) == Create(threads, queueCapacity, maxBytes, maxIsolated) && Inv(Model())
    {
      this.threads, this.maxIsolated, this.queueCapacity := threads, Min(maxIsolated, threads), queueCapacity;
      workers, isolated, degraded, activeThreads, nextWorker := map[], {}, false, 0, 0;
      new;
      FirstIds(threads);
      for n := 0 to threads
        invariant isolated == {} && !degraded && activeThreads == n && nextWorker == n
        invariant workers == Workers(n)
      {
        SpawnThread();
        assert FirstN(n + 1) == FirstN(n) + {n};
      }
      CreateInv(threads, queueCapacity, maxBytes, maxIsolated);
    }

    method SpawnThread()
      modifies this`workers, this`activeThreads, this`nextWorker
      ensures Model() == SpawnWorker(old(Model()))
    {
      workers := workers[nextWorker := Serving];
      activeThreads := activeThreads + 1;
      nextWorker := nextWorker + 1;
    }

    method IsolateThread(w: WorkerId) returns (done: bool)
      modifies this`isolated, this`degraded
      ensures (Model(), done) == IsolateWorker(old(Model()), w)
      ensures old(Inv(Model())) && w in workers ==> Inv(Model())
    {
      if Inv(Model()) && w in workers {
        IsolateKeeps(Model(), w);
      }
      if w in isolated {
        return true;
      }
      if |isolated| >= maxIsolated {
        degraded := true;
        return false;
      }
      isolated := isolated + {w};
      if |isolated| >= maxIsolated {
        degraded := true;
      }
      return true;
    }

    method ReplaceExitedThread(w: WorkerId)
      modifies this
      ensures Model() == ReplaceExited(old(Model()), w)
      ensures old(Inv(Model()) && Enabled(Model(), Replace(w))) ==> Inv(Model())
    {
      if Inv(Model()) && Enabled(Model(), Replace(w)) {
        ReplaceKeeps(Model(), w);
      }
      if w !in isolated {
        return;
      }
      isolated := isolated - {w};
      workers := workers - {w};
      degraded := |isolated| >= maxIsolated;
      SpawnThread();
    }
  }
}
