/** Runs from the empty pool that reach the states in which a tempting property fails. */
module TaskPoolWitnesses {
  import opened Sequences
  import opened TaskPoolModel
  import opened TaskPoolInvariants
  import opened TaskPoolRuns
  import opened TaskPoolLeases
  import opened TaskPoolEffects
  import opened TaskPoolOutcomes

  /** The pool ends some run from the empty pool. */
  ghost predicate Reachable(p: Pool) {
    exists states, steps :: IsRun(states, steps) && states[|states| - 1] == p
  }

  lemma StartReachable()
    ensures Reachable(EmptyPool)
  {
    assert IsRun([EmptyPool], []);
  }

  lemma NextReachable(p: Pool, s: Step)
    requires Reachable(p) && Enabled(p, s)
    ensures Reachable(Apply(p, s))
  {
    var states, steps :| IsRun(states, steps) && states[|states| - 1] == p;
    assert IsRun(states + [Apply(p, s)], steps + [s]);
  }

  lemma ReachableValid(p: Pool)
    requires Reachable(p)
    ensures Valid(p)
  {
    var states, steps :| IsRun(states, steps) && states[|states| - 1] == p;
    RunsStayValid(states, steps, |states| - 1);
  }

  function Work(id: TaskId): Task {
    Task(id, Descriptor("work", None, None, None), None, 0, id + 1, 0, None, false)
  }

  const RUNNER := Claimer(7, "executor", 0, 0, None)

  function FirstLease(id: TaskId): Lease {
    Lease(LeaseId(0, id, 1), id, 1, 7, "executor", 0, 0, None)
  }

  function Stored(id: TaskId): Record {
    Record(Work(id), Ready, None, None, None, 0)
  }

  /** Retention before any task leaves the pool empty. */
  lemma ConfigureEmpty(r: Retention)
    ensures Enabled(EmptyPool, Reconfigure(Some(r), []))
    ensures var p := Apply(EmptyPool, Reconfigure(Some(r), []));
      && p.tasks == map[] && p.evictedIds == {} && p.evictedOrder == [] && p.terminalOrder == [] && p.retention == Some(r)
      && p.waitsByChild == map[] && p.waitsByParent == map[]
  {
    SetSame(ToSet<TaskId>([]), TerminalIds(EmptyPool.tasks));
  }

  lemma EnqueueWork(p: Pool, id: TaskId)
    requires id !in p.tasks && id !in p.evictedIds
    ensures var q := Apply(p, EnqueueTask(Work(id), Some(0)));
      && q.tasks == p.tasks[id := Stored(id)]
      && q == p.(tasks := q.tasks, wireBytes := q.wireBytes, nextSequence := q.nextSequence, stats := q.stats)
  {
  }

  lemma ClaimWork(p: Pool, id: TaskId)
    requires id in p.tasks && p.tasks[id] == Stored(id)
    ensures Enabled(p, ClaimTasks([id], RUNNER))
    ensures var q := Apply(p, ClaimTasks([id], RUNNER));
      && q.tasks == p.tasks[id := ClaimedRecord(Stored(id), FirstLease(id))]
      && q == p.(tasks := q.tasks, stats := q.stats)
  {
    assert [id][..0] == [] && Claim(p, [], RUNNER) == p;
    assert Claim(p, [id], RUNNER) == ClaimOne(p, id, RUNNER);
    assert NewLease(Stored(id), RUNNER) == FirstLease(id);
  }

  lemma Retaining(r: Retention) returns (p: Pool)
    ensures Reachable(p) && p.retention == Some(r) && p.tasks == map[] && p.evictedIds == {} && p.evictedOrder == []
    ensures p.terminalOrder == [] && p.waitsByChild == map[] && p.waitsByParent == map[]
  {
    StartReachable();
    ConfigureEmpty(r);
    NextReachable(EmptyPool, Reconfigure(Some(r), []));
    p := Apply(EmptyPool, Reconfigure(Some(r), []));
  }

  /** Enqueues and claims one more task. */
  lemma AddClaimed(p: Pool, id: TaskId) returns (q: Pool)
    requires Reachable(p) && id !in p.tasks && id !in p.evictedIds
    ensures Reachable(q) && q.tasks == p.tasks[id := ClaimedRecord(Stored(id), FirstLease(id))]
    ensures q == p.(tasks := q.tasks, wireBytes := q.wireBytes, nextSequence := q.nextSequence, stats := q.stats)
  {
    EnqueueWork(p, id);
    NextReachable(p, EnqueueTask(Work(id), Some(0)));
    var stored := Apply(p, EnqueueTask(Work(id), Some(0)));
    ClaimWork(stored, id);
    NextReachable(stored, ClaimTasks([id], RUNNER));
    q := Apply(stored, ClaimTasks([id], RUNNER));
    assert p.tasks[id := Stored(id)][id := ClaimedRecord(Stored(id), FirstLease(id))]
        == p.tasks[id := ClaimedRecord(Stored(id), FirstLease(id))];
  }

  // ---------------------------------------------------------------- a lease that returns

  /** With no history and no horizon, a completed task is forgotten at once. */
  lemma CompleteForgets(p: Pool, id: TaskId)
    requires p.retention == Some(Retention(0, 0)) && p.terminalOrder == [] && p.evictedOrder == []
    requires p.waitsByChild == map[] && p.waitsByParent == map[]
    requires p.tasks == map[id := ClaimedRecord(Stored(id), FirstLease(id))]
    ensures ApplyLeased(p, FirstLease(id), 0, Complete).1 == Done
    ensures var q := ApplyLeased(p, FirstLease(id), 0, Complete).0;
      && q.tasks == map[] && q.evictedIds == {} && q.evictedOrder == [] && q.terminalOrder == []
      && q.retention == p.retention && q.waitsByChild == map[] && q.waitsByParent == map[]
  {
    var moved := SetRecord(p, id, ActionRecord(p.tasks[id], Complete));
    var queued := moved.(terminalOrder := moved.terminalOrder + [id]);
    assert queued.terminalOrder == [id] && Protected(queued) == {};
    assert Omit([id], {}) == [id];
    assert EvictionCount(queued) == 1 && Victims(queued) == [id];
    assert Cut([id], {}, 1) == 1;
    assert Keep([id], {}) == [];
  }

  /**
   A lease that takes effect twice: from a reachable pool its task is completed and forgotten, enqueued
   again under the same id and claimed by the same claimer at the same step.
   */
  lemma ForgottenLeaseReturns(id: TaskId) returns (p: Pool)
    ensures Reachable(p)
    ensures var use, again, claim := Leased(FirstLease(id), 0, Complete), EnqueueTask(Work(id), Some(0)), ClaimTasks([id], RUNNER);
      var q := Apply(Apply(p, use), again);
      && Uses(p, use, FirstLease(id))
      && Enabled(q, claim) && Reissues(q, claim, FirstLease(id))
      && Uses(Apply(q, claim), use, FirstLease(id))
  {
    var empty := Retaining(Retention(0, 0));
    p := AddClaimed(empty, id);
    CompleteForgets(p, id);
    var forgotten := Apply(p, Leased(FirstLease(id), 0, Complete));
    EnqueueWork(forgotten, id);
    var q := Apply(forgotten, EnqueueTask(Work(id), Some(0)));
    ClaimWork(q, id);
    CompleteForgets(Apply(q, ClaimTasks([id], RUNNER)), id);
  }

  // ---------------------------------------------------------------- a history over its limit

  function Waits(parent: TaskId, child: TaskId): Await {
    Await(parent, child, Work(child).descriptor, Some(5))
  }

  lemma AwaitWork(p: Pool, parent: TaskId, child: TaskId)
    requires parent != child && p.waitsByChild == map[] && p.waitsByParent == map[]
    requires p.tasks == map[child := ClaimedRecord(Stored(child), FirstLease(child)),
                            parent := ClaimedRecord(Stored(parent), FirstLease(parent))]
    ensures var q := Apply(p, AwaitTask(FirstLease(parent), 0, Waits(parent, child)));
      && q.waitsByChild == map[child := [Waits(parent, child)]]
      && child in q.tasks && q.tasks[child] == p.tasks[child]
      && parent in q.tasks && q.tasks[parent].status == Waiting
      && q == p.(tasks := q.tasks, stats := q.stats, waitsByChild := q.waitsByChild, waitsByParent := q.waitsByParent)
  {
    assert AwaitsAt(p.waitsByChild, child) + [Waits(parent, child)] == [Waits(parent, child)];
    assert WaitOnTask(p, FirstLease(parent), 0, Waits(parent, child)).1 == Done;
  }

  /** An awaited child stays queued whatever the limit is. */
  lemma CompleteStays(p: Pool, child: TaskId)
    requires p.retention.Some? && p.terminalOrder == [] && child in p.waitsByChild
    requires child in p.tasks && p.tasks[child] == ClaimedRecord(Stored(child), FirstLease(child))
    ensures var q := Apply(p, Leased(FirstLease(child), 0, Complete));
      && q.terminalOrder == [child] && q.waitsByChild == p.waitsByChild && q.retention == p.retention
      && child in q.tasks && q.tasks == p.tasks[child := q.tasks[child]]
  {
    var moved := SetRecord(p, child, ActionRecord(p.tasks[child], Complete));
    var queued := moved.(terminalOrder := moved.terminalOrder + [child]);
    assert queued.terminalOrder == [child];
    assert Omit([child], Protected(queued)) == [];
    assert EvictionCount(queued) == 0 && Victims(queued) == [];
    assert ToSet(Victims(queued)) == {};
    assert [child][..0] == [] && [child][0..] == [child];
  }

  /** A pool whose only finished task is awaited by the other one. */
  lemma OneAwaited(child: TaskId, parent: TaskId) returns (p: Pool)
    requires child != parent
    ensures Reachable(p) && p.retention == Some(Retention(0, 8)) && p.terminalOrder == [child]
    ensures p.waitsByChild == map[child := [Waits(parent, child)]]
    ensures parent in p.tasks && p.tasks[parent].status == Waiting
  {
    var empty := Retaining(Retention(0, 8));
    var one := AddClaimed(empty, child);
    var running := AddClaimed(one, parent);
    AwaitWork(running, parent, child);
    NextReachable(running, AwaitTask(FirstLease(parent), 0, Waits(parent, child)));
    var waiting := Apply(running, AwaitTask(FirstLease(parent), 0, Waits(parent, child)));
    CompleteStays(waiting, child);
    NextReachable(waiting, Leased(FirstLease(child), 0, Complete));
    p := Apply(waiting, Leased(FirstLease(child), 0, Complete));
  }

  /**
   A child completes while another task awaits it, and the parent's timer wakes it before anybody releases
   the child: from a reachable pool, the record stays queued over the limit although nothing protects it.
   */
  lemma WakeCanExceedBound(child: TaskId, parent: TaskId) returns (p: Pool)
    requires child != parent
    ensures Reachable(p) && HistoryBounded(p)
    ensures Wake(p, parent).1 == Done && !HistoryBounded(Wake(p, parent).0)
  {
    p := OneAwaited(child, parent);
    ReachableValid(p);
    assert child in p.terminalOrder;
    WakeKeepsBoundIff(p, parent);
  }

  // ---------------------------------------------------------------- a finish that releases a child

  lemma OnlyParent(p: Pool, child: TaskId, parent: TaskId, x: TaskId)
    requires WaitsOk(p.tasks.Keys, p.waitsByChild, p.waitsByParent)
    requires p.waitsByChild == map[child := [Waits(parent, child)]] && x in p.waitsByParent
    ensures x == parent
  {
    var a := p.waitsByParent[x][0];
    assert a in p.waitsByParent[x] && a in p.waitsByChild[a.child];
  }

  lemma NoAwaitLeft(p: Pool, child: TaskId, parent: TaskId)
    requires WaitsOk(p.tasks.Keys, p.waitsByChild, p.waitsByParent) && parent in p.tasks
    requires p.waitsByChild == map[child := [Waits(parent, child)]]
    ensures Protected(EndedByCore(p, parent, Cancelled)) == {}
  {
    var q := EndedByCore(p, parent, Cancelled);
    assert [Waits(parent, child)][1..] == [];
    assert WithoutParent([Waits(parent, child)], parent) == [];
    assert q.waitsByChild == map[];
    forall x | x in p.waitsByParent ensures x == parent {
      OnlyParent(p, child, parent, x);
    }
  }

  lemma HeadIsMember(s: seq<TaskId>)
    ensures s != [] ==> s[0] in s
  {
  }

  /** With the only await gone, nothing in the queue is protected, so nothing may stay. */
  lemma NothingStays(q: Pool)
    requires HistoryBounded(q) && q.retention == Some(Retention(0, 8)) && Protected(q) == {}
    ensures q.terminalOrder == []
  {
    HeadIsMember(q.terminalOrder);
  }

  lemma NothingProtected(p: Pool, child: TaskId, parent: TaskId)
    requires Valid(p) && p.retention == Some(Retention(0, 8)) && HistoryBounded(p)
    requires p.waitsByChild == map[child := [Waits(parent, child)]] && parent in p.tasks && p.tasks[parent].status == Waiting
    ensures TerminalByCore(p, parent, Cancelled).1 == Done && TerminalByCore(p, parent, Cancelled).0.terminalOrder == []
  {
    FinishBounded(p, parent, Cancelled);
    NoAwaitLeft(p, child, parent);
    assert Protected(TerminalByCore(p, parent, Cancelled).0) == Protected(EndedByCore(p, parent, Cancelled));
    NothingStays(TerminalByCore(p, parent, Cancelled).0);
  }

  /**
   The core ends a waiting parent and the compaction that follows evicts the finished child it awaited:
   from a reachable pool a record disappears that was awaited before, though by nobody else.
   */
  lemma CoreFinishEvictsAwaited(child: TaskId, parent: TaskId) returns (p: Pool)
    requires child != parent
    ensures Reachable(p) && child in p.tasks && child in p.waitsByChild
    ensures TerminalByCore(p, parent, Cancelled).1 == Done
    ensures child !in TerminalByCore(p, parent, Cancelled).0.tasks
  {
    p := OneAwaited(child, parent);
    ReachableValid(p);
    assert child in p.terminalOrder;
    QueuedIsNoParent(p, child);
    assert HistoryBounded(p);
    NothingProtected(p, child, parent);
    CoreFinishLeavesOthers(p, parent, Cancelled, child);
    TerminalByCoreKeeps(p, parent, Cancelled);
    EmptyQueue(TerminalByCore(p, parent, Cancelled).0, child);
  }

  lemma EmptyQueue(p: Pool, id: TaskId)
    requires Valid(p) && p.retention.Some? && p.terminalOrder == []
    ensures id in p.tasks ==> !IsTerminal(p.tasks[id].status)
  {
    assert id !in ToSet(p.terminalOrder);
  }
}
