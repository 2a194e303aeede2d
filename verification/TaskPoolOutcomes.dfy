/** What the operations that need no lease do to the tasks they name: the exact record left and the exact refusals. */
module TaskPoolOutcomes {
  import opened Sequences
  import opened TaskPoolModel
  import opened TaskPoolInvariants
  import opened TaskPoolRuns
  import opened TaskPoolEffects

  /** No recorded await has this parent. */
  ghost predicate WaitsForNobody(p: Pool, id: TaskId) {
    id !in p.waitsByParent && forall c, a :: c in p.waitsByChild && a in p.waitsByChild[c] ==> a.parent != id
  }

  /**
   As `OnlyEvicts`, when the awaits of `parent` are released on the way: what disappears had finished and
   was awaited by nobody else.
   */
  ghost predicate OnlyEvictsBut(p: Pool, p': Pool, id: TaskId, parent: TaskId) {
    && (id in p'.tasks ==> id in p.tasks && p'.tasks[id] == p.tasks[id])
    && (id in p.tasks && id !in p'.tasks ==>
          && IsTerminal(p.tasks[id].status) && id !in p.waitsByParent
          && (id in p.waitsByChild ==> forall a :: a in p.waitsByChild[id] ==> a.parent == parent))
  }

  // ---------------------------------------------------------------- finished by the core

  /** The pool in which the core has ended a task that has not entered the history. */
  function EndedByCore(p: Pool, id: TaskId, status: Status): Pool
    requires id in p.tasks
  {
    RemoveWaitsForParent(SetRecord(p, id, Finished(p.tasks[id], status)), id)
  }

  lemma EndedByCoreKeeps(p: Pool, id: TaskId, status: Status)
    requires Valid(p) && id in p.tasks && !IsTerminal(p.tasks[id].status) && IsTerminal(status)
    ensures Inv(EndedByCore(p, id, status), {id}, {})
  {
    ReleasedOk(id, p.tasks[id], status);
    EndKeeps(p, id, Finished(p.tasks[id], status), {id});
    RemoveParentKeeps(SetRecord(p, id, Finished(p.tasks[id], status)), id, {id}, {id});
    SetSame({id} - {id}, {});
  }

  ghost predicate Queues(p: Pool, pending: set<TaskId>) {
    HistoryOk(TerminalIds(p.tasks), p.terminalOrder, p.retention.Some?, pending)
  }

  lemma EndedByCoreQueues(p: Pool, id: TaskId, status: Status)
    requires Valid(p) && id in p.tasks && !IsTerminal(p.tasks[id].status) && IsTerminal(status)
    ensures Queues(EndedByCore(p, id, status), {id})
  {
    EndedByCoreKeeps(p, id, status);
  }

  lemma UnlinkedWaitsForNobody(byChild: Waits, parent: TaskId, c: TaskId, a: Await)
    requires c in UnlinkParent(byChild, parent) && a in UnlinkParent(byChild, parent)[c]
    ensures a.parent != parent
  {
    WithoutParentMembers(byChild[c], parent);
  }

  /**
   The core ends a task exactly when it is stored and not terminal; while it is stored its record then has
   the status asked for and neither lease, claimer nor owner, and it waits for nobody.
   */
  lemma CoreFinishEffect(p: Pool, id: TaskId, status: Status)
    requires IsTerminal(status)
    ensures var (p', reply) := TerminalByCore(p, id, status);
      && (reply == Done <==> id in p.tasks && !IsTerminal(p.tasks[id].status))
      && (reply != Done ==> p' == p)
      && (reply == Done && id in p'.tasks ==>
            p'.tasks[id] == Record(p.tasks[id].task, status, None, None, None, p.tasks[id].attempt))
      && (reply == Done ==> WaitsForNobody(p', id))
  {
    var p' := TerminalByCore(p, id, status).0;
    if TerminalByCore(p, id, status).1 == Done {
      forall c, a | c in p'.waitsByChild && a in p'.waitsByChild[c] ensures a.parent != id {
        UnlinkedWaitsForNobody(p.waitsByChild, id, c, a);
      }
    }
  }

  /** Which tasks are still awaited once the awaits of one parent are gone. */
  lemma UnlinkProtects(byChild: Waits, parent: TaskId, id: TaskId)
    ensures id in byChild && id !in UnlinkParent(byChild, parent) ==> forall a :: a in byChild[id] ==> a.parent == parent
  {
    if id in byChild {
      WithoutParentMembers(byChild[id], parent);
    }
  }

  lemma EndedByCoreOthers(p: Pool, id: TaskId, status: Status, other: TaskId)
    requires ParentsWaiting(p.tasks, p.waitsByParent, {}) && id in p.tasks && other != id
    requires Queues(EndedByCore(p, id, status), {id})
    ensures OnlyEvictsBut(p, RecordTerminal(EndedByCore(p, id, status), id), other, id)
  {
    RecordTerminalOnlyEvicts(EndedByCore(p, id, status), id, other);
    UnlinkProtects(p.waitsByChild, id, other);
  }

  /** Every other record stays, unless it had finished and was awaited by nobody but the ended task. */
  lemma CoreFinishLeavesOthers(p: Pool, id: TaskId, status: Status, other: TaskId)
    requires Valid(p) && IsTerminal(status) && TerminalByCore(p, id, status).1 == Done && other != id
    ensures OnlyEvictsBut(p, TerminalByCore(p, id, status).0, other, id)
  {
    EndedByCoreQueues(p, id, status);
    EndedByCoreOthers(p, id, status, other);
  }

  // ---------------------------------------------------------------- rejected while ready

  lemma RejectEffect(p: Pool, id: TaskId)
    requires RecordsOk(p.tasks)
    ensures var (p', reply) := RejectReady(p, id);
      && (reply == Done <==> id in p.tasks && p.tasks[id].status == Ready)
      && (reply != Done ==> p' == p)
      && (reply == Done && id in p'.tasks ==>
            p'.tasks[id] == Record(p.tasks[id].task, Failed, None, p.tasks[id].ownerRunner, None, p.tasks[id].attempt))
  {
    if RejectReady(p, id).1 == Done {
      assert RecordOk(id, p.tasks[id]);
    }
  }

  lemma RejectedQueues(p: Pool, id: TaskId)
    requires Valid(p) && id in p.tasks && p.tasks[id].status == Ready
    ensures Queues(SetRecord(p, id, p.tasks[id].(status := Failed)), {id})
  {
    RunningIsNoParent(p, id);
    EndKeeps(p, id, p.tasks[id].(status := Failed), {});
  }

  lemma RejectLeavesOthers(p: Pool, id: TaskId, other: TaskId)
    requires Valid(p) && RejectReady(p, id).1 == Done && other != id
    ensures OnlyEvicts(p, RejectReady(p, id).0, other)
  {
    RejectedQueues(p, id);
    RecordTerminalOnlyEvicts(SetRecord(p, id, p.tasks[id].(status := Failed)), id, other);
  }

  // ---------------------------------------------------------------- back to ready

  /** A running task in the list is ready again without lease and claimer; nothing else in the pool's tables changes. */
  lemma {:induction false} ReclaimEffect(p: Pool, ids: seq<TaskId>, id: TaskId)
    ensures var p' := ReclaimAll(p, ids);
      && (id in p'.tasks <==> id in p.tasks)
      && (id in p.tasks ==>
            p'.tasks[id] == if id in ids && p.tasks[id].status == Running
                            then p.tasks[id].(status := Ready, lease := None, claimedBy := None) else p.tasks[id])
      && p'.waitsByChild == p.waitsByChild && p'.waitsByParent == p.waitsByParent && p'.wireBytes == p.wireBytes
      && p'.terminalOrder == p.terminalOrder && p'.evictedOrder == p.evictedOrder && p'.evictedIds == p.evictedIds
  {
    if ids != [] {
      var front, last := ids[..|ids| - 1], ids[|ids| - 1];
      ReclaimEffect(p, front, id);
      assert id in ids <==> id in front || id == last;
    }
  }

  /** Every waiting or blocked task in the list is ready, without lease and claimer; other records stay. */
  lemma {:induction false} WakeAllEffect(p: Pool, ids: seq<TaskId>, id: TaskId)
    ensures var p' := WakeAll(p, ids);
      && (id in p'.tasks <==> id in p.tasks)
      && (id in p.tasks ==>
            p'.tasks[id] == if id in ids && (p.tasks[id].status == Waiting || p.tasks[id].status == Blocked)
                            then p.tasks[id].(status := Ready, lease := None, claimedBy := None) else p.tasks[id])
  {
    if ids != [] {
      var front, last := ids[..|ids| - 1], ids[|ids| - 1];
      WakeAllEffect(p, front, id);
      assert id in ids <==> id in front || id == last;
    }
  }

  lemma WakeDoneIff(p: Pool, id: TaskId)
    ensures Wake(p, id).1 == Done <==> id in p.tasks && (p.tasks[id].status == Waiting || p.tasks[id].status == Blocked)
    ensures Wake(p, id).1 != Done ==> Wake(p, id).0 == p
  {
  }

  // ---------------------------------------------------------------- claims

  /** The whole record of a claimed task, and that a claim touches no other and no table beside the records. */
  lemma {:induction false} ClaimEffect(p: Pool, ids: seq<TaskId>, claimer: Claimer, id: TaskId)
    requires NoDup(ids) && forall x :: x in ids ==> x in p.tasks
    ensures var p' := Claim(p, ids, claimer);
      && (id in p'.tasks <==> id in p.tasks)
      && (id in p.tasks && id in ids ==>
            var attempt := p.tasks[id].attempt + 1;
            var owned := p.tasks[id].task.id;
            p'.tasks[id] == Record(
              p.tasks[id].task, Running, Some(claimer.runner), Some(claimer.runner),
              Some(Lease(LeaseId(claimer.step, owned, attempt), owned, attempt, claimer.runner, claimer.executor,
                         claimer.generation, claimer.step, claimer.expiresAt)),
              attempt))
      && (id in p.tasks && id !in ids ==> p'.tasks[id] == p.tasks[id])
      && p'.waitsByChild == p.waitsByChild && p'.waitsByParent == p.waitsByParent && p'.wireBytes == p.wireBytes
      && p'.terminalOrder == p.terminalOrder && p'.evictedOrder == p.evictedOrder && p'.evictedIds == p.evictedIds
  {
    if ids != [] {
      var front, last := ids[..|ids| - 1], ids[|ids| - 1];
      assert forall x :: x in front ==> x in ids;
      ClaimEffect(p, front, claimer, id);
      assert last !in front && last in ids;
      assert id in ids <==> id in front || id == last;
    }
  }

  // ---------------------------------------------------------------- awaits

  /** The exact conditions under which an await is accepted. */
  lemma WaitAcceptedIff(p: Pool, lease: Lease, step: nat, a: Await)
    requires RecordsOk(p.tasks)
    ensures WaitOnTask(p, lease, step, a).1 == Done <==>
      && a.parent == lease.taskId && a.parent in p.tasks && p.tasks[a.parent].lease == Some(lease)
      && (lease.expiresAt.Some? ==> step < lease.expiresAt.value)
      && a.child in p.tasks && p.tasks[a.child].status !in {Completed, Failed, Cancelled, Expired, DeadLetter}
      && a.handle == p.tasks[a.child].task.descriptor
      && p.tasks[a.child].task.descriptor.trace == p.tasks[a.parent].task.descriptor.trace
      && p.tasks[a.child].task.descriptor.correlation == p.tasks[a.parent].task.descriptor.correlation
    ensures WaitOnTask(p, lease, step, a).1 != Done ==> WaitOnTask(p, lease, step, a).0 == p
  {
    if a.parent in p.tasks {
      assert RecordOk(a.parent, p.tasks[a.parent]);
    }
  }

  /** Releasing a child removes exactly the awaits on it; of the records only finished ones go that nobody else awaits. */
  lemma TakeWaitsEffect(p: Pool, child: TaskId, c: TaskId, a: Await)
    requires Valid(p)
    ensures var p' := TakeWaitsForChild(p, child);
      && (c in p'.waitsByChild && a in p'.waitsByChild[c] <==> c in p.waitsByChild && a in p.waitsByChild[c] && c != child)
      && (c in p'.tasks ==> c in p.tasks && p'.tasks[c] == p.tasks[c])
      && (c in p.tasks && c !in p'.tasks ==> IsTerminal(p.tasks[c].status) && (c == child || c !in p.waitsByChild))
  {
    TakenWaits(p, child, c, a);
    ReleasedRecords(p, child, c);
  }

  lemma TakenWaits(p: Pool, child: TaskId, c: TaskId, a: Await)
    ensures var p' := TakeWaitsForChild(p, child);
      c in p'.waitsByChild && a in p'.waitsByChild[c] <==> c in p.waitsByChild && a in p.waitsByChild[c] && c != child
  {
  }

  lemma ReleasedRecords(p: Pool, child: TaskId, c: TaskId)
    requires Queues(p, {})
    ensures var p' := TakeWaitsForChild(p, child);
      && (c in p'.tasks ==> c in p.tasks && p'.tasks[c] == p.tasks[c])
      && (c in p.tasks && c !in p'.tasks ==> IsTerminal(p.tasks[c].status) && (c == child || c !in p.waitsByChild))
  {
    CompactOnlyEvicts(RemoveWaitsForChild(p, child), {}, c);
  }

  // ---------------------------------------------------------------- horizon and retention

  /** `kept` is what is left of `all` when the last `n` are remembered: the oldest go first, only for want of room. */
  ghost predicate Latest(all: seq<TaskId>, n: nat, kept: seq<TaskId>) {
    && |kept| <= |all| && kept == all[|all| - |kept|..]
    && |kept| <= n && (|kept| < |all| ==> |kept| == n)
  }

  /** After a compaction the remembered ids are the latest of the remembered ones followed by the victims. */
  lemma HorizonKeepsLatest(p: Pool)
    requires p.retention.Some?
    ensures Latest(p.evictedOrder + Victims(p), p.retention.value.maxEvicted, Compact(p).evictedOrder)
    ensures forall id :: id in Compact(p).evictedIds <==> id in Compact(p).evictedOrder
  {
  }

  /** Dropping retention forgets queue and horizon and no record; installing it keeps the latest of the horizon. */
  lemma ConfigureEffect(p: Pool, retention: Option<Retention>, order: seq<TaskId>, id: TaskId)
    requires Valid(p) && Enabled(p, Reconfigure(retention, order))
    ensures var p' := Configure(p, retention, order);
      && p'.retention == retention && OnlyEvicts(p, p', id)
      && (retention.None? ==> p'.tasks == p.tasks && p'.terminalOrder == [] && p'.evictedOrder == [] && p'.evictedIds == {})
      && (retention.Some? ==>
            var listed := p.(retention := retention, terminalOrder := order);
            Latest(p.evictedOrder + Victims(listed), retention.value.maxEvicted, p'.evictedOrder))
  {
    if retention.Some? {
      var n := retention.value.maxEvicted;
      var kept := LastN(p.evictedOrder, n);
      var q := p.(retention := retention, terminalOrder := order, evictedIds := ToSet(kept), evictedOrder := kept);
      SetSame(TerminalIds(p.tasks) - {}, TerminalIds(p.tasks));
      CompactOnlyEvicts(q, {}, id);
      var listed := p.(retention := retention, terminalOrder := order);
      assert Victims(q) == Victims(listed);
      LatestTwice(p.evictedOrder, Victims(listed), n);
    }
  }

  lemma LatestTwice(s: seq<TaskId>, t: seq<TaskId>, n: nat)
    ensures Latest(s + t, n, LastN(LastN(s, n) + t, n))
  {
    var once := LastN(s, n) + t;
    assert once == (s + t)[|s + t| - |once|..];
  }

  // ---------------------------------------------------------------- refusals

  /** A refused operation changes nothing, and the refusal says not found exactly when a record it needs is missing. */
  lemma RefusalsAreExact(p: Pool, id: TaskId, status: Status, lease: Lease, step: nat, action: LeasedAction)
    requires IsTerminal(status)
    ensures Wake(p, id).1 == NotFound <==> id !in p.tasks
    ensures RejectReady(p, id).1 == NotFound <==> id !in p.tasks
    ensures TerminalByCore(p, id, status).1 == NotFound <==> id !in p.tasks
    ensures ApplyLeased(p, lease, step, action).1 == NotFound <==> lease.taskId !in p.tasks
    ensures Wake(p, id).1 != Done ==> Wake(p, id).0 == p
    ensures RejectReady(p, id).1 != Done ==> RejectReady(p, id).0 == p
    ensures TerminalByCore(p, id, status).1 != Done ==> TerminalByCore(p, id, status).0 == p
    ensures ApplyLeased(p, lease, step, action).1 != Done ==> ApplyLeased(p, lease, step, action).0 == p
  {
  }

  /** The same for an await, which needs both records and looks for the child only under an active lease of the parent. */
  lemma AwaitRefusalIsExact(p: Pool, lease: Lease, step: nat, a: Await)
    ensures WaitOnTask(p, lease, step, a).1 == NotFound <==>
              (a.parent == lease.taskId
               && (a.parent !in p.tasks || (LeaseActive(p.tasks[a.parent], lease, step) && a.child !in p.tasks)))
    ensures WaitOnTask(p, lease, step, a).1 != Done ==> WaitOnTask(p, lease, step, a).0 == p
  {
  }

  // ---------------------------------------------------------------- generations

  /** Rebinding changes the generation of the ready tasks of the old generation and nothing else. */
  lemma RebindEffect(p: Pool, from: nat, to: nat, id: TaskId)
    ensures var p' := RebindReady(p, from, to);
      && (id in p'.tasks <==> id in p.tasks)
      && (id in p.tasks ==>
            && p'.tasks[id] == p.tasks[id].(task := p.tasks[id].task.(generation := p'.tasks[id].task.generation))
            && (p.tasks[id].status == Ready && p.tasks[id].task.generation == from ==> p'.tasks[id].task.generation == to)
            && (p.tasks[id].status != Ready || p.tasks[id].task.generation != from ==> p'.tasks[id] == p.tasks[id]))
      && p' == p.(tasks := p'.tasks)
  {
  }
}
