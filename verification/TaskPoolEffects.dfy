/** What single task-pool operations do to the tasks they name, and what they leave alone. */
module TaskPoolEffects {
  import opened Sequences
  import opened TaskPoolModel
  import opened TaskPoolInvariants
  import opened TaskPoolRuns

  /** Nothing but unprotected finished records disappears, and the records that stay are as they were. */
  ghost predicate OnlyEvicts(p: Pool, p': Pool, id: TaskId) {
    && (id in p'.tasks ==> id in p.tasks && p'.tasks[id] == p.tasks[id])
    && (id in p.tasks && id !in p'.tasks ==> IsTerminal(p.tasks[id].status) && id !in p.waitsByChild && id !in p.waitsByParent)
  }

  lemma CompactOnlyEvicts(p: Pool, pending: set<TaskId>, id: TaskId)
    requires HistoryOk(TerminalIds(p.tasks), p.terminalOrder, p.retention.Some?, pending)
    ensures OnlyEvicts(p, Compact(p), id)
  {
    VictimsKnown(p, pending);
    if id in ToSet(Victims(p)) {
      assert id in TerminalIds(p.tasks) - pending - Protected(p);
    }
  }

  lemma RecordTerminalOnlyEvicts(p: Pool, ended: TaskId, id: TaskId)
    requires HistoryOk(TerminalIds(p.tasks), p.terminalOrder, p.retention.Some?, {ended})
    ensures OnlyEvicts(p, RecordTerminal(p, ended), id)
  {
    if p.retention.Some? {
      PendingNotQueued(p, {ended}, ended);
      ToSetConcat(p.terminalOrder, [ended]);
      SetSame(ToSet(p.terminalOrder) + ToSet([ended]), TerminalIds(p.tasks) - {});
      CompactOnlyEvicts(p.(terminalOrder := p.terminalOrder + [ended]), {}, id);
    }
  }

  // ---------------------------------------------------------------- enqueue

  /**
   An accepted task is stored ready and unclaimed with its own number, beside the others, and its id is
   refused from then on.
   */
  lemma EnqueueEffect(p: Pool, task: Task, wireBytes: Option<nat>, again: Task, moreBytes: Option<nat>)
    requires Enqueue(p, task, wireBytes).1 == Done && again.id == task.id
    ensures var p' := Enqueue(p, task, wireBytes).0;
      && task.id in p'.tasks && p'.tasks[task.id].status == Ready && p'.tasks[task.id].attempt == 0
      && p'.tasks[task.id].lease.None? && p'.tasks[task.id].claimedBy.None?
      && (task.createdSequence == 0 ==> p'.tasks[task.id].task.createdSequence == p'.nextSequence > p.nextSequence)
      && (task.createdSequence != 0 ==> p'.tasks[task.id].task == task)
      && p'.tasks - {task.id} == p.tasks && p'.wireBytes[task.id] == wireBytes.value
      && Enqueue(p', again, moreBytes) == (p', Duplicate)
  {
  }

  // ---------------------------------------------------------------- leases

  function StatusAfter(action: LeasedAction): Status {
    match action
    case Complete => Completed
    case Fail => Failed
    case Cancel => Cancelled
    case Wait(_) => Waiting
    case Defer => Ready
    case Block => Blocked
  }

  /** The task under the lease gets the status its caller asked for and loses its lease. */
  lemma LeasedEffect(p: Pool, lease: Lease, step: nat, action: LeasedAction)
    requires RecordsOk(p.tasks) && ApplyLeased(p, lease, step, action).1 == Done
    ensures var p', id := ApplyLeased(p, lease, step, action).0, lease.taskId;
      && (id in p'.tasks ==>
            var r := p'.tasks[id];
            && r.status == StatusAfter(action) && r.lease.None? && r.claimedBy.None? && r.attempt == lease.attempt
            && r.task == p.tasks[id].task.(readyAt := if action.Wait? then action.readyAt else p.tasks[id].task.readyAt)
            && r.ownerRunner == if action.Wait? || action.Block? then p.tasks[id].ownerRunner else None)
      && (id !in p'.tasks ==> IsTerminal(StatusAfter(action)))
  {
    assert RecordOk(lease.taskId, p.tasks[lease.taskId]);
  }

  /** The pool in which a task has ended under its lease but has not entered the history. */
  function EndedUnder(p: Pool, id: TaskId, action: LeasedAction): Pool
    requires id in p.tasks
  {
    var moved := SetRecord(p, id, ActionRecord(p.tasks[id], action));
    if action.Cancel? then RemoveWaitsForParent(moved, id) else moved
  }

  lemma EndedHistory(p: Pool, id: TaskId, action: LeasedAction)
    requires Valid(p) && id in p.tasks && p.tasks[id].status == Running
    requires action.Complete? || action.Fail? || action.Cancel?
    ensures var q := EndedUnder(p, id, action);
      HistoryOk(TerminalIds(q.tasks), q.terminalOrder, q.retention.Some?, {id})
  {
    LeasedEndKeeps(p, id, action);
  }

  lemma EndedProtects(p: Pool, id: TaskId, action: LeasedAction, other: TaskId)
    requires WaitsOk(p.tasks.Keys, p.waitsByChild, p.waitsByParent) && id in p.tasks && id !in p.waitsByParent
    ensures var q := EndedUnder(p, id, action);
      (other in q.waitsByChild <==> other in p.waitsByChild) && (other in q.waitsByParent <==> other in p.waitsByParent)
  {
  }

  /** Every other task keeps its record, unless it had finished and its turn to be evicted has come. */
  lemma LeasedLeavesOthers(p: Pool, lease: Lease, step: nat, action: LeasedAction, other: TaskId)
    requires Valid(p) && ApplyLeased(p, lease, step, action).1 == Done && other != lease.taskId
    ensures OnlyEvicts(p, ApplyLeased(p, lease, step, action).0, other)
  {
    if IsTerminal(StatusAfter(action)) {
      EndedHistory(p, lease.taskId, action);
      RunningIsNoParent(p, lease.taskId);
      EndedProtects(p, lease.taskId, action, other);
      RecordTerminalOnlyEvicts(EndedUnder(p, lease.taskId, action), lease.taskId, other);
    }
  }

  /** A claim gives each selected task a new attempt whose lease is current until it expires. */
  lemma {:induction false} ClaimGrantsLease(p: Pool, ids: seq<TaskId>, claimer: Claimer, id: TaskId, step: nat)
    requires Enabled(p, ClaimTasks(ids, claimer)) && id in ids
    requires p.tasks[id].task.id == id
    requires claimer.expiresAt.Some? ==> step < claimer.expiresAt.value
    ensures var p' := Claim(p, ids, claimer);
      && id in p'.tasks && p'.tasks[id].lease.Some?
      && p'.tasks[id].lease.value.taskId == id && p'.tasks[id].lease.value.runnerId == claimer.runner
      && p'.tasks[id].attempt == p.tasks[id].attempt + 1
      && LeaseActive(p'.tasks[id], p'.tasks[id].lease.value, step)
  {
    var front, last := ids[..|ids| - 1], ids[|ids| - 1];
    assert forall x :: x in front ==> x in ids;
    if id == last {
      assert id !in front;
      ClaimFrame(p, front, claimer, id);
    } else {
      assert id in front;
      ClaimGrantsLease(p, front, claimer, id, step);
    }
  }

  /** So whatever the claimer asks for under that lease is done, and the task shows it as long as it is stored. */
  lemma ClaimThenTransition(p: Pool, ids: seq<TaskId>, claimer: Claimer, id: TaskId, step: nat, action: LeasedAction)
    requires Valid(p) && Enabled(p, ClaimTasks(ids, claimer)) && id in ids
    requires claimer.expiresAt.Some? ==> step < claimer.expiresAt.value
    ensures var p' := Claim(p, ids, claimer);
      && id in p'.tasks && p'.tasks[id].lease.Some?
      && ApplyLeased(p', p'.tasks[id].lease.value, step, action).1 == Done
      && var q := ApplyLeased(p', p'.tasks[id].lease.value, step, action).0;
         id in q.tasks ==> q.tasks[id].status == StatusAfter(action) && q.tasks[id].attempt == p.tasks[id].attempt + 1
  {
    assert RecordOk(id, p.tasks[id]);
    ClaimKeeps(p, ids, claimer);
    ClaimGrantsLease(p, ids, claimer, id, step);
    var p' := Claim(p, ids, claimer);
    assert RecordOk(id, p'.tasks[id]);
    LeasedEffect(p', p'.tasks[id].lease.value, step, action);
  }

  /** An accepted task can be claimed at once, and its first attempt can end in any way its claimer asks for. */
  lemma EnqueueThenFinish(p: Pool, task: Task, wireBytes: Option<nat>, claimer: Claimer, step: nat,
                          action: LeasedAction)
    requires Valid(p) && Enqueue(p, task, wireBytes).1 == Done
    requires claimer.expiresAt.Some? ==> step < claimer.expiresAt.value
    ensures var p', id := Enqueue(p, task, wireBytes).0, task.id;
      && Enabled(p', ClaimTasks([id], claimer))
      && var r := Claim(p', [id], claimer);
         && id in r.tasks && r.tasks[id].lease.Some?
         && var (q, reply) := ApplyLeased(r, r.tasks[id].lease.value, step, action);
            reply == Done && (id in q.tasks ==> q.tasks[id].status == StatusAfter(action) && q.tasks[id].attempt == 1)
  {
    EnqueueEffect(p, task, wireBytes, task, wireBytes);
    EnqueueKeeps(p, task, wireBytes);
    ClaimThenTransition(Enqueue(p, task, wireBytes).0, [task.id], claimer, task.id, step, action);
  }

  // ---------------------------------------------------------------- awaits

  /** An accepted await parks its parent until the given step and links it to the child. */
  lemma WaitLinks(p: Pool, lease: Lease, step: nat, a: Await)
    requires Valid(p) && WaitOnTask(p, lease, step, a).1 == Done
    ensures var p' := WaitOnTask(p, lease, step, a).0;
      && a.parent == lease.taskId
      && p'.tasks[a.parent] == p.tasks[a.parent].(
           task := p.tasks[a.parent].task.(readyAt := a.wakeAt), status := Waiting, lease := None, claimedBy := None)
      && p'.waitsByParent[a.parent] == [a] && a in p'.waitsByChild[a.child]
      && p'.tasks.Keys == p.tasks.Keys && forall id :: id in p.tasks && id != a.parent ==> p'.tasks[id] == p.tasks[id]
  {
    RunningIsNoParent(p, a.parent);
  }

  /** Releasing a child undoes the links that an await on it made: both maps are as if it had never been recorded. */
  lemma ReleaseUndoesWait(p: Pool, lease: Lease, step: nat, a: Await)
    requires Valid(p) && WaitOnTask(p, lease, step, a).1 == Done
    ensures var q, q0 := RemoveWaitsForChild(WaitOnTask(p, lease, step, a).0, a.child), RemoveWaitsForChild(p, a.child);
      q.waitsByChild == q0.waitsByChild && q.waitsByParent == q0.waitsByParent
  {
    RunningIsNoParent(p, a.parent);
    LinkUndone(p.waitsByChild, p.waitsByParent, a);
  }

  lemma LinkUndone(byChild: Waits, byParent: Waits, a: Await)
    requires a.parent !in byParent
    ensures byChild[a.child := AwaitsAt(byChild, a.child) + [a]] - {a.child} == byChild - {a.child}
    ensures UnlinkChild(byParent[a.parent := AwaitsAt(byParent, a.parent) + [a]], a.child) == UnlinkChild(byParent, a.child)
  {
    assert [] + [a] == [a] && [a][1..] == [];
    assert WithoutChild([a], a.child) == [];
    var linked := byParent[a.parent := AwaitsAt(byParent, a.parent) + [a]];
    forall q ensures q in UnlinkChild(linked, a.child) <==> q in UnlinkChild(byParent, a.child) {
    }
  }

  /** A woken task is ready and waits for nobody; the awaits of others are untouched. */
  lemma WakeEffect(p: Pool, id: TaskId, c: TaskId, a: Await)
    requires Valid(p) && Wake(p, id).1 == Done
    ensures var p' := Wake(p, id).0;
      && p'.tasks[id] == p.tasks[id].(status := Ready, lease := None, claimedBy := None) && id !in p'.waitsByParent
      && (c in p'.waitsByChild && a in p'.waitsByChild[c] <==> c in p.waitsByChild && a in p.waitsByChild[c] && a.parent != id)
      && (c != id ==> (c in p'.tasks <==> c in p.tasks) && (c in p.tasks ==> p'.tasks[c] == p.tasks[c]))
  {
    if c in p.waitsByChild {
      WithoutParentMembers(p.waitsByChild[c], id);
    }
  }

  // ---------------------------------------------------------------- abort

  lemma {:induction false} QueueCancelledFrame(p: Pool, ids: seq<TaskId>, id: TaskId)
    ensures id in QueueCancelled(p, ids).tasks ==> id in p.tasks && QueueCancelled(p, ids).tasks[id] == p.tasks[id]
  {
    if ids != [] {
      QueueCancelledFrame(p, ids[..|ids| - 1], id);
    }
  }

  lemma {:induction false} MarkedCancelled(p: Pool, ids: seq<TaskId>, id: TaskId)
    requires NoDup(ids) && id in ids && id in p.tasks
    ensures id in MarkCancelled(p, ids).tasks
    ensures MarkCancelled(p, ids).tasks[id] == Record(p.tasks[id].task, Cancelled, None, None, None, p.tasks[id].attempt)
  {
    var front, last := ids[..|ids| - 1], ids[|ids| - 1];
    if id == last {
      assert id !in front;
      MarkFrame(p, front, id);
    } else {
      assert id in front;
      MarkedCancelled(p, front, id);
    }
  }

  /**
   An abort leaves no live task: the counters read as drained, and each unfinished task that is still stored
   is cancelled.
   */
  lemma AbortDrains(p: Pool, ids: seq<TaskId>, id: TaskId)
    requires Valid(p) && Enabled(p, Abort(ids))
    ensures CountersDrained(AbortAll(p, ids))
    ensures id in Live(p) && id in AbortAll(p, ids).tasks ==>
              AbortAll(p, ids).tasks[id] == Record(p.tasks[id].task, Cancelled, None, None, None, p.tasks[id].attempt)
    ensures id !in Live(p) && id in AbortAll(p, ids).tasks ==> id in p.tasks && AbortAll(p, ids).tasks[id] == p.tasks[id]
  {
    AbortKeeps(p, ids);
    MarkCancelledKeeps(p, ids);
    var marked := MarkCancelled(p, ids);
    SetSame(ToSet(ids) + {}, ToSet(ids));
    QueueCancelledKeeps(marked, ids, {});
    AllTerminal(p, marked, ids);
    forall x | x in AbortAll(p, ids).tasks ensures IsTerminal(AbortAll(p, ids).tasks[x].status) {
      QueueCancelledFrame(marked, ids, x);
    }
    DrainedMeansFinished(AbortAll(p, ids));
    QueueCancelledFrame(marked, ids, id);
    if id in Live(p) {
      assert id in ToSet(ids);
      MarkedCancelled(p, ids, id);
    } else if id in p.tasks {
      assert id !in ToSet(ids);
      MarkFrame(p, ids, id);
    }
  }

  lemma AllTerminal(p: Pool, marked: Pool, ids: seq<TaskId>)
    requires ToSet(ids) == Live(p) && Evolves(p, marked) && ToSet(ids) <= TerminalIds(marked.tasks)
    ensures forall x :: x in marked.tasks ==> IsTerminal(marked.tasks[x].status)
  {
    forall x | x in marked.tasks ensures IsTerminal(marked.tasks[x].status) {
      if x in ToSet(ids) {
        assert x in TerminalIds(marked.tasks);
      } else {
        assert x !in Live(p);
        assert x !in Live(marked);
      }
    }
  }
}
