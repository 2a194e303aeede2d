/** How often a lease can take effect: only a claim makes one current, and every use ends it. */
module TaskPoolLeases {
  import opened Sequences
  import opened TaskPoolModel
  import opened TaskPoolInvariants
  import opened TaskPoolRuns

  predicate Current(p: Pool, lease: Lease) {
    lease.taskId in p.tasks && p.tasks[lease.taskId].lease == Some(lease)
  }

  /** The step is a transition or an await under the lease, and it is done. */
  predicate Uses(p: Pool, s: Step, lease: Lease) {
    || (s.Leased? && s.lease == lease && ApplyLeased(p, lease, s.step, s.action).1 == Done)
    || (s.AwaitTask? && s.lease == lease && WaitOnTask(p, lease, s.step, s.awaited).1 == Done)
  }

  function ClaimerOf(lease: Lease): Claimer {
    Claimer(lease.runnerId, lease.executorId, lease.generation, lease.acquiredAt, lease.expiresAt)
  }

  /** The step claims the lease's task for the same claimer at the same step, as the same attempt. */
  predicate Reissues(p: Pool, s: Step, lease: Lease) {
    && s.ClaimTasks? && lease.taskId in s.ids && s.claimer == ClaimerOf(lease)
    && lease.taskId in p.tasks && p.tasks[lease.taskId].attempt + 1 == lease.attempt
  }

  // ---------------------------------------------------------------- what ends a lease and what makes one

  /** No lease appears; some may end. */
  ghost predicate LeasesOnlyEnd(p: Pool, p': Pool) {
    forall id :: id in p'.tasks && p'.tasks[id].lease.Some? ==> id in p.tasks && p.tasks[id].lease == p'.tasks[id].lease
  }

  lemma SetRecordEndsLeases(p: Pool, id: TaskId, r: Record)
    requires id in p.tasks && (r.lease.None? || r.lease == p.tasks[id].lease)
    ensures LeasesOnlyEnd(p, SetRecord(p, id, r))
  {
  }

  lemma RecordTerminalEndsLeases(p: Pool, id: TaskId)
    ensures LeasesOnlyEnd(p, RecordTerminal(p, id))
  {
  }

  lemma {:induction false} WakeAllEndsLeases(p: Pool, ids: seq<TaskId>)
    ensures LeasesOnlyEnd(p, WakeAll(p, ids))
  {
    if ids != [] {
      WakeAllEndsLeases(p, ids[..|ids| - 1]);
    }
  }

  lemma {:induction false} ReclaimAllEndsLeases(p: Pool, ids: seq<TaskId>)
    ensures LeasesOnlyEnd(p, ReclaimAll(p, ids))
  {
    if ids != [] {
      ReclaimAllEndsLeases(p, ids[..|ids| - 1]);
    }
  }

  lemma {:induction false} MarkCancelledEndsLeases(p: Pool, ids: seq<TaskId>)
    ensures LeasesOnlyEnd(p, MarkCancelled(p, ids))
  {
    if ids != [] {
      MarkCancelledEndsLeases(p, ids[..|ids| - 1]);
    }
  }

  lemma {:induction false} QueueCancelledEndsLeases(p: Pool, ids: seq<TaskId>)
    ensures LeasesOnlyEnd(p, QueueCancelled(p, ids))
  {
    if ids != [] {
      var before := QueueCancelled(p, ids[..|ids| - 1]);
      QueueCancelledEndsLeases(p, ids[..|ids| - 1]);
      RecordTerminalEndsLeases(RemoveWaitsForParent(before, ids[|ids| - 1]), ids[|ids| - 1]);
    }
  }

  lemma LeasedEndsLeases(p: Pool, lease: Lease, step: nat, action: LeasedAction)
    ensures LeasesOnlyEnd(p, ApplyLeased(p, lease, step, action).0)
  {
    var id := lease.taskId;
    if ApplyLeased(p, lease, step, action).1 == Done {
      var moved := SetRecord(p, id, ActionRecord(p.tasks[id], action));
      SetRecordEndsLeases(p, id, ActionRecord(p.tasks[id], action));
      RecordTerminalEndsLeases(if action.Cancel? then RemoveWaitsForParent(moved, id) else moved, id);
    }
  }

  lemma RejectEndsLeases(p: Pool, id: TaskId)
    ensures LeasesOnlyEnd(p, RejectReady(p, id).0)
  {
    if RejectReady(p, id).1 == Done {
      RecordTerminalEndsLeases(SetRecord(p, id, p.tasks[id].(status := Failed)), id);
    }
  }

  lemma FinishEndsLeases(p: Pool, id: TaskId, status: Status)
    requires IsTerminal(status)
    ensures LeasesOnlyEnd(p, TerminalByCore(p, id, status).0)
  {
    if TerminalByCore(p, id, status).1 == Done {
      RecordTerminalEndsLeases(RemoveWaitsForParent(SetRecord(p, id, Finished(p.tasks[id], status)), id), id);
    }
  }

  lemma EnqueueEndsLeases(p: Pool, task: Task, wireBytes: Option<nat>)
    ensures LeasesOnlyEnd(p, Enqueue(p, task, wireBytes).0)
  {
  }

  lemma AwaitEndsLeases(p: Pool, lease: Lease, step: nat, a: Await)
    ensures LeasesOnlyEnd(p, WaitOnTask(p, lease, step, a).0)
  {
  }

  lemma CompactEndsLeases(p: Pool, q: Pool)
    requires q.tasks == p.tasks
    ensures LeasesOnlyEnd(p, Compact(q))
  {
  }

  lemma ConfigureEndsLeases(p: Pool, retention: Option<Retention>, order: seq<TaskId>)
    ensures LeasesOnlyEnd(p, Configure(p, retention, order))
  {
    if retention.Some? {
      var kept := LastN(p.evictedOrder, retention.value.maxEvicted);
      CompactEndsLeases(p, p.(retention := retention, terminalOrder := order, evictedIds := ToSet(kept), evictedOrder := kept));
    }
  }

  lemma AbortEndsLeases(p: Pool, ids: seq<TaskId>)
    ensures LeasesOnlyEnd(p, AbortAll(p, ids))
  {
    MarkCancelledEndsLeases(p, ids);
    QueueCancelledEndsLeases(MarkCancelled(p, ids), ids);
  }

  /** Only a claim makes a lease current. */
  lemma StepEndsLeases(p: Pool, s: Step)
    requires !s.ClaimTasks?
    ensures LeasesOnlyEnd(p, Apply(p, s))
  {
    match s
    case EnqueueTask(task, wireBytes) => EnqueueEndsLeases(p, task, wireBytes);
    case Leased(lease, step, action) => LeasedEndsLeases(p, lease, step, action);
    case AwaitTask(lease, step, a) => AwaitEndsLeases(p, lease, step, a);
    case WakeTasks(ids) => WakeAllEndsLeases(p, ids);
    case Reject(id) => RejectEndsLeases(p, id);
    case FinishByCore(id, status) => if IsTerminal(status) { FinishEndsLeases(p, id, status); }
    case ReclaimTasks(ids) => ReclaimAllEndsLeases(p, ids);
    case TakeWaits(child) => CompactEndsLeases(p, RemoveWaitsForChild(p, child));
    case Abort(ids) => AbortEndsLeases(p, ids);
    case Reconfigure(retention, order) => ConfigureEndsLeases(p, retention, order);
    case Rebind(from, to) =>
  }

  /** A claim gives each selected task its new lease and leaves the others alone. */
  lemma {:induction false} ClaimLeases(p: Pool, ids: seq<TaskId>, claimer: Claimer, id: TaskId)
    requires NoDup(ids) && forall x :: x in ids ==> x in p.tasks
    ensures id in Claim(p, ids, claimer).tasks <==> id in p.tasks
    ensures id in p.tasks ==>
              Claim(p, ids, claimer).tasks[id].lease
              == if id in ids then Some(NewLease(p.tasks[id], claimer)) else p.tasks[id].lease
  {
    if ids != [] {
      var front, last := ids[..|ids| - 1], ids[|ids| - 1];
      assert forall x :: x in front ==> x in ids;
      ClaimLeases(p, front, claimer, id);
      if id == last {
        assert id !in front && id in ids;
        ClaimFrame(p, front, claimer, id);
      } else {
        assert id in ids <==> id in front;
      }
    }
  }

  // ---------------------------------------------------------------- one step

  /** The lease names itself as a claim would. */
  predicate Formed(lease: Lease) {
    lease.leaseId == LeaseId(lease.acquiredAt, lease.taskId, lease.attempt)
  }

  /** A lease that is not current becomes current by exactly one kind of step. */
  lemma LeaseReturnsIff(p: Pool, s: Step, lease: Lease)
    requires Valid(p) && Enabled(p, s) && !Current(p, lease) && Formed(lease)
    ensures Current(Apply(p, s), lease) <==> Reissues(p, s, lease)
  {
    if s.ClaimTasks? {
      ClaimLeases(p, s.ids, s.claimer, lease.taskId);
      if lease.taskId in p.tasks {
        assert RecordOk(lease.taskId, p.tasks[lease.taskId]);
      }
    } else {
      StepEndsLeases(p, s);
    }
  }

  /** A use needs the lease to be current and ends it. */
  lemma UseSpends(p: Pool, s: Step, lease: Lease)
    requires Uses(p, s, lease)
    ensures Current(p, lease) && !Current(Apply(p, s), lease)
  {
  }

  lemma NotCurrentRefused(p: Pool, lease: Lease, step: nat, action: LeasedAction, a: Await)
    requires !Current(p, lease)
    ensures ApplyLeased(p, lease, step, action).0 == p && ApplyLeased(p, lease, step, action).1 != Done
    ensures WaitOnTask(p, lease, step, a).0 == p && WaitOnTask(p, lease, step, a).1 != Done
  {
  }

  /** A transition is done exactly under a lease that is current and has not expired. */
  lemma DoneIffCurrent(p: Pool, lease: Lease, step: nat, action: LeasedAction)
    requires RecordsOk(p.tasks)
    ensures ApplyLeased(p, lease, step, action).1 == Done
       <==> Current(p, lease) && (lease.expiresAt.Some? ==> step < lease.expiresAt.value)
  {
    if Current(p, lease) {
      assert RecordOk(lease.taskId, p.tasks[lease.taskId]);
    }
  }

  // ---------------------------------------------------------------- whole runs

  ghost predicate LeasesFormed(p: Pool) {
    forall id :: id in p.tasks && p.tasks[id].lease.Some? ==> Formed(p.tasks[id].lease.value)
  }

  lemma {:induction false} RunsFormLeases(states: seq<Pool>, steps: seq<Step>, i: nat)
    requires IsRun(states, steps) && i < |states|
    ensures LeasesFormed(states[i])
  {
    if i > 0 {
      var p, s := states[i - 1], steps[i - 1];
      RunsFormLeases(states, steps, i - 1);
      RunNext(states, steps, i - 1);
      if s.ClaimTasks? {
        forall id | id in states[i].tasks && states[i].tasks[id].lease.Some?
          ensures Formed(states[i].tasks[id].lease.value)
        {
          ClaimLeases(p, s.ids, s.claimer, id);
        }
      } else {
        StepEndsLeases(p, s);
      }
    }
  }

  lemma RunLeaseReturnsIff(states: seq<Pool>, steps: seq<Step>, k: nat, lease: Lease)
    requires IsRun(states, steps) && k < |steps| && !Current(states[k], lease) && Formed(lease)
    ensures Current(states[k + 1], lease) <==> Reissues(states[k], steps[k], lease)
  {
    RunsStayValid(states, steps, k);
    RunNext(states, steps, k);
    LeaseReturnsIff(states[k], steps[k], lease);
  }

  lemma {:induction false} StaysSpent(states: seq<Pool>, steps: seq<Step>, i: nat, j: nat, lease: Lease)
    requires IsRun(states, steps) && i <= j < |states| && !Current(states[i], lease) && Formed(lease)
    requires forall k :: i <= k < j ==> !Reissues(states[k], steps[k], lease)
    ensures !Current(states[j], lease)
    decreases j
  {
    if i < j {
      StaysSpent(states, steps, i, j - 1, lease);
      RunLeaseReturnsIff(states, steps, j - 1, lease);
    }
  }

  /**
   Across evictions and enqueues, a lease that is not current stays so exactly as long as no claim issues
   the same one again.
   */
  lemma SpentLeaseIff(states: seq<Pool>, steps: seq<Step>, i: nat, n: nat, lease: Lease)
    requires IsRun(states, steps) && i <= n < |states| && !Current(states[i], lease) && Formed(lease)
    ensures (forall j :: i <= j <= n ==> !Current(states[j], lease))
       <==> (forall k :: i <= k < n ==> !Reissues(states[k], steps[k], lease))
  {
    if forall j :: i <= j <= n ==> !Current(states[j], lease) {
      forall k | i <= k < n ensures !Reissues(states[k], steps[k], lease) {
        RunLeaseReturnsIff(states, steps, k, lease);
      }
    } else if forall k :: i <= k < n ==> !Reissues(states[k], steps[k], lease) {
      forall j | i <= j <= n ensures !Current(states[j], lease) {
        StaysSpent(states, steps, i, j, lease);
      }
    }
  }

  /**
   In every run, once a transition or an await has used a lease, both are refused under it, whatever
   happens to the record, until a claim of the same task for the same claimer at the same step issues
   the same attempt again.
   */
  lemma LeaseUsedAtMostOnce(states: seq<Pool>, steps: seq<Step>, i: nat, j: nat, lease: Lease, step: nat,
                            action: LeasedAction, a: Await)
    requires IsRun(states, steps) && i < j < |states| && Uses(states[i], steps[i], lease)
    requires forall k :: i < k < j ==> !Reissues(states[k], steps[k], lease)
    ensures ApplyLeased(states[j], lease, step, action).0 == states[j] && ApplyLeased(states[j], lease, step, action).1 != Done
    ensures WaitOnTask(states[j], lease, step, a).0 == states[j] && WaitOnTask(states[j], lease, step, a).1 != Done
  {
    RunsFormLeases(states, steps, i);
    RunNext(states, steps, i);
    UseSpends(states[i], steps[i], lease);
    SpentLeaseIff(states, steps, i + 1, j, lease);
    NotCurrentRefused(states[j], lease, step, action, a);
  }
}
