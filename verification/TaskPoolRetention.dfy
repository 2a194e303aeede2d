/** What bounded retention gives up: never more than the excess over its limit, the oldest unprotected records first. */
module TaskPoolRetention {
  import opened Sequences
  import opened TaskPoolModel
  import opened TaskPoolInvariants
  import opened TaskPoolRuns

  /** A queue within its limit loses nothing, and a longer one is not cut below the limit. */
  lemma CompactionLeavesLimit(p: Pool)
    requires NoDup(p.terminalOrder) && p.retention.Some?
    ensures |Compact(p).terminalOrder| >= Min(|p.terminalOrder|, p.retention.value.maxTerminal)
    ensures |p.terminalOrder| <= p.retention.value.maxTerminal ==> Compact(p).tasks == p.tasks
  {
    RemainingQueue(p);
    if |p.terminalOrder| <= p.retention.value.maxTerminal {
      assert Victims(p) == [];
    }
  }

  lemma {:induction false} OldestFirst(queue: seq<TaskId>, kept: set<TaskId>, n: nat, i: nat, j: nat)
    requires NoDup(queue) && n <= |Omit(queue, kept)| && i < j < |queue|
    ensures queue[j] in Omit(queue, kept)[..n] && queue[i] !in kept ==> queue[i] in Omit(queue, kept)[..n]
  {
    var rest := queue[1..];
    OmitMembers(queue, kept);
    if n > 0 {
      if queue[0] in kept {
        if i > 0 {
          OldestFirst(rest, kept, n, i - 1, j - 1);
        }
      } else {
        assert Omit(queue, kept)[..n] == [queue[0]] + Omit(rest, kept)[..n - 1];
        if i > 0 {
          OldestFirst(rest, kept, n - 1, i - 1, j - 1);
        }
      }
    }
  }

  /** Of two unprotected queued records the older is evicted first. */
  lemma EvictsOldestFirst(p: Pool, i: nat, j: nat)
    requires NoDup(p.terminalOrder) && p.retention.Some? && i < j < |p.terminalOrder|
    requires p.terminalOrder[i] !in Protected(p) && p.terminalOrder[j] in p.tasks
    requires p.terminalOrder[j] !in Compact(p).tasks
    ensures p.terminalOrder[i] !in Compact(p).tasks && p.terminalOrder[i] !in Compact(p).terminalOrder
  {
    RemainingQueue(p);
    OldestFirst(p.terminalOrder, Protected(p), EvictionCount(p), i, j);
    assert p.terminalOrder[i] !in ToSet(Compact(p).terminalOrder);
  }

  // ---------------------------------------------------------------- every operation

  /** The operation forgot nothing, or the history it leaves fills its limit. */
  ghost predicate OnlyExcess(p: Pool, q: Pool) {
    || p.tasks.Keys <= q.tasks.Keys
    || (q.retention.Some? && |q.terminalOrder| >= q.retention.value.maxTerminal)
  }

  lemma RecordTerminalExcess(p: Pool, id: TaskId)
    requires NoDup(p.terminalOrder) && id !in p.terminalOrder
    ensures OnlyExcess(p, RecordTerminal(p, id))
    ensures p.retention.Some? && |p.terminalOrder| >= p.retention.value.maxTerminal ==>
              |RecordTerminal(p, id).terminalOrder| >= p.retention.value.maxTerminal
    ensures RecordTerminal(p, id).retention == p.retention
  {
    if p.retention.Some? {
      CompactionLeavesLimit(p.(terminalOrder := p.terminalOrder + [id]));
    }
  }

  lemma {:induction false} QueueExcess(p: Pool, ids: seq<TaskId>, later: set<TaskId>)
    requires NoDup(ids) && ToSet(ids) !! later && Inv(p, ToSet(ids) + later, ToSet(ids) + later)
    ensures OnlyExcess(p, QueueCancelled(p, ids)) && QueueCancelled(p, ids).retention == p.retention
  {
    if ids != [] {
      var front, id := ids[..|ids| - 1], ids[|ids| - 1];
      SetSame(ToSet(ids), ToSet(front) + {id});
      SetSame(ToSet(front) * {id}, {});
      SetSame(ToSet(front) + ({id} + later), ToSet(ids) + later);
      QueueExcess(p, front, {id} + later);
      QueueCancelledKeeps(p, front, {id} + later);
      var q := QueueCancelled(p, front);
      PendingNotQueued(q, {id} + later, id);
      RecordTerminalExcess(RemoveWaitsForParent(q, id), id);
    }
  }

  lemma AbortExcess(p: Pool, ids: seq<TaskId>)
    requires Valid(p) && Enabled(p, Abort(ids))
    ensures OnlyExcess(p, AbortAll(p, ids))
  {
    MarkCancelledKeeps(p, ids);
    SetSame(ToSet(ids) + {}, ToSet(ids));
    QueueExcess(MarkCancelled(p, ids), ids, {});
    KeysStay(p, ids);
  }

  lemma {:induction false} KeysStay(p: Pool, ids: seq<TaskId>)
    ensures MarkCancelled(p, ids).tasks.Keys == p.tasks.Keys
  {
    if ids != [] {
      KeysStay(p, ids[..|ids| - 1]);
    }
  }

  lemma LeasedExcess(p: Pool, lease: Lease, step: nat, action: LeasedAction)
    requires Queued(p)
    ensures OnlyExcess(p, ApplyLeased(p, lease, step, action).0)
  {
    var id := lease.taskId;
    if ApplyLeased(p, lease, step, action).1 == Done {
      LiveNotQueued(p, id);
      var moved := SetRecord(p, id, ActionRecord(p.tasks[id], action));
      RecordTerminalExcess(if action.Cancel? then RemoveWaitsForParent(moved, id) else moved, id);
    }
  }

  lemma RejectExcess(p: Pool, id: TaskId)
    requires Queued(p)
    ensures OnlyExcess(p, RejectReady(p, id).0)
  {
    if RejectReady(p, id).1 == Done {
      LiveNotQueued(p, id);
      RecordTerminalExcess(SetRecord(p, id, p.tasks[id].(status := Failed)), id);
    }
  }

  lemma FinishExcess(p: Pool, id: TaskId, status: Status)
    requires Queued(p) && IsTerminal(status)
    ensures OnlyExcess(p, TerminalByCore(p, id, status).0)
  {
    if TerminalByCore(p, id, status).1 == Done {
      LiveNotQueued(p, id);
      RecordTerminalExcess(RemoveWaitsForParent(SetRecord(p, id, Finished(p.tasks[id], status)), id), id);
    }
  }

  lemma CompactionExcess(p: Pool)
    requires NoDup(p.terminalOrder)
    ensures OnlyExcess(p, Compact(p))
  {
    if p.retention.Some? {
      CompactionLeavesLimit(p);
    }
  }

  lemma ReconfigureExcess(p: Pool, retention: Option<Retention>, order: seq<TaskId>)
    requires Enabled(p, Reconfigure(retention, order))
    ensures OnlyExcess(p, Configure(p, retention, order))
  {
    if retention.Some? {
      var kept := LastN(p.evictedOrder, retention.value.maxEvicted);
      CompactionExcess(
        p.(retention := retention, terminalOrder := order, evictedIds := ToSet(kept), evictedOrder := kept));
    }
  }

  lemma {:induction false} ClaimForgetsNothing(p: Pool, ids: seq<TaskId>, claimer: Claimer)
    ensures p.tasks.Keys <= Claim(p, ids, claimer).tasks.Keys
  {
    if ids != [] {
      ClaimForgetsNothing(p, ids[..|ids| - 1], claimer);
    }
  }

  lemma {:induction false} WakeForgetsNothing(p: Pool, ids: seq<TaskId>)
    ensures p.tasks.Keys <= WakeAll(p, ids).tasks.Keys
  {
    if ids != [] {
      WakeForgetsNothing(p, ids[..|ids| - 1]);
    }
  }

  lemma {:induction false} ReclaimForgetsNothing(p: Pool, ids: seq<TaskId>)
    ensures p.tasks.Keys <= ReclaimAll(p, ids).tasks.Keys
  {
    if ids != [] {
      ReclaimForgetsNothing(p, ids[..|ids| - 1]);
    }
  }

  lemma OthersForgetNothing(p: Pool, s: Step)
    requires s.EnqueueTask? || s.AwaitTask? || s.Rebind?
    requires Enabled(p, s)
    ensures p.tasks.Keys <= Apply(p, s).tasks.Keys
  {
  }

  lemma StepExcess(p: Pool, s: Step)
    requires Queued(p) && NoDup(p.terminalOrder) && Enabled(p, s) && !s.Abort?
    ensures OnlyExcess(p, Apply(p, s))
  {
    match s
    case ClaimTasks(ids, claimer) => ClaimForgetsNothing(p, ids, claimer);
    case Leased(lease, step, action) => LeasedExcess(p, lease, step, action);
    case Reject(id) => RejectExcess(p, id);
    case FinishByCore(id, status) => FinishExcess(p, id, status);
    case WakeTasks(ids) => WakeForgetsNothing(p, ids);
    case ReclaimTasks(ids) => ReclaimForgetsNothing(p, ids);
    case TakeWaits(child) => CompactionExcess(RemoveWaitsForChild(p, child));
    case Reconfigure(retention, order) => ReconfigureExcess(p, retention, order);
    case _ => OthersForgetNothing(p, s);
  }

  /** Every operation keeps every record or leaves a history that fills its limit: nothing is forgotten without need. */
  lemma StepEvictsOnlyExcess(p: Pool, s: Step)
    requires Valid(p) && Enabled(p, s)
    ensures OnlyExcess(p, Apply(p, s))
  {
    if s.Abort? {
      AbortExcess(p, s.ids);
    } else {
      StepExcess(p, s);
    }
  }
}
