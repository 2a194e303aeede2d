/** Every run of task-pool operations, and what holds in all of its states. */
module TaskPoolRuns {
  import opened Sequences
  import opened TaskPoolModel
  import opened TaskPoolInvariants

  datatype Step =
    | EnqueueTask(task: Task, wireBytes: Option<nat>)
    | ClaimTasks(ids: seq<TaskId>, claimer: Claimer)
    | Leased(lease: Lease, step: nat, action: LeasedAction)
    | AwaitTask(lease: Lease, step: nat, awaited: Await)
    | WakeTasks(ids: seq<TaskId>)
    | Reject(id: TaskId)
    | FinishByCore(id: TaskId, status: Status)
    | ReclaimTasks(ids: seq<TaskId>)
    | TakeWaits(child: TaskId)
    | Abort(ids: seq<TaskId>)
    | Reconfigure(retention: Option<Retention>, order: seq<TaskId>)
    | Rebind(from: nat, to: nat)

  /** What the caller or the ready index guarantees; everything else an operation checks itself. */
  ghost predicate Enabled(p: Pool, s: Step) {
    match s
    case ClaimTasks(ids, _) => NoDup(ids) && forall id :: id in ids ==> id in p.tasks && p.tasks[id].status == Ready
    case FinishByCore(_, status) => IsTerminal(status)
    case Abort(ids) => NoDup(ids) && ToSet(ids) == Live(p)
    case Reconfigure(retention, order) => retention.Some? ==> TerminalListing(p, order)
    case _ => true
  }

  function WakeAll(p: Pool, ids: seq<TaskId>): Pool {
    if ids == [] then p else Wake(WakeAll(p, ids[..|ids| - 1]), ids[|ids| - 1]).0
  }

  function ReclaimAll(p: Pool, ids: seq<TaskId>): Pool {
    if ids == [] then p else Reclaim(ReclaimAll(p, ids[..|ids| - 1]), ids[|ids| - 1])
  }

  function Apply(p: Pool, s: Step): Pool {
    match s
    case EnqueueTask(task, wireBytes) => Enqueue(p, task, wireBytes).0
    case ClaimTasks(ids, claimer) => Claim(p, ids, claimer)
    case Leased(lease, step, action) => ApplyLeased(p, lease, step, action).0
    case AwaitTask(lease, step, a) => WaitOnTask(p, lease, step, a).0
    case WakeTasks(ids) => WakeAll(p, ids)
    case Reject(id) => RejectReady(p, id).0
    case FinishByCore(id, status) => if IsTerminal(status) then TerminalByCore(p, id, status).0 else p
    case ReclaimTasks(ids) => ReclaimAll(p, ids)
    case TakeWaits(child) => TakeWaitsForChild(p, child)
    case Abort(ids) => AbortAll(p, ids)
    case Reconfigure(retention, order) => Configure(p, retention, order)
    case Rebind(from, to) => RebindReady(p, from, to)
  }

  // ---------------------------------------------------------------- operation by operation

  lemma InsertedWaits(stored: set<TaskId>, byChild: Waits, byParent: Waits, id: TaskId)
    requires WaitsOk(stored, byChild, byParent)
    ensures WaitsOk(stored + {id}, byChild, byParent)
  {
  }

  lemma InsertedRecordsOk(tasks: map<TaskId, Record>, byParent: Waits, id: TaskId, r: Record)
    requires RecordsOk(tasks) && RecordOk(id, r) && ParentsWaiting(tasks, byParent, {}) && id !in byParent
    ensures RecordsOk(tasks[id := r]) && ParentsWaiting(tasks[id := r], byParent, {})
  {
  }

  lemma InsertedKeys(wireBytes: map<TaskId, nat>, id: TaskId, n: nat)
    ensures wireBytes[id := n].Keys == wireBytes.Keys + {id}
  {
  }

  lemma EnqueueKeeps(p: Pool, task: Task, wireBytes: Option<nat>)
    requires Valid(p)
    ensures Valid(Enqueue(p, task, wireBytes).0)
  {
    if !ContainsTaskId(p, task.id) && wireBytes.Some? {
      var r := Enqueue(p, task, wireBytes).0.tasks[task.id];
      InsertedRecord(p.tasks, p.stats.counts, task.id, r);
      InsertedKeys(p.wireBytes, task.id, wireBytes.value);
      InsertedWaits(p.tasks.Keys, p.waitsByChild, p.waitsByParent, task.id);
      assert task.id !in p.waitsByParent;
      InsertedRecordsOk(p.tasks, p.waitsByParent, task.id, r);
    }
  }

  lemma EnqueueLive(p: Pool, task: Task, wireBytes: Option<nat>)
    requires Valid(p)
    ensures Enqueue(p, task, wireBytes).1 == Done ==>
              task.id !in Live(p) && Live(Enqueue(p, task, wireBytes).0) == Live(p) + {task.id}
  {
  }

  lemma InsertedRecord(tasks: map<TaskId, Record>, counts: map<Status, nat>, id: TaskId, r: Record)
    requires CountersExact(tasks, counts) && id !in tasks && r.status == Ready
    ensures CountersExact(tasks[id := r], RecordTransition(counts, None, Some(Ready)))
    ensures TerminalIds(tasks[id := r]) == TerminalIds(tasks)
    ensures tasks[id := r].Keys == tasks.Keys + {id} && |tasks[id := r]| == |tasks| + 1
  {
    forall status: Status | status != Created
      ensures Counter(RecordTransition(counts, None, Some(Ready)), status) == |IdsWith(tasks[id := r], status)|
    {
      CounterAfterTransition(counts, None, Some(Ready), status);
      IdsInserted(tasks, id, r, status);
    }
    SetSame(TerminalIds(tasks[id := r]), TerminalIds(tasks));
    SetInserted(tasks.Keys, tasks[id := r].Keys, id);
    SetSame(tasks[id := r].Keys, tasks.Keys + {id});
    assert |tasks[id := r].Keys| == |tasks[id := r]| && |tasks.Keys| == |tasks|;
  }

  /** A running task has no await of its own on record. */
  lemma RunningIsNoParent(p: Pool, id: TaskId)
    requires Valid(p) && id in p.tasks && p.tasks[id].status != Waiting
    ensures id !in p.waitsByParent
  {
  }

  lemma ActionRecordOk(r: Record, id: TaskId, action: LeasedAction)
    requires RecordOk(id, r)
    ensures RecordOk(id, ActionRecord(r, action)) && Fenced(r, ActionRecord(r, action))
    ensures IsTerminal(ActionRecord(r, action).status) <==> action.Complete? || action.Fail? || action.Cancel?
  {
  }

  lemma ReleasedOk(id: TaskId, r: Record, status: Status)
    requires RecordOk(id, r) && status != Running && status != Created
    ensures RecordOk(id, Released(r, status)) && Fenced(r, Released(r, status))
    ensures RecordOk(id, Finished(r, status)) && Fenced(r, Finished(r, status))
  {
  }

  /** A stored task moves to a status that is not terminal. */
  lemma MoveKeeps(p: Pool, id: TaskId, r: Record)
    requires Valid(p) && id in p.tasks && id !in p.waitsByParent && !IsTerminal(p.tasks[id].status)
    requires RecordOk(id, r) && Fenced(p.tasks[id], r) && !IsTerminal(r.status)
    ensures Valid(SetRecord(p, id, r)) && Evolves(p, SetRecord(p, id, r))
  {
    SetRecordKeeps(p, id, r, {}, {}, {});
    SetRecordEvolves(p, id, r);
    SetSame({} + TerminalPart(id, r), {});
  }

  /** A stored task becomes terminal; it waits for its entry in the history. */
  lemma EndKeeps(p: Pool, id: TaskId, r: Record, loose: set<TaskId>)
    requires Valid(p) && id in p.tasks && (id in p.waitsByParent ==> id in loose) && !IsTerminal(p.tasks[id].status)
    requires RecordOk(id, r) && Fenced(p.tasks[id], r) && IsTerminal(r.status)
    ensures Inv(SetRecord(p, id, r), {id}, loose) && Evolves(p, SetRecord(p, id, r))
  {
    SetRecordKeeps(p, id, r, {}, {}, loose);
    SetRecordEvolves(p, id, r);
    SetSame({} + TerminalPart(id, r), {id});
  }

  lemma FinishKeeps(p: Pool, id: TaskId)
    requires Inv(p, {id}, {})
    ensures Valid(RecordTerminal(p, id)) && Evolves(p, RecordTerminal(p, id)) && Live(RecordTerminal(p, id)) == Live(p)
  {
    RecordTerminalKeeps(p, id, {id}, {});
    SetSame({id} - {id}, {});
  }

  /** Before its entry in the history, a task that ends under its lease; a cancelled one loses its awaits. */
  lemma LeasedEndKeeps(p: Pool, id: TaskId, action: LeasedAction)
    requires Valid(p) && id in p.tasks && p.tasks[id].status == Running
    requires action.Complete? || action.Fail? || action.Cancel?
    ensures var moved := SetRecord(p, id, ActionRecord(p.tasks[id], action));
      var unlinked := if action.Cancel? then RemoveWaitsForParent(moved, id) else moved;
      Inv(unlinked, {id}, {}) && Evolves(p, unlinked)
  {
    var r := ActionRecord(p.tasks[id], action);
    var moved := SetRecord(p, id, r);
    RunningIsNoParent(p, id);
    ActionRecordOk(p.tasks[id], id, action);
    EndKeeps(p, id, r, {});
    if action.Cancel? {
      RemoveParentKeeps(moved, id, {id}, {});
      EvolvesTransitive(p, moved, RemoveWaitsForParent(moved, id));
    }
  }

  lemma ApplyLeasedKeeps(p: Pool, lease: Lease, step: nat, action: LeasedAction)
    requires Valid(p)
    ensures Valid(ApplyLeased(p, lease, step, action).0) && Evolves(p, ApplyLeased(p, lease, step, action).0)
  {
    var id := lease.taskId;
    if id in p.tasks && LeaseActive(p.tasks[id], lease, step) {
      var r := ActionRecord(p.tasks[id], action);
      RunningIsNoParent(p, id);
      ActionRecordOk(p.tasks[id], id, action);
      var moved := SetRecord(p, id, r);
      if IsTerminal(r.status) {
        LeasedEndKeeps(p, id, action);
        var unlinked := if action.Cancel? then RemoveWaitsForParent(moved, id) else moved;
        FinishKeeps(unlinked, id);
        EvolvesTransitive(p, unlinked, RecordTerminal(unlinked, id));
      } else {
        MoveKeeps(p, id, r);
      }
    }
  }

  /** The parent starts to wait; its await is not linked yet. */
  lemma WaitMoveKeeps(p: Pool, id: TaskId, wakeAt: Option<nat>)
    requires Valid(p) && id in p.tasks && p.tasks[id].status == Running
    ensures var moved := SetRecord(p, id, ActionRecord(p.tasks[id], Wait(wakeAt)));
      Valid(moved) && Evolves(p, moved) && id !in moved.waitsByParent && moved.tasks[id].status == Waiting
  {
    RunningIsNoParent(p, id);
    ActionRecordOk(p.tasks[id], id, Wait(wakeAt));
    MoveKeeps(p, id, ActionRecord(p.tasks[id], Wait(wakeAt)));
  }

  lemma WaitOnTaskKeeps(p: Pool, lease: Lease, step: nat, a: Await)
    requires Valid(p)
    ensures Valid(WaitOnTask(p, lease, step, a).0) && Evolves(p, WaitOnTask(p, lease, step, a).0)
  {
    if WaitOnTask(p, lease, step, a).1 == Done {
      var moved := SetRecord(p, lease.taskId, ActionRecord(p.tasks[lease.taskId], Wait(a.wakeAt)));
      WaitMoveKeeps(p, lease.taskId, a.wakeAt);
      AddAwaitKeeps(moved, a);
      EvolvesTransitive(p, moved, AddAwait(moved, a));
    }
  }

  /** A waiting task becomes ready; its await is still linked. */
  lemma WakeMoveKeeps(p: Pool, id: TaskId)
    requires Valid(p) && id in p.tasks && (p.tasks[id].status.Waiting? || p.tasks[id].status.Blocked?)
    ensures Inv(SetRecord(p, id, Requeued(p.tasks[id])), {}, {id})
  {
    var r := Requeued(p.tasks[id]);
    ReleasedOk(id, p.tasks[id], Ready);
    SetSame({} + TerminalPart(id, r), {});
    SetRecordKeeps(p, id, r, {}, {}, {id});
  }

  lemma WakeMoveEvolves(p: Pool, id: TaskId)
    requires RecordsOk(p.tasks) && id in p.tasks && (p.tasks[id].status.Waiting? || p.tasks[id].status.Blocked?)
    ensures Evolves(p, SetRecord(p, id, Requeued(p.tasks[id])))
  {
    ReleasedOk(id, p.tasks[id], Ready);
    SetRecordEvolves(p, id, Requeued(p.tasks[id]));
  }

  lemma WakeKeeps(p: Pool, id: TaskId)
    requires Valid(p)
    ensures Valid(Wake(p, id).0) && Evolves(p, Wake(p, id).0)
  {
    if Wake(p, id).1 == Done {
      var moved := SetRecord(p, id, Requeued(p.tasks[id]));
      WakeMoveKeeps(p, id);
      WakeMoveEvolves(p, id);
      RemoveParentKeeps(moved, id, {}, {id});
      SetSame({id} - {id}, {});
      EvolvesTransitive(p, moved, RemoveWaitsForParent(moved, id));
    }
  }

  lemma RejectReadyKeeps(p: Pool, id: TaskId)
    requires Valid(p)
    ensures Valid(RejectReady(p, id).0) && Evolves(p, RejectReady(p, id).0)
  {
    if RejectReady(p, id).1 == Done {
      var r := p.tasks[id].(status := Failed);
      RunningIsNoParent(p, id);
      EndKeeps(p, id, r, {});
      FinishKeeps(SetRecord(p, id, r), id);
      EvolvesTransitive(p, SetRecord(p, id, r), RejectReady(p, id).0);
    }
  }

  lemma TerminalByCoreKeeps(p: Pool, id: TaskId, status: Status)
    requires Valid(p) && IsTerminal(status)
    ensures Valid(TerminalByCore(p, id, status).0) && Evolves(p, TerminalByCore(p, id, status).0)
  {
    if TerminalByCore(p, id, status).1 == Done {
      var r := Finished(p.tasks[id], status);
      ReleasedOk(id, p.tasks[id], status);
      EndKeeps(p, id, r, {id});
      var moved := SetRecord(p, id, r);
      RemoveParentKeeps(moved, id, {id}, {id});
      SetSame({id} - {id}, {});
      var unlinked := RemoveWaitsForParent(moved, id);
      FinishKeeps(unlinked, id);
      EvolvesTransitive(p, moved, unlinked);
      EvolvesTransitive(p, unlinked, RecordTerminal(unlinked, id));
    }
  }

  lemma ReclaimKeeps(p: Pool, id: TaskId)
    requires Valid(p)
    ensures Valid(Reclaim(p, id)) && Evolves(p, Reclaim(p, id))
  {
    if id in p.tasks && p.tasks[id].status == Running {
      var r := Requeued(p.tasks[id]);
      ReleasedOk(id, p.tasks[id], Ready);
      RunningIsNoParent(p, id);
      MoveKeeps(p, id, r);
    }
  }

  lemma ClaimOneKeeps(p: Pool, id: TaskId, claimer: Claimer)
    requires Valid(p) && id in p.tasks && p.tasks[id].status == Ready
    ensures Valid(ClaimOne(p, id, claimer)) && Evolves(p, ClaimOne(p, id, claimer))
  {
    RunningIsNoParent(p, id);
    MoveKeeps(p, id, ClaimedRecord(p.tasks[id], NewLease(p.tasks[id], claimer)));
  }

  lemma {:induction false} ClaimFrame(p: Pool, ids: seq<TaskId>, claimer: Claimer, id: TaskId)
    requires id in p.tasks && id !in ids
    ensures id in Claim(p, ids, claimer).tasks && Claim(p, ids, claimer).tasks[id] == p.tasks[id]
  {
    if ids != [] {
      ClaimFrame(p, ids[..|ids| - 1], claimer, id);
    }
  }

  lemma {:induction false} ClaimKeeps(p: Pool, ids: seq<TaskId>, claimer: Claimer)
    requires Valid(p) && Enabled(p, ClaimTasks(ids, claimer))
    ensures Valid(Claim(p, ids, claimer)) && Evolves(p, Claim(p, ids, claimer))
  {
    if ids != [] {
      var front, id := ids[..|ids| - 1], ids[|ids| - 1];
      assert forall x :: x in front ==> x in ids;
      ClaimKeeps(p, front, claimer);
      assert id in ids && id !in front;
      ClaimFrame(p, front, claimer, id);
      ClaimOneKeeps(Claim(p, front, claimer), id, claimer);
      EvolvesTransitive(p, Claim(p, front, claimer), Claim(p, ids, claimer));
    }
  }

  lemma {:induction false} WakeAllKeeps(p: Pool, ids: seq<TaskId>)
    requires Valid(p)
    ensures Valid(WakeAll(p, ids)) && Evolves(p, WakeAll(p, ids))
  {
    if ids != [] {
      var before := WakeAll(p, ids[..|ids| - 1]);
      WakeAllKeeps(p, ids[..|ids| - 1]);
      WakeKeeps(before, ids[|ids| - 1]);
      EvolvesTransitive(p, before, WakeAll(p, ids));
    }
  }

  lemma {:induction false} ReclaimAllKeeps(p: Pool, ids: seq<TaskId>)
    requires Valid(p)
    ensures Valid(ReclaimAll(p, ids)) && Evolves(p, ReclaimAll(p, ids))
  {
    if ids != [] {
      var before := ReclaimAll(p, ids[..|ids| - 1]);
      ReclaimAllKeeps(p, ids[..|ids| - 1]);
      ReclaimKeeps(before, ids[|ids| - 1]);
      EvolvesTransitive(p, before, ReclaimAll(p, ids));
    }
  }

  lemma TakeWaitsKeeps(p: Pool, child: TaskId)
    requires Valid(p)
    ensures Valid(TakeWaitsForChild(p, child)) && Evolves(p, TakeWaitsForChild(p, child))
  {
    var unlinked := RemoveWaitsForChild(p, child);
    RemoveChildKeeps(p, child, {}, {});
    CompactKeeps(unlinked, {}, {});
    CompactEvolves(unlinked, {});
    EvolvesTransitive(p, unlinked, Compact(unlinked));
  }

  lemma {:induction false} MarkFrame(p: Pool, ids: seq<TaskId>, id: TaskId)
    requires id in p.tasks && id !in ids
    ensures id in MarkCancelled(p, ids).tasks && MarkCancelled(p, ids).tasks[id] == p.tasks[id]
  {
    if ids != [] {
      MarkFrame(p, ids[..|ids| - 1], id);
    }
  }

  lemma MarkOneKeeps(p: Pool, id: TaskId, pending: set<TaskId>)
    requires Inv(p, pending, pending) && id in p.tasks && !IsTerminal(p.tasks[id].status)
    ensures Inv(MarkOne(p, id), pending + {id}, pending + {id}) && Evolves(p, MarkOne(p, id))
  {
    var r := Finished(p.tasks[id], Cancelled);
    ReleasedOk(id, p.tasks[id], Cancelled);
    SetRecordKeeps(p, id, r, pending, pending, pending + {id});
    SetRecordEvolves(p, id, r);
  }

  lemma {:induction false} MarkCancelledKeeps(p: Pool, ids: seq<TaskId>)
    requires Valid(p) && NoDup(ids) && ToSet(ids) <= Live(p)
    ensures Inv(MarkCancelled(p, ids), ToSet(ids), ToSet(ids)) && Evolves(p, MarkCancelled(p, ids))
  {
    if ids == [] {
      SetSame(ToSet(ids), {});
    } else {
      var front, id := ids[..|ids| - 1], ids[|ids| - 1];
      SetSame(ToSet(ids), ToSet(front) + {id});
      MarkCancelledKeeps(p, front);
      assert id !in front && id in Live(p);
      MarkFrame(p, front, id);
      MarkOneKeeps(MarkCancelled(p, front), id, ToSet(front));
      EvolvesTransitive(p, MarkCancelled(p, front), MarkCancelled(p, ids));
    }
  }

  lemma {:induction false} QueueCancelledKeeps(p: Pool, ids: seq<TaskId>, rest: set<TaskId>)
    requires Inv(p, ToSet(ids) + rest, ToSet(ids) + rest) && NoDup(ids) && ToSet(ids) !! rest
    ensures Inv(QueueCancelled(p, ids), rest, rest) && Evolves(p, QueueCancelled(p, ids))
  {
    if ids == [] {
      SetSame(ToSet(ids) + rest, rest);
    } else {
      var front, id := ids[..|ids| - 1], ids[|ids| - 1];
      SetSame(ToSet(ids), ToSet(front) + {id});
      SetSame(ToSet(ids) + rest, ToSet(front) + (rest + {id}));
      QueueCancelledKeeps(p, front, rest + {id});
      var before := QueueCancelled(p, front);
      RemoveParentKeeps(before, id, rest + {id}, rest + {id});
      SetSame(rest + {id} - {id}, rest);
      var unlinked := RemoveWaitsForParent(before, id);
      RecordTerminalKeeps(unlinked, id, rest + {id}, rest);
      EvolvesTransitive(p, before, unlinked);
      EvolvesTransitive(p, unlinked, RecordTerminal(unlinked, id));
    }
  }

  lemma AbortKeeps(p: Pool, ids: seq<TaskId>)
    requires Valid(p) && Enabled(p, Abort(ids))
    ensures Valid(AbortAll(p, ids)) && Evolves(p, AbortAll(p, ids))
  {
    MarkCancelledKeeps(p, ids);
    var marked := MarkCancelled(p, ids);
    SetSame(ToSet(ids) + {}, ToSet(ids));
    QueueCancelledKeeps(marked, ids, {});
    EvolvesTransitive(p, marked, AbortAll(p, ids));
  }

  lemma LastNKeeps(stored: set<TaskId>, order: seq<TaskId>, capacity: nat, n: nat)
    requires EvictedOk(stored, ToSet(order), order, capacity)
    ensures EvictedOk(stored, ToSet(LastN(order, n)), LastN(order, n), n)
  {
  }

  lemma ConfigureKeeps(p: Pool, retention: Option<Retention>, order: seq<TaskId>)
    requires Valid(p) && Enabled(p, Reconfigure(retention, order))
    ensures Valid(Configure(p, retention, order)) && Evolves(p, Configure(p, retention, order))
  {
    if retention.Some? {
      var kept := LastN(p.evictedOrder, retention.value.maxEvicted);
      LastNKeeps(p.tasks.Keys, p.evictedOrder, EvictedCapacity(p.retention), retention.value.maxEvicted);
      var q := p.(retention := retention, terminalOrder := order, evictedIds := ToSet(kept), evictedOrder := kept);
      assert Valid(q) by { SetSame(TerminalIds(p.tasks) - {}, TerminalIds(p.tasks)); }
      CompactKeeps(q, {}, {});
      CompactEvolves(q, {});
      EvolvesTransitive(p, q, Compact(q));
    }
  }

  /** A rebound record differs from the old one only in the generation of its task. */
  lemma RebindSets(p: Pool, from: nat, to: nat)
    ensures var q := RebindReady(p, from, to);
      && q.tasks.Keys == p.tasks.Keys && |q.tasks| == |p.tasks|
      && TerminalIds(q.tasks) == TerminalIds(p.tasks) && Live(q) == Live(p)
      && forall status: Status :: IdsWith(q.tasks, status) == IdsWith(p.tasks, status)
  {
    var q := RebindReady(p, from, to);
    SetSame(q.tasks.Keys, p.tasks.Keys);
    SetSame(TerminalIds(q.tasks), TerminalIds(p.tasks));
    SetSame(Live(q), Live(p));
    forall status: Status ensures IdsWith(q.tasks, status) == IdsWith(p.tasks, status) {
      SetSame(IdsWith(q.tasks, status), IdsWith(p.tasks, status));
    }
    assert |q.tasks.Keys| == |q.tasks| && |p.tasks.Keys| == |p.tasks|;
  }

  lemma RebindRecords(p: Pool, from: nat, to: nat)
    requires RecordsOk(p.tasks) && ParentsWaiting(p.tasks, p.waitsByParent, {})
    ensures RecordsOk(RebindReady(p, from, to).tasks)
    ensures ParentsWaiting(RebindReady(p, from, to).tasks, p.waitsByParent, {})
    ensures forall id :: id in p.tasks ==> Fenced(p.tasks[id], RebindReady(p, from, to).tasks[id])
  {
    forall id | id in p.tasks ensures RecordOk(id, RebindReady(p, from, to).tasks[id]) {
      assert RecordOk(id, p.tasks[id]);
    }
  }

  lemma RebindKeeps(p: Pool, from: nat, to: nat)
    requires Valid(p)
    ensures Valid(RebindReady(p, from, to)) && Evolves(p, RebindReady(p, from, to))
  {
    RebindSets(p, from, to);
    RebindRecords(p, from, to);
  }

  // ---------------------------------------------------------------- every step

  /** No operation breaks the agreement between records, counters, history, horizon and awaits. */
  lemma StepKeepsValid(p: Pool, s: Step)
    requires Valid(p) && Enabled(p, s)
    ensures Valid(Apply(p, s))
    ensures !s.EnqueueTask? ==> Evolves(p, Apply(p, s))
  {
    match s
    case EnqueueTask(task, wireBytes) => EnqueueKeeps(p, task, wireBytes);
    case ClaimTasks(ids, claimer) => ClaimKeeps(p, ids, claimer);
    case Leased(lease, step, action) => ApplyLeasedKeeps(p, lease, step, action);
    case AwaitTask(lease, step, a) => WaitOnTaskKeeps(p, lease, step, a);
    case WakeTasks(ids) => WakeAllKeeps(p, ids);
    case Reject(id) => RejectReadyKeeps(p, id);
    case FinishByCore(id, status) => TerminalByCoreKeeps(p, id, status);
    case ReclaimTasks(ids) => ReclaimAllKeeps(p, ids);
    case TakeWaits(child) => TakeWaitsKeeps(p, child);
    case Abort(ids) => AbortKeeps(p, ids);
    case Reconfigure(retention, order) => ConfigureKeeps(p, retention, order);
    case Rebind(from, to) => RebindKeeps(p, from, to);
  }

  lemma SubsetSize(a: set<TaskId>, b: set<TaskId>)
    requires b <= a
    ensures |a - b| == |a| - |b|
  {
  }

  lemma RevisionGrowth(p: Pool, p': Pool)
    requires Valid(p) && Valid(p') && Evolves(p, p')
    ensures Revision(p') == Revision(p) + |Live(p) - Live(p')|
  {
    SubmittedSplit(p);
    SubmittedSplit(p');
    SubsetSize(Live(p), Live(p'));
  }

  lemma RevisionEnqueue(p: Pool, p': Pool, id: TaskId)
    requires Valid(p) && Valid(p') && p'.stats.submitted == p.stats.submitted + 1
    requires id !in Live(p) && Live(p') == Live(p) + {id}
    ensures Revision(p') == Revision(p) && Live(p) - Live(p') == {}
  {
    SubmittedSplit(p);
    SubmittedSplit(p');
    SetInserted(Live(p), Live(p'), id);
  }

  /** One step raises the revision by exactly the number of tasks that it finished. */
  lemma RevisionStep(p: Pool, s: Step)
    requires Valid(p) && Enabled(p, s)
    ensures Revision(Apply(p, s)) == Revision(p) + |Live(p) - Live(Apply(p, s))|
  {
    StepKeepsValid(p, s);
    if !s.EnqueueTask? {
      RevisionGrowth(p, Apply(p, s));
    } else if Enqueue(p, s.task, s.wireBytes).1 == Done {
      EnqueueLive(p, s.task, s.wireBytes);
      RevisionEnqueue(p, Apply(p, s), s.task.id);
    } else {
      SetSame(Live(p) - Live(p), {});
    }
  }

  // ---------------------------------------------------------------- whole runs

  ghost predicate IsRun(states: seq<Pool>, steps: seq<Step>) {
    && |states| == |steps| + 1
    && states[0] == EmptyPool
    && forall i :: 0 <= i < |steps| ==> Enabled(states[i], steps[i]) && states[i + 1] == Apply(states[i], steps[i])
  }

  lemma RunNext(states: seq<Pool>, steps: seq<Step>, k: nat)
    requires IsRun(states, steps) && k < |steps|
    ensures Enabled(states[k], steps[k]) && states[k + 1] == Apply(states[k], steps[k])
  {
  }

  lemma {:induction false} RunsStayValid(states: seq<Pool>, steps: seq<Step>, i: nat)
    requires IsRun(states, steps) && i < |states|
    ensures Valid(states[i])
  {
    if i == 0 {
      forall status: Status ensures |IdsWith(EmptyPool.tasks, status)| == 0 {
        SetSame(IdsWith(EmptyPool.tasks, status), {});
      }
      SetSame(TerminalIds(EmptyPool.tasks), {});
    } else {
      RunsStayValid(states, steps, i - 1);
      StepKeepsValid(states[i - 1], steps[i - 1]);
    }
  }

  /** The tasks that finished during the first `n` steps of a run. */
  ghost function FinishedBefore(states: seq<Pool>, n: nat): nat
    requires n < |states|
  {
    if n == 0 then 0 else FinishedBefore(states, n - 1) + |Live(states[n - 1]) - Live(states[n])|
  }

  /** In every state of every run the revision is the number of terminal transitions so far. */
  lemma {:induction false} RevisionCountsFinished(states: seq<Pool>, steps: seq<Step>, n: nat)
    requires IsRun(states, steps) && n < |states|
    ensures Revision(states[n]) == FinishedBefore(states, n)
  {
    if n > 0 {
      RevisionCountsFinished(states, steps, n - 1);
      RunsStayValid(states, steps, n - 1);
      RevisionStep(states[n - 1], steps[n - 1]);
    }
  }

  /** The revision never drops, and it stays put only if nothing finished. */
  ghost predicate Noticed(p: Pool, p': Pool) {
    && Revision(p) <= Revision(p')
    && (Revision(p) == Revision(p') ==> Live(p) <= Live(p'))
  }

  lemma GrowthNoticed(p: Pool, p': Pool)
    requires Revision(p') == Revision(p) + |Live(p) - Live(p')|
    ensures Noticed(p, p')
  {
    if |Live(p) - Live(p')| == 0 {
      forall id | id in Live(p) ensures id in Live(p') {
        assert id !in Live(p) - Live(p');
      }
    }
  }

  lemma StepNoticed(p: Pool, s: Step)
    requires Valid(p) && Enabled(p, s)
    ensures Noticed(p, Apply(p, s))
  {
    RevisionStep(p, s);
    GrowthNoticed(p, Apply(p, s));
  }

  lemma {:induction false} NoticedChain(states: seq<Pool>, i: nat, j: nat)
    requires i <= j < |states|
    requires forall k :: i <= k < j ==> Noticed(states[k], states[k + 1])
    ensures Noticed(states[i], states[j])
    decreases j - i
  {
    if i < j {
      NoticedChain(states, i, j - 1);
      assert Noticed(states[j - 1], states[j - 1 + 1]);
    }
  }

  /** Between any two states of a run, a task that finished shows as a higher revision. */
  lemma RevisionNoticesFinished(states: seq<Pool>, steps: seq<Step>, i: nat, j: nat)
    requires IsRun(states, steps) && i <= j < |states|
    ensures Noticed(states[i], states[j])
  {
    forall k | i <= k < j ensures Noticed(states[k], states[k + 1]) {
      RunsStayValid(states, steps, k);
      StepNoticed(states[k], steps[k]);
    }
    NoticedChain(states, i, j);
  }

  lemma CounterZero(tasks: map<TaskId, Record>, counts: map<Status, nat>, status: Status)
    requires CountersExact(tasks, counts) && status != Created
    ensures Counter(counts, status) == 0 <==> forall id :: id in tasks ==> tasks[id].status != status
  {
    assert Counter(counts, status) == |IdsWith(tasks, status)|;
    if |IdsWith(tasks, status)| == 0 {
      forall id | id in tasks ensures tasks[id].status != status {
        assert id !in IdsWith(tasks, status);
      }
    } else {
      var id :| id in IdsWith(tasks, status);
    }
  }

  lemma CountersReadDrained(tasks: map<TaskId, Record>, counts: map<Status, nat>)
    requires CountersExact(tasks, counts) && RecordsOk(tasks)
    ensures (forall status :: status in [Ready, Running, Waiting, Blocked] ==> Counter(counts, status) == 0)
       <==> (forall id :: id in tasks ==> IsTerminal(tasks[id].status))
  {
    CounterZero(tasks, counts, Ready);
    CounterZero(tasks, counts, Running);
    CounterZero(tasks, counts, Waiting);
    CounterZero(tasks, counts, Blocked);
    forall id | id in tasks ensures tasks[id].status != Created {
      assert RecordOk(id, tasks[id]);
    }
  }

  /** The drain test on the counters succeeds exactly when every stored task is terminal. */
  lemma DrainedMeansFinished(p: Pool)
    requires Valid(p)
    ensures CountersDrained(p) <==> forall id :: id in p.tasks ==> IsTerminal(p.tasks[id].status)
  {
    CountersReadDrained(p.tasks, p.stats.counts);
  }

  // ---------------------------------------------------------------- history

  ghost predicate HistoryBounded(p: Pool) {
    p.retention.Some? ==>
      || |p.terminalOrder| <= p.retention.value.maxTerminal
      || forall id :: id in p.terminalOrder ==> id in Protected(p)
  }

  /** A compaction ends within the limit, or with nothing left in the queue that may be evicted. */
  lemma CompactionReachesBound(p: Pool)
    requires NoDup(p.terminalOrder)
    ensures HistoryBounded(Compact(p))
    ensures p.retention.Some? ==> p.tasks.Keys - Compact(p).tasks.Keys == ToSet(Victims(p)) * p.tasks.Keys
  {
    if p.retention.Some? {
      RemainingQueue(p);
      OmitMembers(p.terminalOrder, Protected(p));
      KeepOmitSizes(p.terminalOrder, Protected(p));
      if EvictionCount(p) == |Omit(p.terminalOrder, Protected(p))| {
        assert Victims(p) == Omit(p.terminalOrder, Protected(p));
        forall id | id in Compact(p).terminalOrder ensures id in Protected(p) {
          assert id in ToSet(Compact(p).terminalOrder);
        }
      }
      SetSame(p.tasks.Keys - Compact(p).tasks.Keys, ToSet(Victims(p)) * p.tasks.Keys);
    }
  }

  lemma SameQueueBounded(p: Pool, p': Pool)
    requires HistoryBounded(p) && p'.terminalOrder == p.terminalOrder && p'.retention == p.retention
    requires Protected(p) <= Protected(p')
    ensures HistoryBounded(p')
  {
  }

  lemma RecordTerminalBounded(p: Pool, id: TaskId)
    requires NoDup(p.terminalOrder) && id !in p.terminalOrder
    ensures HistoryBounded(RecordTerminal(p, id))
  {
    if p.retention.Some? {
      CompactionReachesBound(p.(terminalOrder := p.terminalOrder + [id]));
    }
  }

  /** A task that is stored and live is not in the terminal queue. */
  lemma LiveNotQueued(p: Pool, id: TaskId)
    requires HistoryOk(TerminalIds(p.tasks), p.terminalOrder, p.retention.Some?, {}) && id in p.tasks && !IsTerminal(p.tasks[id].status)
    ensures NoDup(p.terminalOrder) && id !in p.terminalOrder
  {
    assert id !in ToSet(p.terminalOrder);
  }

  lemma PendingNotQueued(p: Pool, pending: set<TaskId>, id: TaskId)
    requires HistoryOk(TerminalIds(p.tasks), p.terminalOrder, p.retention.Some?, pending) && id in pending
    ensures NoDup(p.terminalOrder) && id !in p.terminalOrder
  {
    assert id !in ToSet(p.terminalOrder);
  }

  lemma AbortBounded(p: Pool, ids: seq<TaskId>)
    requires Valid(p) && Enabled(p, Abort(ids)) && HistoryBounded(p)
    ensures HistoryBounded(AbortAll(p, ids))
  {
    if ids != [] {
      MarkCancelledKeeps(p, ids);
      QueueBounded(MarkCancelled(p, ids), ids);
    }
  }

  lemma QueueBounded(p: Pool, ids: seq<TaskId>)
    requires ids != [] && NoDup(ids) && Inv(p, ToSet(ids), ToSet(ids))
    ensures HistoryBounded(QueueCancelled(p, ids))
  {
    var front, id := ids[..|ids| - 1], ids[|ids| - 1];
    SetSame(ToSet(ids), ToSet(front) + {id});
    SetSame(ToSet(front) * {id}, {});
    QueueCancelledKeeps(p, front, {id});
    PendingNotQueued(QueueCancelled(p, front), {id}, id);
    RecordTerminalBounded(RemoveWaitsForParent(QueueCancelled(p, front), id), id);
  }

  ghost predicate Queued(p: Pool) {
    HistoryOk(TerminalIds(p.tasks), p.terminalOrder, p.retention.Some?, {})
  }

  lemma EnqueueBounded(p: Pool, task: Task, wireBytes: Option<nat>)
    requires HistoryBounded(p)
    ensures HistoryBounded(Enqueue(p, task, wireBytes).0)
  {
  }

  lemma ClaimBounded(p: Pool, ids: seq<TaskId>, claimer: Claimer)
    requires HistoryBounded(p)
    ensures HistoryBounded(Claim(p, ids, claimer))
  {
  }

  lemma ReclaimBounded(p: Pool, ids: seq<TaskId>)
    requires HistoryBounded(p)
    ensures HistoryBounded(ReclaimAll(p, ids))
  {
  }

  lemma AwaitBounded(p: Pool, lease: Lease, step: nat, a: Await)
    requires HistoryBounded(p)
    ensures HistoryBounded(WaitOnTask(p, lease, step, a).0)
  {
  }

  lemma RejectBounded(p: Pool, id: TaskId)
    requires Queued(p) && HistoryBounded(p)
    ensures HistoryBounded(RejectReady(p, id).0)
  {
    if RejectReady(p, id).1 == Done {
      LiveNotQueued(p, id);
      RecordTerminalBounded(SetRecord(p, id, p.tasks[id].(status := Failed)), id);
    }
  }

  lemma FinishBounded(p: Pool, id: TaskId, status: Status)
    requires Queued(p) && HistoryBounded(p) && IsTerminal(status)
    ensures HistoryBounded(TerminalByCore(p, id, status).0)
  {
    if TerminalByCore(p, id, status).1 == Done {
      LiveNotQueued(p, id);
      RecordTerminalBounded(RemoveWaitsForParent(SetRecord(p, id, Finished(p.tasks[id], status)), id), id);
    }
  }

  lemma LeasedBounded(p: Pool, lease: Lease, step: nat, action: LeasedAction)
    requires Queued(p) && HistoryBounded(p)
    ensures HistoryBounded(ApplyLeased(p, lease, step, action).0)
  {
    var id := lease.taskId;
    if ApplyLeased(p, lease, step, action).1 == Done {
      LiveNotQueued(p, id);
      var moved := SetRecord(p, id, ActionRecord(p.tasks[id], action));
      if IsTerminal(moved.tasks[id].status) {
        RecordTerminalBounded(if action.Cancel? then RemoveWaitsForParent(moved, id) else moved, id);
      } else {
        SameQueueBounded(p, moved);
      }
    }
  }

  /**
   Every operation but a wake keeps the history within its limit or blocked by awaits: whatever
   queues a record or releases an await compacts afterwards.
   */
  lemma StepKeepsBound(p: Pool, s: Step)
    requires Valid(p) && Enabled(p, s) && HistoryBounded(p) && !s.WakeTasks?
    ensures HistoryBounded(Apply(p, s))
  {
    match s
    case EnqueueTask(task, wireBytes) => EnqueueBounded(p, task, wireBytes);
    case ClaimTasks(ids, claimer) => ClaimBounded(p, ids, claimer);
    case Leased(lease, step, action) => LeasedBounded(p, lease, step, action);
    case AwaitTask(lease, step, a) => AwaitBounded(p, lease, step, a);
    case Reject(id) => RejectBounded(p, id);
    case FinishByCore(id, status) => FinishBounded(p, id, status);
    case ReclaimTasks(ids) => ReclaimBounded(p, ids);
    case TakeWaits(child) => CompactionReachesBound(RemoveWaitsForChild(p, child));
    case Abort(ids) => AbortBounded(p, ids);
    case Reconfigure(retention, order) => ReconfigureBounded(p, retention, order);
    case Rebind(from, to) => SameQueueBounded(p, RebindReady(p, from, to));
  }

  lemma ReconfigureBounded(p: Pool, retention: Option<Retention>, order: seq<TaskId>)
    requires Enabled(p, Reconfigure(retention, order))
    ensures HistoryBounded(Configure(p, retention, order))
  {
    if retention.Some? {
      var kept := LastN(p.evictedOrder, retention.value.maxEvicted);
      CompactionReachesBound(p.(retention := retention, terminalOrder := order, evictedIds := ToSet(kept), evictedOrder := kept));
    }
  }

  /**
   A wake drops awaits and does not compact. It keeps the bound exactly when the queue already fits
   its limit or each queued child is still awaited by some other parent.
   */
  lemma WakeKeepsBoundIff(p: Pool, id: TaskId)
    requires Valid(p) && HistoryBounded(p) && p.retention.Some? && Wake(p, id).1 == Done
    ensures HistoryBounded(Wake(p, id).0) <==>
      || |p.terminalOrder| <= p.retention.value.maxTerminal
      || forall c :: c in p.terminalOrder ==> c in p.waitsByChild && exists a :: a in p.waitsByChild[c] && a.parent != id
  {
    var p' := Wake(p, id).0;
    forall c | c in p.terminalOrder
      ensures c in Protected(p') <==> c in p.waitsByChild && exists a :: a in p.waitsByChild[c] && a.parent != id
    {
      QueuedIsNoParent(p, c);
      WakeProtects(p, id, c);
    }
  }

  lemma WakeProtects(p: Pool, id: TaskId, c: TaskId)
    requires Wake(p, id).1 == Done && c !in p.waitsByParent
    ensures c in Protected(Wake(p, id).0) <==> c in p.waitsByChild && exists a :: a in p.waitsByChild[c] && a.parent != id
  {
    if c in p.waitsByChild {
      WithoutParentMembers(p.waitsByChild[c], id);
      var left := WithoutParent(p.waitsByChild[c], id);
      if left != [] {
        assert left[0] in p.waitsByChild[c] && left[0].parent != id;
      }
    }
  }

  /** A queued record never waits itself: only awaited children can hold a terminal record back. */
  lemma QueuedIsNoParent(p: Pool, id: TaskId)
    requires Valid(p) && id in p.terminalOrder
    ensures id in p.tasks && IsTerminal(p.tasks[id].status) && id !in p.waitsByParent
  {
    assert id in ToSet(p.terminalOrder);
  }

  /** No await in any state of any run refers to a record that is gone, and its parent is parked. */
  lemma AwaitsNeverDangle(states: seq<Pool>, steps: seq<Step>, i: nat, a: Await)
    requires IsRun(states, steps) && i < |states|
    requires a.child in states[i].waitsByChild && a in states[i].waitsByChild[a.child]
    ensures a.child in states[i].tasks && a.parent in states[i].tasks && states[i].tasks[a.parent].status == Waiting
    ensures a.parent in states[i].waitsByParent && states[i].waitsByParent[a.parent] == [a]
  {
    RunsStayValid(states, steps, i);
    var p := states[i];
    assert a in p.waitsByParent[a.parent];
    assert |p.waitsByParent[a.parent]| == 1;
  }

  // ---------------------------------------------------------------- lease fencing

  ghost predicate Superseded(p: Pool, lease: Lease) {
    && lease.taskId in p.tasks
    && p.tasks[lease.taskId].attempt >= lease.attempt
    && p.tasks[lease.taskId].lease != Some(lease)
  }

  lemma SupersededNext(r: Record, r': Record, lease: Lease)
    requires RecordOk(lease.taskId, r') && Fenced(r, r') && r.attempt >= lease.attempt && r.lease != Some(lease)
    ensures r'.attempt >= lease.attempt && r'.lease != Some(lease)
  {
  }

  lemma KeptRecords(p: Pool, p': Pool, id: TaskId)
    requires RecordsOk(p'.tasks) && Evolves(p, p') && id in p.tasks && id in p'.tasks
    ensures RecordOk(id, p'.tasks[id]) && Fenced(p.tasks[id], p'.tasks[id])
  {
  }

  /** What a step does to a record that it does not remove. */
  lemma StepFences(p: Pool, s: Step, id: TaskId)
    requires Valid(p) && Enabled(p, s) && id in p.tasks && id in Apply(p, s).tasks
    ensures RecordOk(id, Apply(p, s).tasks[id]) && Fenced(p.tasks[id], Apply(p, s).tasks[id])
  {
    StepKeepsValid(p, s);
    if s.EnqueueTask? {
      EnqueueFrame(p, s.task, s.wireBytes, id);
    } else {
      KeptRecords(p, Apply(p, s), id);
    }
  }

  lemma EnqueueFrame(p: Pool, task: Task, wireBytes: Option<nat>, id: TaskId)
    requires RecordsOk(p.tasks) && id in p.tasks
    ensures RecordOk(id, p.tasks[id])
    ensures id in Enqueue(p, task, wireBytes).0.tasks && Enqueue(p, task, wireBytes).0.tasks[id] == p.tasks[id]
  {
  }

  lemma {:induction false} SupersededChain(states: seq<Pool>, i: nat, j: nat, lease: Lease)
    requires i <= j < |states| && Superseded(states[i], lease)
    requires forall k :: i <= k <= j ==> lease.taskId in states[k].tasks
    requires forall k :: i < k <= j ==>
               RecordOk(lease.taskId, states[k].tasks[lease.taskId])
               && Fenced(states[k - 1].tasks[lease.taskId], states[k].tasks[lease.taskId])
    ensures Superseded(states[j], lease)
    decreases j - i
  {
    if i < j {
      SupersededChain(states, i, j - 1, lease);
      SupersededNext(states[j - 1].tasks[lease.taskId], states[j].tasks[lease.taskId], lease);
    }
  }

  lemma RunFences(states: seq<Pool>, steps: seq<Step>, k: nat, id: TaskId)
    requires IsRun(states, steps) && 0 < k < |states| && id in states[k - 1].tasks && id in states[k].tasks
    ensures RecordOk(id, states[k].tasks[id]) && Fenced(states[k - 1].tasks[id], states[k].tasks[id])
  {
    RunsStayValid(states, steps, k - 1);
    RunNext(states, steps, k - 1);
    StepFences(states[k - 1], steps[k - 1], id);
  }

  /**
   While its record is stored, a lease that is no longer current is refused forever, for a transition and
   for an await.
   */
  lemma StaleLeaseStaysStale(states: seq<Pool>, steps: seq<Step>, i: nat, j: nat, lease: Lease, step: nat,
                             action: LeasedAction, a: Await)
    requires IsRun(states, steps) && i <= j < |states| && Superseded(states[i], lease)
    requires forall k :: i <= k <= j ==> lease.taskId in states[k].tasks
    ensures ApplyLeased(states[j], lease, step, action) == (states[j], Conflict)
    ensures WaitOnTask(states[j], lease, step, a) == (states[j], Conflict)
  {
    forall k | i < k <= j
      ensures RecordOk(lease.taskId, states[k].tasks[lease.taskId])
           && Fenced(states[k - 1].tasks[lease.taskId], states[k].tasks[lease.taskId])
    {
      RunFences(states, steps, k, lease.taskId);
    }
    SupersededChain(states, i, j, lease);
  }
}
