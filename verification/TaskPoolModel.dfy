/**
 The task pool as a value: its records, the two await maps, the terminal history with its
 forgotten-id horizon and the status counters, together with what each pool operation computes.
 The class in TaskPoolStore updates the same fields in place and is proved against this model.
 */
module TaskPoolModel {
  import opened Sequences

  /** Identifiers are only ever compared for equality, so numbers stand for their text. */
  type TaskId = nat
  type RunnerId = nat

  datatype Status =
    | Created | Ready | Running | Waiting | Blocked
    | Completed | Failed | Cancelled | Expired | DeadLetter

  predicate IsTerminal(status: Status) {
    status.Completed? || status.Failed? || status.Cancelled? || status.Expired? || status.DeadLetter?
  }

  datatype LeaseId = LeaseId(step: nat, taskId: TaskId, attempt: nat)

  datatype Lease = Lease(
    leaseId: LeaseId, taskId: TaskId, attempt: nat, runnerId: RunnerId, executorId: string,
    generation: nat, acquiredAt: nat, expiresAt: Option<nat>)

  datatype Descriptor = Descriptor(
    protocol: string, binding: Option<string>, trace: Option<string>, correlation: Option<string>)

  datatype Task = Task(
    id: TaskId, descriptor: Descriptor, runnerHint: Option<RunnerId>, priority: int,
    createdSequence: nat, generation: nat, readyAt: Option<nat>, hasExpectations: bool)

  datatype Record = Record(
    task: Task, status: Status, claimedBy: Option<RunnerId>, ownerRunner: Option<RunnerId>,
    lease: Option<Lease>, attempt: nat)

  datatype Await = Await(parent: TaskId, child: TaskId, handle: Descriptor, wakeAt: Option<nat>)

  type Waits = map<TaskId, seq<Await>>

  datatype Retention = Retention(maxTerminal: nat, maxEvicted: nat)

  /** The status counters, one per status that a stored record can have, and two lifetime totals. */
  datatype Statistics = Statistics(counts: map<Status, nat>, submitted: nat, evicted: nat)

  datatype Pool = Pool(
    tasks: map<TaskId, Record>,
    waitsByChild: Waits,
    waitsByParent: Waits,
    wireBytes: map<TaskId, nat>,
    terminalOrder: seq<TaskId>,
    evictedIds: set<TaskId>,
    evictedOrder: seq<TaskId>,
    retention: Option<Retention>,
    nextSequence: nat,
    stats: Statistics)

  datatype Reply = Done | NotFound | Conflict | Duplicate | EncodeFailed

  const EmptyPool :=
    Pool(map[], map[], map[], map[], [], {}, [], None, 0, Statistics(map[], 0, 0))

  // ---------------------------------------------------------------- status counters

  function Counter(counts: map<Status, nat>, status: Status): nat {
    if status in counts then counts[status] else 0
  }

  /** Moves one record between status counters; the decrement saturates at zero. */
  function RecordTransition(counts: map<Status, nat>, from: Option<Status>, to: Option<Status>): map<Status, nat> {
    var left :=
      if from.None? || from.value == Created then counts
      else counts[from.value := Max(0, Counter(counts, from.value) - 1)];
    if to.None? || to.value == Created then left
    else left[to.value := Counter(left, to.value) + 1]
  }

  /** The revision that the host publishes: retained terminal records plus evicted ones. */
  function Revision(p: Pool): nat {
    Counter(p.stats.counts, Completed) + Counter(p.stats.counts, Failed) + Counter(p.stats.counts, Cancelled)
    + Counter(p.stats.counts, Expired) + Counter(p.stats.counts, DeadLetter) + p.stats.evicted
  }

  /** What a draining runtime reads to decide that no task is left to run. */
  predicate CountersDrained(p: Pool) {
    forall status :: status in [Ready, Running, Waiting, Blocked] ==> Counter(p.stats.counts, status) == 0
  }

  // ---------------------------------------------------------------- views of the records

  function IdsWith(tasks: map<TaskId, Record>, status: Status): set<TaskId> {
    set id | id in tasks && tasks[id].status == status
  }

  function TerminalIds(tasks: map<TaskId, Record>): set<TaskId> {
    set id | id in tasks && IsTerminal(tasks[id].status)
  }

  /** The tasks that have not finished. */
  function Live(p: Pool): set<TaskId> {
    set id | id in p.tasks && !IsTerminal(p.tasks[id].status)
  }

  /** Records other tasks still wait on, or that still wait themselves: compaction must skip them. */
  function Protected(p: Pool): set<TaskId> {
    p.waitsByChild.Keys + p.waitsByParent.Keys
  }

  // ---------------------------------------------------------------- single-record updates

  function SetRecord(p: Pool, id: TaskId, record: Record): Pool
    requires id in p.tasks
  {
    p.(tasks := p.tasks[id := record],
       stats := p.stats.(counts := RecordTransition(p.stats.counts, Some(p.tasks[id].status), Some(record.status))))
  }

  function Released(record: Record, status: Status): Record {
    record.(status := status, lease := None, claimedBy := None)
  }

  function Finished(record: Record, status: Status): Record {
    Released(record, status).(ownerRunner := None)
  }

  function Requeued(record: Record): Record {
    Released(record, Ready)
  }

  // ---------------------------------------------------------------- enqueue

  predicate ContainsTaskId(p: Pool, id: TaskId) {
    id in p.tasks || id in p.evictedIds
  }

  function Enqueue(p: Pool, task: Task, wireBytes: Option<nat>): (Pool, Reply) {
    if ContainsTaskId(p, task.id) then (p, Duplicate)
    else if wireBytes.None? then (p, EncodeFailed)
    else
      var sequence := p.nextSequence + 1;
      var stored := if task.createdSequence == 0 then task.(createdSequence := sequence) else task;
      (p.(tasks := p.tasks[task.id := Record(stored, Ready, None, None, None, 0)],
          wireBytes := p.wireBytes[task.id := wireBytes.value],
          nextSequence := sequence,
          stats := p.stats.(counts := RecordTransition(p.stats.counts, None, Some(Ready)),
                            submitted := p.stats.submitted + 1)),
       Done)
  }

  // ---------------------------------------------------------------- awaits

  function WithoutParent(awaits: seq<Await>, parent: TaskId): seq<Await> {
    if awaits == [] then []
    else if awaits[0].parent == parent then WithoutParent(awaits[1..], parent)
    else [awaits[0]] + WithoutParent(awaits[1..], parent)
  }

  function WithoutChild(awaits: seq<Await>, child: TaskId): seq<Await> {
    if awaits == [] then []
    else if awaits[0].child == child then WithoutChild(awaits[1..], child)
    else [awaits[0]] + WithoutChild(awaits[1..], child)
  }

  function UnlinkParent(byChild: Waits, parent: TaskId): Waits {
    map c | c in byChild && WithoutParent(byChild[c], parent) != [] :: WithoutParent(byChild[c], parent)
  }

  function UnlinkChild(byParent: Waits, child: TaskId): Waits {
    map q | q in byParent && WithoutChild(byParent[q], child) != [] :: WithoutChild(byParent[q], child)
  }

  /** Drops every await whose parent is `parent`, from both maps. */
  function RemoveWaitsForParent(p: Pool, parent: TaskId): Pool {
    p.(waitsByParent := p.waitsByParent - {parent}, waitsByChild := UnlinkParent(p.waitsByChild, parent))
  }

  /** Drops every await whose child is `child`, from both maps. */
  function RemoveWaitsForChild(p: Pool, child: TaskId): Pool {
    p.(waitsByChild := p.waitsByChild - {child}, waitsByParent := UnlinkChild(p.waitsByParent, child))
  }

  function AwaitsAt(waits: Waits, id: TaskId): seq<Await> {
    if id in waits then waits[id] else []
  }

  function AddAwait(p: Pool, a: Await): Pool {
    p.(waitsByChild := p.waitsByChild[a.child := AwaitsAt(p.waitsByChild, a.child) + [a]],
       waitsByParent := p.waitsByParent[a.parent := AwaitsAt(p.waitsByParent, a.parent) + [a]])
  }

  // ---------------------------------------------------------------- terminal history

  /** How many entries one compaction evicts: all it may, up to the excess over the limit. */
  function EvictionCount(p: Pool): nat {
    if p.retention.None? then 0
    else Max(0, Min(|Omit(p.terminalOrder, Protected(p))|, |p.terminalOrder| - p.retention.value.maxTerminal))
  }

  /** The evicted ids: the oldest unprotected entries in queue order. */
  function Victims(p: Pool): seq<TaskId>
    ensures |Victims(p)| == EvictionCount(p)
  {
    Omit(p.terminalOrder, Protected(p))[..EvictionCount(p)]
  }

  /** The queue position just behind the `evictions`-th entry outside `kept`. */
  function Cut(queue: seq<TaskId>, kept: set<TaskId>, evictions: nat): (k: nat)
    ensures k <= |queue|
  {
    if evictions == 0 || queue == [] then 0
    else 1 + Cut(queue[1..], kept, if queue[0] in kept then evictions else evictions - 1)
  }

  function UncountAll(counts: map<Status, nat>, tasks: map<TaskId, Record>, ids: seq<TaskId>): map<Status, nat> {
    if ids == [] then counts
    else
      var before := UncountAll(counts, tasks, ids[..|ids| - 1]);
      var id := ids[|ids| - 1];
      if id in tasks then RecordTransition(before, Some(tasks[id].status), None) else before
  }

  function RememberEvicted(order: seq<TaskId>, ids: seq<TaskId>, capacity: nat): seq<TaskId> {
    LastN(order + ids, capacity)
  }

  /** The pool without the evicted records, with `queue` as what is left of the terminal history. */
  function Evict(p: Pool, victims: seq<TaskId>, queue: seq<TaskId>, capacity: nat): Pool {
    var order := RememberEvicted(p.evictedOrder, victims, capacity);
    p.(tasks := p.tasks - ToSet(victims),
       wireBytes := p.wireBytes - ToSet(victims),
       terminalOrder := queue,
       evictedIds := ToSet(order),
       evictedOrder := order,
       stats := p.stats.(counts := UncountAll(p.stats.counts, p.tasks, victims),
                         evicted := p.stats.evicted + |victims|))
  }

  /** One compaction: the oldest unprotected terminal records go until the queue fits its limit. */
  function Compact(p: Pool): Pool {
    if p.retention.None? then p
    else
      var k := Cut(p.terminalOrder, Protected(p), EvictionCount(p));
      Evict(p, Victims(p), p.terminalOrder[k..] + Keep(p.terminalOrder[..k], Protected(p)), p.retention.value.maxEvicted)
  }

  function RecordTerminal(p: Pool, id: TaskId): Pool {
    if p.retention.None? then p
    else Compact(p.(terminalOrder := p.terminalOrder + [id]))
  }

  /** `order` lists the terminal ids by creation sequence; equal sequences come in any order. */
  ghost predicate TerminalListing(p: Pool, order: seq<TaskId>) {
    && NoDup(order)
    && ToSet(order) == TerminalIds(p.tasks)
    && forall i, j :: 0 <= i < j < |order| && order[i] in p.tasks && order[j] in p.tasks ==>
         p.tasks[order[i]].task.createdSequence <= p.tasks[order[j]].task.createdSequence
  }

  function Configure(p: Pool, retention: Option<Retention>, order: seq<TaskId>): Pool {
    if retention.None? then p.(retention := None, terminalOrder := [], evictedIds := {}, evictedOrder := [])
    else
      var kept := LastN(p.evictedOrder, retention.value.maxEvicted);
      Compact(p.(retention := retention, terminalOrder := order, evictedIds := ToSet(kept), evictedOrder := kept))
  }

  // ---------------------------------------------------------------- lease-checked transitions

  predicate LeaseExpired(lease: Lease, step: nat) {
    lease.expiresAt.Some? && step >= lease.expiresAt.value
  }

  predicate LeaseActive(record: Record, lease: Lease, step: nat) {
    && record.status == Running
    && record.claimedBy == Some(lease.runnerId)
    && record.lease == Some(lease)
    && !LeaseExpired(lease, step)
  }

  datatype LeasedAction = Complete | Fail | Cancel | Wait(readyAt: Option<nat>) | Defer | Block

  function ActionRecord(record: Record, action: LeasedAction): Record {
    match action
    case Complete => Finished(record, Completed)
    case Fail => Finished(record, Failed)
    case Cancel => Finished(record, Cancelled)
    case Wait(readyAt) => Released(record, Waiting).(task := record.task.(readyAt := readyAt))
    case Defer => Requeued(record).(ownerRunner := None)
    case Block => Released(record, Blocked)
  }

  function ApplyLeased(p: Pool, lease: Lease, step: nat, action: LeasedAction): (Pool, Reply) {
    var id := lease.taskId;
    if id !in p.tasks then (p, NotFound)
    else if !LeaseActive(p.tasks[id], lease, step) then (p, Conflict)
    else
      var moved := SetRecord(p, id, ActionRecord(p.tasks[id], action));
      var unlinked := if action.Cancel? then RemoveWaitsForParent(moved, id) else moved;
      (if IsTerminal(moved.tasks[id].status) then RecordTerminal(unlinked, id) else unlinked, Done)
  }

  predicate AwaitAllowed(parent: Record, child: Record, a: Await) {
    && !IsTerminal(child.status)
    && a.handle == child.task.descriptor
    && child.task.descriptor.trace == parent.task.descriptor.trace
    && child.task.descriptor.correlation == parent.task.descriptor.correlation
  }

  function WaitOnTask(p: Pool, lease: Lease, step: nat, a: Await): (Pool, Reply) {
    var id := lease.taskId;
    if a.parent != id then (p, Conflict)
    else if id !in p.tasks then (p, NotFound)
    else if !LeaseActive(p.tasks[id], lease, step) then (p, Conflict)
    else if a.child !in p.tasks then (p, NotFound)
    else if !AwaitAllowed(p.tasks[id], p.tasks[a.child], a) then (p, Conflict)
    else (AddAwait(SetRecord(p, id, ActionRecord(p.tasks[id], Wait(a.wakeAt))), a), Done)
  }

  // ---------------------------------------------------------------- transitions by the core

  function Wake(p: Pool, id: TaskId): (Pool, Reply) {
    if id !in p.tasks then (p, NotFound)
    else if !(p.tasks[id].status.Waiting? || p.tasks[id].status.Blocked?) then (p, Conflict)
    else (RemoveWaitsForParent(SetRecord(p, id, Requeued(p.tasks[id])), id), Done)
  }

  function RejectReady(p: Pool, id: TaskId): (Pool, Reply) {
    if id !in p.tasks then (p, NotFound)
    else if p.tasks[id].status != Ready then (p, Conflict)
    else (RecordTerminal(SetRecord(p, id, p.tasks[id].(status := Failed)), id), Done)
  }

  function TerminalByCore(p: Pool, id: TaskId, status: Status): (Pool, Reply)
    requires IsTerminal(status)
  {
    if id !in p.tasks then (p, NotFound)
    else if IsTerminal(p.tasks[id].status) then (p, Conflict)
    else (RecordTerminal(RemoveWaitsForParent(SetRecord(p, id, Finished(p.tasks[id], status)), id), id), Done)
  }

  datatype Claimer = Claimer(runner: RunnerId, executor: string, generation: nat, step: nat, expiresAt: Option<nat>)

  function NewLease(record: Record, claimer: Claimer): Lease {
    Lease(LeaseId(claimer.step, record.task.id, record.attempt + 1), record.task.id, record.attempt + 1,
          claimer.runner, claimer.executor, claimer.generation, claimer.step, claimer.expiresAt)
  }

  function ClaimedRecord(record: Record, lease: Lease): Record {
    record.(status := Running, claimedBy := Some(lease.runnerId), ownerRunner := Some(lease.runnerId),
            lease := Some(lease), attempt := lease.attempt)
  }

  function ClaimOne(p: Pool, id: TaskId, claimer: Claimer): Pool {
    if id !in p.tasks then p
    else SetRecord(p, id, ClaimedRecord(p.tasks[id], NewLease(p.tasks[id], claimer)))
  }

  /** Leases the selected ready tasks, one after the other. */
  function Claim(p: Pool, ids: seq<TaskId>, claimer: Claimer): Pool {
    if ids == [] then p else ClaimOne(Claim(p, ids[..|ids| - 1], claimer), ids[|ids| - 1], claimer)
  }

  /** Puts one running task back to ready: an expired lease, or a cancelled invocation. */
  function Reclaim(p: Pool, id: TaskId): Pool {
    if id !in p.tasks || p.tasks[id].status != Running then p
    else SetRecord(p, id, Requeued(p.tasks[id]))
  }

  predicate ReadyFor(r: Record, generation: nat) {
    r.status == Ready && r.task.generation == generation
  }

  function Rebound(r: Record, from: nat, to: nat): Record {
    if ReadyFor(r, from) then r.(task := r.task.(generation := to)) else r
  }

  /** Ready tasks of a replaced registry generation move to the new one. */
  function RebindReady(p: Pool, from: nat, to: nat): Pool {
    p.(tasks := map id | id in p.tasks :: Rebound(p.tasks[id], from, to))
  }

  function TakeWaitsForChild(p: Pool, child: TaskId): Pool {
    Compact(RemoveWaitsForChild(p, child))
  }

  /** The first half of an abort: the listed tasks are marked cancelled, none is queued yet. */
  function MarkCancelled(p: Pool, ids: seq<TaskId>): Pool {
    if ids == [] then p else MarkOne(MarkCancelled(p, ids[..|ids| - 1]), ids[|ids| - 1])
  }

  function MarkOne(p: Pool, id: TaskId): Pool {
    if id !in p.tasks then p else SetRecord(p, id, Finished(p.tasks[id], Cancelled))
  }

  /** The second half: each listed task loses its awaits and enters the terminal history. */
  function QueueCancelled(p: Pool, ids: seq<TaskId>): Pool {
    if ids == [] then p
    else
      var id := ids[|ids| - 1];
      RecordTerminal(RemoveWaitsForParent(QueueCancelled(p, ids[..|ids| - 1]), id), id)
  }

  function AbortAll(p: Pool, ids: seq<TaskId>): Pool {
    QueueCancelled(MarkCancelled(p, ids), ids)
  }
}
