/**
 The task pool as the runtime keeps it: maps, queues and counters changed in place. Each method is
 proved to move the fields exactly as TaskPoolModel says, so what holds of the model's runs holds here.
 */
module TaskPoolStore {
  import opened Sequences
  import opened TaskPoolModel
  import opened TaskPoolInvariants
  import opened TaskPoolRuns

  /** What the compaction loop relies on: queued ids are stored, distinct, and not remembered as gone. */
  ghost predicate Compactable(p: Pool) {
    && NoDup(p.terminalOrder)
    && ToSet(p.terminalOrder) <= p.tasks.Keys
    && EvictedOk(p.tasks.Keys, p.evictedIds, p.evictedOrder, EvictedCapacity(p.retention))
  }

  // ---------------------------------------------------------------- facts about one eviction

  lemma LastNAgain(s: seq<TaskId>, t: seq<TaskId>, x: TaskId, n: nat)
    ensures LastN(LastN(s + t, n) + [x], n) == LastN(s + (t + [x]), n)
  {
  }

  lemma EvictNext(p: Pool, victims: seq<TaskId>, id: TaskId, queue: seq<TaskId>, queue': seq<TaskId>, capacity: nat)
    requires id in p.tasks && id !in victims
    ensures var q, q' := Evict(p, victims, queue, capacity), Evict(p, victims + [id], queue', capacity);
      && id in q.tasks && q.tasks[id] == p.tasks[id]
      && q'.tasks == q.tasks - {id}
      && q'.wireBytes == q.wireBytes - {id}
      && q'.evictedOrder == LastN(q.evictedOrder + [id], capacity)
      && q'.stats == q.stats.(counts := RecordTransition(q.stats.counts, Some(p.tasks[id].status), None),
                              evicted := q.stats.evicted + 1)
  {
    SetSame(ToSet(victims + [id]), ToSet(victims) + {id});
    LastNAgain(p.evictedOrder, victims, id, capacity);
    assert (victims + [id])[..|victims|] == victims;
    assert p.tasks - ToSet(victims + [id]) == p.tasks - ToSet(victims) - {id};
    assert p.wireBytes - ToSet(victims + [id]) == p.wireBytes - ToSet(victims) - {id};
  }

  lemma {:induction false} OmitPrefix(queue: seq<TaskId>, kept: set<TaskId>, k: nat)
    requires k <= |queue|
    ensures Omit(queue[..k], kept) <= Omit(queue, kept)
    ensures |Omit(queue[..k], kept)| <= |Omit(queue, kept)|
  {
    assert queue == queue[..k] + queue[k..];
    OmitConcat(queue[..k], queue[k..], kept);
  }

  /** A prefix that ends in an evictable entry is found again by `Cut` from its number of evictions. */
  lemma {:induction false} CutFound(queue: seq<TaskId>, kept: set<TaskId>, k: nat)
    requires k <= |queue| && (k > 0 ==> queue[k - 1] !in kept)
    ensures Cut(queue, kept, |Omit(queue[..k], kept)|) == k
  {
    if k > 0 {
      assert queue[..k][1..] == queue[1..][..k - 1];
      if k > 1 {
        CutFound(queue[1..], kept, k - 1);
      } else {
        assert queue[..k] == [queue[0]];
        assert queue[1..][..0] == [];
        CutFound(queue[1..], kept, 0);
      }
      if queue[0] in kept {
        CutPositive(queue[1..], kept, k - 1);
      }
    }
  }

  lemma CutPositive(queue: seq<TaskId>, kept: set<TaskId>, k: nat)
    requires 0 < k <= |queue| && queue[k - 1] !in kept
    ensures |Omit(queue[..k], kept)| > 0
  {
    assert queue[..k] == queue[..k - 1] + [queue[k - 1]];
    OmitConcat(queue[..k - 1], [queue[k - 1]], kept);
  }

  /** The queue once its first `k` entries have been passed: the kept ones are at the back. */
  function Passed(queue: seq<TaskId>, kept: set<TaskId>, k: nat): seq<TaskId>
    requires k <= |queue|
  {
    queue[k..] + Keep(queue[..k], kept)
  }

  function Rotate(s: seq<TaskId>, r: nat): seq<TaskId>
    requires r <= |s|
  {
    s[r..] + s[..r]
  }

  /** The back of a passed queue is all kept, so an evictable entry is one not yet passed. */
  lemma NextVictimAhead(queue: seq<TaskId>, kept: set<TaskId>, k: nat, r: nat)
    requires k <= |queue| && r < |Passed(queue, kept, k)| && Passed(queue, kept, k)[r] !in kept
    ensures k + r < |queue| && queue[k + r] == Passed(queue, kept, k)[r]
  {
    var back := Keep(queue[..k], kept);
    KeepMembers(queue[..k], kept);
    forall i | 0 <= i < |back| ensures back[i] in kept {
      assert back[i] in ToSet(back);
    }
  }

  lemma PassedStep(queue: seq<TaskId>, kept: set<TaskId>, k: nat, r: nat)
    requires k + r < |queue| && queue[k + r] !in kept
    requires forall x :: x in queue[k..k + r] ==> x in kept
    ensures Omit(queue[..k + r + 1], kept) == Omit(queue[..k], kept) + [queue[k + r]]
    ensures Keep(queue[..k + r + 1], kept) == Keep(queue[..k], kept) + queue[k..k + r]
  {
    var passed, last := queue[k..k + r], [queue[k + r]];
    KeepAll(passed, kept);
    assert queue[..k + r + 1] == queue[..k] + (passed + last);
    KeepConcat(queue[..k], passed + last, kept);
    KeepConcat(passed, last, kept);
    OmitConcat(queue[..k], passed + last, kept);
    OmitConcat(passed, last, kept);
  }

  lemma NextVictim(queue: seq<TaskId>, kept: set<TaskId>, k: nat, r: nat)
    requires k <= |queue| && r < |Passed(queue, kept, k)| && Passed(queue, kept, k)[r] !in kept
    requires forall i :: 0 <= i < r ==> Passed(queue, kept, k)[i] in kept
    ensures k + r < |queue| && queue[k + r] == Passed(queue, kept, k)[r]
    ensures Omit(queue[..k + r + 1], kept) == Omit(queue[..k], kept) + [queue[k + r]]
    ensures Rotate(Passed(queue, kept, k), r)[1..] == Passed(queue, kept, k + r + 1)
  {
    NextVictimAhead(queue, kept, k, r);
    var base := Passed(queue, kept, k);
    assert base[..r] == queue[k..k + r];
    forall x | x in queue[k..k + r] ensures x in kept {
      var i :| 0 <= i < r && base[..r][i] == x;
      assert base[i] == x;
    }
    PassedStep(queue, kept, k, r);
    assert base[r + 1..] == queue[k + r + 1..] + Keep(queue[..k], kept);
    assert Rotate(base, r)[1..] == base[r + 1..] + base[..r];
  }

  /** Where the loop stops it has evicted what `Compact` evicts, and the queue is back in `Compact`'s order. */
  lemma LoopResult(p: Pool, k: nat, r: nat)
    requires p.retention.Some? && k <= |p.terminalOrder| && (k > 0 ==> p.terminalOrder[k - 1] !in Protected(p))
    requires r <= |Passed(p.terminalOrder, Protected(p), k)|
    requires forall i :: 0 <= i < r ==> Passed(p.terminalOrder, Protected(p), k)[i] in Protected(p)
    requires k > 0 ==> |Omit(p.terminalOrder[..k], Protected(p))| <= |p.terminalOrder| - p.retention.value.maxTerminal
    requires r > 0 ==> |p.terminalOrder| - |Omit(p.terminalOrder[..k], Protected(p))| > p.retention.value.maxTerminal
    requires || |p.terminalOrder| - |Omit(p.terminalOrder[..k], Protected(p))| <= p.retention.value.maxTerminal
             || r == |Passed(p.terminalOrder, Protected(p), k)|
    ensures Omit(p.terminalOrder[..k], Protected(p)) == Victims(p)
    ensures Cut(p.terminalOrder, Protected(p), EvictionCount(p)) == k
    ensures Rotate(Passed(p.terminalOrder, Protected(p), k), r) == Passed(p.terminalOrder, Protected(p), k)
  {
    var q, kept := p.terminalOrder, Protected(p);
    var done := Omit(q[..k], kept);
    OmitPrefix(q, kept, k);
    CutFound(q, kept, k);
    assert q == q[..k] + q[k..];
    OmitConcat(q[..k], q[k..], kept);
    KeepOmitSizes(q[..k], kept);
    var base := Passed(q, kept, k);
    if r == |base| {
      assert base[r..] + base[..r] == base;
      forall x | x in q[k..] ensures x in kept {
        var i :| 0 <= i < |q[k..]| && q[k..][i] == x;
        assert base[i] == x;
      }
      KeepAll(q[k..], kept);
      assert done == Omit(q, kept);
    } else {
      assert r == 0;
      assert base[r..] + base[..r] == base;
    }
    assert |done| == EvictionCount(p);
    assert done == Omit(q, kept)[..|done|];
  }

  /** What trimming to the last `n` entries pops from the front. */
  function FirstOut(s: seq<TaskId>, n: nat): seq<TaskId> {
    if |s| <= n then [] else s[..|s| - n]
  }

  /** When queue and set agree, the set that is left is the set of the queue that is left. */
  lemma TrimmedAgrees(order: seq<TaskId>, n: nat)
    requires NoDup(order)
    ensures NoDup(LastN(order, n)) && ToSet(order) - ToSet(FirstOut(order, n)) == ToSet(LastN(order, n))
  {
    var out, left := FirstOut(order, n), LastN(order, n);
    assert order == out + left;
    ToSetConcat(out, left);
    forall i, j | 0 <= i < |out| && 0 <= j < |left| ensures out[i] != left[j] {
      assert order[i] == out[i] && order[|out| + j] == left[j];
    }
  }

  lemma RememberedAgrees(order: seq<TaskId>, id: TaskId, n: nat)
    requires NoDup(order) && id !in order
    ensures NoDup(LastN(order + [id], n))
    ensures ToSet(order) + {id} - ToSet(FirstOut(order + [id], n)) == ToSet(LastN(order + [id], n))
  {
    TrimmedAgrees(order + [id], n);
    ToSetConcat(order, [id]);
  }

  // ---------------------------------------------------------------- what one turn of the loop does

  function KeepFront(m: Pool): Pool
    requires m.terminalOrder != []
  {
    m.(terminalOrder := m.terminalOrder[1..] + [m.terminalOrder[0]])
  }

  ghost predicate FrontEvictable(m: Pool, capacity: nat) {
    && m.terminalOrder != [] && m.terminalOrder[0] in m.tasks && m.terminalOrder[0] !in m.evictedIds
    && NoDup(m.evictedOrder) && m.evictedIds == ToSet(m.evictedOrder) && |m.evictedOrder| <= capacity
  }

  function EvictFront(m: Pool, capacity: nat): Pool
    requires m.terminalOrder != [] && m.terminalOrder[0] in m.tasks
  {
    var id := m.terminalOrder[0];
    var order := LastN(m.evictedOrder + [id], capacity);
    m.(tasks := m.tasks - {id}, wireBytes := m.wireBytes - {id}, terminalOrder := m.terminalOrder[1..],
       evictedOrder := order, evictedIds := ToSet(order),
       stats := m.stats.(counts := RecordTransition(m.stats.counts, Some(m.tasks[id].status), None),
                         evicted := m.stats.evicted + 1))
  }

  /** What one turn of the compaction loop makes of the pool. */
  function Turned(m: Pool, capacity: nat): Pool
    requires m.terminalOrder != [] && (m.terminalOrder[0] !in Protected(m) ==> m.terminalOrder[0] in m.tasks)
  {
    if m.terminalOrder[0] in Protected(m) then KeepFront(m) else EvictFront(m, capacity)
  }

  // ---------------------------------------------------------------- the pool

  class TaskPool {
    var tasks: map<TaskId, Record>
    var waitsByChild: Waits
    var waitsByParent: Waits
    var wireBytes: map<TaskId, nat>
    var terminalOrder: seq<TaskId>
    var evictedIds: set<TaskId>
    var evictedOrder: seq<TaskId>
    var retention: Option<Retention>
    var nextSequence: nat
    var stats: Statistics

    ghost function Model(): Pool
      reads this
    {
      Pool(tasks, waitsByChild, waitsByParent, wireBytes, terminalOrder, evictedIds, evictedOrder,
           retention, nextSequence, stats)
    }

    constructor ()
      ensures Model() == EmptyPool
    {
      tasks, waitsByChild, waitsByParent, wireBytes := map[], map[], map[], map[];
      terminalOrder, evictedIds, evictedOrder, retention := [], {}, [], None;
      nextSequence, stats := 0, Statistics(map[], 0, 0);
    }

    method EnqueueAt(task: Task, payloadBytes: Option<nat>) returns (reply: Reply)
      modifies this
      ensures (Model(), reply) == Enqueue(old(Model()), task, payloadBytes)
    {
      if task.id in tasks || task.id in evictedIds {
        return Duplicate;
      }
      if payloadBytes.None? {
        return EncodeFailed;
      }
      nextSequence := nextSequence + 1;
      var stored := task;
      if stored.createdSequence == 0 {
        stored := stored.(createdSequence := nextSequence);
      }
      tasks := tasks[task.id := Record(stored, Ready, None, None, None, 0)];
      wireBytes := wireBytes[task.id := payloadBytes.value];
      stats := stats.(submitted := stats.submitted + 1);
      RecordStatusTransition(None, Some(Ready));
      return Done;
    }

    method RecordStatusTransition(from: Option<Status>, to: Option<Status>)
      modifies this`stats
      ensures stats == old(stats).(counts := RecordTransition(old(stats.counts), from, to))
    {
      if from.Some? && from.value != Created {
        var n := Counter(stats.counts, from.value);
        stats := stats.(counts := stats.counts[from.value := if n > 0 then n - 1 else 0]);
      }
      if to.Some? && to.value != Created {
        stats := stats.(counts := stats.counts[to.value := Counter(stats.counts, to.value) + 1]);
      }
    }

    method TrimEvictedTaskIds(capacity: nat)
      modifies this`evictedIds, this`evictedOrder
      ensures evictedOrder == LastN(old(evictedOrder), capacity)
      ensures evictedIds == old(evictedIds) - ToSet(FirstOut(old(evictedOrder), capacity))
    {
      ghost var order, ids := evictedOrder, evictedIds;
      while |evictedOrder| > capacity
        invariant |evictedOrder| <= |order| && evictedOrder == order[|order| - |evictedOrder|..]
        invariant |evictedOrder| < |order| ==> |evictedOrder| >= capacity
        invariant evictedIds == ids - ToSet(order[..|order| - |evictedOrder|])
      {
        ghost var k := |order| - |evictedOrder|;
        assert order[..k + 1] == order[..k] + [evictedOrder[0]];
        ToSetConcat(order[..k], [evictedOrder[0]]);
        var expired := evictedOrder[0];
        evictedOrder := evictedOrder[1..];
        evictedIds := evictedIds - {expired};
      }
    }

    method RememberEvictedTaskId(id: TaskId, capacity: nat)
      modifies this`evictedIds, this`evictedOrder
      ensures capacity == 0 ==> evictedOrder == old(evictedOrder) && evictedIds == old(evictedIds)
      ensures capacity > 0 ==>
                && evictedOrder == LastN(old(evictedOrder) + [id], capacity)
                && evictedIds == old(evictedIds) + {id} - ToSet(FirstOut(old(evictedOrder) + [id], capacity))
    {
      if capacity == 0 {
        return;
      }
      evictedIds := evictedIds + {id};
      evictedOrder := evictedOrder + [id];
      TrimEvictedTaskIds(capacity);
    }

    /** Removes one queued record, its wire size and its count, and remembers its id. */
    method EvictRecord(id: TaskId, capacity: nat)
      requires id in tasks && id !in evictedIds
      requires NoDup(evictedOrder) && evictedIds == ToSet(evictedOrder) && |evictedOrder| <= capacity
      modifies this`tasks, this`wireBytes, this`stats, this`evictedIds, this`evictedOrder
      ensures tasks == old(tasks) - {id} && wireBytes == old(wireBytes) - {id}
      ensures evictedOrder == LastN(old(evictedOrder) + [id], capacity)
      ensures evictedIds == ToSet(evictedOrder) && NoDup(evictedOrder)
      ensures stats == old(stats).(counts := RecordTransition(old(stats.counts), Some(old(tasks)[id].status), None),
                                   evicted := old(stats).evicted + 1)
    {
      var status := tasks[id].status;
      tasks := tasks - {id};
      wireBytes := wireBytes - {id};
      RecordStatusTransition(Some(status), None);
      stats := stats.(evicted := stats.evicted + 1);
      RememberedAgrees(evictedOrder, id, capacity);
      RememberEvictedTaskId(id, capacity);
    }

    method SendFrontBack()
      requires terminalOrder != []
      modifies this`terminalOrder
      ensures Model() == KeepFront(old(Model()))
    {
      var id := terminalOrder[0];
      terminalOrder := terminalOrder[1..];
      terminalOrder := terminalOrder + [id];
    }

    method EvictFrontRecord(capacity: nat)
      requires FrontEvictable(Model(), capacity)
      modifies this`terminalOrder, this`tasks, this`wireBytes, this`stats, this`evictedIds, this`evictedOrder
      ensures Model() == EvictFront(old(Model()), capacity)
    {
      var id := terminalOrder[0];
      terminalOrder := terminalOrder[1..];
      EvictRecord(id, capacity);
    }

    /** One turn of the compaction loop: the front of the queue is evicted, or kept and sent to the back. */
    method ExamineFront() returns (kept: bool)
      requires retention.Some? && terminalOrder != []
      requires terminalOrder[0] !in Protected(Model()) ==> FrontEvictable(Model(), retention.value.maxEvicted)
      modifies this`terminalOrder, this`tasks, this`wireBytes, this`stats, this`evictedIds, this`evictedOrder
      ensures kept <==> old(terminalOrder[0] in Protected(Model()))
      ensures Model() == Turned(old(Model()), retention.value.maxEvicted)
    {
      if terminalOrder[0] in waitsByChild || terminalOrder[0] in waitsByParent {
        SendFrontBack();
        return true;
      }
      EvictFrontRecord(retention.value.maxEvicted);
      return false;
    }

    method CompactOnce(ghost p: Pool, ghost k: nat, examined: nat) returns (examined': nat, ghost k': nat)
      requires Compacting(p, Model(), k, examined)
      requires retention == p.retention && |terminalOrder| > retention.value.maxTerminal && examined < |terminalOrder|
      modifies this
      ensures Compacting(p, Model(), k', examined') && retention == old(retention)
      ensures || (|terminalOrder| == |old(terminalOrder)| && examined' == examined + 1)
              || |terminalOrder| < |old(terminalOrder)|
    {
      k' := LoopTurn(p, Model(), k, examined);
      var kept := ExamineFront();
      examined' := if kept then examined + 1 else 0;
    }

    method CompactTerminalHistory()
      requires Compactable(Model())
      modifies this
      ensures Model() == Compact(old(Model()))
    {
      if retention.None? {
        return;
      }
      var limit := retention.value.maxTerminal;
      var protectedExamined: nat := 0;
      ghost var p := Model();
      ghost var k: nat := 0;
      LoopStart(p);
      while |terminalOrder| > limit && protectedExamined < |terminalOrder|
        invariant Compacting(p, Model(), k, protectedExamined)
        invariant retention == p.retention
        decreases |terminalOrder|, |terminalOrder| - protectedExamined
      {
        protectedExamined, k := CompactOnce(p, k, protectedExamined);
      }
      LoopEnd(p, Model(), k, protectedExamined);
    }

    method RecordTerminalTask(id: TaskId)
      requires Inv(Model(), {id}, {})
      modifies this
      ensures Model() == RecordTerminal(old(Model()), id)
    {
      if retention.Some? {
        QueuedCompactable(Model(), id);
        terminalOrder := terminalOrder + [id];
        CompactTerminalHistory();
      }
    }

    /** Changes the record of a stored task and moves its count. */
    method StoreRecord(id: TaskId, record: Record)
      requires id in tasks
      modifies this`tasks, this`stats
      ensures Model() == SetRecord(old(Model()), id, record)
    {
      var previous := tasks[id].status;
      tasks := tasks[id := record];
      RecordStatusTransition(Some(previous), Some(record.status));
    }

    /** Drops the parent's awaits from one child's list, and the list with its last await. */
    method UnlinkFrom(c: TaskId, parent: TaskId, ghost byChild: Waits, ghost done: set<TaskId>)
      requires waitsByChild == UnlinkSome(byChild, parent, done)
      modifies this`waitsByChild
      ensures waitsByChild == UnlinkSome(byChild, parent, done + {c})
    {
      UnlinkNext(byChild, parent, done, c);
      if c in waitsByChild {
        var left := WithoutParent(waitsByChild[c], parent);
        if left == [] {
          waitsByChild := waitsByChild - {c};
        } else {
          waitsByChild := waitsByChild[c := left];
        }
      }
    }

    /** Forgets the awaits of `parent`, walking from its own list to each awaited child. */
    method RemoveWaits(parent: TaskId)
      requires WaitsOk(tasks.Keys, waitsByChild, waitsByParent)
      modifies this`waitsByChild, this`waitsByParent
      ensures Model() == RemoveWaitsForParent(old(Model()), parent)
    {
      ghost var byChild, byParent := waitsByChild, waitsByParent;
      ghost var done: set<TaskId> := {};
      UnlinkNothing(byChild, parent);
      var waits := AwaitsAt(waitsByParent, parent);
      waitsByParent := waitsByParent - {parent};
      var i := 0;
      while i < |waits|
        invariant 0 <= i <= |waits|
        invariant waitsByChild == UnlinkSome(byChild, parent, done) && waitsByParent == byParent - {parent}
        invariant forall a :: a in waits[..i] ==> a.child in done
      {
        UnlinkFrom(waits[i].child, parent, byChild, done);
        done := done + {waits[i].child};
        i := i + 1;
      }
      assert waits[..i] == waits;
      UnlinkAll(tasks.Keys, byChild, byParent, parent, done);
    }

    method FinishTask(id: TaskId, status: Status) returns (reply: Reply)
      requires Valid(Model()) && IsTerminal(status)
      modifies this
      ensures (Model(), reply) == TerminalByCore(old(Model()), id, status) && Valid(Model())
    {
      TerminalByCoreKeeps(Model(), id, status);
      if id !in tasks {
        return NotFound;
      }
      if IsTerminal(tasks[id].status) {
        return Conflict;
      }
      FinishStepsKeep(Model(), id, status);
      StoreRecord(id, Finished(tasks[id], status));
      RemoveWaits(id);
      RecordTerminalTask(id);
      return Done;
    }

    /** Complete, fail, cancel, wait, defer or block a task under its lease. */
    method LeasedTransition(lease: Lease, step: nat, action: LeasedAction) returns (reply: Reply)
      requires Valid(Model())
      modifies this
      ensures (Model(), reply) == ApplyLeased(old(Model()), lease, step, action) && Valid(Model())
    {
      ApplyLeasedKeeps(Model(), lease, step, action);
      var id := lease.taskId;
      if id !in tasks {
        return NotFound;
      }
      var record := tasks[id];
      if !LeaseActive(record, lease, step) {
        return Conflict;
      }
      LeasedStepsKeep(Model(), id, action);
      StoreRecord(id, ActionRecord(record, action));
      if action.Cancel? {
        RemoveWaits(id);
      }
      if action.Complete? || action.Fail? || action.Cancel? {
        RecordTerminalTask(id);
      }
      return Done;
    }

    /** Rewrites the ready records of one generation one by one and counts them. */
    method RebindReadyGeneration(from: nat, to: nat) returns (rebound: nat)
      modifies this`tasks
      ensures Model() == RebindReady(old(Model()), from, to)
      ensures rebound == |ReadyIds(old(tasks), from)|
    {
      rebound := 0;
      ghost var before := tasks;
      var left := tasks.Keys;
      RebindNothing(before, from, to);
      while left != {}
        invariant left <= before.Keys
        invariant tasks == RebindSome(before, before.Keys - left, from, to)
        invariant rebound == |ReadyIds(before, from) - left|
        decreases |left|
      {
        var id :| id in left;
        RebindNext(before, left, id, from, to);
        if ReadyFor(tasks[id], from) {
          tasks := tasks[id := Rebound(tasks[id], from, to)];
          rebound := rebound + 1;
        }
        left := left - {id};
      }
      RebindAll(before, from, to);
    }

    /** The terminal ids by creation sequence, gathered in whatever order the map yields them. */
    method ListTerminal() returns (order: seq<TaskId>)
      ensures TerminalListing(Model(), order)
    {
      order := [];
      var left := tasks.Keys;
      while left != {}
        invariant left <= tasks.Keys
        invariant Listed(tasks, order, tasks.Keys - left)
        decreases left
      {
        var id :| id in left;
        if IsTerminal(tasks[id].status) {
          var at := 0;
          while at < |order| && tasks[order[at]].task.createdSequence <= tasks[id].task.createdSequence
            invariant 0 <= at <= |order|
            invariant forall i :: 0 <= i < at ==> tasks[order[i]].task.createdSequence <= tasks[id].task.createdSequence
          {
            at := at + 1;
          }
          ListedInsert(tasks, order, tasks.Keys - left, id, at);
          order := order[..at] + [id] + order[at..];
        } else {
          ListedSkip(tasks, order, tasks.Keys - left, id);
        }
        left := left - {id};
        SetSame(tasks.Keys - left, tasks.Keys - (left + {id}) + {id});
      }
      SetSame(tasks.Keys - left, tasks.Keys);
      ListedDone(Model(), order);
    }

    method InstallRetention(limits: Retention, listing: seq<TaskId>)
      requires NoDup(evictedOrder) && evictedIds == ToSet(evictedOrder)
      requires Compactable(Relisted(Model(), limits, listing))
      modifies this
      ensures Model() == Configure(old(Model()), Some(limits), listing)
    {
      retention := Some(limits);
      terminalOrder := listing;
      TrimmedAgrees(evictedOrder, limits.maxEvicted);
      TrimEvictedTaskIds(limits.maxEvicted);
      CompactTerminalHistory();
    }

    method ConfigureHistoryRetention(newRetention: Option<Retention>) returns (ghost order: seq<TaskId>)
      requires Valid(Model())
      modifies this
      ensures newRetention.Some? ==> TerminalListing(old(Model()), order)
      ensures Model() == Configure(old(Model()), newRetention, order) && Valid(Model())
    {
      ghost var p := Model();
      order := [];
      if newRetention.None? {
        retention, terminalOrder, evictedIds, evictedOrder := None, [], {}, [];
      } else {
        var listing := ListTerminal();
        order := listing;
        ListedCompactable(p, newRetention.value, listing);
        InstallRetention(newRetention.value, listing);
      }
      ConfigureKeeps(p, newRetention, order);
    }
  }

  function ReadyIds(tasks: map<TaskId, Record>, generation: nat): set<TaskId> {
    set id | id in tasks && ReadyFor(tasks[id], generation)
  }

  /** The records once those in `done` have been looked at. */
  function RebindSome(tasks: map<TaskId, Record>, done: set<TaskId>, from: nat, to: nat): map<TaskId, Record> {
    map id | id in tasks :: if id in done then Rebound(tasks[id], from, to) else tasks[id]
  }

  lemma RebindNothing(tasks: map<TaskId, Record>, from: nat, to: nat)
    ensures tasks == RebindSome(tasks, tasks.Keys - tasks.Keys, from, to)
    ensures ReadyIds(tasks, from) - tasks.Keys == {}
  {
  }

  lemma RebindNext(tasks: map<TaskId, Record>, left: set<TaskId>, id: TaskId, from: nat, to: nat)
    requires left <= tasks.Keys && id in left
    ensures var now := RebindSome(tasks, tasks.Keys - left, from, to);
      && id in now && now[id] == tasks[id]
      && RebindSome(tasks, tasks.Keys - (left - {id}), from, to) == now[id := Rebound(tasks[id], from, to)]
      && (!ReadyFor(tasks[id], from) ==> now[id := Rebound(tasks[id], from, to)] == now)
    ensures |ReadyIds(tasks, from) - (left - {id})|
         == |ReadyIds(tasks, from) - left| + if ReadyFor(tasks[id], from) then 1 else 0
  {
    if ReadyFor(tasks[id], from) {
      SetInserted(ReadyIds(tasks, from) - left, ReadyIds(tasks, from) - (left - {id}), id);
    } else {
      SetSame(ReadyIds(tasks, from) - left, ReadyIds(tasks, from) - (left - {id}));
    }
  }

  lemma RebindAll(tasks: map<TaskId, Record>, from: nat, to: nat)
    ensures RebindSome(tasks, tasks.Keys - {}, from, to) == map id | id in tasks :: Rebound(tasks[id], from, to)
    ensures ReadyIds(tasks, from) - {} == ReadyIds(tasks, from)
  {
  }

  // ---------------------------------------------------------------- listing terminal records

  ghost predicate Listed(tasks: map<TaskId, Record>, order: seq<TaskId>, seen: set<TaskId>) {
    && NoDup(order)
    && (forall id :: id in order <==> id in seen && id in tasks && IsTerminal(tasks[id].status))
    && BySequence(tasks, order)
  }

  lemma ListedDone(p: Pool, order: seq<TaskId>)
    requires Listed(p.tasks, order, p.tasks.Keys)
    ensures TerminalListing(p, order)
  {
  }

  lemma ListedSkip(tasks: map<TaskId, Record>, order: seq<TaskId>, seen: set<TaskId>, id: TaskId)
    requires Listed(tasks, order, seen) && id in tasks && !IsTerminal(tasks[id].status)
    ensures Listed(tasks, order, seen + {id})
  {
  }

  lemma InsertedMembers(order: seq<TaskId>, id: TaskId, at: nat)
    requires NoDup(order) && id !in order && at <= |order|
    ensures NoDup(order[..at] + [id] + order[at..])
    ensures forall x :: x in order[..at] + [id] + order[at..] <==> x in order || x == id
  {
  }

  ghost predicate BySequence(tasks: map<TaskId, Record>, order: seq<TaskId>) {
    && (forall id :: id in order ==> id in tasks)
    && forall i, j :: 0 <= i < j < |order| ==> tasks[order[i]].task.createdSequence <= tasks[order[j]].task.createdSequence
  }

  lemma InsertedBySequence(tasks: map<TaskId, Record>, order: seq<TaskId>, id: TaskId, at: nat)
    requires BySequence(tasks, order) && id in tasks && at <= |order|
    requires forall i :: 0 <= i < at ==> tasks[order[i]].task.createdSequence <= tasks[id].task.createdSequence
    requires at < |order| ==> tasks[id].task.createdSequence < tasks[order[at]].task.createdSequence
    ensures BySequence(tasks, order[..at] + [id] + order[at..])
  {
  }

  lemma ListedInsert(tasks: map<TaskId, Record>, order: seq<TaskId>, seen: set<TaskId>, id: TaskId, at: nat)
    requires Listed(tasks, order, seen) && id !in seen && id in tasks && IsTerminal(tasks[id].status) && at <= |order|
    requires forall i :: 0 <= i < at ==> tasks[order[i]].task.createdSequence <= tasks[id].task.createdSequence
    requires at < |order| ==> tasks[id].task.createdSequence < tasks[order[at]].task.createdSequence
    ensures Listed(tasks, order[..at] + [id] + order[at..], seen + {id})
  {
    InsertedMembers(order, id, at);
    InsertedBySequence(tasks, order, id, at);
  }

  // ---------------------------------------------------------------- unlinking awaits

  /** The children's lists once the parent's awaits on the children in `done` have been followed. */
  function UnlinkSome(byChild: Waits, parent: TaskId, done: set<TaskId>): Waits {
    map c | c in byChild && (c in done ==> WithoutParent(byChild[c], parent) != [])
      :: if c in done then WithoutParent(byChild[c], parent) else byChild[c]
  }

  lemma WithoutParentTwice(awaits: seq<Await>, parent: TaskId)
    ensures WithoutParent(WithoutParent(awaits, parent), parent) == WithoutParent(awaits, parent)
  {
  }

  lemma WithoutParentSame(awaits: seq<Await>, parent: TaskId)
    requires forall a :: a in awaits ==> a.parent != parent
    ensures WithoutParent(awaits, parent) == awaits
  {
  }

  lemma UnlinkNothing(byChild: Waits, parent: TaskId)
    ensures UnlinkSome(byChild, parent, {}) == byChild
  {
  }

  lemma UnlinkNext(byChild: Waits, parent: TaskId, done: set<TaskId>, c: TaskId)
    ensures var before := UnlinkSome(byChild, parent, done);
      UnlinkSome(byChild, parent, done + {c}) ==
        if c !in before then before
        else if WithoutParent(before[c], parent) == [] then before - {c}
        else before[c := WithoutParent(before[c], parent)]
  {
    if c in byChild {
      WithoutParentTwice(byChild[c], parent);
    }
  }

  lemma UntouchedChild(stored: set<TaskId>, byChild: Waits, byParent: Waits, parent: TaskId, c: TaskId)
    requires WaitsOk(stored, byChild, byParent) && c in byChild
    requires forall a :: a in AwaitsAt(byParent, parent) ==> a.child != c
    ensures WithoutParent(byChild[c], parent) == byChild[c] != []
  {
    forall a | a in byChild[c] ensures a.parent != parent {
      assert a.child == c && a in byParent[a.parent];
    }
    WithoutParentSame(byChild[c], parent);
  }

  lemma UnlinkAll(stored: set<TaskId>, byChild: Waits, byParent: Waits, parent: TaskId, done: set<TaskId>)
    requires WaitsOk(stored, byChild, byParent)
    requires forall a :: a in AwaitsAt(byParent, parent) ==> a.child in done
    ensures UnlinkSome(byChild, parent, done) == UnlinkParent(byChild, parent)
  {
    forall c | c in byChild && c !in done ensures WithoutParent(byChild[c], parent) == byChild[c] != [] {
      UntouchedChild(stored, byChild, byParent, parent, c);
    }
    SameUnlink(byChild, parent, done);
  }

  lemma SameUnlink(byChild: Waits, parent: TaskId, done: set<TaskId>)
    requires forall c :: c in byChild && c !in done ==> WithoutParent(byChild[c], parent) == byChild[c] != []
    ensures UnlinkSome(byChild, parent, done) == UnlinkParent(byChild, parent)
  {
  }

  lemma FinishStepsKeep(p: Pool, id: TaskId, status: Status)
    requires Valid(p) && IsTerminal(status) && id in p.tasks && !IsTerminal(p.tasks[id].status)
    ensures var moved := SetRecord(p, id, Finished(p.tasks[id], status));
      && WaitsOk(moved.tasks.Keys, moved.waitsByChild, moved.waitsByParent)
      && Inv(RemoveWaitsForParent(moved, id), {id}, {})
  {
    ReleasedOk(id, p.tasks[id], status);
    EndKeeps(p, id, Finished(p.tasks[id], status), {id});
    RemoveParentKeeps(SetRecord(p, id, Finished(p.tasks[id], status)), id, {id}, {id});
    SetSame({id} - {id}, {});
  }

  lemma LeasedStepsKeep(p: Pool, id: TaskId, action: LeasedAction)
    requires Valid(p) && id in p.tasks && p.tasks[id].status == Running
    ensures var moved := SetRecord(p, id, ActionRecord(p.tasks[id], action));
      && WaitsOk(moved.tasks.Keys, moved.waitsByChild, moved.waitsByParent)
      && (IsTerminal(moved.tasks[id].status) <==> action.Complete? || action.Fail? || action.Cancel?)
      && (action.Complete? || action.Fail? ==> Inv(moved, {id}, {}))
      && (action.Cancel? ==> Inv(RemoveWaitsForParent(moved, id), {id}, {}))
  {
    ActionRecordOk(p.tasks[id], id, action);
    UpdateKeys(p.tasks, id, ActionRecord(p.tasks[id], action));
    if action.Complete? || action.Fail? || action.Cancel? {
      LeasedEndKeeps(p, id, action);
    }
  }

  // ---------------------------------------------------------------- the compaction loop

  lemma QueuedCompactable(p: Pool, id: TaskId)
    requires Inv(p, {id}, {}) && p.retention.Some?
    ensures Compactable(p.(terminalOrder := p.terminalOrder + [id]))
  {
    PendingNotQueued(p, {id}, id);
    SetSame(ToSet(p.terminalOrder + [id]), ToSet(p.terminalOrder) + {id});
    TerminalsStored(p.tasks);
  }

  lemma TerminalsStored(tasks: map<TaskId, Record>)
    ensures TerminalIds(tasks) <= tasks.Keys
  {
  }

  /** A fresh terminal listing and a horizon cut to the new capacity, before any compaction. */
  function Relisted(p: Pool, retention: Retention, order: seq<TaskId>): Pool {
    var kept := LastN(p.evictedOrder, retention.maxEvicted);
    p.(retention := Some(retention), terminalOrder := order, evictedIds := ToSet(kept), evictedOrder := kept)
  }

  lemma ListedCompactable(p: Pool, retention: Retention, order: seq<TaskId>)
    requires Valid(p) && TerminalListing(p, order)
    ensures Compactable(Relisted(p, retention, order)) && NoDup(p.evictedOrder) && p.evictedIds == ToSet(p.evictedOrder)
  {
  }

  /**
   The loop's invariant: the first `k` entries of the original queue are dealt with, the last of
   them was evicted, and since then `r` kept entries went from the front to the back.
   */
  ghost predicate Compacting(p: Pool, m: Pool, k: nat, r: nat)
  {
    && Compactable(p) && p.retention.Some?
    && k <= |p.terminalOrder| && (k > 0 ==> p.terminalOrder[k - 1] !in Protected(p))
    && r <= |Passed(p.terminalOrder, Protected(p), k)|
    && m == Evict(p, Omit(p.terminalOrder[..k], Protected(p)), Rotate(Passed(p.terminalOrder, Protected(p), k), r),
                  p.retention.value.maxEvicted)
    && (forall i :: 0 <= i < r ==> Passed(p.terminalOrder, Protected(p), k)[i] in Protected(p))
    && (k > 0 ==> |m.terminalOrder| >= p.retention.value.maxTerminal)
    && (r > 0 ==> |m.terminalOrder| > p.retention.value.maxTerminal)
  }

  lemma LoopStart(p: Pool)
    requires Compactable(p) && p.retention.Some?
    ensures Compacting(p, p, 0, 0)
  {
  }

  lemma LoopFront(p: Pool, m: Pool, k: nat, r: nat)
    requires Compacting(p, m, k, r) && r < |m.terminalOrder|
    ensures m.terminalOrder[0] == Passed(p.terminalOrder, Protected(p), k)[r]
    ensures Protected(m) == Protected(p)
  {
  }

  lemma LoopRotate(p: Pool, m: Pool, k: nat, r: nat)
    requires Compacting(p, m, k, r) && r < |m.terminalOrder|
    requires |m.terminalOrder| > p.retention.value.maxTerminal && m.terminalOrder[0] in Protected(p)
    ensures Compacting(p, KeepFront(m), k, r + 1)
  {
    RotateNext(Passed(p.terminalOrder, Protected(p), k), r);
  }

  lemma PassedSize(queue: seq<TaskId>, kept: set<TaskId>, k: nat)
    requires k <= |queue|
    ensures |Passed(queue, kept, k)| == |queue| - |Omit(queue[..k], kept)|
  {
    KeepOmitSizes(queue[..k], kept);
  }

  lemma LoopEvict(p: Pool, m: Pool, k: nat, r: nat)
    requires Compacting(p, m, k, r) && r < |m.terminalOrder|
    requires |m.terminalOrder| > p.retention.value.maxTerminal && m.terminalOrder[0] !in Protected(p)
    ensures FrontEvictable(m, p.retention.value.maxEvicted)
    ensures Compacting(p, EvictFront(m, p.retention.value.maxEvicted), k + r + 1, 0)
  {
    var queue, kept, capacity := p.terminalOrder, Protected(p), p.retention.value.maxEvicted;
    var victims := Omit(queue[..k], kept);
    NextVictim(queue, kept, k, r);
    VictimStored(p, k, r);
    EvictNext(p, victims, queue[k + r], m.terminalOrder, m.terminalOrder[1..], capacity);
    EvictedFresh(p, victims, queue[k + r], capacity);
    EvictedDistinct(p, k);
    assert Rotate(Passed(queue, kept, k + r + 1), 0) == Passed(queue, kept, k + r + 1);
  }

  lemma LoopTurn(p: Pool, m: Pool, k: nat, r: nat) returns (k': nat)
    requires Compacting(p, m, k, r) && r < |m.terminalOrder| && |m.terminalOrder| > p.retention.value.maxTerminal
    ensures m.terminalOrder[0] !in Protected(m) ==> FrontEvictable(m, p.retention.value.maxEvicted)
    ensures var r' := if m.terminalOrder[0] in Protected(m) then r + 1 else 0;
      Compacting(p, Turned(m, p.retention.value.maxEvicted), k', r')
    ensures |Turned(m, p.retention.value.maxEvicted).terminalOrder|
         == |m.terminalOrder| - if m.terminalOrder[0] in Protected(m) then 0 else 1
  {
    LoopFront(p, m, k, r);
    if m.terminalOrder[0] in Protected(m) {
      LoopRotate(p, m, k, r);
      k' := k;
    } else {
      LoopEvict(p, m, k, r);
      k' := k + r + 1;
    }
  }

  lemma LoopEnd(p: Pool, m: Pool, k: nat, r: nat)
    requires Compacting(p, m, k, r)
    requires |m.terminalOrder| <= p.retention.value.maxTerminal || r >= |m.terminalOrder|
    ensures m == Compact(p)
  {
    PassedSize(p.terminalOrder, Protected(p), k);
    LoopResult(p, k, r);
  }

  lemma RotateNext(s: seq<TaskId>, r: nat)
    requires r < |s|
    ensures Rotate(s, r) != [] && Rotate(s, r)[0] == s[r]
    ensures Rotate(s, r)[1..] + [s[r]] == Rotate(s, r + 1)
  {
  }

  /** The next victim is stored and was not evicted before. */
  lemma VictimStored(p: Pool, k: nat, r: nat)
    requires Compactable(p) && k + r < |p.terminalOrder|
    ensures p.terminalOrder[k + r] in p.tasks
    ensures p.terminalOrder[k + r] !in Omit(p.terminalOrder[..k], Protected(p))
  {
    var id := p.terminalOrder[k + r];
    assert id in ToSet(p.terminalOrder);
    OmitMembers(p.terminalOrder[..k], Protected(p));
    assert id !in p.terminalOrder[..k];
    assert id !in ToSet(Omit(p.terminalOrder[..k], Protected(p)));
  }

  lemma EvictedDistinct(p: Pool, k: nat)
    requires Compactable(p) && p.retention.Some? && k <= |p.terminalOrder|
    ensures var order := RememberEvicted(p.evictedOrder, Omit(p.terminalOrder[..k], Protected(p)), p.retention.value.maxEvicted);
      NoDup(order) && |order| <= p.retention.value.maxEvicted
  {
    var victims := Omit(p.terminalOrder[..k], Protected(p));
    OmitNoDup(p.terminalOrder[..k], Protected(p));
    OmitMembers(p.terminalOrder[..k], Protected(p));
    forall id | id in victims ensures id in p.tasks {
      assert id in ToSet(victims);
      assert id in ToSet(p.terminalOrder);
    }
    RememberKeeps(p.tasks.Keys, p.evictedIds, p.evictedOrder, p.retention.value.maxEvicted, victims);
  }

  lemma EvictedFresh(p: Pool, victims: seq<TaskId>, id: TaskId, capacity: nat)
    requires EvictedOk(p.tasks.Keys, p.evictedIds, p.evictedOrder, capacity)
    requires id in p.tasks && id !in victims
    ensures id !in RememberEvicted(p.evictedOrder, victims, capacity)
  {
  }
}
