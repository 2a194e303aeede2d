/**
 What every task-pool operation keeps. `pending` names tasks that are already marked terminal but
 not yet entered in the terminal history, and `loose` tasks that left `Waiting` while their await is
 still recorded: both are empty between operations and hold the middle of an operation together.
 */
module TaskPoolInvariants {
  import opened Sequences
  import opened TaskPoolModel

  type Records = map<TaskId, Record>

  ghost predicate CountersExact(tasks: Records, counts: map<Status, nat>) {
    forall status: Status :: status != Created ==> Counter(counts, status) == |IdsWith(tasks, status)|
  }

  ghost predicate RecordOk(id: TaskId, r: Record) {
    && r.task.id == id
    && r.status != Created
    && (r.status == Running <==> r.lease.Some?)
    && (r.lease.Some? ==>
          && r.claimedBy == Some(r.lease.value.runnerId)
          && r.lease.value.taskId == id
          && r.lease.value.attempt == r.attempt)
    && (r.lease.None? ==> r.claimedBy.None?)
  }

  ghost predicate RecordsOk(tasks: Records) {
    forall id :: id in tasks ==> RecordOk(id, tasks[id])
  }

  ghost predicate HistoryOk(terminal: set<TaskId>, order: seq<TaskId>, retained: bool, pending: set<TaskId>) {
    && pending <= terminal
    && NoDup(order)
    && ToSet(order) == if retained then terminal - pending else {}
  }

  ghost predicate EvictedOk(stored: set<TaskId>, ids: set<TaskId>, order: seq<TaskId>, capacity: nat) {
    && NoDup(order)
    && ids == ToSet(order)
    && ids !! stored
    && |order| <= capacity
  }

  function EvictedCapacity(retention: Option<Retention>): nat {
    if retention.None? then 0 else retention.value.maxEvicted
  }

  /** The two await maps are inverse views of one relation between stored tasks. */
  ghost predicate WaitsOk(stored: set<TaskId>, byChild: Waits, byParent: Waits) {
    && (forall c :: c in byChild ==> c in stored && byChild[c] != [])
    && (forall q :: q in byParent ==> q in stored && |byParent[q]| == 1)
    && (forall c, a :: c in byChild && a in byChild[c] ==>
          a.child == c && a.parent in byParent && a in byParent[a.parent])
    && (forall q, a :: q in byParent && a in byParent[q] ==>
          a.parent == q && a.child in byChild && a in byChild[a.child])
  }

  ghost predicate ParentsWaiting(tasks: Records, byParent: Waits, loose: set<TaskId>) {
    forall q :: q in byParent ==> q in tasks && (tasks[q].status == Waiting || q in loose)
  }

  ghost predicate Inv(p: Pool, pending: set<TaskId>, loose: set<TaskId>) {
    && CountersExact(p.tasks, p.stats.counts)
    && RecordsOk(p.tasks)
    && p.wireBytes.Keys == p.tasks.Keys
    && p.stats.submitted == |p.tasks| + p.stats.evicted
    && HistoryOk(TerminalIds(p.tasks), p.terminalOrder, p.retention.Some?, pending)
    && EvictedOk(p.tasks.Keys, p.evictedIds, p.evictedOrder, EvictedCapacity(p.retention))
    && WaitsOk(p.tasks.Keys, p.waitsByChild, p.waitsByParent)
    && ParentsWaiting(p.tasks, p.waitsByParent, loose)
  }

  ghost predicate Valid(p: Pool) {
    Inv(p, {}, {})
  }

  /**
   What no operation other than an enqueue undoes: a finished task never becomes live again, eviction
   only adds to its counter, and a lease that stopped being current never becomes current again.
   */
  ghost predicate Evolves(p: Pool, p': Pool) {
    && p'.tasks.Keys <= p.tasks.Keys
    && Live(p') <= Live(p)
    && p'.stats.submitted == p.stats.submitted
    && p'.stats.evicted >= p.stats.evicted
    && forall id :: id in p'.tasks && id in p.tasks ==> Fenced(p.tasks[id], p'.tasks[id])
  }

  ghost predicate Fenced(r: Record, r': Record) {
    && r'.attempt >= r.attempt
    && (r'.attempt == r.attempt ==> r'.lease == r.lease || r'.lease.None?)
  }

  // ---------------------------------------------------------------- counting

  lemma CounterAfterTransition(counts: map<Status, nat>, from: Option<Status>, to: Option<Status>, status: Status)
    requires status != Created
    ensures Counter(RecordTransition(counts, from, to), status)
         == Max(0, Counter(counts, status) - (if from == Some(status) then 1 else 0))
            + (if to == Some(status) then 1 else 0)
  {
  }

  lemma IdsWithout(tasks: Records, id: TaskId, status: Status)
    requires id in tasks
    ensures |IdsWith(tasks, status)| == |IdsWith(tasks - {id}, status)| + (if tasks[id].status == status then 1 else 0)
  {
    var rest := IdsWith(tasks - {id}, status);
    if tasks[id].status == status {
      SetInserted(rest, IdsWith(tasks, status), id);
    } else {
      SetSame(rest, IdsWith(tasks, status));
    }
  }

  lemma IdsInserted(tasks: Records, id: TaskId, r: Record, status: Status)
    requires id !in tasks
    ensures |IdsWith(tasks[id := r], status)| == |IdsWith(tasks, status)| + (if r.status == status then 1 else 0)
  {
    IdsWithout(tasks[id := r], id, status);
    assert tasks[id := r] - {id} == tasks;
  }

  lemma SetRecordCounts(tasks: Records, counts: map<Status, nat>, id: TaskId, r: Record)
    requires CountersExact(tasks, counts) && id in tasks && tasks[id].status != Created
    ensures CountersExact(tasks[id := r], RecordTransition(counts, Some(tasks[id].status), Some(r.status)))
  {
    forall status: Status | status != Created
      ensures Counter(RecordTransition(counts, Some(tasks[id].status), Some(r.status)), status)
           == |IdsWith(tasks[id := r], status)|
    {
      CounterAfterTransition(counts, Some(tasks[id].status), Some(r.status), status);
      IdsWithout(tasks, id, status);
      IdsInserted(tasks - {id}, id, r, status);
      assert (tasks - {id})[id := r] == tasks[id := r];
    }
  }

  function IdsIn(tasks: Records, statuses: set<Status>): set<TaskId> {
    set id | id in tasks && tasks[id].status in statuses
  }

  lemma IdsInInsert(tasks: Records, statuses: set<Status>, status: Status)
    requires status !in statuses
    ensures |IdsIn(tasks, statuses + {status})| == |IdsIn(tasks, statuses)| + |IdsWith(tasks, status)|
  {
    assert IdsIn(tasks, statuses + {status}) == IdsIn(tasks, statuses) + IdsWith(tasks, status);
    assert IdsIn(tasks, statuses) !! IdsWith(tasks, status);
  }

  lemma IdsInSingle(tasks: Records, status: Status)
    ensures IdsIn(tasks, {status}) == IdsWith(tasks, status)
  {
  }

  lemma IdsInTerminal(tasks: Records, statuses: set<Status>)
    requires forall status: Status :: status in statuses <==> IsTerminal(status)
    ensures IdsIn(tasks, statuses) == TerminalIds(tasks)
  {
  }

  /** The retained part of the revision is the number of terminal records. */
  lemma TerminalCount(p: Pool)
    requires CountersExact(p.tasks, p.stats.counts)
    ensures Revision(p) == |TerminalIds(p.tasks)| + p.stats.evicted
  {
    var s1 := {Completed};
    var s2 := s1 + {Failed};
    var s3 := s2 + {Cancelled};
    var s4 := s3 + {Expired};
    IdsInInsert(p.tasks, s1, Failed);
    IdsInInsert(p.tasks, s2, Cancelled);
    IdsInInsert(p.tasks, s3, Expired);
    IdsInInsert(p.tasks, s4, DeadLetter);
    IdsInSingle(p.tasks, Completed);
    IdsInTerminal(p.tasks, s4 + {DeadLetter});
  }

  lemma SplitSize(whole: set<TaskId>, a: set<TaskId>, b: set<TaskId>)
    requires forall x :: x in whole <==> x in a || x in b
    requires forall x :: x in a ==> x !in b
    ensures |whole| == |a| + |b|
  {
    assert whole == a + b;
    assert a !! b;
  }

  /** Conservation: every submitted task is either still live or counted once by the revision. */
  lemma SubmittedSplit(p: Pool)
    requires CountersExact(p.tasks, p.stats.counts) && p.stats.submitted == |p.tasks| + p.stats.evicted
    ensures p.stats.submitted == |Live(p)| + Revision(p)
  {
    TerminalCount(p);
    SplitSize(p.tasks.Keys, Live(p), TerminalIds(p.tasks));
    assert |p.tasks.Keys| == |p.tasks|;
  }

  lemma EvolvesTransitive(p: Pool, q: Pool, r: Pool)
    requires Evolves(p, q) && Evolves(q, r)
    ensures Evolves(p, r)
  {
  }

  // ---------------------------------------------------------------- one record changes

  lemma UpdateTerminalIds(tasks: Records, id: TaskId, r: Record)
    requires id in tasks && !IsTerminal(tasks[id].status)
    ensures TerminalIds(tasks[id := r]) == TerminalIds(tasks) + TerminalPart(id, r)
    ensures id !in TerminalIds(tasks)
  {
  }

  lemma UpdateKeys(tasks: Records, id: TaskId, r: Record)
    requires id in tasks
    ensures tasks[id := r].Keys == tasks.Keys && |tasks[id := r]| == |tasks|
  {
  }

  lemma SetRecordEvolves(p: Pool, id: TaskId, r: Record)
    requires id in p.tasks && !IsTerminal(p.tasks[id].status) && Fenced(p.tasks[id], r)
    ensures Evolves(p, SetRecord(p, id, r))
    ensures Live(SetRecord(p, id, r)) == Live(p) - TerminalPart(id, r)
  {
  }

  lemma AddTerminal(terminal: set<TaskId>, order: seq<TaskId>, retained: bool, pending: set<TaskId>, more: set<TaskId>)
    requires HistoryOk(terminal, order, retained, pending) && more !! terminal
    ensures HistoryOk(terminal + more, order, retained, pending + more)
  {
  }

  lemma UpdateRecordsOk(tasks: Records, id: TaskId, r: Record)
    requires RecordsOk(tasks) && RecordOk(id, r)
    ensures RecordsOk(tasks[id := r])
  {
  }

  lemma UpdateParents(tasks: Records, byParent: Waits, id: TaskId, r: Record, loose: set<TaskId>, loose': set<TaskId>)
    requires ParentsWaiting(tasks, byParent, loose) && loose <= loose'
    requires id in byParent ==> r.status == Waiting || id in loose'
    ensures ParentsWaiting(tasks[id := r], byParent, loose')
  {
  }

  function TerminalPart(id: TaskId, r: Record): set<TaskId> {
    if IsTerminal(r.status) then {id} else {}
  }

  lemma SetRecordKeeps(p: Pool, id: TaskId, r: Record, pending: set<TaskId>, loose: set<TaskId>, loose': set<TaskId>)
    requires Inv(p, pending, loose) && loose <= loose'
    requires id in p.tasks && !IsTerminal(p.tasks[id].status) && RecordOk(id, r)
    requires id in p.waitsByParent ==> r.status == Waiting || id in loose'
    ensures Inv(SetRecord(p, id, r), pending + TerminalPart(id, r), loose')
  {
    SetRecordCounts(p.tasks, p.stats.counts, id, r);
    UpdateTerminalIds(p.tasks, id, r);
    UpdateKeys(p.tasks, id, r);
    UpdateRecordsOk(p.tasks, id, r);
    UpdateParents(p.tasks, p.waitsByParent, id, r, loose, loose');
    AddTerminal(TerminalIds(p.tasks), p.terminalOrder, p.retention.Some?, pending, TerminalPart(id, r));
  }

  // ---------------------------------------------------------------- awaits

  lemma WithoutParentMembers(awaits: seq<Await>, parent: TaskId)
    ensures forall a :: a in WithoutParent(awaits, parent) <==> a in awaits && a.parent != parent
  {
  }

  lemma WithoutChildMembers(awaits: seq<Await>, child: TaskId)
    ensures forall a :: a in WithoutChild(awaits, child) <==> a in awaits && a.child != child
    ensures |WithoutChild(awaits, child)| <= |awaits|
  {
  }

  lemma UnlinkParentMembers(byChild: Waits, parent: TaskId, c: TaskId, a: Await)
    ensures c in UnlinkParent(byChild, parent) && a in UnlinkParent(byChild, parent)[c]
       <==> c in byChild && a in byChild[c] && a.parent != parent
  {
    if c in byChild {
      WithoutParentMembers(byChild[c], parent);
    }
  }

  lemma RemoveParentWaits(stored: set<TaskId>, byChild: Waits, byParent: Waits, parent: TaskId)
    requires WaitsOk(stored, byChild, byParent)
    ensures WaitsOk(stored, UnlinkParent(byChild, parent), byParent - {parent})
  {
    var byChild': Waits := UnlinkParent(byChild, parent);
    forall c, a | c in byChild' && a in byChild'[c]
      ensures a.child == c && a.parent in byParent - {parent} && a in byParent[a.parent]
    {
      UnlinkParentMembers(byChild, parent, c, a);
    }
    forall q, a | q in byParent - {parent} && a in byParent[q]
      ensures a.parent == q && a.child in byChild' && a in byChild'[a.child]
    {
      UnlinkParentMembers(byChild, parent, a.child, a);
    }
  }

  lemma UnlinkChildMembers(byParent: Waits, child: TaskId, q: TaskId, a: Await)
    ensures q in UnlinkChild(byParent, child) && a in UnlinkChild(byParent, child)[q]
       <==> q in byParent && a in byParent[q] && a.child != child
    ensures q in UnlinkChild(byParent, child) ==> q in byParent && 0 < |UnlinkChild(byParent, child)[q]| <= |byParent[q]|
  {
    if q in byParent {
      WithoutChildMembers(byParent[q], child);
    }
  }

  lemma RemoveChildWaits(stored: set<TaskId>, byChild: Waits, byParent: Waits, child: TaskId)
    requires WaitsOk(stored, byChild, byParent)
    ensures WaitsOk(stored, byChild - {child}, UnlinkChild(byParent, child))
  {
    var byParent': Waits := UnlinkChild(byParent, child);
    forall q | q in byParent' ensures q in stored && |byParent'[q]| == 1 {
      UnlinkChildMembers(byParent, child, q, byParent[q][0]);
    }
    forall c, a | c in byChild - {child} && a in byChild[c]
      ensures a.child == c && a.parent in byParent' && a in byParent'[a.parent]
    {
      UnlinkChildMembers(byParent, child, a.parent, a);
    }
    forall q, a | q in byParent' && a in byParent'[q]
      ensures a.parent == q && a.child in byChild - {child} && a in byChild[a.child]
    {
      UnlinkChildMembers(byParent, child, q, a);
    }
  }

  lemma RemoveParentKeeps(p: Pool, parent: TaskId, pending: set<TaskId>, loose: set<TaskId>)
    requires Inv(p, pending, loose)
    ensures Inv(RemoveWaitsForParent(p, parent), pending, loose - {parent})
    ensures Evolves(p, RemoveWaitsForParent(p, parent))
  {
    RemoveParentWaits(p.tasks.Keys, p.waitsByChild, p.waitsByParent, parent);
  }

  lemma RemoveChildKeeps(p: Pool, child: TaskId, pending: set<TaskId>, loose: set<TaskId>)
    requires Inv(p, pending, loose)
    ensures Inv(RemoveWaitsForChild(p, child), pending, loose)
    ensures Evolves(p, RemoveWaitsForChild(p, child))
  {
    RemoveChildWaits(p.tasks.Keys, p.waitsByChild, p.waitsByParent, child);
  }

  lemma AddAwaitWaits(stored: set<TaskId>, byChild: Waits, byParent: Waits, a: Await)
    requires WaitsOk(stored, byChild, byParent) && a.parent in stored && a.child in stored && a.parent !in byParent
    ensures WaitsOk(stored, byChild[a.child := AwaitsAt(byChild, a.child) + [a]], byParent[a.parent := [a]])
  {
  }

  lemma AddAwaitKeeps(p: Pool, a: Await)
    requires Valid(p) && a.parent in p.tasks && a.child in p.tasks
    requires p.tasks[a.parent].status == Waiting && a.parent !in p.waitsByParent
    ensures Valid(AddAwait(p, a)) && Evolves(p, AddAwait(p, a))
  {
    AddAwaitWaits(p.tasks.Keys, p.waitsByChild, p.waitsByParent, a);
    assert [] + [a] == [a];
  }

  // ---------------------------------------------------------------- compaction

  /** `Cut` lands behind exactly the requested number of evictable entries. */
  lemma CutSplits(queue: seq<TaskId>, kept: set<TaskId>, evictions: nat)
    requires evictions <= |Omit(queue, kept)|
    ensures Omit(queue[..Cut(queue, kept, evictions)], kept) == Omit(queue, kept)[..evictions]
  {
    if evictions > 0 && queue != [] {
      var next := if queue[0] in kept then evictions else evictions - 1;
      CutSplits(queue[1..], kept, next);
      var k := Cut(queue[1..], kept, next);
      assert queue[..k + 1][1..] == queue[1..][..k];
    }
  }

  lemma UncountOne(tasks: Records, counts: map<Status, nat>, id: TaskId)
    requires CountersExact(tasks, counts) && id in tasks && tasks[id].status != Created
    ensures CountersExact(tasks - {id}, RecordTransition(counts, Some(tasks[id].status), None))
  {
    var rest := tasks - {id};
    forall status: Status | status != Created
      ensures Counter(RecordTransition(counts, Some(tasks[id].status), None), status) == |IdsWith(rest, status)|
    {
      CounterAfterTransition(counts, Some(tasks[id].status), None, status);
      IdsWithout(tasks, id, status);
    }
  }

  lemma {:induction false} UncountAllCounts(tasks: Records, counts: map<Status, nat>, ids: seq<TaskId>)
    requires CountersExact(tasks, counts) && NoDup(ids) && ToSet(ids) <= tasks.Keys
    requires forall id :: id in tasks ==> tasks[id].status != Created
    ensures CountersExact(tasks - ToSet(ids), UncountAll(counts, tasks, ids))
  {
    if ids == [] {
      assert tasks - ToSet(ids) == tasks;
    } else {
      var front, id := ids[..|ids| - 1], ids[|ids| - 1];
      assert ids == front + [id];
      assert ToSet(ids) == ToSet(front) + {id};
      UncountAllCounts(tasks, counts, front);
      var mid := tasks - ToSet(front);
      assert id in mid && mid[id] == tasks[id];
      UncountOne(mid, UncountAll(counts, tasks, front), id);
      assert mid - {id} == tasks - ToSet(ids);
    }
  }

  lemma RemovedSize(tasks: Records, ids: seq<TaskId>)
    requires NoDup(ids) && ToSet(ids) <= tasks.Keys
    ensures |tasks - ToSet(ids)| == |tasks| - |ids|
  {
    ToSetSize(ids);
    assert (tasks - ToSet(ids)).Keys == tasks.Keys - ToSet(ids);
    assert |tasks.Keys| == |tasks| && |(tasks - ToSet(ids)).Keys| == |tasks - ToSet(ids)|;
  }

  /** The victims are stored terminal tasks that nobody waits on, and no two are the same. */
  lemma VictimsKnown(p: Pool, pending: set<TaskId>)
    requires HistoryOk(TerminalIds(p.tasks), p.terminalOrder, p.retention.Some?, pending)
    ensures NoDup(Victims(p))
    ensures ToSet(Victims(p)) <= TerminalIds(p.tasks) - pending - Protected(p)
  {
    OmitNoDup(p.terminalOrder, Protected(p));
    OmitMembers(p.terminalOrder, Protected(p));
    forall id | id in Victims(p) ensures id in TerminalIds(p.tasks) - pending - Protected(p) {
      assert id in ToSet(Omit(p.terminalOrder, Protected(p)));
    }
  }

  lemma {:induction false} KeepNoDup(s: seq<TaskId>, wanted: set<TaskId>)
    requires NoDup(s)
    ensures NoDup(Keep(s, wanted))
  {
    if s != [] {
      KeepNoDup(s[1..], wanted);
      KeepMembers(s[1..], wanted);
      var rest := Keep(s[1..], wanted);
      forall j | 0 <= j < |rest| ensures rest[j] != s[0] {
        assert rest[j] in ToSet(rest);
      }
    }
  }

  lemma RotatedMembers(head: seq<TaskId>, tail: seq<TaskId>, kept: set<TaskId>)
    requires NoDup(head + tail)
    ensures NoDup(tail + Keep(head, kept))
    ensures ToSet(tail + Keep(head, kept)) == ToSet(head + tail) - ToSet(Omit(head, kept))
    ensures |tail + Keep(head, kept)| == |head + tail| - |Omit(head, kept)|
  {
    KeepOmitSizes(head, kept);
    KeepMembers(head, kept);
    OmitMembers(head, kept);
    ToSetConcat(head, tail);
    ToSetConcat(tail, Keep(head, kept));
    forall i, j | 0 <= i < |head| && 0 <= j < |tail| ensures head[i] != tail[j] {
      assert (head + tail)[i] == head[i] && (head + tail)[|head| + j] == tail[j];
    }
    assert NoDup(head) by { assert head == (head + tail)[..|head|]; }
    assert NoDup(tail) by { assert tail == (head + tail)[|head|..]; }
    KeepNoDup(head, kept);
    var rest := Keep(head, kept);
    forall i, j | 0 <= i < |tail| && 0 <= j < |rest| ensures tail[i] != rest[j] {
      assert rest[j] in ToSet(rest);
    }
  }

  /** The queue left behind holds the same entries minus the victims, and no duplicate. */
  lemma RemainingQueue(p: Pool)
    requires NoDup(p.terminalOrder) && p.retention.Some?
    ensures NoDup(Compact(p).terminalOrder)
    ensures ToSet(Compact(p).terminalOrder) == ToSet(p.terminalOrder) - ToSet(Victims(p))
    ensures |Compact(p).terminalOrder| == |p.terminalOrder| - |Victims(p)|
  {
    var q, kept := p.terminalOrder, Protected(p);
    var k := Cut(q, kept, |Victims(p)|);
    CutSplits(q, kept, |Victims(p)|);
    assert q == q[..k] + q[k..];
    RotatedMembers(q[..k], q[k..], kept);
  }

  lemma RememberKeeps(stored: set<TaskId>, ids: set<TaskId>, order: seq<TaskId>, capacity: nat, victims: seq<TaskId>)
    requires EvictedOk(stored, ids, order, capacity) && NoDup(victims) && ToSet(victims) <= stored
    ensures EvictedOk(stored - ToSet(victims), ToSet(RememberEvicted(order, victims, capacity)),
                      RememberEvicted(order, victims, capacity), capacity)
  {
    var all := order + victims;
    forall i, j | 0 <= i < |order| && 0 <= j < |victims| ensures order[i] != victims[j] {
      assert order[i] in ids && victims[j] in ToSet(victims);
    }
    assert NoDup(all);
    ToSetConcat(order, victims);
    forall id | id in LastN(all, capacity) ensures id in ToSet(all) {
    }
  }

  lemma RemoveTerminals(p: Pool, p': Pool, ids: set<TaskId>)
    requires ids <= TerminalIds(p.tasks) && p'.tasks == p.tasks - ids
    ensures TerminalIds(p'.tasks) == TerminalIds(p.tasks) - ids
    ensures Live(p') == Live(p)
    ensures p'.tasks.Keys == p.tasks.Keys - ids
  {
  }

  /** Compaction drops finished records only, so no task stops or starts being live. */
  lemma CompactEvolves(p: Pool, pending: set<TaskId>)
    requires HistoryOk(TerminalIds(p.tasks), p.terminalOrder, p.retention.Some?, pending)
    ensures Evolves(p, Compact(p))
    ensures Live(Compact(p)) == Live(p)
  {
    if p.retention.Some? {
      VictimsKnown(p, pending);
      RemoveTerminals(p, Compact(p), ToSet(Victims(p)));
    }
  }

  lemma WaitsSurvive(p: Pool, ids: set<TaskId>)
    requires WaitsOk(p.tasks.Keys, p.waitsByChild, p.waitsByParent) && ids !! Protected(p)
    ensures WaitsOk(p.tasks.Keys - ids, p.waitsByChild, p.waitsByParent)
  {
  }

  lemma CompactHistory(p: Pool, pending: set<TaskId>)
    requires HistoryOk(TerminalIds(p.tasks), p.terminalOrder, p.retention.Some?, pending)
    ensures HistoryOk(TerminalIds(Compact(p).tasks), Compact(p).terminalOrder, Compact(p).retention.Some?, pending)
  {
    if p.retention.Some? {
      VictimsKnown(p, pending);
      RemoveTerminals(p, Compact(p), ToSet(Victims(p)));
      RemainingQueue(p);
    }
  }

  lemma RemoveRecords(tasks: Records, byParent: Waits, loose: set<TaskId>, ids: set<TaskId>)
    requires RecordsOk(tasks) && ParentsWaiting(tasks, byParent, loose) && ids !! byParent.Keys
    ensures RecordsOk(tasks - ids) && ParentsWaiting(tasks - ids, byParent, loose)
  {
  }

  lemma EvictCounts(tasks: Records, counts: map<Status, nat>, victims: seq<TaskId>)
    requires CountersExact(tasks, counts) && RecordsOk(tasks) && NoDup(victims) && ToSet(victims) <= tasks.Keys
    ensures CountersExact(tasks - ToSet(victims), UncountAll(counts, tasks, victims))
    ensures |tasks| == |tasks - ToSet(victims)| + |victims|
  {
    assert forall id :: id in tasks ==> RecordOk(id, tasks[id]);
    UncountAllCounts(tasks, counts, victims);
    RemovedSize(tasks, victims);
  }

  lemma EvictKeys(tasks: Records, wireBytes: map<TaskId, nat>, gone: set<TaskId>)
    requires wireBytes.Keys == tasks.Keys
    ensures (wireBytes - gone).Keys == (tasks - gone).Keys == tasks.Keys - gone
  {
  }

  lemma ProtectedParents(p: Pool, gone: set<TaskId>)
    requires gone !! Protected(p)
    ensures gone !! p.waitsByParent.Keys
  {
  }

  lemma CompactKeeps(p: Pool, pending: set<TaskId>, loose: set<TaskId>)
    requires Inv(p, pending, loose)
    ensures Inv(Compact(p), pending, loose)
  {
    if p.retention.Some? {
      var victims := Victims(p);
      VictimsKnown(p, pending);
      var gone := ToSet(victims);
      EvictCounts(p.tasks, p.stats.counts, victims);
      EvictKeys(p.tasks, p.wireBytes, gone);
      ProtectedParents(p, gone);
      RemoveRecords(p.tasks, p.waitsByParent, loose, gone);
      WaitsSurvive(p, gone);
      CompactHistory(p, pending);
      RememberKeeps(p.tasks.Keys, p.evictedIds, p.evictedOrder, EvictedCapacity(p.retention), victims);
    }
  }

  lemma RecordTerminalKeeps(p: Pool, id: TaskId, pending: set<TaskId>, loose: set<TaskId>)
    requires Inv(p, pending, loose) && id in pending
    ensures Inv(RecordTerminal(p, id), pending - {id}, loose)
    ensures Evolves(p, RecordTerminal(p, id))
    ensures Live(RecordTerminal(p, id)) == Live(p)
  {
    if p.retention.Some? {
      var queued := p.(terminalOrder := p.terminalOrder + [id]);
      ToSetConcat(p.terminalOrder, [id]);
      assert id !in p.terminalOrder by {
        assert id !in ToSet(p.terminalOrder);
      }
      assert ToSet([id]) == {id};
      CompactKeeps(queued, pending - {id}, loose);
      CompactEvolves(queued, pending - {id});
    }
  }
}
