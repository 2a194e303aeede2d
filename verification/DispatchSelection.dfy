/**
 Turning the tasks claimed for one runner into dispatches: the claim is cut into groups whose tasks
 do not write the same resource, the first group is chunked into batches and the rest is deferred.
 */
module DispatchSelection {
  import opened Sequences

  type Ref = string

  /** A leased task and the resources it asks to write. */
  datatype Claimed = Claimed(task: string, writes: seq<Ref>)

  function WritesOf(group: seq<Claimed>): set<Ref> {
    if group == [] then {} else WritesOf(group[..|group| - 1]) + ToSet(group[|group| - 1].writes)
  }

  function Flatten<T>(groups: seq<seq<T>>): seq<T> {
    if groups == [] then [] else Flatten(groups[..|groups| - 1]) + groups[|groups| - 1]
  }

  /** No resource is written by two tasks of the group. */
  ghost predicate ConflictFree(group: seq<Claimed>) {
    forall i, j, r :: 0 <= i < j < |group| && r in group[i].writes ==> r !in group[j].writes
  }

  /** The task writes a resource that some task of the group writes. */
  ghost predicate Conflicts(group: seq<Claimed>, c: Claimed) {
    exists i, r :: 0 <= i < |group| && r in group[i].writes && r in c.writes
  }

  lemma {:induction false} WritesOfMembers(group: seq<Claimed>, c: Claimed)
    ensures (exists r :: r in c.writes && r in WritesOf(group)) <==> Conflicts(group, c)
  {
    if group != [] {
      var front, last := group[..|group| - 1], group[|group| - 1];
      WritesOfMembers(front, c);
      if Conflicts(group, c) {
        var i, r :| 0 <= i < |group| && r in group[i].writes && r in c.writes;
        if i < |front| {
          assert front[i] == group[i];
          assert Conflicts(front, c);
        } else {
          assert r in WritesOf(group);
        }
      }
      if r :| r in c.writes && r in WritesOf(group) {
        if r in last.writes {
          assert group[|group| - 1] == last;
        } else {
          assert Conflicts(front, c);
          var i, q :| 0 <= i < |front| && q in front[i].writes && q in c.writes;
          assert group[i] == front[i];
        }
      }
    }
  }

  lemma FlattenAppend<T>(groups: seq<seq<T>>, group: seq<T>)
    ensures Flatten(groups + [group]) == Flatten(groups) + group
  {
  }

  /** Groups in claim order, each as long as it can be without a conflict. */
  ghost predicate Grouped(groups: seq<seq<Claimed>>) {
    && (forall k :: 0 <= k < |groups| ==> groups[k] != [] && ConflictFree(groups[k]))
    && (forall k :: 0 < k < |groups| ==> Conflicts(groups[k - 1], groups[k][0]))
  }

  lemma GroupedGrows(groups: seq<seq<Claimed>>, group: seq<Claimed>)
    requires Grouped(groups) && group != [] && ConflictFree(group)
    requires groups != [] ==> Conflicts(groups[|groups| - 1], group[0])
    ensures Grouped(groups + [group])
  {
  }

  predicate SharesRef(writes: seq<Ref>, seen: set<Ref>) {
    exists r :: r in writes && r in seen
  }

  /** Groups closed so far and the open one, covering `done`. */
  ghost predicate InProgress(groups: seq<seq<Claimed>>, current: seq<Claimed>, done: seq<Claimed>) {
    && Flatten(groups) + current == done
    && Grouped(groups) && ConflictFree(current)
    && (done != [] ==> current != [])
    && (groups != [] ==> current != [] && Conflicts(groups[|groups| - 1], current[0]))
  }

  lemma ExtendKeeps(groups: seq<seq<Claimed>>, current: seq<Claimed>, done: seq<Claimed>, c: Claimed)
    requires InProgress(groups, current, done) && !Conflicts(current, c)
    ensures InProgress(groups, current + [c], done + [c])
  {
  }

  lemma CloseKeeps(groups: seq<seq<Claimed>>, current: seq<Claimed>, done: seq<Claimed>, c: Claimed)
    requires InProgress(groups, current, done) && current != [] && Conflicts(current, c)
    ensures InProgress(groups + [current], [c], done + [c])
  {
    GroupedGrows(groups, current);
    FlattenAppend(groups, current);
  }

  lemma WritesGrow(current: seq<Claimed>, c: Claimed)
    ensures WritesOf(current + [c]) == WritesOf(current) + ToSet(c.writes)
  {
  }

  lemma StartGroups()
    ensures InProgress([], [], []) && WritesOf([]) == {}
  {
  }

  lemma FinishGroups(groups: seq<seq<Claimed>>, current: seq<Claimed>, done: seq<Claimed>)
    requires InProgress(groups, current, done)
    ensures current != [] ==> Grouped(groups + [current]) && Flatten(groups + [current]) == done
    ensures current == [] ==> groups == [] && done == []
  {
  }

  /** Puts one more task into the open group, or closes that group and opens one for the task. */
  method Place(groups: seq<seq<Claimed>>, current: seq<Claimed>, seen: set<Ref>, c: Claimed, ghost done: seq<Claimed>)
    returns (groups': seq<seq<Claimed>>, current': seq<Claimed>, seen': set<Ref>)
    requires InProgress(groups, current, done) && seen == WritesOf(current)
    ensures InProgress(groups', current', done + [c]) && seen' == WritesOf(current')
  {
    groups', current', seen' := groups, current, seen;
    WritesOfMembers(current, c);
    if current != [] && SharesRef(c.writes, seen) {
      CloseKeeps(groups, current, done, c);
      groups' := groups + [current];
      current' := [];
      seen' := {};
      assert [] + [c] == [c];
    } else {
      ExtendKeeps(groups, current, done, c);
    }
    WritesGrow(current', c);
    seen' := seen' + ToSet(c.writes);
    current' := current' + [c];
  }

  method SplitByConflict(claimed: seq<Claimed>) returns (groups: seq<seq<Claimed>>)
    ensures Flatten(groups) == claimed
    ensures Grouped(groups)
    ensures claimed != [] ==> groups != []
  {
    groups := [];
    var current: seq<Claimed> := [];
    var seen: set<Ref> := {};
    StartGroups();
    ghost var done: seq<Claimed> := [];
    for n := 0 to |claimed|
      invariant InProgress(groups, current, done) && seen == WritesOf(current)
      invariant done == claimed[..n]
    {
      groups, current, seen := Place(groups, current, seen, claimed[n], done);
      done := done + [claimed[n]];
    }
    FinishGroups(groups, current, done);
    if current != [] {
      groups := groups + [current];
    }
  }

  ghost predicate Batches(dispatches: seq<seq<Claimed>>, size: nat) {
    forall k :: 0 <= k < |dispatches| ==> 0 < |dispatches[k]| <= size && ConflictFree(dispatches[k])
  }

  /** Every batch but the last is as large as a batch may be. */
  ghost predicate Packed(dispatches: seq<seq<Claimed>>, size: nat) {
    forall k :: 0 <= k < |dispatches| - 1 ==> |dispatches[k]| == size
  }

  lemma BatchesGrow(dispatches: seq<seq<Claimed>>, size: nat, group: seq<Claimed>, i: nat, j: nat)
    requires Batches(dispatches, size) && ConflictFree(group)
    requires i < j <= |group| && j - i <= size && Flatten(dispatches) == group[..i]
    ensures Batches(dispatches + [group[i..j]], size) && Flatten(dispatches + [group[i..j]]) == group[..j]
  {
  }

  lemma NextMultiple(size: nat, n: nat)
    ensures size * n + size == size * (n + 1)
  {
  }

  /** The batches cover the group up to `at`; before the end of the group all of them are full. */
  ghost predicate CutUpTo(dispatches: seq<seq<Claimed>>, size: nat, group: seq<Claimed>, at: nat) {
    && at <= |group| && Flatten(dispatches) == group[..at]
    && Batches(dispatches, size) && Packed(dispatches, size)
    && (at < |group| ==> at == size * |dispatches|)
    && (at < |group| && dispatches != [] ==> |dispatches[|dispatches| - 1]| == size)
  }

  lemma CutGrows(dispatches: seq<seq<Claimed>>, size: nat, group: seq<Claimed>, at: nat)
    requires size > 0 && ConflictFree(group) && at < |group| && CutUpTo(dispatches, size, group, at)
    ensures var end := Min(at + size, |group|);
      CutUpTo(dispatches + [group[at..end]], size, group, end)
  {
    BatchesGrow(dispatches, size, group, at, Min(at + size, |group|));
    NextMultiple(size, |dispatches|);
  }

  lemma CutReaches(dispatches: seq<seq<Claimed>>, size: nat, group: seq<Claimed>, at: nat, maxBatches: nat)
    requires CutUpTo(dispatches, size, group, at) && (at < |group| ==> |dispatches| == maxBatches)
    ensures Flatten(dispatches) + group[at..] == group
    ensures |group| <= size * maxBatches ==> at == |group|
  {
    assert group == group[..at] + group[at..];
  }

  /** Cuts a group into batches of at most `size`, at most `maxBatches` of them; the rest is left over. */
  method Chunk(group: seq<Claimed>, size: nat, maxBatches: nat) returns (dispatches: seq<seq<Claimed>>,
               left: seq<Claimed>)
    requires size > 0 && ConflictFree(group)
    ensures Flatten(dispatches) + left == group
    ensures Batches(dispatches, size) && Packed(dispatches, size) && |dispatches| <= maxBatches
    ensures |group| <= size * maxBatches ==> left == []
  {
    dispatches := [];
    var at := 0;
    while at < |group| && |dispatches| < maxBatches
      invariant 0 <= at && CutUpTo(dispatches, size, group, at) && |dispatches| <= maxBatches
      decreases |group| - at
    {
      var end := Min(at + size, |group|);
      CutGrows(dispatches, size, group, at);
      dispatches := dispatches + [group[at..end]];
      at := end;
    }
    left := group[at..];
    CutReaches(dispatches, size, group, at, maxBatches);
  }

  lemma {:induction false} FlattenHead<T>(groups: seq<seq<T>>)
    requires groups != []
    ensures Flatten(groups) == groups[0] + Flatten(groups[1..])
  {
    if |groups| > 1 {
      var front := groups[..|groups| - 1];
      FlattenHead(front);
      assert groups[1..][..|groups| - 2] == front[1..];
    }
  }

  /** What follows the first group starts with a task that conflicts with it. */
  lemma RestConflicts(groups: seq<seq<Claimed>>)
    requires Grouped(groups) && |groups| > 1
    ensures Flatten(groups[1..]) != [] && Conflicts(groups[0], Flatten(groups[1..])[0])
  {
    assert groups[1] != [] && Conflicts(groups[1 - 1], groups[1][0]);
    FlattenHead(groups[1..]);
  }

  method Concatenate(groups: seq<seq<Claimed>>) returns (all: seq<Claimed>)
    ensures all == Flatten(groups)
  {
    all := [];
    for k := 0 to |groups|
      invariant all == Flatten(groups[..k])
    {
      assert groups[..k + 1] == groups[..k] + [groups[k]];
      FlattenAppend(groups[..k], groups[k]);
      all := all + groups[k];
    }
    assert groups[..|groups|] == groups;
  }

  /**
   Every claimed task is dispatched or deferred, once and in order; each batch is non-empty, within the
   batch size, all but the last of exactly that size, and free of write conflicts; and the first deferred
   task conflicts with a dispatched one, so nothing is deferred for want of room when the claim was clamped
   to the batches' room, as the claim always is.
   */
  method SelectDispatches(claimed: seq<Claimed>, size: nat, maxBatches: nat)
    returns (dispatches: seq<seq<Claimed>>, deferred: seq<Claimed>)
    requires claimed != [] ==> size > 0
    requires |claimed| <= size * maxBatches
    ensures Flatten(dispatches) + deferred == claimed
    ensures Batches(dispatches, size) && Packed(dispatches, size) && |dispatches| <= maxBatches
    ensures claimed != [] ==> dispatches != []
    ensures deferred != [] ==> Conflicts(Flatten(dispatches), deferred[0])
  {
    if claimed == [] {
      return [], [];
    }
    var groups := SplitByConflict(claimed);
    FlattenHead(groups);
    var left;
    dispatches, left := Chunk(groups[0], size, maxBatches);
    deferred := Concatenate(groups[1..]);
    deferred := left + deferred;
    if |groups| > 1 {
      RestConflicts(groups);
    }
    assert Flatten(dispatches) == groups[0];
  }
}
