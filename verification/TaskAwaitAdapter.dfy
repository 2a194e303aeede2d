/**
 The suspend/resume adapter of the runner kit: a table of suspended futures by task, a table that maps
 host invocation ids to tasks, and call futures that hand a child task to the runtime through one
 shared slot. What user code does during a poll is an arbitrary script of opened and polled calls.
 */
module TaskAwaitAdapter {
  import opened Sequences

  /** Task ids and invocation ids are both plain text and `cancel` accepts either. */
  type Id = string

  // ---------------------------------------------------------------- call futures

  datatype CallState = Init | Submitted | Failed | Done

  datatype Call = Call(blocked: bool, state: CallState)

  /** What the runtime client says about a submitted child. */
  datatype Answer = Finished | NotYet | Error

  /** The pending slot: which call wrote it last and whether it carries the child task itself. */
  datatype Slot = Slot(k: nat, child: bool)

  datatype Action =
    | Open(blocked: bool, failed: bool)
    | Poll(k: nat, answer: Answer)

  datatype Future = Future(generation: nat, calls: seq<Call>)

  function PollCall(c: Call, answer: Answer): Call {
    if c.blocked then c
    else match c.state
      case Init => c.(state := Submitted)
      case Submitted => if answer.NotYet? then c else c.(state := Done)
      case Failed => c.(state := Done)
      // a call polled after completion panics; nothing follows
      case Done => c
  }

  function SlotAfter(c: Call, k: nat, answer: Answer, slot: Option<Slot>): Option<Slot> {
    if c.blocked then slot
    else if c.state.Init? then Some(Slot(k, true))
    else if c.state.Submitted? && answer.NotYet? then Some(Slot(k, false))
    else slot
  }

  function Act(f: Future, slot: Option<Slot>, a: Action): (Future, Option<Slot>) {
    match a
    case Open(blocked, failed) => (f.(calls := f.calls + [Call(blocked, if failed then Failed else Init)]), slot)
    case Poll(k, answer) =>
      if k < |f.calls| then
        (f.(calls := f.calls[k := PollCall(f.calls[k], answer)]), SlotAfter(f.calls[k], k, answer, slot))
      else (f, slot)
  }

  function Script(f: Future, slot: Option<Slot>, actions: seq<Action>): (Future, Option<Slot>)
    decreases |actions|
  {
    if actions == [] then (f, slot)
    else
      var (g, s) := Script(f, slot, actions[..|actions| - 1]);
      Act(g, s, actions[|actions| - 1])
  }

  // ---------------------------------------------------------------- the adapter

  datatype Adapter = Adapter(futures: map<Id, Future>, tracked: map<Id, Id>)

  datatype Result = Completed | Waiting(k: nat, child: bool) | Unsupported

  function Track(ad: Adapter, task: Id, invocation: Id): Adapter {
    if invocation == "" then ad else ad.(tracked := ad.tracked[invocation := task])
  }

  function Remove(ad: Adapter, task: Id): Adapter {
    if task in ad.futures then
      Adapter(ad.futures - {task}, map i | i in ad.tracked && ad.tracked[i] != task :: ad.tracked[i])
    else ad
  }

  function FutureOf(ad: Adapter, task: Id, generation: nat): Future {
    if task in ad.futures then ad.futures[task] else Future(generation, [])
  }

  /** One poll of a task's future, created on first use; `ready` says how the poll ended. */
  function RunOne(ad: Adapter, generation: nat, invocation: Id, task: Id, actions: seq<Action>,
                  ready: bool): (Adapter, Result) {
    var (f, slot) := Script(FutureOf(ad, task, generation), None, actions);
    var polled := Track(ad.(futures := ad.futures[task := f]), task, invocation);
    if ready then (Remove(polled, task), Completed)
    else match slot
      case Some(s) => (polled, Waiting(s.k, s.child))
      case None => (Remove(polled, task), Unsupported)
  }

  function Cancel(ad: Adapter, id: Id): Adapter {
    if id in ad.tracked then Remove(ad, ad.tracked[id]) else Remove(ad, id)
  }

  // ---------------------------------------------------------------- the two tables

  ghost predicate TracksLive(ad: Adapter) {
    forall i :: i in ad.tracked ==> ad.tracked[i] in ad.futures
  }

  ghost predicate Forgotten(ad: Adapter, task: Id) {
    task !in ad.futures && forall i :: i in ad.tracked ==> ad.tracked[i] != task
  }

  lemma RunOneKeepsTables(ad: Adapter, generation: nat, invocation: Id, task: Id, actions: seq<Action>, ready: bool)
    requires TracksLive(ad)
    ensures var (after, result) := RunOne(ad, generation, invocation, task, actions, ready);
      && TracksLive(after)
      && (result.Waiting? ==> task in after.futures)
      && (result.Waiting? && invocation != "" ==> invocation in after.tracked && after.tracked[invocation] == task)
      && (!result.Waiting? ==> Forgotten(after, task))
      && (forall t :: t != task ==> (t in after.futures <==> t in ad.futures))
  {
  }

  /** A poll ends the call at hand exactly when that call failed, or was submitted and has its answer. */
  lemma PollSettles(f: Future, actions: seq<Action>, n: nat, k: nat)
    requires n < |actions| && k < |Script(f, None, actions[..n]).0.calls|
    requires !Script(f, None, actions[..n]).0.calls[k].state.Done?
    ensures var g, h := Script(f, None, actions[..n]).0, Script(f, None, actions[..n + 1]).0;
      var c := g.calls[k];
      && k < |h.calls| && h.calls[k].blocked == c.blocked
      && (h.calls[k].state.Done? <==>
            (actions[n].Poll? && actions[n].k == k && !c.blocked
             && (c.state.Failed? || (c.state.Submitted? && !actions[n].answer.NotYet?))))
  {
    assert actions[..n + 1][..n] == actions[..n];
  }

  /** A call that could not be prepared ends at its first poll with its error and hands out no child. */
  lemma FailedCallEnds(f: Future, slot: Option<Slot>, answer: Answer)
    ensures var (g, s) := Act(f, slot, Open(false, true));
      var (h, t) := Act(g, s, Poll(|f.calls|, answer));
      && !g.calls[|f.calls|].state.Done? && h.calls[|f.calls|].state.Done? && t == slot
  {
  }

  /** A cancel drops the future last tracked under the id, or the task of that name, and no other. */
  lemma CancelForgets(ad: Adapter, id: Id)
    requires TracksLive(ad)
    ensures var task := if id in ad.tracked then ad.tracked[id] else id;
      && TracksLive(Cancel(ad, id)) && Forgotten(Cancel(ad, id), task)
      && Cancel(ad, id).futures == ad.futures - {task}
      && id !in Cancel(ad, id).tracked
  {
  }

  /** A call opened and polled once. */
  const CALL: seq<Action> := [Open(false, false), Poll(0, NotYet)]

  lemma OpenAndPoll(generation: nat)
    ensures Script(Future(generation, []), None, CALL)
         == (Future(generation, [Call(false, Submitted)]), Some(Slot(0, true)))
  {
    var f := Future(generation, []);
    assert CALL[..1] == [Open(false, false)] && CALL[..1][..0] == [];
    assert [] + [Call(false, Init)] == [Call(false, Init)];
    assert Script(f, None, CALL[..1]) == Act(f, None, CALL[0]);
    assert [Call(false, Init)][0 := Call(false, Submitted)] == [Call(false, Submitted)];
  }

  // ---------------------------------------------------------------- handing out children

  lemma {:induction false} ScriptAdvances(f: Future, actions: seq<Action>)
    ensures var (g, slot) := Script(f, None, actions);
      && g.generation == f.generation && |g.calls| >= |f.calls|
      && (forall j :: 0 <= j < |f.calls| && !f.calls[j].state.Init? ==> !g.calls[j].state.Init?)
      && (slot.Some? ==> slot.value.k < |g.calls| && !g.calls[slot.value.k].state.Init?)
      && (slot.Some? && slot.value.child && slot.value.k < |f.calls| ==> f.calls[slot.value.k].state.Init?)
    decreases |actions|
  {
    if actions != [] {
      ScriptAdvances(f, actions[..|actions| - 1]);
    }
  }

  /** The child of call `k` of the future created as number `generation`. */
  datatype Key = Key(generation: nat, k: nat)

  /** The adapter, the number of futures created so far and the children handed to the runtime, in order. */
  datatype World = World(adapter: Adapter, created: nat, handed: seq<Key>)

  datatype Step =
    | Run(invocation: Id, task: Id, actions: seq<Action>, ready: bool)
    | Drop(id: Id)

  function Apply(w: World, s: Step): World {
    match s
    case Drop(id) => w.(adapter := Cancel(w.adapter, id))
    case Run(invocation, task, actions, ready) =>
      var (after, result) := RunOne(w.adapter, w.created, invocation, task, actions, ready);
      var f := FutureOf(w.adapter, task, w.created);
      World(
        after,
        if task in w.adapter.futures then w.created else w.created + 1,
        if result.Waiting? && result.child then w.handed + [Key(f.generation, result.k)] else w.handed)
  }

  /** Futures are numbered apart. */
  ghost predicate Numbered(futures: map<Id, Future>, created: nat) {
    && (forall t :: t in futures ==> futures[t].generation < created)
    && (forall t, u :: t in futures && u in futures && t != u ==> futures[t].generation != futures[u].generation)
  }

  /** A handed-out child belongs to a call that has left its first state for good. */
  ghost predicate HandedOnce(futures: map<Id, Future>, created: nat, handed: seq<Key>) {
    && NoDup(handed)
    && (forall key :: key in handed ==> key.generation < created)
    && (forall t, k: nat :: t in futures && Key(futures[t].generation, k) in handed ==>
          k < |futures[t].calls| && !futures[t].calls[k].state.Init?)
  }

  ghost predicate Inv(w: World) {
    && TracksLive(w.adapter)
    && Numbered(w.adapter.futures, w.created)
    && HandedOnce(w.adapter.futures, w.created, w.handed)
  }

  lemma FewerFutures(before: map<Id, Future>, after: map<Id, Future>, created: nat, handed: seq<Key>)
    requires Numbered(before, created) && HandedOnce(before, created, handed)
    requires forall t :: t in after ==> t in before && after[t] == before[t]
    ensures Numbered(after, created) && HandedOnce(after, created, handed)
  {
  }

  /** The future table right after a poll, before a finished future is removed. */
  lemma PollKeeps(w: World, task: Id, actions: seq<Action>)
    requires Inv(w)
    ensures var f := FutureOf(w.adapter, task, w.created);
      var (g, slot) := Script(f, None, actions);
      var created := if task in w.adapter.futures then w.created else w.created + 1;
      var futures := w.adapter.futures[task := g];
      && Numbered(futures, created)
      && HandedOnce(futures, created, w.handed)
      && (slot.Some? && slot.value.child ==> HandedOnce(futures, created, w.handed + [Key(f.generation, slot.value.k)]))
  {
    var f := FutureOf(w.adapter, task, w.created);
    ScriptAdvances(f, actions);
    var (g, slot) := Script(f, None, actions);
    if slot.Some? && slot.value.child {
      assert Key(f.generation, slot.value.k) !in w.handed;
    }
  }

  lemma RunKeeps(w: World, invocation: Id, task: Id, actions: seq<Action>, ready: bool)
    requires Inv(w)
    ensures Inv(Apply(w, Run(invocation, task, actions, ready)))
  {
    RunOneKeepsTables(w.adapter, w.created, invocation, task, actions, ready);
    PollKeeps(w, task, actions);
    var after := Apply(w, Run(invocation, task, actions, ready));
    var f := FutureOf(w.adapter, task, w.created);
    var (g, slot) := Script(f, None, actions);
    FewerFutures(w.adapter.futures[task := g], after.adapter.futures, after.created, after.handed);
  }

  lemma DropKeeps(w: World, id: Id)
    requires Inv(w)
    ensures Inv(Apply(w, Drop(id)))
  {
  }

  ghost predicate IsRun(worlds: seq<World>, steps: seq<Step>) {
    && |worlds| == |steps| + 1
    && worlds[0] == World(Adapter(map[], map[]), 0, [])
    && forall i :: 0 <= i < |steps| ==> worlds[i + 1] == Apply(worlds[i], steps[i])
  }

  /**
   Over any polls and cancels every tracked invocation id points to a live suspended future, and each
   call future hands out its child task at most once, however often it is polled.
   */
  lemma {:induction false} RunsKeepInv(worlds: seq<World>, steps: seq<Step>, i: nat)
    requires IsRun(worlds, steps) && i < |worlds|
    ensures Inv(worlds[i])
  {
    if i > 0 {
      RunsKeepInv(worlds, steps, i - 1);
      match steps[i - 1]
      case Run(invocation, task, actions, ready) => RunKeeps(worlds[i - 1], invocation, task, actions, ready);
      case Drop(id) => DropKeeps(worlds[i - 1], id);
    }
  }

  /** In every run a cancel forgets exactly the task last tracked under its id, or else the task of that name. */
  lemma DropTakesEffect(worlds: seq<World>, steps: seq<Step>, i: nat)
    requires IsRun(worlds, steps) && i < |steps| && steps[i].Drop?
    ensures var before, after, id := worlds[i].adapter, worlds[i + 1].adapter, steps[i].id;
      var task := if id in before.tracked then before.tracked[id] else id;
      Forgotten(after, task) && after.futures == before.futures - {task} && worlds[i + 1].handed == worlds[i].handed
  {
    RunsKeepInv(worlds, steps, i);
    CancelForgets(worlds[i].adapter, steps[i].id);
  }

  // ---------------------------------------------------------------- what a cancel by invocation id reaches

  /** The invocation under which a task was polled last. */
  function LastInvocation(steps: seq<Step>, task: Id): Option<Id> {
    if steps == [] then None
    else
      var s := steps[|steps| - 1];
      if s.Run? && s.task == task then Some(s.invocation) else LastInvocation(steps[..|steps| - 1], task)
  }

  /** The task that was polled last under an invocation. */
  function LastTask(steps: seq<Step>, invocation: Id): Option<Id> {
    if steps == [] then None
    else
      var s := steps[|steps| - 1];
      if s.Run? && s.invocation == invocation then Some(s.task) else LastTask(steps[..|steps| - 1], invocation)
  }

  predicate SuspendedUnder(w: World, steps: seq<Step>, task: Id, invocation: Id) {
    task in w.adapter.futures && LastInvocation(steps, task) == Some(invocation)
  }

  /** An id tracks the task polled last under it, and a task that is still suspended since that poll is tracked. */
  ghost predicate TracksLast(w: World, steps: seq<Step>, invocation: Id) {
    && (invocation in w.adapter.tracked ==> LastTask(steps, invocation) == Some(w.adapter.tracked[invocation]))
    && (forall t :: SuspendedUnder(w, steps, t, invocation) && invocation != "" && LastTask(steps, invocation) == Some(t) ==>
          invocation in w.adapter.tracked && w.adapter.tracked[invocation] == t)
    && (invocation == "" ==> invocation !in w.adapter.tracked)
  }

  lemma StepTracksLast(w: World, steps: seq<Step>, s: Step, invocation: Id)
    requires Inv(w) && TracksLast(w, steps, invocation)
    ensures TracksLast(Apply(w, s), steps + [s], invocation)
  {
    assert (steps + [s])[..|steps|] == steps;
  }

  lemma {:induction false} RunsTrackLast(worlds: seq<World>, steps: seq<Step>, i: nat, invocation: Id)
    requires IsRun(worlds, steps) && i < |worlds|
    ensures TracksLast(worlds[i], steps[..i], invocation)
  {
    if i > 0 {
      RunsKeepInv(worlds, steps, i - 1);
      RunsTrackLast(worlds, steps, i - 1, invocation);
      StepTracksLast(worlds[i - 1], steps[..i - 1], steps[i - 1], invocation);
      assert steps[..i] == steps[..i - 1] + [steps[i - 1]];
    }
  }

  /**
   One host invocation can suspend several tasks, but only the last is tracked under its id. In every run
   a cancel by that id reaches every task suspended under it exactly when each of them is the task polled
   last under it, or is addressed by its own name because the id is not tracked.
   */
  lemma CancelReachesAllIff(worlds: seq<World>, steps: seq<Step>, i: nat, invocation: Id)
    requires IsRun(worlds, steps) && i < |worlds|
    ensures (forall t :: SuspendedUnder(worlds[i], steps[..i], t, invocation) ==> t !in Cancel(worlds[i].adapter, invocation).futures)
       <==> (forall t :: SuspendedUnder(worlds[i], steps[..i], t, invocation) ==>
               || (invocation != "" && LastTask(steps[..i], invocation) == Some(t))
               || (invocation == t && invocation !in worlds[i].adapter.tracked))
  {
    RunsKeepInv(worlds, steps, i);
    RunsTrackLast(worlds, steps, i, invocation);
    CancelForgets(worlds[i].adapter, invocation);
  }

  /** Two tasks of one batch that each wait for a call: a cancel of their invocation leaves the first suspended. */
  lemma CancelMissesATask(worlds: seq<World>, steps: seq<Step>, invocation: Id, a: Id, b: Id)
    requires IsRun(worlds, steps) && steps == [Run(invocation, a, CALL, false), Run(invocation, b, CALL, false)]
    requires a != b && a != invocation
    ensures SuspendedUnder(worlds[2], steps, a, invocation) && SuspendedUnder(worlds[2], steps, b, invocation)
    ensures a in Cancel(worlds[2].adapter, invocation).futures
  {
    OpenAndPoll(0);
    OpenAndPoll(1);
    assert worlds[1] == Apply(worlds[0], steps[0]) && worlds[2] == Apply(worlds[1], steps[1]);
    assert steps[..1] == [steps[0]];
  }

  // ---------------------------------------------------------------- children that are never handed out

  lemma {:induction false} ScriptSplit(f: Future, slot: Option<Slot>, a: seq<Action>, b: seq<Action>)
    ensures Script(f, slot, a + b) == Script(Script(f, slot, a).0, Script(f, slot, a).1, b)
    decreases |b|
  {
    if b == [] {
      assert a + b == a;
    } else {
      assert (a + b)[..|a + b| - 1] == a + b[..|b| - 1];
      ScriptSplit(f, slot, a, b[..|b| - 1]);
    }
  }

  /** A poll overwrites the slot or leaves it. */
  lemma {:induction false} SlotOverwritten(f: Future, slot: Option<Slot>, actions: seq<Action>)
    ensures Script(f, slot, actions).0 == Script(f, None, actions).0
    ensures Script(f, slot, actions).1
         == if Script(f, None, actions).1.Some? then Script(f, None, actions).1 else slot
    decreases |actions|
  {
    if actions != [] {
      SlotOverwritten(f, slot, actions[..|actions| - 1]);
    }
  }

  lemma {:induction false} NoRepeat(f: Future, actions: seq<Action>, k: nat)
    requires k < |f.calls| && !f.calls[k].state.Init?
    ensures Script(f, None, actions).1 != Some(Slot(k, true))
    decreases |actions|
  {
    ScriptAdvances(f, actions);
  }

  /** The action polls a call that stays pending: an unblocked one, new or not yet finished. */
  predicate Pends(f: Future, a: Action) {
    && a.Poll? && a.k < |f.calls| && !f.calls[a.k].blocked
    && (f.calls[a.k].state.Init? || (f.calls[a.k].state.Submitted? && a.answer.NotYet?))
  }

  /** No action of the script, at the point where it happens, polls a call that stays pending. */
  ghost predicate NothingPends(f: Future, actions: seq<Action>) {
    forall n :: 0 <= n < |actions| ==> !Pends(Script(f, None, actions[..n]).0, actions[n])
  }

  lemma NothingPendsGrows(f: Future, front: seq<Action>, a: Action)
    ensures NothingPends(f, front + [a]) <==> NothingPends(f, front) && !Pends(Script(f, None, front).0, a)
  {
    var actions := front + [a];
    assert actions[..|front|] == front;
    forall n | 0 <= n < |front| ensures actions[..n] == front[..n] {
    }
    if NothingPends(f, actions) {
      assert !Pends(Script(f, None, actions[..|front|]).0, actions[|front|]);
      forall n | 0 <= n < |front| ensures !Pends(Script(f, None, front[..n]).0, front[n]) {
        assert !Pends(Script(f, None, actions[..n]).0, actions[n]);
      }
    }
  }

  lemma ActFillsSlot(f: Future, slot: Option<Slot>, a: Action)
    ensures Act(f, slot, a).1 == None <==> slot == None && !Pends(f, a)
  {
  }

  lemma {:induction false} SlotEmptyIff(f: Future, actions: seq<Action>)
    ensures Script(f, None, actions).1 == None <==> NothingPends(f, actions)
    decreases |actions|
  {
    if actions == [] {
    } else {
      var front, last := actions[..|actions| - 1], actions[|actions| - 1];
      var (g, slot) := Script(f, None, front);
      assert Script(f, None, actions) == Act(g, slot, last);
      assert slot == None <==> NothingPends(f, front) by {
        SlotEmptyIff(f, front);
      }
      assert NothingPends(f, actions) <==> NothingPends(f, front) && !Pends(g, last) by {
        NothingPendsGrows(f, front, last);
        assert front + [last] == actions;
      }
      ActFillsSlot(g, slot, last);
    }
  }

  /**
   The slot is one for all calls of a future: a child submitted during a poll reaches the runtime exactly
   when the poll leaves the future pending and no later action of the same poll polls a call that stays
   pending too.
   */
  lemma ChildReachesRuntimeIff(ad: Adapter, generation: nat, invocation: Id, task: Id,
                               before: seq<Action>, k: nat, answer: Answer, after: seq<Action>, ready: bool)
    requires var f := Script(FutureOf(ad, task, generation), None, before).0;
      k < |f.calls| && f.calls[k] == Call(false, Init)
    ensures var g := Script(FutureOf(ad, task, generation), None, before + [Poll(k, answer)]).0;
      RunOne(ad, generation, invocation, task, before + [Poll(k, answer)] + after, ready).1 == Waiting(k, true)
      <==> (!ready && NothingPends(g, after))
  {
    var f := FutureOf(ad, task, generation);
    var upTo := before + [Poll(k, answer)];
    ScriptSplit(f, None, upTo, after);
    ScriptSplit(f, None, before, [Poll(k, answer)]);
    var (h, s) := Script(f, None, before);
    assert [Poll(k, answer)][..0] == [];
    assert Script(h, s, [Poll(k, answer)]) == Act(h, s, Poll(k, answer));
    var (g, slot) := Script(f, None, upTo);
    assert slot == Some(Slot(k, true)) && g.calls[k].state == Submitted;
    SlotOverwritten(g, slot, after);
    NoRepeat(g, after, k);
    SlotEmptyIff(g, after);
  }

  /**
   How one poll of a task ends: completed exactly when the future is ready, unsupported exactly when it
   is not and no call of it stays pending. The other tasks keep their futures; an id that tracked this
   task is dropped with its future and every other one keeps its task.
   */
  lemma PollOutcome(ad: Adapter, generation: nat, invocation: Id, task: Id, actions: seq<Action>, ready: bool)
    ensures var (after, result) := RunOne(ad, generation, invocation, task, actions, ready);
      && (result.Completed? <==> ready)
      && (result.Unsupported? <==> !ready && NothingPends(FutureOf(ad, task, generation), actions))
      && (forall t :: t in ad.futures && t != task ==> t in after.futures && after.futures[t] == ad.futures[t])
      && (forall i :: i != invocation ==>
            (i in after.tracked <==> i in ad.tracked && (result.Waiting? || ad.tracked[i] != task))
            && (i in after.tracked ==> after.tracked[i] == ad.tracked[i]))
  {
    SlotEmptyIff(FutureOf(ad, task, generation), actions);
  }

  /** A child that was not handed out when its call was submitted is never handed out later. */
  lemma {:induction false} LostForGood(worlds: seq<World>, steps: seq<Step>, i: nat, j: nat, task: Id, k: nat)
    requires IsRun(worlds, steps) && i <= j < |worlds|
    requires task in worlds[i].adapter.futures && k < |worlds[i].adapter.futures[task].calls|
    requires !worlds[i].adapter.futures[task].calls[k].state.Init?
    requires Key(worlds[i].adapter.futures[task].generation, k) !in worlds[i].handed
    ensures var key := Key(worlds[i].adapter.futures[task].generation, k);
      && key !in worlds[j].handed
      && forall t :: t in worlds[j].adapter.futures && worlds[j].adapter.futures[t].generation == key.generation ==>
           k < |worlds[j].adapter.futures[t].calls| && !worlds[j].adapter.futures[t].calls[k].state.Init?
    decreases j
  {
    var key := Key(worlds[i].adapter.futures[task].generation, k);
    if i == j {
      RunsKeepInv(worlds, steps, i);
    } else {
      LostForGood(worlds, steps, i, j - 1, task, k);
      RunsKeepInv(worlds, steps, i);
      CreatedGrows(worlds, steps, i, j - 1);
      match steps[j - 1]
      case Drop(id) =>
        RunsKeepInv(worlds, steps, j - 1);
        CancelForgets(worlds[j - 1].adapter, id);
      case Run(invocation, t, actions, ready) =>
        StaysLost(worlds[j - 1], invocation, t, actions, ready, key);
    }
  }

  lemma {:induction false} CreatedGrows(worlds: seq<World>, steps: seq<Step>, i: nat, j: nat)
    requires IsRun(worlds, steps) && i <= j < |worlds|
    ensures worlds[i].created <= worlds[j].created
    decreases j
  {
    if i < j {
      CreatedGrows(worlds, steps, i, j - 1);
    }
  }

  ghost predicate Past(w: World, key: Key) {
    && key !in w.handed && key.generation < w.created
    && forall t :: t in w.adapter.futures && w.adapter.futures[t].generation == key.generation ==>
         key.k < |w.adapter.futures[t].calls| && !w.adapter.futures[t].calls[key.k].state.Init?
  }

  lemma StaysLost(w: World, invocation: Id, task: Id, actions: seq<Action>, ready: bool, key: Key)
    requires Past(w, key)
    ensures Past(Apply(w, Run(invocation, task, actions, ready)), key)
  {
    ScriptAdvances(FutureOf(w.adapter, task, w.created), actions);
  }

  /** Two calls opened and polled in one poll, as a join of both would do. */
  const JOIN: seq<Action> := [Open(false, false), Open(false, false), Poll(0, NotYet), Poll(1, NotYet)]

  lemma JoinScript(generation: nat)
    ensures Script(Future(generation, []), None, JOIN)
         == (Future(generation, [Call(false, Submitted), Call(false, Submitted)]), Some(Slot(1, true)))
  {
    var f := Future(generation, []);
    assert JOIN[..0] == [] && JOIN[..1][..0] == [] && JOIN[..2][..1] == JOIN[..1] && JOIN[..3][..2] == JOIN[..2];
    assert Script(f, None, JOIN[..1]) == Act(f, None, JOIN[0]);
    assert Script(f, None, JOIN[..1]).0.calls == [Call(false, Init)];
    assert Script(f, None, JOIN[..2]).0.calls == [Call(false, Init), Call(false, Init)];
    assert Script(f, None, JOIN[..3]).0.calls == [Call(false, Submitted), Call(false, Init)];
    assert Script(f, None, JOIN).0.calls == [Call(false, Submitted), Call(false, Submitted)];
  }

  /**
   A task that joins two calls in its first poll: the second child is handed out and the first never is,
   however the run goes on.
   */
  lemma JoinLosesAChild(worlds: seq<World>, steps: seq<Step>, invocation: Id, task: Id, j: nat)
    requires IsRun(worlds, steps) && steps != [] && steps[0] == Run(invocation, task, JOIN, false) && 1 <= j < |worlds|
    ensures worlds[1].handed == [Key(0, 1)]
    ensures task in worlds[1].adapter.futures
    ensures worlds[1].adapter.futures[task].calls == [Call(false, Submitted), Call(false, Submitted)]
    ensures Key(0, 0) !in worlds[j].handed
  {
    JoinScript(0);
    assert worlds[1] == Apply(worlds[0], steps[0]);
    LostForGood(worlds, steps, 1, j, task, 0);
  }

  // ---------------------------------------------------------------- the adapter in place

  class TaskAwaitRunnerAdapter {
    var futures: map<Id, Future>
    var tracked: map<Id, Id>

    ghost function Model(): Adapter
      reads this
    {
      Adapter(futures, tracked)
    }

    constructor ()
      ensures Model() == Adapter(map[], map[])
    {
      futures, tracked := map[], map[];
    }

    method TrackInvocation(task: Id, invocation: Id)
      modifies this`tracked
      ensures Model() == Track(old(Model()), task, invocation)
    {
      if invocation == "" {
        return;
      }
      tracked := tracked[invocation := task];
    }

    method RemoveInvocationByTask(task: Id) returns (removed: Option<Future>)
      modifies this
      ensures Model() == Remove(old(Model()), task)
      ensures removed == if task in old(futures) then Some(old(futures)[task]) else None
    {
      if task !in futures {
        return None;
      }
      removed := Some(futures[task]);
      futures := futures - {task};
      var kept: map<Id, Id> := map[];
      var left := tracked.Keys;
      while left != {}
        invariant left <= tracked.Keys && tracked == old(tracked) && futures == old(futures) - {task}
        invariant kept == map i | i in tracked && i !in left && tracked[i] != task :: tracked[i]
        decreases |left|
      {
        var i :| i in left;
        if tracked[i] != task {
          kept := kept[i := tracked[i]];
        }
        left := left - {i};
      }
      tracked := kept;
    }

    method RunOneTask(generation: nat, invocation: Id, task: Id, actions: seq<Action>,
                      ready: bool) returns (result: Result)
      modifies this
      ensures (Model(), result) == RunOne(old(Model()), generation, invocation, task, actions, ready)
    {
      if task !in futures {
        futures := futures[task := Future(generation, [])];
      }
      TrackInvocation(task, invocation);
      var slot: Option<Slot> := None;
      var f := futures[task];
      for n := 0 to |actions|
        invariant (f, slot) == Script(old(FutureOf(Model(), task, generation)), None, actions[..n])
        invariant futures.Keys == old(futures).Keys + {task}
        invariant forall t :: t in old(futures) && t != task ==> futures[t] == old(futures)[t]
        invariant tracked == Track(old(Model()), task, invocation).tracked
      {
        assert actions[..n + 1][..n] == actions[..n];
        var (g, s) := Act(f, slot, actions[n]);
        f, slot := g, s;
      }
      assert actions[..|actions|] == actions;
      futures := futures[task := f];
      assert futures == old(futures)[task := f];
      if ready {
        var _ := RemoveInvocationByTask(task);
        return Completed;
      }
      if slot.Some? {
        return Waiting(slot.value.k, slot.value.child);
      }
      var _ := RemoveInvocationByTask(task);
      return Unsupported;
    }

    method CancelInvocation(id: Id)
      modifies this
      ensures Model() == Cancel(old(Model()), id)
    {
      if id in tracked {
        var _ := RemoveInvocationByTask(tracked[id]);
      } else if id in futures {
        var _ := RemoveInvocationByTask(id);
      }
    }
  }
}
