/**
 The actor's tables of running and draining invocations: dispatch, tick deadlines, supervision that
 isolates an overdue invocation and may terminate its process, asynchronous cancellation, and
 completion. Outcomes decided elsewhere (an executor's cancel, a termination handle) are inputs.
 */
module ActorInvocations {
  import opened Sequences

  type InvocationId = nat
  type TaskId = nat
  type RunnerId = nat

  datatype Isolation = Cooperative | HardProcess

  /** What every table entry of one invocation has in common. */
  datatype Job = Job(invocation: InvocationId, runner: RunnerId, isAsync: bool, isolation: Isolation)

  datatype Times = Times(deadlineTick: Option<nat>, wallDeadline: Option<nat>, cancelledAt: Option<nat>, startedAt: Option<nat>)

  datatype Entry = Entry(job: Job, times: Times)

  datatype Draining = Draining(runner: RunnerId, recover: bool)

  type Table = map<TaskId, Entry>

  type DrainTable = map<InvocationId, Draining>

  /** A use of the termination handle of an invocation, with the handle's answer. */
  datatype Firing = Firing(invocation: InvocationId, succeeded: bool)

  /** The actor's two tables and the terminations it has fired, oldest first. */
  datatype Tables = Tables(running: Table, draining: DrainTable, fired: seq<Firing>)

  predicate WasFired(s: Tables, i: InvocationId) {
    Firing(i, true) in s.fired || Firing(i, false) in s.fired
  }

  function TasksOf(running: Table, invocation: InvocationId): set<TaskId> {
    set t | t in running && running[t].job.invocation == invocation
  }

  function Without(running: Table, invocation: InvocationId): Table {
    running - TasksOf(running, invocation)
  }

  ghost predicate IsRunning(running: Table, invocation: InvocationId) {
    exists t :: t in running && running[t].job.invocation == invocation
  }

  lemma NoTasks(running: Table, invocation: InvocationId)
    ensures IsRunning(running, invocation) <==> TasksOf(running, invocation) != {}
  {
    if IsRunning(running, invocation) {
      var t :| t in running && running[t].job.invocation == invocation;
      assert t in TasksOf(running, invocation);
    }
    if t :| t in TasksOf(running, invocation) {
      assert t in running;
    }
  }

  /** Entries of the same invocation agree on what they have in common. */
  ghost predicate Uniform(running: Table) {
    forall t, u :: t in running && u in running && running[t].job.invocation == running[u].job.invocation ==>
      running[t].job == running[u].job
  }

  // ---------------------------------------------------------------- isolation

  /** `cancelled` and `terminated` say what the executor and the termination handle answered. */
  function Isolated(s: Tables, job: Job, cancelled: bool, terminated: bool): Tables {
    if job.invocation in s.draining || TasksOf(s.running, job.invocation) == {} then s
    else if job.isAsync then
      if cancelled then s.(running := Without(s.running, job.invocation)) else s
    else
      Tables(
        Without(s.running, job.invocation),
        s.draining[job.invocation := Draining(job.runner, job.isolation.HardProcess? && terminated)],
        if job.isolation.HardProcess? then s.fired + [Firing(job.invocation, terminated)] else s.fired)
  }

  datatype Overdue = Overdue(job: Job, cancelled: bool, terminated: bool)

  /** Supervision isolates the overdue invocations one after the other; one invocation can be listed often. */
  function Supervised(s: Tables, overdue: seq<Overdue>): Tables {
    if overdue == [] then s
    else
      var before, o := Supervised(s, overdue[..|overdue| - 1]), overdue[|overdue| - 1];
      Isolated(before, o.job, o.cancelled, o.terminated)
  }

  // ---------------------------------------------------------------- the machine

  datatype Dispatch = Dispatch(job: Job, tasks: seq<TaskId>)

  /** The tables, the dispatches whose completion can still arrive and all invocation ids ever issued. */
  datatype State = State(tables: Tables, outstanding: map<InvocationId, Dispatch>, issued: set<InvocationId>)

  datatype Step =
    | Start(dispatch: Dispatch, times: Times)
    | Note(t: TaskId, times: Times)
    | CancelAsync(job: Job, cancelled: bool)
    | ExpireTick(t: TaskId, cancelled: bool)
    | Supervise(overdue: seq<Overdue>)
    | Complete(invocation: InvocationId)

  function Started(running: Table, d: Dispatch, times: Times): Table {
    running + map t | t in d.tasks :: Entry(d.job, times)
  }

  function Completed(s: Tables, d: Dispatch): Tables {
    if d.job.invocation in s.draining then
      var draining := s.draining - {d.job.invocation};
      if !s.draining[d.job.invocation].recover && d.job.isAsync then
        s.(draining := draining, running := s.running - ToSet(d.tasks))
      else s.(draining := draining)
    else s.(running := s.running - ToSet(d.tasks))
  }

  ghost predicate Enabled(st: State, step: Step) {
    match step
    // invocation ids are fresh
    case Start(d, _) => d.job.invocation !in st.issued
    case Note(t, _) => t in st.tables.running
    case CancelAsync(job, _) => exists t :: t in st.tables.running && st.tables.running[t].job == job
    case ExpireTick(t, _) => t in st.tables.running
    case Supervise(overdue) =>
      forall o :: o in overdue ==> exists t :: t in st.tables.running && st.tables.running[t].job == o.job
    case Complete(invocation) => invocation in st.outstanding
  }

  function ExpiredTick(s: Tables, t: TaskId, cancelled: bool): Tables
    requires t in s.running
  {
    var job := s.running[t].job;
    s.(running := (if job.isAsync && cancelled then Without(s.running, job.invocation) else s.running) - {t})
  }

  function Apply(st: State, step: Step): State
    requires Enabled(st, step)
  {
    match step
    case Start(d, times) =>
      State(
        st.tables.(running := Started(st.tables.running, d, times)),
        st.outstanding[d.job.invocation := d],
        st.issued + {d.job.invocation})
    case Note(t, times) =>
      st.(tables := st.tables.(running := st.tables.running[t := st.tables.running[t].(times := times)]))
    case CancelAsync(job, cancelled) =>
      if job.isAsync && cancelled then
        st.(tables := st.tables.(running := Without(st.tables.running, job.invocation)))
      else st
    case ExpireTick(t, cancelled) => st.(tables := ExpiredTick(st.tables, t, cancelled))
    case Supervise(overdue) => st.(tables := Supervised(st.tables, overdue))
    case Complete(invocation) =>
      st.(tables := Completed(st.tables, st.outstanding[invocation]), outstanding := st.outstanding - {invocation})
  }

  // ---------------------------------------------------------------- what isolating does

  /** Only an invocation that starts draining is terminated, and that exactly when it is hard-isolated. */
  lemma IsolateFires(s: Tables, o: Overdue, i: InvocationId)
    requires FiredOnce(s)
    ensures var after := Isolated(s, o.job, o.cancelled, o.terminated);
      && (WasFired(s, i) ==> WasFired(after, i))
      && (Firing(i, true) in s.fired ==> Firing(i, true) in after.fired)
      && (i in s.draining ==> i in after.draining && after.draining[i] == s.draining[i])
      && (i in s.draining || i !in after.draining ==>
            (WasFired(after, i) ==> WasFired(s, i)) && (Firing(i, true) in after.fired ==> Firing(i, true) in s.fired))
      && (i !in s.draining && i in after.draining ==>
            && i == o.job.invocation && !o.job.isAsync && !WasFired(s, i)
            && (WasFired(after, i) <==> o.job.isolation.HardProcess?)
            && (Firing(i, true) in after.fired <==> o.job.isolation.HardProcess? && o.terminated)
            && after.draining[i] == Draining(o.job.runner, o.job.isolation.HardProcess? && o.terminated))
  {
  }

  /**
   A tick deadline ends the tracking of its own task; another task goes with it exactly when it belongs
   to the same asynchronous invocation and the executor cancelled that.
   */
  lemma ExpireTickReaches(st: State, t: TaskId, cancelled: bool, u: TaskId)
    requires Enabled(st, ExpireTick(t, cancelled))
    ensures var s, after := st.tables, Apply(st, ExpireTick(t, cancelled)).tables;
      var job := s.running[t].job;
      && after.draining == s.draining && after.fired == s.fired
      && (u in after.running <==>
            (u in s.running && u != t
             && !(cancelled && job.isAsync && s.running[u].job.invocation == job.invocation)))
      && (u in after.running ==> after.running[u] == s.running[u])
  {
  }

  /** A cancel ends the tracking of an asynchronous invocation that the executor cancelled, and of nothing else. */
  lemma CancelAsyncReaches(st: State, job: Job, cancelled: bool, u: TaskId)
    requires Enabled(st, CancelAsync(job, cancelled))
    ensures var after := Apply(st, CancelAsync(job, cancelled));
      && after.tables.draining == st.tables.draining && after.tables.fired == st.tables.fired
      && (u in after.tables.running <==>
            (u in st.tables.running
             && !(cancelled && job.isAsync && st.tables.running[u].job.invocation == job.invocation)))
      && (u in after.tables.running ==> after.tables.running[u] == st.tables.running[u])
  {
  }

  // ---------------------------------------------------------------- what every step keeps

  /** Each entry belongs to an outstanding dispatch that holds its task. */
  ghost predicate Tracked(running: Table, outstanding: map<InvocationId, Dispatch>) {
    forall t :: t in running ==>
      var i := running[t].job.invocation;
      i in outstanding && outstanding[i].job == running[t].job && t in outstanding[i].tasks
  }

  ghost predicate Named(outstanding: map<InvocationId, Dispatch>) {
    forall i :: i in outstanding ==> outstanding[i].job.invocation == i
  }

  /** Draining invocations are outstanding worker dispatches that left the running table. */
  ghost predicate Separate(s: Tables, outstanding: map<InvocationId, Dispatch>) {
    forall i :: i in s.draining ==>
      i in outstanding && !outstanding[i].job.isAsync && TasksOf(s.running, i) == {}
  }

  /** Each termination was for a different invocation that is no longer running. */
  ghost predicate FiredOnce(s: Tables) {
    && (forall a, b :: 0 <= a < b < |s.fired| ==> s.fired[a].invocation != s.fired[b].invocation)
    && forall f :: f in s.fired ==> TasksOf(s.running, f.invocation) == {}
  }

  /**
   A draining invocation names the runner of its dispatch, was terminated exactly when the dispatch is
   hard-isolated, and recovers exactly when that termination succeeded.
   */
  ghost predicate DrainsAsDispatched(s: Tables, outstanding: map<InvocationId, Dispatch>) {
    forall i :: i in s.draining && i in outstanding ==>
      && s.draining[i].runner == outstanding[i].job.runner
      && (WasFired(s, i) <==> outstanding[i].job.isolation.HardProcess?)
      && (s.draining[i].recover <==> Firing(i, true) in s.fired)
  }

  ghost predicate Inv(st: State) {
    && Tracked(st.tables.running, st.outstanding)
    && Named(st.outstanding)
    && Separate(st.tables, st.outstanding)
    && FiredOnce(st.tables)
    && DrainsAsDispatched(st.tables, st.outstanding)
    && (forall i :: i in st.outstanding ==> i in st.issued)
    && (forall f :: f in st.tables.fired ==> f.invocation in st.issued)
  }

  /** Removing entries keeps everything. */
  lemma ShrinkKeeps(st: State, running: Table)
    requires Inv(st)
    requires forall t :: t in running ==> t in st.tables.running && running[t] == st.tables.running[t]
    ensures Inv(st.(tables := st.tables.(running := running)))
  {
  }

  lemma IsolateKeepsDrains(s: Tables, outstanding: map<InvocationId, Dispatch>, o: Overdue)
    requires FiredOnce(s) && DrainsAsDispatched(s, outstanding)
    requires o.job.invocation in outstanding && outstanding[o.job.invocation].job == o.job
    ensures DrainsAsDispatched(Isolated(s, o.job, o.cancelled, o.terminated), outstanding)
  {
    var after := Isolated(s, o.job, o.cancelled, o.terminated);
    forall i | i in after.draining && i in outstanding
      ensures after.draining[i].runner == outstanding[i].job.runner
      ensures WasFired(after, i) <==> outstanding[i].job.isolation.HardProcess?
      ensures after.draining[i].recover <==> Firing(i, true) in after.fired
    {
      IsolateFires(s, o, i);
    }
  }

  lemma IsolateKeeps(st: State, o: Overdue)
    requires Inv(st)
    requires o.job.invocation in st.outstanding && st.outstanding[o.job.invocation].job == o.job
    ensures Inv(st.(tables := Isolated(st.tables, o.job, o.cancelled, o.terminated)))
  {
    IsolateKeepsDrains(st.tables, st.outstanding, o);
  }

  lemma {:induction false} SuperviseKeeps(st: State, overdue: seq<Overdue>)
    requires Inv(st)
    requires forall o :: o in overdue ==>
               o.job.invocation in st.outstanding && st.outstanding[o.job.invocation].job == o.job
    ensures Inv(st.(tables := Supervised(st.tables, overdue)))
  {
    if overdue != [] {
      var front, o := overdue[..|overdue| - 1], overdue[|overdue| - 1];
      SuperviseKeeps(st, front);
      assert o in overdue;
      IsolateKeeps(st.(tables := Supervised(st.tables, front)), o);
    }
  }

  lemma StartKeeps(st: State, d: Dispatch, times: Times)
    requires Inv(st) && d.job.invocation !in st.issued
    ensures Inv(Apply(st, Start(d, times)))
  {
  }

  lemma NoteKeeps(st: State, t: TaskId, times: Times)
    requires Inv(st) && t in st.tables.running
    ensures Inv(Apply(st, Note(t, times)))
  {
  }

  lemma CompleteKeeps(st: State, invocation: InvocationId)
    requires Inv(st) && invocation in st.outstanding
    ensures Inv(Apply(st, Complete(invocation)))
    ensures invocation !in Apply(st, Complete(invocation)).tables.draining
    ensures TasksOf(Apply(st, Complete(invocation)).tables.running, invocation) == {}
  {
    var after := Apply(st, Complete(invocation));
    ShrinkKeeps(st, after.tables.running);
    CompletionClears(st, invocation);
    forall t | t in after.tables.running ensures after.tables.running[t].job.invocation != invocation {
      assert t !in TasksOf(after.tables.running, invocation);
    }
  }

  lemma CompletionClears(st: State, invocation: InvocationId)
    requires Inv(st) && invocation in st.outstanding
    ensures TasksOf(Completed(st.tables, st.outstanding[invocation]).running, invocation) == {}
  {
  }

  lemma StepKeeps(st: State, step: Step)
    requires Inv(st) && Enabled(st, step)
    ensures Inv(Apply(st, step))
  {
    match step
    case Start(d, times) => StartKeeps(st, d, times);
    case Note(t, times) => NoteKeeps(st, t, times);
    case CancelAsync(job, _) => ShrinkKeeps(st, Without(st.tables.running, job.invocation));
    case ExpireTick(t, cancelled) => ShrinkKeeps(st, ExpiredTick(st.tables, t, cancelled).running);
    case Supervise(overdue) => SuperviseKeeps(st, overdue);
    case Complete(invocation) => CompleteKeeps(st, invocation);
  }

  function Initial(): State {
    State(Tables(map[], map[], []), map[], {})
  }

  ghost predicate IsRun(states: seq<State>, steps: seq<Step>) {
    && |states| == |steps| + 1
    && states[0] == Initial()
    && forall k :: 0 <= k < |steps| ==> Enabled(states[k], steps[k]) && states[k + 1] == Apply(states[k], steps[k])
  }

  lemma {:induction false} RunsKeepInv(states: seq<State>, steps: seq<Step>, k: nat)
    requires IsRun(states, steps) && k < |states|
    ensures Inv(states[k])
  {
    if k > 0 {
      RunsKeepInv(states, steps, k - 1);
      StepKeeps(states[k - 1], steps[k - 1]);
    }
  }

  /** In every state of a run entries of one invocation agree, as the in-place methods below expect. */
  lemma EntriesAlwaysUniform(states: seq<State>, steps: seq<Step>, k: nat)
    requires IsRun(states, steps) && k < |states|
    ensures Uniform(states[k].tables.running)
  {
    RunsKeepInv(states, steps, k);
  }

  /** No invocation is ever both draining and running. */
  lemma NeverBoth(states: seq<State>, steps: seq<Step>, k: nat, i: InvocationId)
    requires IsRun(states, steps) && k < |states| && i in states[k].tables.draining
    ensures !IsRunning(states[k].tables.running, i)
  {
    RunsKeepInv(states, steps, k);
    NoTasks(states[k].tables.running, i);
  }

  /** Over a whole run the termination handle of an invocation is fired at most once. */
  lemma TerminatedAtMostOnce(states: seq<State>, steps: seq<Step>, k: nat, a: nat, b: nat)
    requires IsRun(states, steps) && k < |states|
    requires a < |states[k].tables.fired| && b < |states[k].tables.fired|
    requires states[k].tables.fired[a].invocation == states[k].tables.fired[b].invocation
    ensures a == b
  {
    RunsKeepInv(states, steps, k);
  }

  lemma {:induction false} SupervisionFires(st: State, overdue: seq<Overdue>, i: InvocationId)
    requires Inv(st)
    requires forall o :: o in overdue ==>
               o.job.invocation in st.outstanding && st.outstanding[o.job.invocation].job == o.job
    ensures var after := Supervised(st.tables, overdue);
      && (WasFired(st.tables, i) ==> WasFired(after, i))
      && (i in st.tables.draining ==> i in after.draining)
      && (WasFired(after, i) && !WasFired(st.tables, i) <==>
            i in after.draining && i !in st.tables.draining && i in st.outstanding
            && st.outstanding[i].job.isolation.HardProcess?)
  {
    if overdue != [] {
      var front, o := overdue[..|overdue| - 1], overdue[|overdue| - 1];
      assert o in overdue;
      SupervisionFires(st, front, i);
      SuperviseKeeps(st, front);
      IsolateFires(Supervised(st.tables, front), o, i);
    }
  }

  /**
   A step of a run fires the termination handle of an invocation exactly when it moves that invocation
   to the draining table and the dispatch is hard-isolated.
   */
  lemma FiresExactlyWhenDrained(states: seq<State>, steps: seq<Step>, k: nat, i: InvocationId)
    requires IsRun(states, steps) && k < |steps|
    ensures WasFired(states[k].tables, i) ==> WasFired(states[k + 1].tables, i)
    ensures WasFired(states[k + 1].tables, i) && !WasFired(states[k].tables, i) <==>
            i in states[k + 1].tables.draining && i !in states[k].tables.draining
            && i in states[k].outstanding && states[k].outstanding[i].job.isolation.HardProcess?
  {
    RunsKeepInv(states, steps, k);
    assert Enabled(states[k], steps[k]) && states[k + 1] == Apply(states[k], steps[k]);
    if steps[k].Supervise? {
      SupervisionFires(states[k], steps[k].overdue, i);
    }
  }

  /**
   In every state of a run a draining invocation is an outstanding worker dispatch under that dispatch's
   runner; it was terminated exactly when the dispatch is hard-isolated, and it recovers its runner
   exactly when the dispatch is hard-isolated and the termination succeeded.
   */
  lemma DrainingFollowsDispatch(states: seq<State>, steps: seq<Step>, k: nat, i: InvocationId)
    requires IsRun(states, steps) && k < |states| && i in states[k].tables.draining
    ensures i in states[k].outstanding
    ensures var s, job := states[k].tables, states[k].outstanding[i].job;
      && !job.isAsync && s.draining[i].runner == job.runner
      && (WasFired(s, i) <==> job.isolation.HardProcess?)
      && (s.draining[i].recover <==> job.isolation.HardProcess? && Firing(i, true) in s.fired)
  {
    RunsKeepInv(states, steps, k);
  }

  /**
   A completion leaves its invocation in neither table, and a draining invocation that completes brings
   its runner back: neither the recovery error nor the branch for a draining asynchronous handler is taken.
   The other draining invocations stay; the tasks of the dispatch leave the running table exactly when it
   was not draining.
   */
  lemma CompletionSettles(states: seq<State>, steps: seq<Step>, k: nat)
    requires IsRun(states, steps) && k < |steps| && steps[k].Complete?
    ensures var i := steps[k].invocation;
      && (i in states[k].tables.draining ==> !states[k].outstanding[i].job.isAsync)
      && states[k + 1].outstanding == states[k].outstanding - {i}
      && states[k + 1].tables.draining == states[k].tables.draining - {i}
      && !IsRunning(states[k + 1].tables.running, i)
      && (i in states[k].tables.draining ==> states[k + 1].tables.running == states[k].tables.running)
      && (i !in states[k].tables.draining ==> forall t ::
            t in states[k + 1].tables.running <==>
            t in states[k].tables.running && t !in states[k].outstanding[i].tasks)
  {
    var i := steps[k].invocation;
    RunsKeepInv(states, steps, k);
    CompleteKeeps(states[k], i);
    NoTasks(states[k + 1].tables.running, i);
  }

  // ---------------------------------------------------------------- what supervision and completion reach

  lemma OthersUntouched(s: Tables, o: Overdue, i: InvocationId)
    requires o.job.invocation != i
    ensures var after := Isolated(s, o.job, o.cancelled, o.terminated);
      && TasksOf(after.running, i) == TasksOf(s.running, i)
      && (i in after.draining <==> i in s.draining)
      && (i in after.draining ==> after.draining[i] == s.draining[i])
  {
  }

  /** One job per invocation in the list. */
  ghost predicate OneJobEach(overdue: seq<Overdue>) {
    forall o, p :: o in overdue && p in overdue && o.job.invocation == p.job.invocation ==> o.job == p.job
  }

  /** Every entry of the list for this invocation carries the same answers. */
  ghost predicate Answers(overdue: seq<Overdue>, i: InvocationId, cancelled: bool, terminated: bool) {
    forall o :: o in overdue && o.job.invocation == i ==> o.cancelled == cancelled && o.terminated == terminated
  }

  /**
   However often it is listed, an overdue worker invocation ends up draining under its runner, and an
   asynchronous one loses its tasks exactly when the executor cancelled it.
   */
  lemma {:induction false} SupervisionDrains(s: Tables, overdue: seq<Overdue>, i: InvocationId, cancelled: bool,
                                             terminated: bool)
    requires OneJobEach(overdue) && Answers(overdue, i, cancelled, terminated)
    requires i !in s.draining && TasksOf(s.running, i) != {}
    ensures var after := Supervised(s, overdue);
      && (forall o :: o in overdue && o.job.invocation == i && !o.job.isAsync ==>
            && TasksOf(after.running, i) == {} && i in after.draining
            && after.draining[i] == Draining(o.job.runner, o.job.isolation.HardProcess? && terminated))
      && (forall o :: o in overdue && o.job.invocation == i && o.job.isAsync ==>
            && TasksOf(after.running, i) == (if cancelled then {} else TasksOf(s.running, i))
            && i !in after.draining)
      && ((forall o :: o in overdue ==> o.job.invocation != i) ==>
            i !in after.draining && TasksOf(after.running, i) == TasksOf(s.running, i))
  {
    if overdue != [] {
      var front, last := overdue[..|overdue| - 1], overdue[|overdue| - 1];
      assert forall o :: o in overdue <==> o in front || o == last;
      SupervisionDrains(s, front, i, cancelled, terminated);
      var before := Supervised(s, front);
      if last.job.invocation != i {
        OthersUntouched(before, last, i);
      } else {
        var left := Without(before.running, i);
        assert TasksOf(left, i) == {};
      }
    }
  }

  lemma {:induction false} ListedDrains(s: Tables, overdue: seq<Overdue>, o: Overdue)
    requires OneJobEach(overdue) && o in overdue && !o.job.isAsync
    requires o.job.invocation in s.draining || TasksOf(s.running, o.job.invocation) != {}
    ensures o.job.invocation in Supervised(s, overdue).draining
  {
    var front, last := overdue[..|overdue| - 1], overdue[|overdue| - 1];
    var i := o.job.invocation;
    assert forall x :: x in overdue <==> x in front || x == last;
    if x :| x in front && x.job.invocation == i {
      ListedDrains(s, front, x);
    } else {
      UnlistedUntouched(s, front, i);
    }
  }

  /** In every run supervision leaves each overdue worker invocation that it lists draining. */
  lemma SupervisionReaches(states: seq<State>, steps: seq<Step>, k: nat, o: Overdue)
    requires IsRun(states, steps) && k < |steps| && steps[k].Supervise? && o in steps[k].overdue && !o.job.isAsync
    ensures o.job.invocation in states[k + 1].tables.draining
    ensures !IsRunning(states[k + 1].tables.running, o.job.invocation)
  {
    RunsKeepInv(states, steps, k);
    RunsKeepInv(states, steps, k + 1);
    var s := states[k].tables;
    assert Enabled(states[k], steps[k]) && states[k + 1] == Apply(states[k], steps[k]);
    NoTasks(s.running, o.job.invocation);
    ListedDrains(s, steps[k].overdue, o);
    NoTasks(states[k + 1].tables.running, o.job.invocation);
  }

  lemma {:induction false} UnlistedUntouched(s: Tables, overdue: seq<Overdue>, i: InvocationId)
    requires forall o :: o in overdue ==> o.job.invocation != i
    ensures var after := Supervised(s, overdue);
      && TasksOf(after.running, i) == TasksOf(s.running, i)
      && (i in after.draining <==> i in s.draining)
      && (i in after.draining ==> after.draining[i] == s.draining[i])
  {
    if overdue != [] {
      var front, last := overdue[..|overdue| - 1], overdue[|overdue| - 1];
      assert forall o :: o in front ==> o in overdue;
      UnlistedUntouched(s, front, i);
      assert last in overdue;
      OthersUntouched(Supervised(s, front), last, i);
    }
  }

  /**
   A completion removes the entries of its own tasks, so it leaves every other invocation tracked exactly
   when none of its tasks has meanwhile been tracked under another invocation.
   */
  lemma CompletionSparesOthersIff(st: State, invocation: InvocationId)
    requires Inv(st) && invocation in st.outstanding && invocation !in st.tables.draining
    ensures (forall t :: t in st.tables.running && st.tables.running[t].job.invocation != invocation ==>
               t in Apply(st, Complete(invocation)).tables.running)
       <==> (forall t :: t in st.outstanding[invocation].tasks && t in st.tables.running ==>
               st.tables.running[t].job.invocation == invocation)
  {
  }

  /**
   A task dispatched again while its earlier invocation is outstanding: the late completion ends the
   tracking of the newer one. The code gets there when the core ends a running task (a cancel or an
   abort), its record is evicted and its id forgotten, and a task with the same id is submitted and
   claimed before the runner of the first dispatch has returned.
   */
  lemma LateCompletionUntracks(a: Job, b: Job, t: TaskId, times: Times) returns (states: seq<State>, steps: seq<Step>)
    requires a.invocation != b.invocation
    ensures IsRun(states, steps)
    ensures steps == [Start(Dispatch(a, [t]), times), Start(Dispatch(b, [t]), times), Complete(a.invocation)]
    ensures IsRunning(states[2].tables.running, b.invocation)
    ensures b.invocation in states[3].outstanding && !IsRunning(states[3].tables.running, b.invocation)
  {
    steps := [Start(Dispatch(a, [t]), times), Start(Dispatch(b, [t]), times), Complete(a.invocation)];
    var one := Apply(Initial(), steps[0]);
    var two := Apply(one, steps[1]);
    states := [Initial(), one, two, Apply(two, steps[2])];
    assert two.tables.running[t].job.invocation == b.invocation;
    assert t in ToSet([t]);
  }

  // ---------------------------------------------------------------- when an invocation is overdue

  /** The configured grace period after a cancel and the health timeout of a started worker. */
  datatype Timeouts = Timeouts(grace: Option<nat>, health: Option<nat>)

  predicate IsOverdue(e: Entry, now: nat, timeouts: Timeouts) {
    || (!e.job.isAsync && e.times.wallDeadline.Some? && now >= e.times.wallDeadline.value)
    || (e.times.cancelledAt.Some? && timeouts.grace.Some? && Max(0, now - e.times.cancelledAt.value) >= timeouts.grace.value)
    || (e.times.startedAt.Some? && timeouts.health.Some? && Max(0, now - e.times.startedAt.value) >= timeouts.health.value)
  }

  /**
   An entry is overdue once one of its deadlines has come: the wall-clock deadline of a worker
   invocation, the end of the grace period after a cancel, the end of the health period after the start.
   A period of zero has always ended, even before the moment it starts from.
   */
  lemma OverdueIff(e: Entry, now: nat, timeouts: Timeouts)
    ensures IsOverdue(e, now, timeouts) <==>
              || (!e.job.isAsync && e.times.wallDeadline.Some? && e.times.wallDeadline.value <= now)
              || Ended(e.times.cancelledAt, timeouts.grace, now)
              || Ended(e.times.startedAt, timeouts.health, now)
  {
  }

  predicate Ended(from: Option<nat>, period: Option<nat>, now: nat) {
    from.Some? && period.Some? && (period == Some(0) || from.value + period.value <= now)
  }

  ghost predicate HasJob(running: Table, job: Job) {
    exists t :: t in running && running[t].job == job
  }

  ghost function JobOf(running: Table, i: InvocationId): (job: Job)
    requires IsRunning(running, i)
    ensures job.invocation == i && HasJob(running, job)
  {
    var t :| t in running && running[t].job.invocation == i;
    running[t].job
  }

  /** The invocation has a task that is overdue. */
  ghost predicate HasOverdue(running: Table, i: InvocationId, now: nat, timeouts: Timeouts) {
    exists t :: t in running && running[t].job.invocation == i && IsOverdue(running[t], now, timeouts)
  }

  /**
   What supervision must have done to one invocation: nothing without an overdue task; else a worker
   invocation drains under its runner, recoverable exactly when it is hard-isolated and the termination
   succeeded, and an asynchronous one loses its tasks exactly when the executor cancelled it.
   */
  ghost predicate SupervisedRight(before: Tables, after: Tables, i: InvocationId, now: nat, timeouts: Timeouts,
                                  cancelled: bool, terminated: bool) {
    && (!HasOverdue(before.running, i, now, timeouts) ==>
          && TasksOf(after.running, i) == TasksOf(before.running, i)
          && (i in after.draining <==> i in before.draining)
          && (i in after.draining ==> after.draining[i] == before.draining[i]))
    && (HasOverdue(before.running, i, now, timeouts) && i !in before.draining ==>
          var job := JobOf(before.running, i);
          && (!job.isAsync ==>
                && TasksOf(after.running, i) == {} && i in after.draining
                && after.draining[i] == Draining(job.runner, job.isolation.HardProcess? && terminated))
          && (job.isAsync ==>
                && TasksOf(after.running, i) == (if cancelled then {} else TasksOf(before.running, i))
                && i !in after.draining))
  }

  lemma SupervisionIsRight(s: Tables, ids: seq<InvocationId>, overdue: seq<Overdue>, i: InvocationId, now: nat,
                           timeouts: Timeouts, cancelled: InvocationId -> bool, terminated: InvocationId -> bool)
    requires Uniform(s.running) && Lists(s.running, ids, overdue, cancelled, terminated) && OneJobEach(overdue)
    requires forall x :: x in ids <==> HasOverdue(s.running, x, now, timeouts)
    ensures SupervisedRight(s, Supervised(s, overdue), i, now, timeouts, cancelled(i), terminated(i))
  {
    if HasOverdue(s.running, i, now, timeouts) {
      var k :| 0 <= k < |ids| && ids[k] == i;
      assert overdue[k] in overdue && HasJob(s.running, overdue[k].job);
      NoTasks(s.running, i);
      if i !in s.draining {
        SupervisionDrains(s, overdue, i, cancelled(i), terminated(i));
        assert JobOf(s.running, i) == overdue[k].job;
      }
    } else {
      forall o | o in overdue ensures o.job.invocation != i {
        var k :| 0 <= k < |overdue| && overdue[k] == o;
        assert ids[k] in ids;
      }
      UnlistedUntouched(s, overdue, i);
    }
  }

  /** The list names the given invocations in order, each with its job and the answers for it. */
  ghost predicate Lists(running: Table, ids: seq<InvocationId>, overdue: seq<Overdue>,
                        cancelled: InvocationId -> bool, terminated: InvocationId -> bool) {
    && |overdue| == |ids|
    && forall k :: 0 <= k < |ids| ==>
         && overdue[k].job.invocation == ids[k] && HasJob(running, overdue[k].job)
         && overdue[k].cancelled == cancelled(ids[k]) && overdue[k].terminated == terminated(ids[k])
  }

  lemma ListsNext(running: Table, ids: seq<InvocationId>, k: nat, overdue: seq<Overdue>, o: Overdue,
                  cancelled: InvocationId -> bool, terminated: InvocationId -> bool)
    requires k < |ids| && Lists(running, ids[..k], overdue, cancelled, terminated)
    requires HasJob(running, o.job) && o.job.invocation == ids[k]
    requires o.cancelled == cancelled(ids[k]) && o.terminated == terminated(ids[k])
    ensures Lists(running, ids[..k + 1], overdue + [o], cancelled, terminated)
  {
  }

  lemma ListsMeans(running: Table, ids: seq<InvocationId>, overdue: seq<Overdue>,
                   cancelled: InvocationId -> bool, terminated: InvocationId -> bool)
    requires Uniform(running) && Lists(running, ids, overdue, cancelled, terminated)
    ensures OneJobEach(overdue)
    ensures forall o :: o in overdue ==> HasJob(running, o.job) && o.job.invocation in ids
  {
  }

  // ---------------------------------------------------------------- the tables in place

  class InvocationTables {
    var running: Table
    var draining: DrainTable
    var fired: seq<Firing>

    ghost function Model(): Tables
      reads this
    {
      Tables(running, draining, fired)
    }

    constructor ()
      ensures Model() == Initial().tables
    {
      running, draining, fired := map[], map[], [];
    }

    method TaskIdsOf(invocation: InvocationId) returns (ids: seq<TaskId>)
      ensures ToSet(ids) == TasksOf(running, invocation)
    {
      ids := [];
      var left := running.Keys;
      while left != {}
        invariant left <= running.Keys
        invariant ToSet(ids) == TasksOf(running, invocation) - left
        decreases |left|
      {
        var t :| t in left;
        ToSetConcat(ids, [t]);
        if running[t].job.invocation == invocation {
          ids := ids + [t];
        }
        left := left - {t};
      }
    }

    method IsolateInvocation(invocation: InvocationId, cancelled: bool, terminated: bool)
      requires Uniform(running)
      modifies this
      ensures Uniform(running)
      ensures !old(IsRunning(running, invocation)) ==> Model() == old(Model())
      ensures forall t :: t in old(running) && old(running)[t].job.invocation == invocation ==>
                Model() == Isolated(old(Model()), old(running)[t].job, cancelled, terminated)
    {
      NoTasks(running, invocation);
      if invocation in draining {
        return;
      }
      var ids := TaskIdsOf(invocation);
      if ids == [] {
        return;
      }
      assert ids[0] in ToSet(ids);
      var first := running[ids[0]].job;
      assert forall t :: t in running && running[t].job.invocation == invocation ==> running[t].job == first;
      if first.isAsync {
        if cancelled {
          running := running - ToSet(ids);
        }
        return;
      }
      RemoveTasks(ids);
      if first.isolation.HardProcess? {
        fired := fired + [Firing(invocation, terminated)];
      }
      draining := draining[invocation := Draining(first.runner, first.isolation.HardProcess? && terminated)];
    }

    /** The invocation of every overdue task, once per task. */
    method OverdueInvocations(now: nat, timeouts: Timeouts) returns (overdue: seq<InvocationId>)
      ensures forall i :: i in overdue <==> HasOverdue(running, i, now, timeouts)
    {
      overdue := [];
      var left := running.Keys;
      while left != {}
        invariant left <= running.Keys
        invariant forall i :: i in overdue <==>
                    exists t :: t in running && t !in left && running[t].job.invocation == i && IsOverdue(running[t], now, timeouts)
        decreases |left|
      {
        var t :| t in left;
        if IsOverdue(running[t], now, timeouts) {
          overdue := overdue + [running[t].job.invocation];
        }
        left := left - {t};
      }
    }

    /** `cancelled` and `terminated` answer for the executor and the termination handles. */
    method IsolateEach(expired: seq<InvocationId>, cancelled: InvocationId -> bool, terminated: InvocationId -> bool)
      returns (ghost overdue: seq<Overdue>)
      requires Uniform(running)
      requires forall i :: i in expired ==> IsRunning(running, i)
      modifies this
      ensures Uniform(running) && Model() == Supervised(old(Model()), overdue)
      ensures Lists(old(running), expired, overdue, cancelled, terminated)
    {
      overdue := [];
      for k := 0 to |expired|
        invariant Uniform(running) && Model() == Supervised(old(Model()), overdue)
        invariant forall t :: t in running ==> t in old(running) && running[t] == old(running)[t]
        invariant Lists(old(running), expired[..k], overdue, cancelled, terminated)
      {
        assert expired[k] in expired;
        ghost var job := JobOf(old(running), expired[k]);
        ghost var o := Overdue(job, cancelled(expired[k]), terminated(expired[k]));
        NoTasks(running, expired[k]);
        ListsNext(old(running), expired, k, overdue, o, cancelled, terminated);
        IsolateInvocation(expired[k], cancelled(expired[k]), terminated(expired[k]));
        assert (overdue + [o])[..k] == overdue;
        overdue := overdue + [o];
      }
      assert expired[..|expired|] == expired;
    }

    method SuperviseRunning(now: nat, timeouts: Timeouts, cancelled: InvocationId -> bool,
                            terminated: InvocationId -> bool)
      returns (ghost overdue: seq<Overdue>)
      requires Uniform(running)
      modifies this
      ensures Uniform(running) && Model() == Supervised(old(Model()), overdue)
      ensures OneJobEach(overdue)
      ensures forall o :: o in overdue ==> HasJob(old(running), o.job) && HasOverdue(old(running), o.job.invocation, now, timeouts)
      ensures forall i ::
                SupervisedRight(old(Model()), Model(), i, now, timeouts, cancelled(i), terminated(i))
    {
      var expired := OverdueInvocations(now, timeouts);
      ghost var before := Model();
      overdue := IsolateEach(expired, cancelled, terminated);
      ListsMeans(before.running, expired, overdue, cancelled, terminated);
      forall i ensures SupervisedRight(before, Model(), i, now, timeouts, cancelled(i), terminated(i)) {
        SupervisionIsRight(before, expired, overdue, i, now, timeouts, cancelled, terminated);
      }
    }

    method RemoveTasks(ids: seq<TaskId>)
      modifies this`running
      ensures running == old(running) - ToSet(ids)
    {
      for k := 0 to |ids|
        invariant running == old(running) - ToSet(ids[..k])
      {
        assert ids[..k + 1] == ids[..k] + [ids[k]];
        ToSetConcat(ids[..k], [ids[k]]);
        running := running - {ids[k]};
      }
      assert ids[..|ids|] == ids;
    }

    method HandleCompletion(d: Dispatch)
      modifies this`running, this`draining
      ensures Model() == Completed(old(Model()), d)
    {
      if d.job.invocation in draining {
        var drained := draining[d.job.invocation];
        draining := draining - {d.job.invocation};
        if drained.recover {
          return;
        }
        if d.job.isAsync {
          RemoveTasks(d.tasks);
        }
        return;
      }
      RemoveTasks(d.tasks);
    }
  }
}
