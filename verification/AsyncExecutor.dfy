/**
 The asynchronous executor: a reservation takes three counters one after the other and rolls back
 what it holds when a later one is exhausted, a task starts only after its abort handle is listed,
 and dropping the reservation returns the three counters. Each atomic operation is one step of the
 thread that holds the invocation; any number of invocations interleave.
 */
module AsyncExecutor {
  import opened Sequences

  datatype Stage =
    // reserving
    | Fresh
    | InvocationLoaded(current: int)
    | InvocationHeld
    | EntriesLoaded(current: int)
    | EntriesHeld
    | BytesLoaded(current: int)
    // rolling back
    | RollBackEntries
    | RollBackInvocation
    | Rejected
    // the task
    | Reserved
    | Spawned
    | Gated
    | Running
    | Settled
    | Unlisted
    // dropping the reservation
    | Dropping
    | InvocationDropped
    | EntriesDropped
    | Gone

  datatype Invocation = Invocation(entries: nat, bytes: nat, stage: Stage, listed: bool, aborted: bool)

  datatype Limits = Limits(invocations: nat, entries: nat, bytes: nat)

  datatype State = State(
    limits: Limits, calls: seq<Invocation>,
    invocations: int, entries: int, bytes: int,
    outcomes: seq<nat>)

  datatype Step =
    | Submit(entries: nat, bytes: nat)
    | Advance(c: nat)
    | CasFails(c: nat)
    | Cancel(c: nat)
    | CancelAll
    | AbortTakesEffect(c: nat)

  function Initial(limits: Limits): State {
    State(limits, [], 0, 0, 0, [])
  }

  function Move(st: State, c: nat, stage: Stage): State
    requires c < |st.calls|
  {
    st.(calls := st.calls[c := st.calls[c].(stage := stage)])
  }

  predicate CanAdvance(st: State, c: nat)
    requires c < |st.calls|
  {
    var x := st.calls[c];
    match x.stage
    case InvocationLoaded(current) => current + 1 > st.limits.invocations || current == st.invocations
    case EntriesLoaded(current) => current + x.entries > st.limits.entries || current == st.entries
    case BytesLoaded(current) => current + x.bytes > st.limits.bytes || current == st.bytes
    case Rejected => false
    case Gone => false
    case _ => true
  }

  /** The next operation of the thread that holds call `c`. */
  function Advanced(st: State, c: nat): State
    requires c < |st.calls| && CanAdvance(st, c)
  {
    var x := st.calls[c];
    match x.stage
    case Fresh => Move(st, c, InvocationLoaded(st.invocations))
    case InvocationLoaded(current) =>
      if current + 1 > st.limits.invocations then Move(st, c, Rejected)
      else Move(st, c, InvocationHeld).(invocations := current + 1)
    case InvocationHeld => Move(st, c, EntriesLoaded(st.entries))
    case EntriesLoaded(current) =>
      if current + x.entries > st.limits.entries then Move(st, c, RollBackInvocation)
      else Move(st, c, EntriesHeld).(entries := current + x.entries)
    case EntriesHeld => Move(st, c, BytesLoaded(st.bytes))
    case BytesLoaded(current) =>
      if current + x.bytes > st.limits.bytes then Move(st, c, RollBackEntries)
      else Move(st, c, Reserved).(bytes := current + x.bytes)
    case RollBackEntries => Move(st, c, RollBackInvocation).(entries := st.entries - x.entries)
    case RollBackInvocation => Move(st, c, Rejected).(invocations := st.invocations - 1)
    case Reserved => Move(st, c, Spawned)
    case Spawned => st.(calls := st.calls[c := x.(stage := Gated, listed := true)])
    case Gated => Move(st, c, Running)
    case Running => Move(st, c, Settled)
    case Settled => st.(calls := st.calls[c := x.(stage := Unlisted, listed := false)])
    case Unlisted => Move(st, c, Dropping).(outcomes := st.outcomes + [c])
    case Dropping => Move(st, c, InvocationDropped).(invocations := st.invocations - 1)
    case InvocationDropped => Move(st, c, EntriesDropped).(entries := st.entries - x.entries)
    case EntriesDropped => Move(st, c, Gone).(bytes := st.bytes - x.bytes)
  }

  predicate Retries(st: State, c: nat)
    requires c < |st.calls|
  {
    st.calls[c].stage.InvocationLoaded? || st.calls[c].stage.EntriesLoaded? || st.calls[c].stage.BytesLoaded?
  }

  /** A failed compare-and-swap, spurious or not, reloads the counter it was aimed at. */
  function Reloaded(st: State, c: nat): State
    requires c < |st.calls| && Retries(st, c)
  {
    match st.calls[c].stage
    case InvocationLoaded(_) => Move(st, c, InvocationLoaded(st.invocations))
    case EntriesLoaded(_) => Move(st, c, EntriesLoaded(st.entries))
    case BytesLoaded(_) => Move(st, c, BytesLoaded(st.bytes))
  }

  /** Taking the handle out of the table and asking the task to stop. */
  function CancelCall(x: Invocation): Invocation {
    if x.listed then x.(listed := false, aborted := true) else x
  }

  predicate Enabled(st: State, s: Step) {
    match s
    case Submit(_, _) => true
    case Advance(c) => c < |st.calls| && CanAdvance(st, c)
    case CasFails(c) => c < |st.calls| && Retries(st, c)
    case Cancel(c) => c < |st.calls|
    case CancelAll => true
    case AbortTakesEffect(c) => c < |st.calls| && st.calls[c].aborted && (st.calls[c].stage.Gated? || st.calls[c].stage.Running?)
  }

  function Apply(st: State, s: Step): State
    requires Enabled(st, s)
  {
    match s
    case Submit(entries, bytes) => st.(calls := st.calls + [Invocation(entries, bytes, Fresh, false, false)])
    case Advance(c) => Advanced(st, c)
    case CasFails(c) => Reloaded(st, c)
    case Cancel(c) => st.(calls := st.calls[c := CancelCall(st.calls[c])])
    case CancelAll => st.(calls := CancelEach(st.calls))
    case AbortTakesEffect(c) => Move(st, c, Dropping)
  }

  function CancelEach(calls: seq<Invocation>): seq<Invocation> {
    if calls == [] then [] else [CancelCall(calls[0])] + CancelEach(calls[1..])
  }

  // ---------------------------------------------------------------- what a call holds

  function HoldsInvocation(x: Invocation): int {
    match x.stage
    case Fresh | InvocationLoaded(_) | Rejected | InvocationDropped | EntriesDropped | Gone => 0
    case _ => 1
  }

  function HoldsEntries(x: Invocation): int {
    match x.stage
    case Fresh | InvocationLoaded(_) | InvocationHeld | EntriesLoaded(_) | RollBackInvocation | Rejected
       | EntriesDropped | Gone => 0
    case _ => x.entries
  }

  function HoldsBytes(x: Invocation): int {
    match x.stage
    case Reserved | Spawned | Gated | Running | Settled | Unlisted
       | Dropping | InvocationDropped | EntriesDropped => x.bytes
    case _ => 0
  }

  ghost predicate CountersExact(st: State) {
    && st.invocations == Sum(st.calls, HoldsInvocation)
    && st.entries == Sum(st.calls, HoldsEntries)
    && st.bytes == Sum(st.calls, HoldsBytes)
  }

  ghost predicate WithinLimits(st: State) {
    st.invocations <= st.limits.invocations && st.entries <= st.limits.entries && st.bytes <= st.limits.bytes
  }

  /** A listed handle belongs to a task that has not settled its own removal yet. */
  ghost predicate HandleOk(x: Invocation) {
    && (x.listed ==> x.stage.Gated? || x.stage.Running? || x.stage.Settled?)
    && (x.listed ==> !x.aborted)
    && ((x.stage.Gated? || x.stage.Running? || x.stage.Settled?) && !x.aborted ==> x.listed)
    && (x.aborted ==> HoldsOnlyAfterGate(x.stage))
  }

  predicate HoldsOnlyAfterGate(stage: Stage) {
    stage.Gated? || stage.Running? || stage.Settled? || stage.Unlisted? || stage.Dropping?
    || stage.InvocationDropped? || stage.EntriesDropped? || stage.Gone?
  }

  predicate Announced(stage: Stage) {
    stage.Dropping? || stage.InvocationDropped? || stage.EntriesDropped? || stage.Gone?
  }

  /** No invocation announces an outcome twice, and none before its handle is off the table. */
  ghost predicate OutcomesOk(st: State) {
    && NoDup(st.outcomes)
    && forall c :: c in st.outcomes ==> c < |st.calls| && Announced(st.calls[c].stage) && !st.calls[c].listed
  }

  ghost predicate Inv(st: State) {
    && CountersExact(st) && WithinLimits(st)
    && (forall x :: x in st.calls ==> HandleOk(x))
    && OutcomesOk(st)
  }

  // ---------------------------------------------------------------- every step keeps it

  lemma ReplaceSums(st: State, c: nat, y: Invocation)
    requires CountersExact(st) && c < |st.calls|
    ensures var ys := st.calls[c := y];
      && Sum(ys, HoldsInvocation) == st.invocations - HoldsInvocation(st.calls[c]) + HoldsInvocation(y)
      && Sum(ys, HoldsEntries) == st.entries - HoldsEntries(st.calls[c]) + HoldsEntries(y)
      && Sum(ys, HoldsBytes) == st.bytes - HoldsBytes(st.calls[c]) + HoldsBytes(y)
  {
    SumUpdate(st.calls, c, y, HoldsInvocation);
    SumUpdate(st.calls, c, y, HoldsEntries);
    SumUpdate(st.calls, c, y, HoldsBytes);
  }

  lemma ReplaceHandles(calls: seq<Invocation>, c: nat, y: Invocation)
    requires c < |calls| && HandleOk(y) && forall x :: x in calls ==> HandleOk(x)
    ensures forall x :: x in calls[c := y] ==> HandleOk(x)
  {
  }

  lemma AdvanceCounts(st: State, c: nat)
    requires CountersExact(st) && WithinLimits(st) && c < |st.calls| && CanAdvance(st, c)
    ensures CountersExact(Advanced(st, c)) && WithinLimits(Advanced(st, c))
  {
    ReplaceSums(st, c, Advanced(st, c).calls[c]);
    assert Advanced(st, c).calls == st.calls[c := Advanced(st, c).calls[c]];
  }

  lemma AdvanceHandle(st: State, c: nat)
    requires c < |st.calls| && CanAdvance(st, c) && HandleOk(st.calls[c])
    ensures HandleOk(Advanced(st, c).calls[c])
  {
  }

  lemma AdvanceOutcomes(st: State, c: nat)
    requires OutcomesOk(st) && c < |st.calls| && CanAdvance(st, c) && HandleOk(st.calls[c])
    ensures OutcomesOk(Advanced(st, c))
  {
    var st' := Advanced(st, c);
    AdvanceHandle(st, c);
    assert Announced(st.calls[c].stage) ==> Announced(st'.calls[c].stage);
    assert st.calls[c].stage.Unlisted? ==> c !in st.outcomes;
  }

  lemma AdvanceKeeps(st: State, c: nat)
    requires Inv(st) && c < |st.calls| && CanAdvance(st, c)
    ensures Inv(Advanced(st, c))
  {
    assert st.calls[c] in st.calls;
    AdvanceCounts(st, c);
    AdvanceHandle(st, c);
    AdvanceOutcomes(st, c);
    ReplaceHandles(st.calls, c, Advanced(st, c).calls[c]);
    assert Advanced(st, c).calls == st.calls[c := Advanced(st, c).calls[c]];
  }

  /** A change of one call that leaves what it holds and whether it has announced alone. */
  lemma NeutralKeeps(st: State, c: nat, y: Invocation)
    requires Inv(st) && c < |st.calls| && HandleOk(y)
    requires HoldsInvocation(y) == HoldsInvocation(st.calls[c]) && HoldsEntries(y) == HoldsEntries(st.calls[c])
    requires HoldsBytes(y) == HoldsBytes(st.calls[c])
    requires Announced(st.calls[c].stage) ==> Announced(y.stage) && (!st.calls[c].listed ==> !y.listed)
    ensures Inv(st.(calls := st.calls[c := y]))
  {
    ReplaceSums(st, c, y);
    ReplaceHandles(st.calls, c, y);
  }

  lemma CancelOk(x: Invocation)
    requires HandleOk(x)
    ensures HandleOk(CancelCall(x)) && CancelCall(x).stage == x.stage
    ensures HoldsInvocation(CancelCall(x)) == HoldsInvocation(x) && HoldsEntries(CancelCall(x)) == HoldsEntries(x)
    ensures HoldsBytes(CancelCall(x)) == HoldsBytes(x) && (!x.listed ==> CancelCall(x) == x) && !CancelCall(x).listed
  {
  }

  lemma {:induction false} CancelEachOk(calls: seq<Invocation>)
    requires forall x :: x in calls ==> HandleOk(x)
    ensures |CancelEach(calls)| == |calls|
    ensures forall c :: 0 <= c < |calls| ==> CancelEach(calls)[c] == CancelCall(calls[c])
    ensures Sum(CancelEach(calls), HoldsInvocation) == Sum(calls, HoldsInvocation)
    ensures Sum(CancelEach(calls), HoldsEntries) == Sum(calls, HoldsEntries)
    ensures Sum(CancelEach(calls), HoldsBytes) == Sum(calls, HoldsBytes)
  {
    if calls != [] {
      assert calls[0] in calls;
      CancelOk(calls[0]);
      CancelEachOk(calls[1..]);
      assert CancelEach(calls)[1..] == CancelEach(calls[1..]);
      forall c | 0 <= c < |calls| ensures CancelEach(calls)[c] == CancelCall(calls[c]) {
        if c > 0 { assert calls[c] == calls[1..][c - 1]; }
      }
    }
  }

  lemma CancelAllKeeps(st: State)
    requires Inv(st)
    ensures Inv(Apply(st, CancelAll))
  {
    CancelEachOk(st.calls);
    var st' := Apply(st, CancelAll);
    forall x | x in st'.calls ensures HandleOk(x) {
      var c :| 0 <= c < |st'.calls| && st'.calls[c] == x;
      assert st.calls[c] in st.calls;
      CancelOk(st.calls[c]);
    }
    forall c | c in st'.outcomes ensures c < |st'.calls| && Announced(st'.calls[c].stage) && !st'.calls[c].listed {
      assert st.calls[c] in st.calls;
      CancelOk(st.calls[c]);
    }
  }

  lemma SubmitKeeps(st: State, entries: nat, bytes: nat)
    requires Inv(st)
    ensures Inv(Apply(st, Submit(entries, bytes)))
  {
    var more := [Invocation(entries, bytes, Fresh, false, false)];
    SumConcat(st.calls, more, HoldsInvocation);
    SumConcat(st.calls, more, HoldsEntries);
    SumConcat(st.calls, more, HoldsBytes);
  }

  lemma StepKeeps(st: State, s: Step)
    requires Inv(st) && Enabled(st, s)
    ensures Inv(Apply(st, s))
  {
    match s
    case Submit(entries, bytes) => SubmitKeeps(st, entries, bytes);
    case Advance(c) => AdvanceKeeps(st, c);
    case CasFails(c) =>
      assert st.calls[c] in st.calls;
      NeutralKeeps(st, c, Reloaded(st, c).calls[c]);
    case Cancel(c) =>
      assert st.calls[c] in st.calls;
      CancelOk(st.calls[c]);
      NeutralKeeps(st, c, CancelCall(st.calls[c]));
    case CancelAll => CancelAllKeeps(st);
    case AbortTakesEffect(c) =>
      assert st.calls[c] in st.calls;
      NeutralKeeps(st, c, st.calls[c].(stage := Dropping));
  }

  // ---------------------------------------------------------------- whole runs

  ghost predicate IsRun(states: seq<State>, steps: seq<Step>) {
    && |states| == |steps| + 1
    && states[0] == Initial(states[0].limits)
    && forall i :: 0 <= i < |steps| ==> Enabled(states[i], steps[i]) && states[i + 1] == Apply(states[i], steps[i])
  }

  /**
   In every state of every run each counter is the sum over the calls that hold that stage, never
   negative and never above its limit.
   */
  lemma {:induction false} ReservationsAlwaysExact(states: seq<State>, steps: seq<Step>, i: nat)
    requires IsRun(states, steps) && i < |states|
    ensures Inv(states[i])
    ensures 0 <= states[i].invocations <= states[i].limits.invocations
    ensures 0 <= states[i].entries <= states[i].limits.entries
    ensures 0 <= states[i].bytes <= states[i].limits.bytes
  {
    if i > 0 {
      ReservationsAlwaysExact(states, steps, i - 1);
      StepKeeps(states[i - 1], steps[i - 1]);
    }
    SumNonNegative(states[i].calls, HoldsInvocation);
    SumNonNegative(states[i].calls, HoldsEntries);
    SumNonNegative(states[i].calls, HoldsBytes);
  }

  /** Once every reservation was rolled back or dropped, all three counters are zero and no handle is listed. */
  lemma AllReturned(states: seq<State>, steps: seq<Step>, i: nat)
    requires IsRun(states, steps) && i < |states|
    requires forall x :: x in states[i].calls ==> x.stage.Rejected? || x.stage.Gone?
    ensures states[i].invocations == states[i].entries == states[i].bytes == 0
    ensures forall x :: x in states[i].calls ==> !x.listed
  {
    ReservationsAlwaysExact(states, steps, i);
    SumZero(states[i].calls, HoldsInvocation);
    SumZero(states[i].calls, HoldsEntries);
    SumZero(states[i].calls, HoldsBytes);
  }

  /**
   The start gate closes the race between listing a handle and removing it: a task that is past its
   removal is never in the table, and a task that is started and was not cancelled always is.
   */
  lemma HandlesMatchTasks(states: seq<State>, steps: seq<Step>, i: nat, c: nat)
    requires IsRun(states, steps) && i < |states| && c < |states[i].calls|
    ensures var x := states[i].calls[c];
      x.listed <==> (x.stage.Gated? || x.stage.Running? || x.stage.Settled?) && !x.aborted
  {
    ReservationsAlwaysExact(states, steps, i);
    assert states[i].calls[c] in states[i].calls;
  }

  /** However cancels race with completion, an invocation announces at most one outcome. */
  lemma OneOutcomePerCall(states: seq<State>, steps: seq<Step>, i: nat)
    requires IsRun(states, steps) && i < |states|
    ensures NoDup(states[i].outcomes)
  {
    ReservationsAlwaysExact(states, steps, i);
  }

  // ---------------------------------------------------------------- which calls are turned away

  /**
   A reservation gives up a counter exactly when the value it saw leaves no room for the call, and takes
   the counter otherwise.
   */
  lemma ReservationDecides(st: State, c: nat)
    requires c < |st.calls| && CanAdvance(st, c) && Retries(st, c)
    ensures var x, y := st.calls[c], Advanced(st, c).calls[c];
      match x.stage
      case InvocationLoaded(seen) =>
        if seen < st.limits.invocations
        then y.stage.InvocationHeld? && Advanced(st, c).invocations == st.invocations + 1
        else y.stage.Rejected?
      case EntriesLoaded(seen) =>
        if seen + x.entries <= st.limits.entries
        then y.stage.EntriesHeld? && Advanced(st, c).entries == st.entries + x.entries
        else y.stage.RollBackInvocation?
      case BytesLoaded(seen) =>
        if seen + x.bytes <= st.limits.bytes then y.stage.Reserved? && Advanced(st, c).bytes == st.bytes + x.bytes
        else y.stage.RollBackEntries?
      case _ => true
  {
  }

  /**
   It decides at once when the value it saw leaves no room, and takes the counter only if that still has
   the value seen; else it has to reload.
   */
  lemma ReservationWaitsFor(st: State, c: nat)
    requires c < |st.calls| && Retries(st, c)
    ensures Enabled(st, CasFails(c))
    ensures var x := st.calls[c];
      match x.stage
      case InvocationLoaded(seen) => CanAdvance(st, c) <==> seen >= st.limits.invocations || seen == st.invocations
      case EntriesLoaded(seen) => CanAdvance(st, c) <==> seen > st.limits.entries - x.entries || seen == st.entries
      case BytesLoaded(seen) => CanAdvance(st, c) <==> seen > st.limits.bytes - x.bytes || seen == st.bytes
      case _ => true
  {
  }

  /** Exactly a cancelled task that has not settled can be stopped; it then returns its reservation without an outcome. */
  lemma CancelledCanBeStopped(states: seq<State>, steps: seq<Step>, i: nat, c: nat)
    requires IsRun(states, steps) && i < |states| && c < |states[i].calls|
    ensures var st, x := states[i], states[i].calls[c];
      && (Enabled(st, AbortTakesEffect(c)) <==> x.aborted && (x.stage.Gated? || x.stage.Running?))
      && (Enabled(st, AbortTakesEffect(c)) ==>
            var st' := Apply(st, AbortTakesEffect(c));
            st'.calls[c].stage.Dropping? && st'.outcomes == st.outcomes && c !in st'.outcomes && !st'.calls[c].listed)
  {
    ReservationsAlwaysExact(states, steps, i);
    assert states[i].calls[c] in states[i].calls;
  }

  /** A cancel takes exactly the handles it is meant for off the table and asks their tasks to stop. */
  lemma CancelReaches(states: seq<State>, steps: seq<Step>, i: nat, c: nat)
    requires IsRun(states, steps) && i < |steps| && c < |states[i].calls|
    requires steps[i].Cancel? || steps[i].CancelAll?
    ensures c < |states[i + 1].calls|
    ensures var x, y := states[i].calls[c], states[i + 1].calls[c];
      if x.listed && (steps[i] == Cancel(c) || steps[i] == CancelAll) then y == x.(listed := false, aborted := true)
      else y == x
  {
    assert Enabled(states[i], steps[i]) && states[i + 1] == Apply(states[i], steps[i]);
    if steps[i].CancelAll? {
      CancelEachAt(states[i].calls, c);
    }
  }

  /** One of the three counters has no room for the call. */
  predicate Full(st: State, x: Invocation) {
    || st.invocations >= st.limits.invocations
    || st.entries + x.entries > st.limits.entries
    || st.bytes + x.bytes > st.limits.bytes
  }

  /** At some moment up to `i` there was no room for the call. */
  ghost predicate WasFull(states: seq<State>, i: nat, x: Invocation) {
    exists j :: 0 <= j <= i && j < |states| && Full(states[j], x)
  }

  predicate TurnedAway(stage: Stage) {
    stage.RollBackEntries? || stage.RollBackInvocation? || stage.Rejected?
  }

  /** What a reservation holds as seen was the value of that counter at some moment. */
  ghost predicate WasSeen(states: seq<State>, i: nat, stage: Stage) {
    exists j :: 0 <= j <= i && j < |states| &&
      match stage
      case InvocationLoaded(seen) => states[j].invocations == seen
      case EntriesLoaded(seen) => states[j].entries == seen
      case BytesLoaded(seen) => states[j].bytes == seen
      case _ => true
  }

  lemma SameCall(st: State, s: Step, c: nat)
    requires Enabled(st, s) && c < |st.calls|
    ensures var st' := Apply(st, s);
      && st'.limits == st.limits && c < |st'.calls|
      && st'.calls[c].entries == st.calls[c].entries && st'.calls[c].bytes == st.calls[c].bytes
      && (s == Advance(c) || s == CasFails(c) || s == AbortTakesEffect(c) || st'.calls[c].stage == st.calls[c].stage)
  {
    if s.CancelAll? {
      CancelEachAt(st.calls, c);
    }
  }

  lemma {:induction false} CancelEachAt(calls: seq<Invocation>, c: nat)
    requires c < |calls|
    ensures |CancelEach(calls)| == |calls| && CancelEach(calls)[c] == CancelCall(calls[c])
  {
    if c > 0 {
      CancelEachAt(calls[1..], c - 1);
    } else {
      CancelEachLength(calls);
    }
  }

  lemma {:induction false} CancelEachLength(calls: seq<Invocation>)
    ensures |CancelEach(calls)| == |calls|
  {
    if calls != [] {
      CancelEachLength(calls[1..]);
    }
  }

  lemma {:induction false} SeenWasCurrent(states: seq<State>, steps: seq<Step>, i: nat, c: nat)
    requires IsRun(states, steps) && i < |states| && c < |states[i].calls|
    ensures WasSeen(states, i, states[i].calls[c].stage)
  {
    assert i > 0;
    var before, s := states[i - 1], steps[i - 1];
    assert Enabled(before, s) && states[i] == Apply(before, s);
    if s.CancelAll? {
      CancelEachLength(before.calls);
    }
    if c < |before.calls| {
      SameCall(before, s, c);
      SeenWasCurrent(states, steps, i - 1, c);
    }
  }

  lemma {:induction false} LimitsStay(states: seq<State>, steps: seq<Step>, i: nat, j: nat)
    requires IsRun(states, steps) && j <= i < |states|
    ensures states[i].limits == states[j].limits
  {
    if j < i {
      LimitsStay(states, steps, i - 1, j);
      assert Enabled(states[i - 1], steps[i - 1]) && states[i] == Apply(states[i - 1], steps[i - 1]);
    }
  }

  /** A call is turned away only if at some moment of the run one of the counters had no room for it. */
  lemma {:induction false} TurnedAwayOnlyWhenFull(states: seq<State>, steps: seq<Step>, i: nat, c: nat)
    requires IsRun(states, steps) && i < |states| && c < |states[i].calls| && TurnedAway(states[i].calls[c].stage)
    ensures WasFull(states, i, states[i].calls[c])
    decreases i
  {
    assert i > 0;
    var before, s := states[i - 1], steps[i - 1];
    assert Enabled(before, s) && states[i] == Apply(before, s);
    if s.CancelAll? {
      CancelEachLength(before.calls);
    }
    if c < |before.calls| {
      SameCall(before, s, c);
      if TurnedAway(before.calls[c].stage) {
        TurnedAwayOnlyWhenFull(states, steps, i - 1, c);
        var j :| 0 <= j <= i - 1 && j < |states| && Full(states[j], before.calls[c]);
        assert Full(states[j], states[i].calls[c]);
      } else {
        SeenWasCurrent(states, steps, i - 1, c);
        FirstTurnedAway(states, steps, i - 1, c);
      }
    }
  }

  lemma FirstTurnedAway(states: seq<State>, steps: seq<Step>, i: nat, c: nat)
    requires IsRun(states, steps) && i < |steps| && c < |states[i].calls|
    requires c < |states[i + 1].calls| && steps[i] == Advance(c)
    requires !TurnedAway(states[i].calls[c].stage) && TurnedAway(states[i + 1].calls[c].stage)
    requires WasSeen(states, i, states[i].calls[c].stage)
    ensures WasFull(states, i + 1, states[i + 1].calls[c])
  {
    var x := states[i].calls[c];
    assert Enabled(states[i], steps[i]) && states[i + 1] == Apply(states[i], steps[i]);
    var j :| 0 <= j <= i && j < |states| &&
      match x.stage
      case InvocationLoaded(seen) => states[j].invocations == seen
      case EntriesLoaded(seen) => states[j].entries == seen
      case BytesLoaded(seen) => states[j].bytes == seen
      case _ => true;
    LimitsStay(states, steps, i, j);
    assert Full(states[j], states[i + 1].calls[c]);
  }
}
