/**
 The counters of a worker pool under every interleaving. Each atomic operation of a sender or a
 worker is one step; a dispatch carries the program counter of whichever thread holds it.
 */
module WorkerAccounting {
  import opened Sequences

  datatype Stage =
    // the sender
    | Offered
    | Loading
    | Reserving(current: int)
    | Reserved
    | BatchCounted
    | EntriesCounted
    | SendFailed
    | BatchUndone
    | EntriesUndone
    | GivenBack(retryable: bool)
    // the bounded channel
    | Queued
    // the worker
    | Received
    | BatchDequeued
    | EntriesDequeued
    | BatchRunning
    | EntriesRunning
    | Executing
    | Executed
    | BatchFinished
    | EntriesFinished
    | Released(announce: bool)
    | Done

  datatype Dispatch = Dispatch(entries: nat, bytes: nat, stage: Stage)

  datatype Limits = Limits(queueCapacity: nat, maxBytes: nat)

  datatype Message = Started(d: nat) | Completed(d: nat)

  datatype State = State(
    limits: Limits,
    dispatches: seq<Dispatch>,
    queue: seq<nat>,
    mailbox: seq<Message>,
    queuedBatches: int, queuedEntries: int, runningBatches: int, runningEntries: int, inflightBytes: int)

  /** A thread that holds dispatch `d` performs its next atomic operation, or a new dispatch is offered. */
  datatype Step =
    | Offer(entries: nat, bytes: nat)
    | Refuse(d: nat)
    | Advance(d: nat)
    | CasFails(d: nat)
    | ChannelRefuses(d: nat)
    | MailboxGone(d: nat)

  function Initial(limits: Limits): State {
    State(limits, [], [], [], 0, 0, 0, 0, 0)
  }

  function At(st: State, d: nat): Stage
    requires d < |st.dispatches|
  {
    st.dispatches[d].stage
  }

  function Move(st: State, d: nat, stage: Stage): State
    requires d < |st.dispatches|
  {
    st.(dispatches := st.dispatches[d := st.dispatches[d].(stage := stage)])
  }

  ghost predicate Enabled(st: State, s: Step) {
    match s
    case Offer(_, _) => true
    case Refuse(d) => d < |st.dispatches| && At(st, d).Offered?
    case Advance(d) => d < |st.dispatches| && CanAdvance(st, d)
    case CasFails(d) => d < |st.dispatches| && At(st, d).Reserving? && At(st, d).current + st.dispatches[d].bytes <= st.limits.maxBytes
    case ChannelRefuses(d) => d < |st.dispatches| && At(st, d).EntriesCounted?
    case MailboxGone(d) => d < |st.dispatches| && (At(st, d).EntriesRunning? || At(st, d) == Released(true))
  }

  predicate CanAdvance(st: State, d: nat)
    requires d < |st.dispatches|
  {
    match At(st, d)
    case Reserving(current) =>
      current + st.dispatches[d].bytes > st.limits.maxBytes || current == st.inflightBytes
    case EntriesCounted => |st.queue| < st.limits.queueCapacity
    case Queued => st.queue != [] && st.queue[0] == d
    case GivenBack(_) => false
    case Released(announce) => announce
    case Done => false
    case _ => true
  }

  /** The next atomic operation on dispatch `d`. */
  function Advanced(st: State, d: nat): State
    requires d < |st.dispatches| && CanAdvance(st, d)
  {
    var x := st.dispatches[d];
    match x.stage
    case Offered => if x.bytes > st.limits.maxBytes then Move(st, d, GivenBack(false)) else Move(st, d, Loading)
    case Loading => Move(st, d, Reserving(st.inflightBytes))
    case Reserving(current) =>
      if current + x.bytes > st.limits.maxBytes then Move(st, d, GivenBack(true))
      else Move(st, d, Reserved).(inflightBytes := current + x.bytes)
    case Reserved => Move(st, d, BatchCounted).(queuedBatches := st.queuedBatches + 1)
    case BatchCounted => Move(st, d, EntriesCounted).(queuedEntries := st.queuedEntries + x.entries)
    case EntriesCounted => Move(st, d, Queued).(queue := st.queue + [d])
    case SendFailed => Move(st, d, BatchUndone).(queuedBatches := st.queuedBatches - 1)
    case BatchUndone => Move(st, d, EntriesUndone).(queuedEntries := st.queuedEntries - x.entries)
    case EntriesUndone => Move(st, d, GivenBack(true)).(inflightBytes := st.inflightBytes - x.bytes)
    case Queued => Move(st, d, Received).(queue := st.queue[1..])
    case Received => Move(st, d, BatchDequeued).(queuedBatches := st.queuedBatches - 1)
    case BatchDequeued => Move(st, d, EntriesDequeued).(queuedEntries := st.queuedEntries - x.entries)
    case EntriesDequeued => Move(st, d, BatchRunning).(runningBatches := st.runningBatches + 1)
    case BatchRunning => Move(st, d, EntriesRunning).(runningEntries := st.runningEntries + x.entries)
    case EntriesRunning => Move(st, d, Executing).(mailbox := st.mailbox + [Started(d)])
    case Executing => Move(st, d, Executed)
    case Executed => Move(st, d, BatchFinished).(runningBatches := st.runningBatches - 1)
    case BatchFinished => Move(st, d, EntriesFinished).(runningEntries := st.runningEntries - x.entries)
    case EntriesFinished => Move(st, d, Released(true)).(inflightBytes := st.inflightBytes - x.bytes)
    case Released(_) => Move(st, d, Done).(mailbox := st.mailbox + [Completed(d)])
  }

  function Apply(st: State, s: Step): State
    requires Enabled(st, s)
  {
    match s
    case Offer(entries, bytes) => st.(dispatches := st.dispatches + [Dispatch(entries, bytes, Offered)])
    case Refuse(d) => Move(st, d, GivenBack(true))
    case Advance(d) => Advanced(st, d)
    case CasFails(d) => Move(st, d, Reserving(st.inflightBytes))
    case ChannelRefuses(d) => Move(st, d, SendFailed)
    case MailboxGone(d) => if At(st, d).EntriesRunning? then Move(st, d, Executed) else Move(st, d, Done)
  }

  // ---------------------------------------------------------------- what each dispatch contributes

  function QueuedBatch(d: Dispatch): int {
    match d.stage
    case BatchCounted | EntriesCounted | SendFailed | Queued | Received => 1
    case _ => 0
  }

  function QueuedEntries(d: Dispatch): int {
    match d.stage
    case EntriesCounted | SendFailed | BatchUndone | Queued | Received | BatchDequeued => d.entries
    case _ => 0
  }

  function RunningBatch(d: Dispatch): int {
    match d.stage
    case BatchRunning | EntriesRunning | Executing | Executed => 1
    case _ => 0
  }

  function RunningEntries(d: Dispatch): int {
    match d.stage
    case EntriesRunning | Executing | Executed | BatchFinished => d.entries
    case _ => 0
  }

  /** A dispatch holds its bytes from the successful compare-and-swap to the worker's release. */
  function Bytes(d: Dispatch): int {
    match d.stage
    case Offered | Loading | Reserving(_) | GivenBack(_) | Released(_) | Done => 0
    case _ => d.bytes
  }

  // ---------------------------------------------------------------- the invariant

  ghost predicate CountersExact(st: State) {
    && st.queuedBatches == Sum(st.dispatches, QueuedBatch)
    && st.queuedEntries == Sum(st.dispatches, QueuedEntries)
    && st.runningBatches == Sum(st.dispatches, RunningBatch)
    && st.runningEntries == Sum(st.dispatches, RunningEntries)
    && st.inflightBytes == Sum(st.dispatches, Bytes)
  }

  /** The channel holds exactly the queued dispatches, each once, within its capacity. */
  ghost predicate QueueExact(st: State) {
    && NoDup(st.queue)
    && |st.queue| <= st.limits.queueCapacity
    && forall d: nat :: d in st.queue <==> d < |st.dispatches| && At(st, d).Queued?
  }

  /** A completion is only announced by a dispatch that has given its bytes back. */
  ghost predicate MailboxOk(st: State) {
    forall d: nat :: Completed(d) in st.mailbox ==> d < |st.dispatches| && At(st, d).Done?
  }

  ghost predicate Inv(st: State) {
    CountersExact(st) && st.inflightBytes <= st.limits.maxBytes && QueueExact(st) && MailboxOk(st)
  }

  lemma NonNegative(st: State)
    requires CountersExact(st)
    ensures st.queuedBatches >= 0 && st.queuedEntries >= 0 && st.runningBatches >= 0
    ensures st.runningEntries >= 0
    ensures forall d: nat :: d < |st.dispatches| ==>
              && QueuedBatch(st.dispatches[d]) <= st.queuedBatches
              && QueuedEntries(st.dispatches[d]) <= st.queuedEntries
              && RunningBatch(st.dispatches[d]) <= st.runningBatches
              && RunningEntries(st.dispatches[d]) <= st.runningEntries
              && Bytes(st.dispatches[d]) <= st.inflightBytes
  {
    SumNonNegative(st.dispatches, QueuedBatch);
    SumNonNegative(st.dispatches, QueuedEntries);
    SumNonNegative(st.dispatches, RunningBatch);
    SumNonNegative(st.dispatches, RunningEntries);
    SumNonNegative(st.dispatches, Bytes);
  }

  /** Moving one dispatch changes each sum by the difference of that dispatch's own contributions. */
  lemma MoveSums(st: State, d: nat, stage: Stage)
    requires CountersExact(st) && d < |st.dispatches|
    ensures var x, y := st.dispatches[d], st.dispatches[d].(stage := stage);
      var ys := Move(st, d, stage).dispatches;
      && Sum(ys, QueuedBatch) == st.queuedBatches - QueuedBatch(x) + QueuedBatch(y)
      && Sum(ys, QueuedEntries) == st.queuedEntries - QueuedEntries(x) + QueuedEntries(y)
      && Sum(ys, RunningBatch) == st.runningBatches - RunningBatch(x) + RunningBatch(y)
      && Sum(ys, RunningEntries) == st.runningEntries - RunningEntries(x) + RunningEntries(y)
      && Sum(ys, Bytes) == st.inflightBytes - Bytes(x) + Bytes(y)
  {
    var y := st.dispatches[d].(stage := stage);
    SumUpdate(st.dispatches, d, y, QueuedBatch);
    SumUpdate(st.dispatches, d, y, QueuedEntries);
    SumUpdate(st.dispatches, d, y, RunningBatch);
    SumUpdate(st.dispatches, d, y, RunningEntries);
    SumUpdate(st.dispatches, d, y, Bytes);
  }

  lemma MoveKeepsQueue(st: State, d: nat, stage: Stage)
    requires QueueExact(st) && d < |st.dispatches| && !At(st, d).Queued? && !stage.Queued?
    ensures QueueExact(Move(st, d, stage))
  {
  }

  lemma MoveKeepsMailbox(st: State, d: nat, stage: Stage)
    requires MailboxOk(st) && d < |st.dispatches| && (!At(st, d).Done? || stage.Done?)
    ensures MailboxOk(Move(st, d, stage))
  {
  }

  predicate SenderHolds(stage: Stage) {
    stage.Offered? || stage.Loading? || stage.Reserving? || stage.Reserved? || stage.BatchCounted?
    || stage.EntriesCounted? || stage.SendFailed? || stage.BatchUndone? || stage.EntriesUndone?
  }

  lemma SenderCounts(st: State, d: nat)
    requires Inv(st) && d < |st.dispatches| && CanAdvance(st, d) && SenderHolds(At(st, d))
    ensures CountersExact(Advanced(st, d)) && Advanced(st, d).inflightBytes <= st.limits.maxBytes
  {
    MoveSums(st, d, Advanced(st, d).dispatches[d].stage);
  }

  lemma WorkerCounts(st: State, d: nat)
    requires Inv(st) && d < |st.dispatches| && CanAdvance(st, d) && !SenderHolds(At(st, d))
    ensures CountersExact(Advanced(st, d)) && Advanced(st, d).inflightBytes <= st.limits.maxBytes
  {
    MoveSums(st, d, Advanced(st, d).dispatches[d].stage);
  }

  lemma AdvanceCounts(st: State, d: nat)
    requires Inv(st) && d < |st.dispatches| && CanAdvance(st, d)
    ensures CountersExact(Advanced(st, d)) && Advanced(st, d).inflightBytes <= st.limits.maxBytes
  {
    if SenderHolds(At(st, d)) {
      SenderCounts(st, d);
    } else {
      WorkerCounts(st, d);
    }
  }

  lemma AdvanceQueue(st: State, d: nat)
    requires QueueExact(st) && d < |st.dispatches| && CanAdvance(st, d)
    ensures QueueExact(Advanced(st, d))
  {
  }

  lemma AdvanceMailbox(st: State, d: nat)
    requires Inv(st) && d < |st.dispatches| && CanAdvance(st, d)
    ensures MailboxOk(Advanced(st, d))
  {
  }

  /** A step that only moves a dispatch between stages with the same contributions. */
  lemma NeutralMove(st: State, d: nat, stage: Stage)
    requires Inv(st) && d < |st.dispatches| && !At(st, d).Queued? && !stage.Queued? && !At(st, d).Done?
    requires var x, y := st.dispatches[d], st.dispatches[d].(stage := stage);
      && QueuedBatch(x) == QueuedBatch(y) && QueuedEntries(x) == QueuedEntries(y)
      && RunningBatch(x) == RunningBatch(y) && RunningEntries(x) == RunningEntries(y) && Bytes(x) == Bytes(y)
    ensures Inv(Move(st, d, stage))
  {
    MoveSums(st, d, stage);
    MoveKeepsQueue(st, d, stage);
    MoveKeepsMailbox(st, d, stage);
  }

  lemma OfferKeeps(st: State, entries: nat, bytes: nat)
    requires Inv(st)
    ensures Inv(Apply(st, Offer(entries, bytes)))
  {
    var more := [Dispatch(entries, bytes, Offered)];
    SumConcat(st.dispatches, more, QueuedBatch);
    SumConcat(st.dispatches, more, QueuedEntries);
    SumConcat(st.dispatches, more, RunningBatch);
    SumConcat(st.dispatches, more, RunningEntries);
    SumConcat(st.dispatches, more, Bytes);
  }

  lemma StepKeeps(st: State, s: Step)
    requires Inv(st) && Enabled(st, s)
    ensures Inv(Apply(st, s))
  {
    match s
    case Offer(entries, bytes) => OfferKeeps(st, entries, bytes);
    case Refuse(d) => NeutralMove(st, d, GivenBack(true));
    case Advance(d) =>
      AdvanceCounts(st, d);
      AdvanceQueue(st, d);
      AdvanceMailbox(st, d);
    case CasFails(d) => NeutralMove(st, d, Reserving(st.inflightBytes));
    case ChannelRefuses(d) => NeutralMove(st, d, SendFailed);
    case MailboxGone(d) => NeutralMove(st, d, if At(st, d).EntriesRunning? then Executed else Done);
  }

  // ---------------------------------------------------------------- whole runs

  ghost predicate IsRun(states: seq<State>, steps: seq<Step>) {
    && |states| == |steps| + 1
    && states[0] == Initial(states[0].limits)
    && forall i :: 0 <= i < |steps| ==>
         Enabled(states[i], steps[i]) && states[i + 1] == Apply(states[i], steps[i])
  }

  /**
   In every state of every run the five counters equal what the dispatches on their way contribute,
   none is below zero, and the bytes never exceed the pool's limit.
   */
  lemma {:induction false} CountersAlwaysExact(states: seq<State>, steps: seq<Step>, i: nat)
    requires IsRun(states, steps) && i < |states|
    ensures Inv(states[i])
    ensures states[i].queuedBatches >= 0 && states[i].queuedEntries >= 0 && states[i].runningBatches >= 0
    ensures states[i].runningEntries >= 0 && 0 <= states[i].inflightBytes <= states[i].limits.maxBytes
  {
    if i > 0 {
      CountersAlwaysExact(states, steps, i - 1);
      StepKeeps(states[i - 1], steps[i - 1]);
    }
    NonNegative(states[i]);
  }

  function Without(dispatches: seq<Dispatch>, d: nat): seq<Dispatch>
    requires d < |dispatches|
  {
    dispatches[..d] + dispatches[d + 1..]
  }

  lemma SumWithout(dispatches: seq<Dispatch>, d: nat, weight: Dispatch -> int)
    requires d < |dispatches|
    ensures Sum(dispatches, weight) == Sum(Without(dispatches, d), weight) + weight(dispatches[d])
  {
    assert dispatches == dispatches[..d] + ([dispatches[d]] + dispatches[d + 1..]);
    SumConcat(dispatches[..d], [dispatches[d]] + dispatches[d + 1..], weight);
    SumConcat([dispatches[d]], dispatches[d + 1..], weight);
    SumConcat(dispatches[..d], dispatches[d + 1..], weight);
  }

  /** A refused dispatch has undone its share: the counters are what the other dispatches alone add up to. */
  lemma RefusedLeavesNothing(states: seq<State>, steps: seq<Step>, i: nat, d: nat)
    requires IsRun(states, steps) && i < |states| && d < |states[i].dispatches| && At(states[i], d).GivenBack?
    ensures CountersExact(states[i].(dispatches := Without(states[i].dispatches, d)))
    ensures d !in states[i].queue
  {
    CountersAlwaysExact(states, steps, i);
    var xs := states[i].dispatches;
    SumWithout(xs, d, QueuedBatch);
    SumWithout(xs, d, QueuedEntries);
    SumWithout(xs, d, RunningBatch);
    SumWithout(xs, d, RunningEntries);
    SumWithout(xs, d, Bytes);
  }

  lemma SomeMember(queue: seq<nat>)
    ensures queue != [] ==> exists d: nat :: d in queue
  {
    if queue != [] {
      assert queue[0] in queue;
    }
  }

  /** When every dispatch has been given back or is done, all counters are back at zero. */
  lemma QuiescentPoolIsEmpty(states: seq<State>, steps: seq<Step>, i: nat)
    requires IsRun(states, steps) && i < |states|
    requires forall x :: x in states[i].dispatches ==> x.stage.GivenBack? || x.stage.Done?
    ensures states[i].queuedBatches == states[i].queuedEntries == states[i].runningBatches == 0
    ensures states[i].runningEntries == states[i].inflightBytes == 0 && states[i].queue == []
  {
    CountersAlwaysExact(states, steps, i);
    var st := states[i];
    SumZero(st.dispatches, QueuedBatch);
    SumZero(st.dispatches, QueuedEntries);
    SumZero(st.dispatches, RunningBatch);
    SumZero(st.dispatches, RunningEntries);
    SumZero(st.dispatches, Bytes);
    forall d | 0 <= d < |st.dispatches| ensures !At(st, d).Queued? {
      assert st.dispatches[d] in st.dispatches;
    }
    SomeMember(st.queue);
  }

  /** When the actor can read a completion, the bytes of that dispatch are already free again. */
  lemma BytesFreeBeforeCompletion(states: seq<State>, steps: seq<Step>, i: nat, d: nat)
    requires IsRun(states, steps) && i < |states| && Completed(d) in states[i].mailbox
    ensures d < |states[i].dispatches| && Bytes(states[i].dispatches[d]) == 0
  {
    CountersAlwaysExact(states, steps, i);
  }

  /** A worker executes a dispatch only after it has announced the start. */
  lemma {:induction false} ExecutingWasAnnounced(states: seq<State>, steps: seq<Step>, i: nat, d: nat)
    requires IsRun(states, steps) && i < |states| && d < |states[i].dispatches| && At(states[i], d).Executing?
    ensures Started(d) in states[i].mailbox
  {
    assert i > 0;
    assert Enabled(states[i - 1], steps[i - 1]) && states[i] == Apply(states[i - 1], steps[i - 1]);
    if d < |states[i - 1].dispatches| && At(states[i - 1], d).Executing? {
      ExecutingWasAnnounced(states, steps, i - 1, d);
    }
  }

  // ---------------------------------------------------------------- which dispatches are given back

  /**
   A step gives a dispatch back for good exactly when it looks at an offer larger than the whole byte
   budget. It gives it back for another try exactly when the pool refuses the offer, when the bytes the
   sender last saw leave no room for it, or when the sender has undone a refused send.
   */
  lemma GivenBackExactlyWhen(states: seq<State>, steps: seq<Step>, i: nat, d: nat)
    requires IsRun(states, steps) && i < |steps| && d < |states[i].dispatches| && !At(states[i], d).GivenBack?
    ensures d < |states[i + 1].dispatches|
    ensures var x, s := states[i].dispatches[d], steps[i];
      var room := states[i].limits.maxBytes;
      && (At(states[i + 1], d) == GivenBack(false) <==> s == Advance(d) && x.stage.Offered? && x.bytes > room)
      && (At(states[i + 1], d) == GivenBack(true) <==>
            || s == Refuse(d)
            || (s == Advance(d) && x.stage.Reserving? && x.stage.current + x.bytes > room)
            || (s == Advance(d) && x.stage.EntriesUndone?))
  {
    assert Enabled(states[i], steps[i]) && states[i + 1] == Apply(states[i], steps[i]);
  }

  /** The bytes a sender bases its decision on were in flight at some moment of the run. */
  lemma {:induction false} SeenBytesWereInFlight(states: seq<State>, steps: seq<Step>, i: nat, d: nat)
    requires IsRun(states, steps) && i < |states| && d < |states[i].dispatches| && At(states[i], d).Reserving?
    ensures exists j :: 0 <= j < i && states[j].inflightBytes == At(states[i], d).current
  {
    assert i > 0;
    assert Enabled(states[i - 1], steps[i - 1]) && states[i] == Apply(states[i - 1], steps[i - 1]);
    if d < |states[i - 1].dispatches| && At(states[i - 1], d) == At(states[i], d) {
      SeenBytesWereInFlight(states, steps, i - 1, d);
    } else {
      assert states[i - 1].inflightBytes == At(states[i], d).current;
    }
  }

  lemma SizeStays(states: seq<State>, steps: seq<Step>, i: nat, d: nat)
    requires IsRun(states, steps) && i < |steps| && d < |states[i].dispatches|
    ensures d < |states[i + 1].dispatches| && states[i + 1].limits == states[i].limits
    ensures states[i + 1].dispatches[d].bytes == states[i].dispatches[d].bytes
  {
    assert Enabled(states[i], steps[i]) && states[i + 1] == Apply(states[i], steps[i]);
  }

  /** Some step before `i` refused the offer or the send of this dispatch. */
  ghost predicate RefusedBefore(steps: seq<Step>, i: nat, d: nat) {
    exists j :: 0 <= j < i && j < |steps| && (steps[j] == Refuse(d) || steps[j] == ChannelRefuses(d))
  }

  /** At some moment up to `i` the bytes in flight left no room for that many more. */
  ghost predicate WasFull(states: seq<State>, i: nat, bytes: nat) {
    exists j :: 0 <= j <= i && j < |states| && states[j].inflightBytes + bytes > states[j].limits.maxBytes
  }

  predicate Undoing(stage: Stage) {
    stage.SendFailed? || stage.BatchUndone? || stage.EntriesUndone?
  }

  lemma {:induction false} LimitsStay(states: seq<State>, steps: seq<Step>, i: nat, j: nat)
    requires IsRun(states, steps) && j <= i < |states|
    ensures states[i].limits == states[j].limits
  {
    if j < i {
      LimitsStay(states, steps, i - 1, j);
      assert Enabled(states[i - 1], steps[i - 1]) && states[i] == Apply(states[i - 1], steps[i - 1]);
    }
  }

  /**
   A dispatch is only ever given back because the pool or its channel refused it or because at some
   moment the bytes in flight left no room for it; for good only when it exceeds the whole budget.
   */
  lemma {:induction false} GivenBackOnlyForCause(states: seq<State>, steps: seq<Step>, i: nat, d: nat)
    requires IsRun(states, steps) && i < |states| && d < |states[i].dispatches|
    requires At(states[i], d).GivenBack? || Undoing(At(states[i], d))
    ensures At(states[i], d) == GivenBack(false) ==> states[i].dispatches[d].bytes > states[i].limits.maxBytes
    ensures RefusedBefore(steps, i, d) || WasFull(states, i, states[i].dispatches[d].bytes)
    decreases i
  {
    assert i > 0;
    var before, s := states[i - 1], steps[i - 1];
    assert Enabled(before, s) && states[i] == Apply(before, s);
    if d < |before.dispatches| {
      SizeStays(states, steps, i - 1, d);
      if At(before, d).GivenBack? || Undoing(At(before, d)) {
        GivenBackOnlyForCause(states, steps, i - 1, d);
      } else if s == Advance(d) && At(before, d).Reserving? {
        SeenBytesWereInFlight(states, steps, i - 1, d);
        var j :| 0 <= j < i - 1 && states[j].inflightBytes == At(before, d).current;
        LimitsStay(states, steps, i - 1, j);
      } else if s == Advance(d) {
        CountersAlwaysExact(states, steps, i - 1);
      }
    }
  }

  // ---------------------------------------------------------------- a dispatch that fits goes through

  /** Steps left to the end of the path of a dispatch that is served. */
  function Remaining(stage: Stage): nat {
    match stage
    case Offered => 17
    case Loading => 16
    case Reserving(_) => 15
    case Reserved => 14
    case BatchCounted => 13
    case EntriesCounted => 12
    case Queued => 11
    case Received => 10
    case BatchDequeued => 9
    case EntriesDequeued => 8
    case BatchRunning => 7
    case EntriesRunning => 6
    case Executing => 5
    case Executed => 4
    case BatchFinished => 3
    case EntriesFinished => 2
    case Released(_) => 1
    case _ => 0
  }

  /** Nothing stands in the way of the dispatch: its bytes fit and the channel is free. */
  ghost predicate Clear(st: State, d: nat) {
    && d < |st.dispatches| && st.limits.queueCapacity > 0
    && match At(st, d)
       case Offered | Loading => st.inflightBytes + st.dispatches[d].bytes <= st.limits.maxBytes && st.queue == []
       case Reserving(current) =>
         current == st.inflightBytes && current + st.dispatches[d].bytes <= st.limits.maxBytes && st.queue == []
       case Reserved | BatchCounted | EntriesCounted => st.queue == []
       case Queued => st.queue == [d]
       case SendFailed | BatchUndone | EntriesUndone | GivenBack(_) => false
       case Released(announce) => announce
       case Done => Completed(d) in st.mailbox
       case _ => true
  }

  lemma AdvanceStaysClear(st: State, d: nat)
    requires Inv(st) && Clear(st, d) && !At(st, d).Done?
    ensures CanAdvance(st, d) && Clear(Advanced(st, d), d)
    ensures Remaining(At(Advanced(st, d), d)) < Remaining(At(st, d))
  {
    NonNegative(st);
  }

  /** From any state of a run the steps of a dispatch in nobody's way lead to its announced completion. */
  lemma {:induction false} FittingDispatchGoesThrough(states: seq<State>, steps: seq<Step>, d: nat)
    returns (states': seq<State>, steps': seq<Step>)
    requires IsRun(states, steps) && Clear(states[|states| - 1], d)
    ensures IsRun(states', steps') && states <= states' && steps <= steps'
    ensures var x, end := states[|states| - 1].dispatches[d], states'[|states'| - 1];
      d < |end.dispatches| && end.dispatches[d] == x.(stage := Done) && Completed(d) in end.mailbox
    decreases Remaining(At(states[|states| - 1], d))
  {
    var last := states[|states| - 1];
    if At(last, d).Done? {
      return states, steps;
    }
    CountersAlwaysExact(states, steps, |states| - 1);
    AdvanceStaysClear(last, d);
    states', steps' := FittingDispatchGoesThrough(states + [Advanced(last, d)], steps + [Advance(d)], d);
  }

  /** So a new offer that fits next to the bytes in flight can be served whenever the channel is empty. */
  lemma FittingOfferGoesThrough(states: seq<State>, steps: seq<Step>, entries: nat, bytes: nat)
    returns (states': seq<State>, steps': seq<Step>)
    requires IsRun(states, steps)
    requires var last := states[|states| - 1];
      last.inflightBytes + bytes <= last.limits.maxBytes && last.queue == [] && last.limits.queueCapacity > 0
    ensures IsRun(states', steps') && states <= states' && steps + [Offer(entries, bytes)] <= steps'
    ensures var d, end := |states[|states| - 1].dispatches|, states'[|states'| - 1];
      && d < |end.dispatches| && end.dispatches[d] == Dispatch(entries, bytes, Done) && Completed(d) in end.mailbox
  {
    var last := states[|states| - 1];
    var offered := Apply(last, Offer(entries, bytes));
    states', steps' := FittingDispatchGoesThrough(
      states + [offered], steps + [Offer(entries, bytes)], |last.dispatches|);
  }
}
