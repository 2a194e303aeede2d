/**
 Dispatch capacity: what one runner may be granted in one tick, computed with the saturating
 arithmetic of a machine word, the clamping of whatever a scheduler policy answers, and the
 reservations that let several runners share the slots of one pool within a tick.
 */
module Scheduler {
  import opened Sequences

  const USIZE_MAX: nat := 0xFFFF_FFFF_FFFF_FFFF

  type usize = n: nat | n <= USIZE_MAX

  function SatAdd(a: usize, b: usize): usize {
    if a + b > USIZE_MAX then USIZE_MAX else a + b
  }

  function SatSub(a: usize, b: usize): usize {
    if a < b then 0 else a - b
  }

  function SatMul(a: usize, b: usize): usize {
    if a * b > USIZE_MAX then USIZE_MAX else a * b
  }

  function Least(a: usize, b: usize): usize {
    if a <= b then a else b
  }

  datatype Class = Control | Orchestration | Cpu | Io | Blocking | Script

  datatype Concurrency =
    | Exclusive
    | Reentrant(batches: usize, entries: usize)
    | Sharded(instances: usize)

  datatype Descriptor = Descriptor(
    isKernel: bool, kind: Class, isAsync: bool, concurrency: Concurrency, maxBatchEntries: usize)

  datatype Load = Load(running: usize, waiting: usize)

  datatype Limits = Limits(maxRunning: usize, maxWaiting: usize, maxInflight: usize)

  /** A number of entries and the number of batches they may be spread over. */
  datatype Capacity = Capacity(entries: usize, batches: usize)

  function MaxInflightBatches(c: Concurrency): usize {
    match c
    case Exclusive => 1
    case Reentrant(batches, _) => batches
    case Sharded(instances) => instances
  }

  // ---------------------------------------------------------------- hard capacity

  function MaximumBatches(d: Descriptor, limits: Limits): usize {
    Least(MaxInflightBatches(d.concurrency), limits.maxRunning)
  }

  function StandardCapacity(d: Descriptor, load: Load, limits: Limits, slots: usize, runningBatches: usize): Capacity {
    var maximum := MaximumBatches(d, limits);
    var batches := Least(SatSub(maximum, runningBatches), slots);
    var inflight := SatAdd(load.running, load.waiting);
    if batches == 0 || (d.concurrency.Exclusive? && inflight > 0) || load.waiting >= limits.maxWaiting then
      Capacity(0, 0)
    else
      var descriptorEntries :=
        if d.concurrency.Reentrant? then d.concurrency.entries else SatMul(d.maxBatchEntries, maximum);
      var entries := Least(SatSub(Least(descriptorEntries, limits.maxInflight), inflight), SatMul(d.maxBatchEntries, batches));
      if entries == 0 then Capacity(0, 0) else Capacity(entries, Least(batches, entries))
  }

  function HardCapacity(d: Descriptor, load: Load, limits: Limits, slots: usize, runningBatches: usize): Capacity {
    if d.kind.Control? then
      if d.isKernel then Capacity(1, 1) else Capacity(0, 0)
    else StandardCapacity(d, load, limits, slots, runningBatches)
  }

  /**
   What the descriptor, the host limits and the pool allow, in unbounded arithmetic: every batch holds
   at least one and at most `maxBatchEntries` entries, and all running, waiting and granted work
   together stays within every limit.
   */
  ghost predicate Allowed(d: Descriptor, load: Load, limits: Limits, slots: nat, runningBatches: nat, entries: nat,
                          batches: nat) {
    && 1 <= batches <= entries <= d.maxBatchEntries * batches
    && runningBatches + batches <= MaxInflightBatches(d.concurrency)
    && runningBatches + batches <= limits.maxRunning
    && batches <= slots
    && load.running + load.waiting + entries <= limits.maxInflight
    && (d.concurrency.Reentrant? ==> load.running + load.waiting + entries <= d.concurrency.entries)
    && (!d.concurrency.Reentrant? ==>
          load.running + load.waiting + entries <= d.maxBatchEntries * MaximumBatches(d, limits))
    && (d.concurrency.Exclusive? ==> load.running + load.waiting == 0)
    && load.waiting < limits.maxWaiting
  }

  lemma ProductGrows(size: nat, a: nat, b: nat)
    requires a <= b
    ensures size * a <= size * b
  {
  }

  lemma ProductCovers(size: nat, n: nat)
    requires size * n > 0 || size >= 1
    ensures size >= 1 && size * n >= n
  {
  }

  /** A non-empty grant breaks no limit, although the computation saturates. */
  lemma GrantIsAllowed(d: Descriptor, load: Load, limits: Limits, slots: usize, runningBatches: usize)
    ensures var c := StandardCapacity(d, load, limits, slots, runningBatches);
      c == Capacity(0, 0) || Allowed(d, load, limits, slots, runningBatches, c.entries, c.batches)
  {
    var c := StandardCapacity(d, load, limits, slots, runningBatches);
    if c != Capacity(0, 0) {
      var batches := Least(SatSub(MaximumBatches(d, limits), runningBatches), slots);
      assert 1 <= c.entries <= d.maxBatchEntries * batches;
      ProductCovers(d.maxBatchEntries, batches);
      ProductCovers(d.maxBatchEntries, c.entries);
    }
  }

  /** No allowed grant has more entries or more batches: the saturating result is the true optimum. */
  lemma GrantIsLargest(d: Descriptor, load: Load, limits: Limits, slots: usize, runningBatches: usize, entries: nat,
                       batches: nat)
    requires Allowed(d, load, limits, slots, runningBatches, entries, batches)
    ensures var c := StandardCapacity(d, load, limits, slots, runningBatches);
      entries <= c.entries && batches <= c.batches
  {
    var maximum := MaximumBatches(d, limits);
    var most := Least(SatSub(maximum, runningBatches), slots);
    assert batches <= most;
    ProductGrows(d.maxBatchEntries, batches, most);
    assert entries <= SatMul(d.maxBatchEntries, most);
  }

  /** So nothing is granted exactly when nothing is allowed. */
  lemma ExhaustedMeansNothingAllowed(d: Descriptor, load: Load, limits: Limits, slots: usize, runningBatches: usize)
    ensures StandardCapacity(d, load, limits, slots, runningBatches) == Capacity(0, 0)
       <==> forall entries: nat, batches: nat :: !Allowed(d, load, limits, slots, runningBatches, entries, batches)
  {
    var c := StandardCapacity(d, load, limits, slots, runningBatches);
    GrantIsAllowed(d, load, limits, slots, runningBatches);
    forall entries: nat, batches: nat | Allowed(d, load, limits, slots, runningBatches, entries, batches)
      ensures c != Capacity(0, 0)
    {
      GrantIsLargest(d, load, limits, slots, runningBatches, entries, batches);
    }
  }

  /**
   Control runners get no capacity from load or slots: the kernel one entry at a time, any other none,
   whatever a policy answers.
   */
  lemma ControlRunsOnlyKernel(d: Descriptor, load: Load, limits: Limits, slots: usize, runningBatches: usize,
                              freeBytes: usize, answer: Decision)
    requires d.kind.Control?
    ensures var x := Decide(HardCapacity(d, load, limits, slots, runningBatches), freeBytes, answer);
      && x.entries <= 1 && x.batches <= 1 && x.limit <= 1
      && (!d.isKernel ==> x.entries == x.batches == x.limit == 0)
      && (d.isKernel && answer.entries > 0 && answer.batches > 0 ==> x.entries == x.batches == 1)
  {
  }

  // ---------------------------------------------------------------- a policy's answer, clamped

  datatype Decision = Decision(limit: usize, entries: usize, batches: usize, bytes: usize)

  function ClampTo(x: Decision, hard: usize): Decision {
    var entries := Least(x.entries, hard);
    x.(limit := Least(x.limit, hard), entries := entries, batches := if entries == 0 then 0 else Least(x.batches, entries))
  }

  function ClampBatches(x: Decision, hard: usize): Decision {
    var batches := Least(x.batches, hard);
    x.(batches := batches, entries := if batches == 0 then 0 else x.entries, limit := if batches == 0 then 0 else x.limit)
  }

  /** `answer` is whatever the policy returned. */
  function Decide(hard: Capacity, freeBytes: usize, answer: Decision): Decision {
    var x := ClampBatches(ClampTo(answer, hard.entries), hard.batches);
    x.(bytes := Least(x.bytes, freeBytes))
  }

  function DefaultAnswer(hard: Capacity): Decision {
    Decision(hard.entries, hard.entries, hard.batches, USIZE_MAX)
  }

  /**
   A decision that grants no more than the answer and the capacity, spreads its entries over no more
   batches than entries, and is empty in every part when it has no batch.
   */
  ghost predicate Within(y: Decision, answer: Decision, entries: nat, batches: nat, bytes: nat) {
    && y.entries <= answer.entries && y.entries <= entries
    && y.limit <= answer.limit && y.limit <= entries
    && y.batches <= answer.batches && y.batches <= batches && y.batches <= y.entries
    && (y.batches == 0 ==> y.entries == 0 && y.limit == 0)
    && y.bytes <= answer.bytes && y.bytes <= bytes
  }

  ghost predicate AtMost(y: Decision, x: Decision) {
    y.limit <= x.limit && y.entries <= x.entries && y.batches <= x.batches && y.bytes <= x.bytes
  }

  /** The decision is the largest one within the answer and the capacity. */
  lemma DecisionIsLargest(hard: Capacity, freeBytes: usize, answer: Decision)
    ensures Within(Decide(hard, freeBytes, answer), answer, hard.entries, hard.batches, freeBytes)
    ensures forall y :: Within(y, answer, hard.entries, hard.batches, freeBytes) ==>
              AtMost(y, Decide(hard, freeBytes, answer))
  {
  }

  /** Whatever a policy answers, the decision stays within the hard capacity and is empty or not in every part. */
  lemma PolicyCannotExceed(d: Descriptor, load: Load, limits: Limits, slots: usize, runningBatches: usize,
                           freeBytes: usize, answer: Decision)
    requires !d.kind.Control?
    ensures var x := Decide(HardCapacity(d, load, limits, slots, runningBatches), freeBytes, answer);
      && (x.entries == 0 <==> x.batches == 0)
      && (x.batches == 0 ==> x.limit == 0)
      && x.bytes <= freeBytes
      && (x.batches > 0 ==>
            && load.running + load.waiting + Max(x.entries, x.limit) <= limits.maxInflight
            && (d.concurrency.Reentrant? ==> load.running + load.waiting + Max(x.entries, x.limit) <= d.concurrency.entries)
            && (!d.concurrency.Reentrant? ==>
                  load.running + load.waiting + Max(x.entries, x.limit) <= d.maxBatchEntries * MaximumBatches(d, limits))
            && runningBatches + x.batches <= Min(MaxInflightBatches(d.concurrency), limits.maxRunning)
            && x.batches <= slots
            && (d.concurrency.Exclusive? ==> load.running + load.waiting + runningBatches == 0 && x.batches == 1))
  {
  }

  /** The default policy passes the hard capacity through unchanged. */
  lemma DefaultGrantsAll(d: Descriptor, load: Load, limits: Limits, slots: usize, runningBatches: usize,
                         freeBytes: usize)
    requires !d.kind.Control?
    ensures var hard := HardCapacity(d, load, limits, slots, runningBatches);
      Decide(hard, freeBytes, DefaultAnswer(hard)) == Decision(hard.entries, hard.entries, hard.batches, freeBytes)
  {
  }

  /** So under the default policy no allowed grant has more entries or more batches than the decision. */
  lemma DefaultIsOptimal(d: Descriptor, load: Load, limits: Limits, slots: usize, runningBatches: usize,
                         freeBytes: usize, entries: nat, batches: nat)
    requires !d.kind.Control? && Allowed(d, load, limits, slots, runningBatches, entries, batches)
    ensures var hard := HardCapacity(d, load, limits, slots, runningBatches);
      var x := Decide(hard, freeBytes, DefaultAnswer(hard));
      && entries <= x.entries == x.limit && batches <= x.batches
      && Allowed(d, load, limits, slots, runningBatches, x.entries, x.batches)
  {
    DefaultGrantsAll(d, load, limits, slots, runningBatches, freeBytes);
    GrantIsLargest(d, load, limits, slots, runningBatches, entries, batches);
    GrantIsAllowed(d, load, limits, slots, runningBatches);
  }

  /**
   A decision can still ask for more entries than its batches hold. It does so exactly when the policy
   answered fewer batches than its clamped entries need.
   */
  lemma EntriesFitBatchesIff(d: Descriptor, load: Load, limits: Limits, slots: usize, runningBatches: usize,
                             freeBytes: usize, answer: Decision)
    requires !d.kind.Control?
    ensures var hard := HardCapacity(d, load, limits, slots, runningBatches);
      var x := Decide(hard, freeBytes, answer);
      x.entries <= d.maxBatchEntries * x.batches
      <==> (answer.entries == 0 || answer.batches == 0 || hard.entries == 0
            || Least(answer.entries, hard.entries) <= d.maxBatchEntries * Least(answer.batches, hard.batches))
  {
    var hard := HardCapacity(d, load, limits, slots, runningBatches);
    var x := Decide(hard, freeBytes, answer);
    GrantIsAllowed(d, load, limits, slots, runningBatches);
    if hard.entries > 0 && answer.entries > 0 && answer.batches > 0 {
      var wanted := Least(answer.batches, hard.batches);
      assert x.entries == Least(answer.entries, hard.entries) && x.batches == Least(wanted, x.entries);
      ProductCovers(d.maxBatchEntries, hard.batches);
      ProductCovers(d.maxBatchEntries, x.entries);
      ProductGrows(d.maxBatchEntries, x.batches, wanted);
    }
  }

  lemma EntriesCanOverrunBatches()
    ensures var d := Descriptor(false, Cpu, false, Reentrant(4, 8), 2);
      var hard := HardCapacity(d, Load(0, 0), Limits(128, 256, 256), 4, 0);
      var x := Decide(hard, USIZE_MAX, Decision(8, 8, 1, USIZE_MAX));
      x.entries == 8 && x.batches == 1 && x.entries > d.maxBatchEntries * x.batches
  {
  }

  // ---------------------------------------------------------------- the claim clamps once more

  function ClaimBatches(d: Descriptor, x: Decision): usize {
    Least(x.batches, MaxInflightBatches(d.concurrency))
  }

  function ClaimDecision(d: Descriptor, x: Decision): Decision {
    var batches := ClaimBatches(d, x);
    ClampBatches(ClampTo(x, SatMul(d.maxBatchEntries, batches)), batches)
  }

  /**
   After the claim's own clamp the entries fit the batches for every policy, and a claim has a positive
   batch size.
   */
  lemma ClaimFitsBatches(d: Descriptor, x: Decision)
    ensures var y := ClaimDecision(d, x);
      && y.limit <= d.maxBatchEntries * ClaimBatches(d, x)
      && y.entries <= d.maxBatchEntries * ClaimBatches(d, x)
      && y.limit <= x.limit && y.entries <= x.entries && y.batches <= ClaimBatches(d, x) <= x.batches
      && (y.limit > 0 ==> d.maxBatchEntries > 0 && y.batches > 0 && y.entries > 0)
  {
  }

  /**
   The claim takes the largest decision within the one it is given, the batches the runner may have in
   flight and the entries those batches hold; so a decision that fits already is claimed unchanged.
   */
  lemma ClaimIsLargest(d: Descriptor, x: Decision)
    ensures var batches := if x.batches <= MaxInflightBatches(d.concurrency) then x.batches
                           else MaxInflightBatches(d.concurrency);
      var entries := d.maxBatchEntries * batches;
      && Within(ClaimDecision(d, x), x, entries, batches, x.bytes)
      && (forall y :: Within(y, x, entries, batches, x.bytes) ==> AtMost(y, ClaimDecision(d, x)))
      && (Within(x, x, entries, batches, x.bytes) ==> ClaimDecision(d, x) == x)
  {
    DecisionIsLargest(Capacity(SatMul(d.maxBatchEntries, ClaimBatches(d, x)), ClaimBatches(d, x)), x.bytes, x);
  }

  // ---------------------------------------------------------------- one tick over many runners

  datatype Pool = Compute | BlockingPool | AsyncPool

  function PoolOf(d: Descriptor): Pool {
    if d.isAsync then AsyncPool
    else if d.kind.Orchestration? || d.kind.Cpu? then Compute
    else BlockingPool
  }

  /** Every runner belongs to one pool: an asynchronous one to its own, else by whether it computes or blocks. */
  lemma PoolsByKind(d: Descriptor)
    ensures PoolOf(d) == AsyncPool <==> d.isAsync
    ensures PoolOf(d) == Compute <==> !d.isAsync && d.kind in {Orchestration, Cpu}
    ensures PoolOf(d) == BlockingPool <==> !d.isAsync && d.kind in {Control, Io, Blocking, Script}
  {
  }

  /**
   One runner of the tick, with what was observed for it: its load, the free slots of its pool, the policy's
   answer.
   */
  datatype Turn = Turn(
    d: Descriptor, load: Load, limits: Limits, slots: usize, runningBatches: usize, freeBytes: usize, answer: Decision)

  datatype Reservations = Reservations(compute: usize, blocking: usize, async: usize)

  const NOTHING := Reservations(0, 0, 0)

  function Of(r: Reservations, pool: Pool): usize {
    match pool
    case Compute => r.compute
    case BlockingPool => r.blocking
    case AsyncPool => r.async
  }

  function Add(r: Reservations, pool: Pool, batches: usize): Reservations {
    match pool
    case Compute => r.(compute := SatAdd(r.compute, batches))
    case BlockingPool => r.(blocking := SatAdd(r.blocking, batches))
    case AsyncPool => r.(async := SatAdd(r.async, batches))
  }

  /** Control runners without an asynchronous entry point run inline and take no slot. */
  predicate Inline(t: Turn) {
    t.d.kind.Control? && !t.d.isAsync
  }

  function TurnDecision(r: Reservations, t: Turn): Decision {
    if Inline(t) then Decision(0, 0, 0, USIZE_MAX)
    else
      var slots := SatSub(t.slots, Of(r, PoolOf(t.d)));
      Decide(HardCapacity(t.d, t.load, t.limits, slots, t.runningBatches), t.freeBytes, t.answer)
  }

  function Granted(r: Reservations, t: Turn): usize {
    var x := TurnDecision(r, t);
    if x.limit > 0 && x.batches > 0 then x.batches else 0
  }

  function Tick(turns: seq<Turn>): Reservations {
    if turns == [] then NOTHING
    else
      var r, t := Tick(turns[..|turns| - 1]), turns[|turns| - 1];
      if Granted(r, t) > 0 then Add(r, PoolOf(t.d), Granted(r, t)) else r
  }

  /** The batches granted on one pool over the tick, summed without saturation. */
  function TotalGranted(turns: seq<Turn>, pool: Pool): nat {
    if turns == [] then 0
    else
      var before, t := turns[..|turns| - 1], turns[|turns| - 1];
      TotalGranted(before, pool) + if PoolOf(t.d) == pool then Granted(Tick(before), t) else 0
  }

  lemma GrantWithinFreeSlots(r: Reservations, t: Turn)
    requires !t.d.kind.Control?
    ensures Granted(r, t) <= SatSub(t.slots, Of(r, PoolOf(t.d)))
  {
  }

  /**
   A runner takes slots in its turn exactly when the policy asks for something in every part and, with
   the slots the earlier runners left, some grant is allowed. Of the control runners only an asynchronous
   kernel takes one.
   */
  lemma GrantedIff(r: Reservations, t: Turn)
    ensures var slots := SatSub(t.slots, Of(r, PoolOf(t.d)));
      Granted(r, t) > 0 <==>
        (t.answer.limit > 0 && t.answer.entries > 0 && t.answer.batches > 0
         && (t.d.kind.Control? ==> t.d.isAsync && t.d.isKernel)
         && (!t.d.kind.Control? ==> exists entries: nat, batches: nat ::
               Allowed(t.d, t.load, t.limits, slots, t.runningBatches, entries, batches)))
  {
    var slots := SatSub(t.slots, Of(r, PoolOf(t.d)));
    ExhaustedMeansNothingAllowed(t.d, t.load, t.limits, slots, t.runningBatches);
    GrantIsAllowed(t.d, t.load, t.limits, slots, t.runningBatches);
  }

  /**
   For every list of runners and every policy, all batches granted in one tick on one pool together fit
   into `free` slots, when the pool never showed more than `free` during the tick; in particular they fit
   the slots left at its end when slots do not shrink meanwhile. On the asynchronous pool this holds
   without control runners, which need no slot.
   */
  lemma {:induction false} TickFitsPool(turns: seq<Turn>, pool: Pool, free: usize)
    requires forall t :: t in turns && PoolOf(t.d) == pool ==> t.slots <= free
    requires pool.AsyncPool? ==> forall t :: t in turns && PoolOf(t.d) == pool ==> !t.d.kind.Control?
    ensures TotalGranted(turns, pool) == Of(Tick(turns), pool) <= free
  {
    if turns != [] {
      var before, t := turns[..|turns| - 1], turns[|turns| - 1];
      forall u | u in before && PoolOf(u.d) == pool
        ensures u.slots <= free && (pool.AsyncPool? ==> !u.d.kind.Control?)
      {
        assert u in turns;
      }
      TickFitsPool(before, pool, free);
      assert t in turns;
      if !t.d.kind.Control? {
        GrantWithinFreeSlots(Tick(before), t);
      }
    }
  }

  /** The bound is needed: slots that shrink between two runners can leave more reserved than are free. */
  lemma ShrinkingSlotsOverrun()
    ensures var d := Descriptor(false, Cpu, false, Reentrant(4, 8), 2);
      var t := Turn(d, Load(0, 0), Limits(128, 256, 256), 3, 0, USIZE_MAX, Decision(8, 8, 8, USIZE_MAX));
      Of(Tick([t, t.(slots := 1)]), Compute) == 3
  {
    var d := Descriptor(false, Cpu, false, Reentrant(4, 8), 2);
    var t := Turn(d, Load(0, 0), Limits(128, 256, 256), 3, 0, USIZE_MAX, Decision(8, 8, 8, USIZE_MAX));
    var both := [t, t.(slots := 1)];
    assert both[..1] == [t] && [t][..0] == [];
    assert Granted(NOTHING, t) == 3;
    assert Tick([t]) == Reservations(3, 0, 0);
    assert Granted(Tick([t]), t.(slots := 1)) == 0;
  }
}
