/**
 The idempotent receipt store of capability requests: a keyed table and an arrival queue kept in step,
 a byte ledger, expiry that stops at the first fresh receipt and eviction from the front until the
 store is within its entry and byte budgets.
 */
module ReceiptStore {
  import opened Sequences

  type RequestId = string

  datatype Json =
    | Null
    | Bool(b: bool)
    | Number(digits: string)
    | Text(text: string)
    | Array(items: seq<Json>)
    | Object(fields: seq<Field>)

  datatype Field = Field(key: string, value: Json)

  datatype Reason = Coded | Other(code: string, message: string)

  datatype Receipt =
    | Accepted(request: RequestId, remoteTask: Option<string>)
    | Duplicate(request: RequestId, previous: Receipt)
    | Rejected(request: RequestId, reason: Reason)
    | Completed(request: RequestId, remoteTask: Option<string>, output: Json)
    | Failed(request: RequestId, remoteTask: Option<string>, code: string, message: string)

  datatype Policy = Policy(maxEntries: Option<nat>, maxBytes: Option<nat>, ttl: Option<nat>)

  datatype Stored = Stored(receipt: Receipt, completedAt: nat, estimatedBytes: nat)

  datatype Entry = Entry(id: RequestId, stored: Stored)

  // ---------------------------------------------------------------- size estimate

  const OVERHEAD: nat := 32

  function JsonBytes(value: Json): nat {
    match value
    case Null => 8
    case Bool(_) => 8
    case Number(digits) => |digits|
    case Text(text) => |text|
    case Array(items) => ItemsBytes(items) + 8
    case Object(fields) => FieldsBytes(fields) + 8
  }

  function ItemsBytes(items: seq<Json>): nat {
    if items == [] then 0 else JsonBytes(items[0]) + ItemsBytes(items[1..])
  }

  function FieldsBytes(fields: seq<Field>): nat {
    if fields == [] then 0
    else |fields[0].key| + JsonBytes(fields[0].value) + FieldsBytes(fields[1..])
  }

  function TextBytes(text: Option<string>): nat {
    if text.Some? then |text.value| else 0
  }

  function ReceiptBytes(id: RequestId, receipt: Receipt): nat {
    |id| + OVERHEAD +
    match receipt
    case Accepted(_, remoteTask) => TextBytes(remoteTask)
    case Duplicate(_, _) => 0
    case Rejected(_, Other(code, message)) => |code| + |message| + 16
    case Rejected(_, Coded) => 16
    case Completed(_, remoteTask, output) => TextBytes(remoteTask) + JsonBytes(output)
    case Failed(_, remoteTask, code, message) => TextBytes(remoteTask) + |code| + |message|
  }

  // ---------------------------------------------------------------- what the estimate counts

  function Length(text: string): int {
    |text|
  }

  /** The keys and leaf texts of a value, in order. */
  function JsonTexts(value: Json): seq<string> {
    match value
    case Null => []
    case Bool(_) => []
    case Number(digits) => [digits]
    case Text(text) => [text]
    case Array(items) => ItemsTexts(items)
    case Object(fields) => FieldsTexts(fields)
  }

  function ItemsTexts(items: seq<Json>): seq<string> {
    if items == [] then [] else JsonTexts(items[0]) + ItemsTexts(items[1..])
  }

  function FieldsTexts(fields: seq<Field>): seq<string> {
    if fields == [] then [] else [fields[0].key] + JsonTexts(fields[0].value) + FieldsTexts(fields[1..])
  }

  /** The number of constants, arrays and objects in a value, itself included. */
  function Cells(value: Json): nat {
    match value
    case Number(_) => 0
    case Text(_) => 0
    case Array(items) => 1 + ItemsCells(items)
    case Object(fields) => 1 + FieldsCells(fields)
    case _ => 1
  }

  function ItemsCells(items: seq<Json>): nat {
    if items == [] then 0 else Cells(items[0]) + ItemsCells(items[1..])
  }

  function FieldsCells(fields: seq<Field>): nat {
    if fields == [] then 0 else Cells(fields[0].value) + FieldsCells(fields[1..])
  }

  function OptionalText(text: Option<string>): seq<string> {
    if text.Some? then [text.value] else []
  }

  /** Every text a receipt carries beside the request id; a wrapped receipt is not looked into. */
  function ReceiptTexts(receipt: Receipt): seq<string> {
    match receipt
    case Accepted(_, remoteTask) => OptionalText(remoteTask)
    case Duplicate(_, _) => []
    case Rejected(_, Other(code, message)) => [code, message]
    case Rejected(_, Coded) => []
    case Completed(_, remoteTask, output) => OptionalText(remoteTask) + JsonTexts(output)
    case Failed(_, remoteTask, code, message) => OptionalText(remoteTask) + [code, message]
  }

  lemma {:induction false} JsonEstimate(value: Json)
    ensures JsonBytes(value) == Sum(JsonTexts(value), Length) + 8 * Cells(value)
  {
    match value
    case Array(items) => ItemsEstimate(items);
    case Object(fields) => FieldsEstimate(fields);
    case _ =>
  }

  lemma {:induction false} ItemsEstimate(items: seq<Json>)
    ensures ItemsBytes(items) == Sum(ItemsTexts(items), Length) + 8 * ItemsCells(items)
  {
    if items != [] {
      JsonEstimate(items[0]);
      ItemsEstimate(items[1..]);
      SumConcat(JsonTexts(items[0]), ItemsTexts(items[1..]), Length);
    }
  }

  lemma {:induction false} FieldsEstimate(fields: seq<Field>)
    ensures FieldsBytes(fields) == Sum(FieldsTexts(fields), Length) + 8 * FieldsCells(fields)
  {
    if fields != [] {
      var key, value, rest := fields[0].key, fields[0].value, fields[1..];
      JsonEstimate(value);
      FieldsEstimate(rest);
      SumConcat([key] + JsonTexts(value), FieldsTexts(rest), Length);
      SumConcat([key], JsonTexts(value), Length);
    }
  }

  /**
   The estimate is the length of the id and of every text the receipt carries, 32 for the entry, 16 for
   a rejection and 8 for each constant, array and object of a completed output.
   */
  lemma EstimateCountsTexts(id: RequestId, receipt: Receipt)
    ensures ReceiptBytes(id, receipt) ==
            |id| + 32 + Sum(ReceiptTexts(receipt), Length)
            + (if receipt.Rejected? then 16 else 0)
            + (if receipt.Completed? then 8 * Cells(receipt.output) else 0)
  {
    match receipt
    case Completed(_, remoteTask, output) =>
      JsonEstimate(output);
      SumConcat(OptionalText(remoteTask), JsonTexts(output), Length);
    case Failed(_, remoteTask, code, message) =>
      SumConcat(OptionalText(remoteTask), [code, message], Length);
      assert [code, message] == [code] + [message];
      SumConcat([code], [message], Length);
    case Rejected(_, Other(code, message)) =>
      assert [code, message] == [code] + [message];
      SumConcat([code], [message], Length);
    case _ =>
  }

  // ---------------------------------------------------------------- the store as a list

  /** Entries in order of arrival, oldest first. */
  datatype Store = Store(entries: seq<Entry>, policy: Policy, evictions: nat)

  function EntryBytes(e: Entry): int {
    e.stored.estimatedBytes
  }

  predicate Expired(e: Stored, now: nat, ttl: Option<nat>) {
    ttl.Some? && Max(0, now - e.completedAt) >= ttl.value
  }

  predicate OverBudget(policy: Policy, entries: seq<Entry>) {
    || (policy.maxEntries.Some? && |entries| > policy.maxEntries.value)
    || (policy.maxBytes.Some? && Sum(entries, EntryBytes) > policy.maxBytes.value)
  }

  /** Drops entries from the front up to the first fresh one. */
  function DropExpired(entries: seq<Entry>, now: nat, ttl: Option<nat>): seq<Entry> {
    if entries != [] && Expired(entries[0].stored, now, ttl) then DropExpired(entries[1..], now, ttl) else entries
  }

  function Shrink(entries: seq<Entry>, policy: Policy): seq<Entry> {
    if entries != [] && OverBudget(policy, entries) then Shrink(entries[1..], policy) else entries
  }

  function Find(entries: seq<Entry>, id: RequestId): Option<Stored> {
    if entries == [] then None
    else if entries[0].id == id then Some(entries[0].stored)
    else Find(entries[1..], id)
  }

  function Truncated(s: Store, left: seq<Entry>): Store
    requires |left| <= |s.entries|
  {
    s.(entries := left, evictions := s.evictions + |s.entries| - |left|)
  }

  lemma DropExpiredShorter(entries: seq<Entry>, now: nat, ttl: Option<nat>)
    ensures |DropExpired(entries, now, ttl)| <= |entries|
  {
  }

  lemma ShrinkShorter(entries: seq<Entry>, policy: Policy)
    ensures |Shrink(entries, policy)| <= |entries|
  {
  }

  function ExpireDue(s: Store, now: nat): Store {
    DropExpiredShorter(s.entries, now, s.policy.ttl);
    Truncated(s, DropExpired(s.entries, now, s.policy.ttl))
  }

  function Fit(s: Store): Store {
    ShrinkShorter(s.entries, s.policy);
    Truncated(s, Shrink(s.entries, s.policy))
  }

  function Append(s: Store, id: RequestId, receipt: Receipt, now: nat): Store {
    s.(entries := s.entries + [Entry(id, Stored(receipt, now, ReceiptBytes(id, receipt)))])
  }

  function Accept(s: Store, id: RequestId, receipt: Receipt, now: nat): (Store, Receipt) {
    var live := ExpireDue(s, now);
    match Find(live.entries, id)
    case Some(first) => (live, Duplicate(id, first.receipt))
    case None => (Fit(Append(live, id, receipt, now)), receipt)
  }

  /** Looks the id up without removing anything and hides an expired receipt. */
  function Get(s: Store, id: RequestId, now: nat): Option<Receipt> {
    match Find(s.entries, id)
    case None => None
    case Some(found) => if Expired(found, now, s.policy.ttl) then None else Some(found.receipt)
  }

  // ---------------------------------------------------------------- suffixes

  ghost predicate DistinctIds(entries: seq<Entry>) {
    forall i, j :: 0 <= i < j < |entries| ==> entries[i].id != entries[j].id
  }

  ghost predicate Timely(entries: seq<Entry>) {
    forall i, j :: 0 <= i < j < |entries| ==> entries[i].stored.completedAt <= entries[j].stored.completedAt
  }

  /** Each entry carries the estimate of its own id and receipt. */
  ghost predicate Measured(entries: seq<Entry>) {
    forall i :: 0 <= i < |entries| ==>
      entries[i].stored.estimatedBytes == ReceiptBytes(entries[i].id, entries[i].stored.receipt)
  }

  /** Where a suffix starts. */
  function Cut(entries: seq<Entry>, left: seq<Entry>): int {
    |entries| - |left|
  }

  lemma {:induction false} ExpiryIsSuffix(entries: seq<Entry>, now: nat, ttl: Option<nat>)
    ensures var left := DropExpired(entries, now, ttl);
      && 0 <= Cut(entries, left) && left == entries[Cut(entries, left)..]
      && (forall i :: 0 <= i < Cut(entries, left) ==> Expired(entries[i].stored, now, ttl))
      && (left != [] ==> !Expired(left[0].stored, now, ttl))
  {
    if entries != [] && Expired(entries[0].stored, now, ttl) {
      ExpiryIsSuffix(entries[1..], now, ttl);
      var left := DropExpired(entries[1..], now, ttl);
      forall i | 0 <= i < Cut(entries, left) ensures Expired(entries[i].stored, now, ttl) {
        if i > 0 {
          assert entries[i] == entries[1..][i - 1];
        }
      }
    }
  }

  /** With receipts in the order of their times, stopping at the first fresh one removes exactly the expired ones. */
  lemma ExpiryIsExact(entries: seq<Entry>, now: nat, ttl: Option<nat>, i: nat)
    requires Timely(entries) && i < |entries|
    ensures Expired(entries[i].stored, now, ttl) <==> i < Cut(entries, DropExpired(entries, now, ttl))
  {
    ExpiryIsSuffix(entries, now, ttl);
    var k := Cut(entries, DropExpired(entries, now, ttl));
    if k < i {
      assert entries[k].stored.completedAt <= entries[i].stored.completedAt;
    }
  }

  /** A receipt goes at the moment its time to live runs out and not before; a time of zero has always run out. */
  lemma ExpiryFollowsClock(entries: seq<Entry>, now: nat, ttl: Option<nat>, i: nat)
    requires Timely(entries) && i < |entries|
    ensures i < Cut(entries, DropExpired(entries, now, ttl)) <==>
            ttl.Some? && (ttl.value == 0 || entries[i].stored.completedAt + ttl.value <= now)
  {
    ExpiryIsExact(entries, now, ttl, i);
  }

  lemma {:induction false} ByteSumPositive(entries: seq<Entry>)
    ensures Sum(entries, EntryBytes) >= 0
  {
    SumNonNegative(entries, EntryBytes);
  }

  lemma OverBudgetGrows(policy: Policy, entries: seq<Entry>, j: nat)
    requires j <= |entries| && OverBudget(policy, entries[j..])
    ensures OverBudget(policy, entries)
  {
    assert entries == entries[..j] + entries[j..];
    SumConcat(entries[..j], entries[j..], EntryBytes);
    ByteSumPositive(entries[..j]);
  }

  /** What eviction leaves is the longest suffix within both budgets, whatever the limits are. */
  lemma {:induction false} ShrinkIsLongest(entries: seq<Entry>, policy: Policy)
    ensures var left := Shrink(entries, policy);
      && 0 <= Cut(entries, left) && left == entries[Cut(entries, left)..]
      && !OverBudget(policy, left)
      && forall j :: 0 <= j < Cut(entries, left) ==> OverBudget(policy, entries[j..])
  {
    if entries != [] && OverBudget(policy, entries) {
      var left := Shrink(entries[1..], policy);
      ShrinkIsLongest(entries[1..], policy);
      forall j | 0 <= j < Cut(entries, left) ensures OverBudget(policy, entries[j..]) {
        if j > 0 {
          assert entries[j..] == entries[1..][j - 1..];
        } else {
          assert entries[j..] == entries;
        }
      }
    }
  }

  /** The same with the limits written out. */
  lemma ShrinkKeepsWhatFits(entries: seq<Entry>, policy: Policy, j: nat)
    requires j <= |entries|
    ensures j >= Cut(entries, Shrink(entries, policy)) <==>
              ((policy.maxEntries.Some? ==> |entries| - j <= policy.maxEntries.value)
               && (policy.maxBytes.Some? ==> Sum(entries[j..], EntryBytes) <= policy.maxBytes.value))
  {
    ShrinkIsLongest(entries, policy);
    var left := Shrink(entries, policy);
    var cut := Cut(entries, left);
    if j < cut {
      assert OverBudget(policy, entries[j..]);
    } else if OverBudget(policy, entries[j..]) {
      assert left[j - cut..] == entries[j..];
      OverBudgetGrows(policy, left, j - cut);
    }
  }

  // ---------------------------------------------------------------- lookups

  lemma {:induction false} FindAt(entries: seq<Entry>, id: RequestId, i: nat)
    requires DistinctIds(entries) && i < |entries| && entries[i].id == id
    ensures Find(entries, id) == Some(entries[i].stored)
  {
    if i > 0 {
      assert entries[1..][i - 1] == entries[i];
      FindAt(entries[1..], id, i - 1);
    }
  }

  lemma {:induction false} FindNone(entries: seq<Entry>, id: RequestId)
    ensures Find(entries, id) == None <==> forall i :: 0 <= i < |entries| ==> entries[i].id != id
  {
    if entries != [] {
      FindNone(entries[1..], id);
      if Find(entries, id) == None {
        forall i | 0 <= i < |entries| ensures entries[i].id != id {
          if i > 0 {
            assert entries[i] == entries[1..][i - 1];
          }
        }
      } else if entries[0].id != id {
        var i :| 0 <= i < |entries[1..]| && entries[1..][i].id == id;
        assert entries[i + 1].id == id;
      }
    }
  }

  /** A read that only hides expired receipts answers as the store would after expiring them. */
  lemma GetSeesLive(s: Store, id: RequestId, now: nat)
    requires DistinctIds(s.entries) && Timely(s.entries)
    ensures Get(s, id, now)
         == match Find(ExpireDue(s, now).entries, id) case None => None case Some(live) => Some(live.receipt)
  {
    var left := ExpireDue(s, now).entries;
    var k := Cut(s.entries, left);
    ExpiryIsSuffix(s.entries, now, s.policy.ttl);
    FindNone(s.entries, id);
    FindNone(left, id);
    if i :| 0 <= i < |s.entries| && s.entries[i].id == id {
      FindAt(s.entries, id, i);
      ExpiryIsExact(s.entries, now, s.policy.ttl, i);
      if i >= k {
        assert left[i - k] == s.entries[i];
        FindAt(left, id, i - k);
      } else {
        forall j | 0 <= j < |left| ensures left[j].id != id {
          assert left[j] == s.entries[k + j];
        }
      }
    } else {
      forall j | 0 <= j < |left| ensures left[j].id != id {
        assert left[j] == s.entries[k + j];
      }
    }
  }

  lemma LiveIsFound(s: Store, id: RequestId, now: nat, i: nat)
    requires DistinctIds(s.entries) && Timely(s.entries) && i < |s.entries| && s.entries[i].id == id
    requires !Expired(s.entries[i].stored, now, s.policy.ttl)
    ensures Find(ExpireDue(s, now).entries, id) == Some(s.entries[i].stored)
  {
    var live := ExpireDue(s, now).entries;
    ExpiryIsSuffix(s.entries, now, s.policy.ttl);
    ExpiryIsExact(s.entries, now, s.policy.ttl, i);
    var j := i - Cut(s.entries, live);
    assert live[j] == s.entries[i];
    FindAt(live, id, j);
  }

  // ---------------------------------------------------------------- runs

  /** A store together with every first acceptance so far and the time of the last call. */
  datatype World = World(store: Store, accepted: seq<Entry>, clock: nat)

  datatype Call = Call(id: RequestId, receipt: Receipt, now: nat)

  predicate Known(s: Store, id: RequestId, now: nat) {
    Find(ExpireDue(s, now).entries, id).Some?
  }

  function Apply(w: World, c: Call): World {
    World(
      Accept(w.store, c.id, c.receipt, c.now).0,
      if Known(w.store, c.id, c.now) then w.accepted
      else w.accepted + [Entry(c.id, Stored(c.receipt, c.now, ReceiptBytes(c.id, c.receipt)))],
      c.now)
  }

  ghost predicate Tidy(w: World) {
    && DistinctIds(w.store.entries)
    && Timely(w.store.entries)
    && Measured(w.store.entries)
    && (forall i :: 0 <= i < |w.store.entries| ==> w.store.entries[i].stored.completedAt <= w.clock)
    && w.store.evictions <= |w.accepted|
    && w.store.entries == w.accepted[w.store.evictions..]
    && !OverBudget(w.store.policy, w.store.entries)
  }

  /** A suffix of a tidy list is tidy, and evicting what precedes it keeps the tally. */
  lemma TruncatedKeeps(s: Store, left: seq<Entry>, accepted: seq<Entry>)
    requires DistinctIds(s.entries) && Timely(s.entries)
    requires s.evictions <= |accepted| && s.entries == accepted[s.evictions..]
    requires |left| <= |s.entries| && left == s.entries[Cut(s.entries, left)..]
    ensures var t := Truncated(s, left);
      && DistinctIds(t.entries) && Timely(t.entries)
      && t.evictions <= |accepted| && t.entries == accepted[t.evictions..]
  {
  }

  lemma AppendKeeps(s: Store, id: RequestId, receipt: Receipt, now: nat, accepted: seq<Entry>)
    requires DistinctIds(s.entries) && Timely(s.entries)
    requires forall i :: 0 <= i < |s.entries| ==> s.entries[i].id != id && s.entries[i].stored.completedAt <= now
    requires s.evictions <= |accepted| && s.entries == accepted[s.evictions..]
    ensures var t, e := Append(s, id, receipt, now), Entry(id, Stored(receipt, now, ReceiptBytes(id, receipt)));
      && DistinctIds(t.entries) && Timely(t.entries)
      && t.entries == (accepted + [e])[t.evictions..]
  {
  }

  lemma SuffixWithin(s: Store, left: seq<Entry>)
    requires |left| <= |s.entries| && left == s.entries[Cut(s.entries, left)..]
    requires !OverBudget(s.policy, s.entries)
    ensures !OverBudget(s.policy, left)
  {
    if OverBudget(s.policy, left) {
      OverBudgetGrows(s.policy, s.entries, Cut(s.entries, left));
    }
  }

  /** The store right after expiry. */
  lemma ExpireKeeps(w: World, now: nat)
    requires Tidy(w) && now >= w.clock
    ensures Tidy(World(ExpireDue(w.store, now), w.accepted, now))
  {
    var live := ExpireDue(w.store, now);
    ExpiryIsSuffix(w.store.entries, now, w.store.policy.ttl);
    TruncatedKeeps(w.store, live.entries, w.accepted);
    SuffixWithin(w.store, live.entries);
  }

  lemma NewEntryKeeps(w: World, id: RequestId, receipt: Receipt)
    requires Tidy(w) && forall i :: 0 <= i < |w.store.entries| ==> w.store.entries[i].id != id
    ensures var e := Entry(id, Stored(receipt, w.clock, ReceiptBytes(id, receipt)));
      Tidy(World(Fit(Append(w.store, id, receipt, w.clock)), w.accepted + [e], w.clock))
  {
    var e := Entry(id, Stored(receipt, w.clock, ReceiptBytes(id, receipt)));
    var grown := Append(w.store, id, receipt, w.clock);
    AppendKeeps(w.store, id, receipt, w.clock, w.accepted);
    ShrinkIsLongest(grown.entries, grown.policy);
    TruncatedKeeps(grown, Shrink(grown.entries, grown.policy), w.accepted + [e]);
  }

  lemma ApplyKeeps(w: World, c: Call)
    requires Tidy(w) && c.now >= w.clock
    ensures Tidy(Apply(w, c))
  {
    var live := World(ExpireDue(w.store, c.now), w.accepted, c.now);
    ExpireKeeps(w, c.now);
    FindNone(live.store.entries, c.id);
    if !Known(w.store, c.id, c.now) {
      NewEntryKeeps(live, c.id, c.receipt);
    }
  }

  ghost predicate IsRun(worlds: seq<World>, calls: seq<Call>) {
    && |worlds| == |calls| + 1
    && worlds[0] == World(Store([], worlds[0].store.policy, 0), [], 0)
    && forall i :: 0 <= i < |calls| ==> worlds[i].clock <= calls[i].now && worlds[i + 1] == Apply(worlds[i], calls[i])
  }

  /**
   After any calls under a clock that never goes back, the store holds exactly the receipts accepted
   first since the last eviction, in order, each id once and within both budgets; so retained plus
   evicted is the number of first acceptances.
   */
  lemma {:induction false} StoreHoldsLatestAcceptances(worlds: seq<World>, calls: seq<Call>, i: nat)
    requires IsRun(worlds, calls) && i < |worlds|
    ensures Tidy(worlds[i])
    ensures |worlds[i].store.entries| + worlds[i].store.evictions == |worlds[i].accepted|
  {
    if i > 0 {
      StoreHoldsLatestAcceptances(worlds, calls, i - 1);
      ApplyKeeps(worlds[i - 1], calls[i - 1]);
    }
  }

  /** The id and the texts of an entry, with the fixed overhead. */
  function CarriedBytes(e: Entry): int {
    |e.id| + OVERHEAD + Sum(ReceiptTexts(e.stored.receipt), Length)
  }

  lemma {:induction false} CarriedWithinEstimate(entries: seq<Entry>)
    requires Measured(entries)
    ensures OVERHEAD * |entries| <= Sum(entries, CarriedBytes) <= Sum(entries, EntryBytes)
  {
    if entries != [] {
      forall i | 0 <= i < |entries[1..]| ensures entries[1..][i] == entries[i + 1] {
      }
      CarriedWithinEstimate(entries[1..]);
      EstimateCountsTexts(entries[0].id, entries[0].stored.receipt);
      SumNonNegative(ReceiptTexts(entries[0].stored.receipt), Length);
    }
  }

  /**
   Under a byte budget the ids and texts of all stored receipts, with 32 for each receipt, are within
   the budget together; so the budget also bounds the number of receipts.
   */
  lemma BytesBoundEntries(worlds: seq<World>, calls: seq<Call>, i: nat)
    requires IsRun(worlds, calls) && i < |worlds| && worlds[i].store.policy.maxBytes.Some?
    ensures Sum(worlds[i].store.entries, CarriedBytes) <= worlds[i].store.policy.maxBytes.value
    ensures 32 * |worlds[i].store.entries| <= worlds[i].store.policy.maxBytes.value
  {
    StoreHoldsLatestAcceptances(worlds, calls, i);
    CarriedWithinEstimate(worlds[i].store.entries);
  }

  /** No single receipt carries more text than the budget. */
  lemma BytesBoundEachReceipt(worlds: seq<World>, calls: seq<Call>, i: nat, n: nat)
    requires IsRun(worlds, calls) && i < |worlds| && worlds[i].store.policy.maxBytes.Some?
    requires n < |worlds[i].store.entries|
    ensures var e := worlds[i].store.entries[n];
      |e.id| + 32 + Sum(ReceiptTexts(e.stored.receipt), Length) <= worlds[i].store.policy.maxBytes.value
  {
    var entries := worlds[i].store.entries;
    StoreHoldsLatestAcceptances(worlds, calls, i);
    SumNonNegative(entries, EntryBytes);
    EstimateCountsTexts(entries[n].id, entries[n].stored.receipt);
  }

  /** The k-th first acceptance is of the call's id and is neither evicted nor expired. */
  ghost predicate LiveAt(w: World, c: Call, k: nat) {
    && w.store.evictions <= k < |w.accepted| && w.accepted[k].id == c.id
    && !Expired(w.accepted[k].stored, c.now, w.store.policy.ttl)
  }

  lemma ReplayReturnsFirst(w: World, c: Call, k: nat)
    requires Tidy(w) && LiveAt(w, c, k)
    ensures Accept(w.store, c.id, c.receipt, c.now).1 == Duplicate(c.id, w.accepted[k].stored.receipt)
    ensures Apply(w, c).accepted == w.accepted
  {
    assert w.store.entries[k - w.store.evictions] == w.accepted[k];
    LiveIsFound(w.store, c.id, c.now, k - w.store.evictions);
  }

  lemma NewOtherwise(w: World, c: Call)
    requires Tidy(w) && forall k: nat :: !LiveAt(w, c, k)
    ensures Accept(w.store, c.id, c.receipt, c.now).1 == c.receipt
    ensures |Apply(w, c).accepted| == |w.accepted| + 1
  {
    var live := ExpireDue(w.store, c.now).entries;
    ExpiryIsSuffix(w.store.entries, c.now, w.store.policy.ttl);
    forall j | 0 <= j < |live| ensures live[j].id != c.id {
      var i := Cut(w.store.entries, live) + j;
      assert live[j] == w.store.entries[i] == w.accepted[w.store.evictions + i];
      ExpiryIsExact(w.store.entries, c.now, w.store.policy.ttl, i);
      assert !LiveAt(w, c, w.store.evictions + i);
    }
    FindNone(live, c.id);
  }

  /**
   A call accepts nothing new exactly when a first acceptance of the same id is neither evicted nor
   expired, and then the answer wraps that first receipt; otherwise the answer is the caller's own receipt.
   */
  lemma ReplayIff(w: World, c: Call)
    requires Tidy(w)
    ensures Apply(w, c).accepted == w.accepted <==> exists k: nat :: LiveAt(w, c, k)
    ensures forall k: nat :: LiveAt(w, c, k) ==>
              Accept(w.store, c.id, c.receipt, c.now).1 == Duplicate(c.id, w.accepted[k].stored.receipt)
    ensures (forall k: nat :: !LiveAt(w, c, k)) ==> Accept(w.store, c.id, c.receipt, c.now).1 == c.receipt
  {
    forall k: nat | LiveAt(w, c, k)
      ensures Accept(w.store, c.id, c.receipt, c.now).1 == Duplicate(c.id, w.accepted[k].stored.receipt)
      ensures Apply(w, c).accepted == w.accepted
    {
      ReplayReturnsFirst(w, c, k);
    }
    if forall k: nat :: !LiveAt(w, c, k) {
      NewOtherwise(w, c);
    }
  }

  /** A first acceptance is remembered exactly when its receipt fits the budgets on its own. */
  lemma RememberedIffItFits(s: Store, c: Call)
    requires DistinctIds(s.entries) && !Known(s, c.id, c.now)
    ensures var e := Entry(c.id, Stored(c.receipt, c.now, ReceiptBytes(c.id, c.receipt)));
      Find(Accept(s, c.id, c.receipt, c.now).0.entries, c.id) ==
        if OverBudget(s.policy, [e]) then None else Some(e.stored)
  {
    var e := Entry(c.id, Stored(c.receipt, c.now, ReceiptBytes(c.id, c.receipt)));
    var live := ExpireDue(s, c.now).entries;
    var grown := live + [e];
    var left := Shrink(grown, s.policy);
    ExpiryIsSuffix(s.entries, c.now, s.policy.ttl);
    FindNone(live, c.id);
    ShrinkIsLongest(grown, s.policy);
    assert grown[|live|..] == [e];
    if left == [] {
      assert OverBudget(s.policy, grown[|live|..]);
    } else {
      assert left[|left| - 1] == e;
      assert left[|left| - 1..] == [e];
      if OverBudget(s.policy, [e]) {
        OverBudgetGrows(s.policy, left, |left| - 1);
      }
      assert DistinctIds(left);
      FindAt(left, c.id, |left| - 1);
    }
  }

  // ---------------------------------------------------------------- receipts that wrap a receipt

  /** Every first acceptance carries the id and the receipt of a call made before. */
  lemma {:induction false} AcceptedFromCalls(worlds: seq<World>, calls: seq<Call>, i: nat, k: nat)
    requires IsRun(worlds, calls) && i < |worlds| && k < |worlds[i].accepted|
    ensures exists j :: 0 <= j < i && calls[j].id == worlds[i].accepted[k].id
                        && calls[j].receipt == worlds[i].accepted[k].stored.receipt
  {
    if i > 0 {
      if k < |worlds[i - 1].accepted| {
        AcceptedFromCalls(worlds, calls, i - 1, k);
        assert worlds[i].accepted[k] == worlds[i - 1].accepted[k];
      } else {
        assert calls[i - 1].receipt == worlds[i].accepted[k].stored.receipt;
      }
    }
  }

  /** The store never makes a Duplicate of its own: as long as no caller passes one in, none is stored. */
  lemma NoDuplicateStored(worlds: seq<World>, calls: seq<Call>, i: nat)
    requires IsRun(worlds, calls) && i < |worlds|
    requires forall j :: 0 <= j < i ==> !calls[j].receipt.Duplicate?
    ensures forall e :: e in worlds[i].store.entries ==> !e.stored.receipt.Duplicate?
  {
    StoreHoldsLatestAcceptances(worlds, calls, i);
    var w := worlds[i];
    forall n | 0 <= n < |w.store.entries| ensures !w.store.entries[n].stored.receipt.Duplicate? {
      AcceptedFromCalls(worlds, calls, i, w.store.evictions + n);
    }
  }

  /** A new call leaves a Duplicate behind exactly when it passes one that fits the budgets on its own. */
  lemma DuplicateRememberedIff(s: Store, c: Call)
    requires DistinctIds(s.entries) && !Known(s, c.id, c.now)
    ensures var e := Entry(c.id, Stored(c.receipt, c.now, ReceiptBytes(c.id, c.receipt)));
      var found := Find(Accept(s, c.id, c.receipt, c.now).0.entries, c.id);
      found.Some? && found.value.receipt.Duplicate? <==> c.receipt.Duplicate? && !OverBudget(s.policy, [e])
  {
    RememberedIffItFits(s, c);
  }

  /** Under every policy that has room for it, one call stores a Duplicate in an empty store. */
  lemma DuplicateCanBeStored(policy: Policy, c: Call) returns (worlds: seq<World>)
    requires c.receipt.Duplicate?
    requires !OverBudget(policy, [Entry(c.id, Stored(c.receipt, c.now, ReceiptBytes(c.id, c.receipt)))])
    ensures IsRun(worlds, [c]) && worlds[0].store.policy == policy
    ensures Find(worlds[1].store.entries, c.id) == Some(Stored(c.receipt, c.now, ReceiptBytes(c.id, c.receipt)))
  {
    var empty := World(Store([], policy, 0), [], 0);
    worlds := [empty, Apply(empty, c)];
    RememberedIffItFits(empty.store, c);
  }

  // ---------------------------------------------------------------- the store in place

  function Listed(order: seq<RequestId>, receipts: map<RequestId, Stored>): seq<Entry>
    requires forall id :: id in order ==> id in receipts
  {
    seq(|order|, i requires 0 <= i < |order| => Entry(order[i], receipts[order[i]]))
  }

  lemma FindListed(order: seq<RequestId>, receipts: map<RequestId, Stored>, id: RequestId)
    requires NoDup(order) && ToSet(order) == receipts.Keys
    ensures Find(Listed(order, receipts), id) == if id in receipts then Some(receipts[id]) else None
  {
    var entries := Listed(order, receipts);
    if id in receipts {
      assert id in ToSet(order);
      var i :| 0 <= i < |order| && order[i] == id;
      FindAt(entries, id, i);
    } else {
      FindNone(entries, id);
      forall i | 0 <= i < |entries| ensures entries[i].id != id {
        assert order[i] in ToSet(order);
      }
    }
  }

  class IdempotentReceiptStore {
    var receipts: map<RequestId, Stored>
    var order: seq<RequestId>
    var policy: Policy
    var estimatedBytes: nat
    var evictions: nat

    /** The queue lists each key of the table once and the ledger is the sum over the table. */
    ghost predicate Valid()
      reads this
    {
      && NoDup(order)
      && ToSet(order) == receipts.Keys
      && (forall id :: id in order ==> id in receipts)
      && estimatedBytes == Sum(Listed(order, receipts), EntryBytes)
    }

    ghost function Model(): Store
      requires Valid()
      reads this
    {
      Store(Listed(order, receipts), policy, evictions)
    }

    constructor (policy: Policy)
      ensures Valid() && Model() == Store([], policy, 0)
    {
      receipts, order, this.policy, estimatedBytes, evictions := map[], [], policy, 0, 0;
    }

    predicate OverItsBudget()
      requires Valid()
      reads this
      ensures OverItsBudget() == OverBudget(policy, Model().entries)
    {
      ToSetSize(order);
      || (policy.maxEntries.Some? && |receipts| > policy.maxEntries.value)
      || (policy.maxBytes.Some? && estimatedBytes > policy.maxBytes.value)
    }

    method EvictFront() returns (evicted: bool)
      requires Valid()
      modifies this`receipts, this`order, this`estimatedBytes, this`evictions
      ensures Valid()
      ensures evicted <==> old(Model().entries) != []
      ensures evicted ==> Model() == Truncated(old(Model()), old(Model().entries)[1..])
      ensures !evicted ==> Model() == old(Model())
    {
      if order == [] {
        return false;
      }
      ghost var before := Model().entries;
      var id := order[0];
      order := order[1..];
      var entry := receipts[id];
      receipts := receipts - {id};
      assert before[0].stored == entry;
      forall x ensures x in order ==> x in receipts {
      }
      assert Listed(order, receipts) == before[1..];
      ByteSumPositive(before[1..]);
      estimatedBytes := estimatedBytes - entry.estimatedBytes;
      evictions := evictions + 1;
      return true;
    }

    method ExpireDueAt(now: nat)
      requires Valid()
      modifies this`receipts, this`order, this`estimatedBytes, this`evictions
      ensures Valid() && Model() == ExpireDue(old(Model()), now)
    {
      if policy.ttl.None? {
        return;
      }
      while order != []
        invariant Valid() && policy == old(policy)
        invariant ExpireDue(Model(), now) == ExpireDue(old(Model()), now)
        decreases |order|
      {
        if Max(0, now - receipts[order[0]].completedAt) < policy.ttl.value {
          break;
        }
        var _ := EvictFront();
      }
    }

    method ShrinkToBudget()
      requires Valid()
      modifies this`receipts, this`order, this`estimatedBytes, this`evictions
      ensures Valid() && Model() == Fit(old(Model()))
    {
      while OverItsBudget()
        invariant Valid() && policy == old(policy)
        invariant Fit(Model()) == Fit(old(Model()))
        decreases |order|
      {
        var evicted := EvictFront();
        if !evicted {
          break;
        }
      }
    }

    method AcceptOrDuplicateAt(id: RequestId, receipt: Receipt, now: nat) returns (answer: Receipt)
      requires Valid()
      modifies this`receipts, this`order, this`estimatedBytes, this`evictions
      ensures Valid()
      ensures (Model(), answer) == Accept(old(Model()), id, receipt, now)
    {
      ExpireDueAt(now);
      FindListed(order, receipts, id);
      if id in receipts {
        return Duplicate(id, receipts[id].receipt);
      }
      ghost var before := Model().entries;
      var stored := Stored(receipt, now, ReceiptBytes(id, receipt));
      receipts := receipts[id := stored];
      order := order + [id];
      assert Listed(order, receipts) == before + [Entry(id, stored)];
      SumConcat(before, [Entry(id, stored)], EntryBytes);
      estimatedBytes := estimatedBytes + stored.estimatedBytes;
      ShrinkToBudget();
      return receipt;
    }

    method GetAt(id: RequestId, now: nat) returns (found: Option<Receipt>)
      requires Valid()
      ensures found == Get(Model(), id, now)
    {
      FindListed(order, receipts, id);
      if id !in receipts || (policy.ttl.Some? && Max(0, now - receipts[id].completedAt) >= policy.ttl.value) {
        return None;
      }
      return Some(receipts[id].receipt);
    }
  }
}
