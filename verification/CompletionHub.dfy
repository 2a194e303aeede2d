/**
 Completion notification: the actor publishes the pool's terminal revision through a hub, the hub
 hands it to its subscriptions one by one, and waiters sleep on a subscription's condition variable.
 Every lock-protected section is one step, so a run is any interleaving of the actor, the hub's
 notification loop, subscribers and waiters.
 */
module CompletionHub {
  import opened Sequences
  import opened TaskPoolModel
  import opened TaskPoolInvariants
  import opened TaskPoolRuns

  type SubId = nat
  type WaiterId = nat

  datatype Subscription = Subscription(revision: nat, closed: bool)

  datatype Hub = Hub(revision: nat, closed: bool, subscribers: seq<SubId>)

  /** Who holds the hub lock: nobody, the publishing loop, or the closing loop. */
  datatype Holder =
    | Free
    | Publishing(left: seq<SubId>, kept: seq<SubId>)
    | Closing(left: seq<SubId>)

  /**
   Where a waiter is in its loop. `seen` is the revision it read before asking, and `at` records the
   pool's revision at the moment the actor answered that some handle had not finished.
   */
  datatype Waiter =
    | Asking(sub: SubId, handles: seq<TaskId>, seen: nat)
    | Answered(sub: SubId, handles: seq<TaskId>, seen: nat, at: nat)
    | Asleep(sub: SubId, handles: seq<TaskId>, seen: nat, at: nat)
    | Returned

  /** `previous` is the actor's last published revision; `base` the revision when the actor started. */
  datatype State = State(
    pool: Pool, base: nat, previous: nat, hub: Hub, holder: Holder,
    subs: map<SubId, Subscription>, waiters: map<WaiterId, Waiter>)

  datatype Event =
    | CoreStep(step: Step)
    | Subscribe(s: SubId)
    | CloseSubscription(s: SubId)
    | DropSubscription(s: SubId)
    | Begin(w: WaiterId, s: SubId, handles: seq<TaskId>)
    | Answer(w: WaiterId)
    | Check(w: WaiterId)
    | Stir(w: WaiterId)
    | TimeOut(w: WaiterId)
    | Publish
    | CloseHub
    | NotifyNext
    | ReleaseHub

  function Start(pool: Pool): State {
    State(pool, Revision(pool), Revision(pool), Hub(0, false, []), Free, map[], map[])
  }

  // ---------------------------------------------------------------- the steps

  /** `notify_all` under the subscription's lock: every sleeper on `s` leaves the condition variable. */
  function WakeSleepers(waiters: map<WaiterId, Waiter>, s: SubId): map<WaiterId, Waiter> {
    map w | w in waiters ::
      if waiters[w].Asleep? && waiters[w].sub == s
      then Answered(s, waiters[w].handles, waiters[w].seen, waiters[w].at)
      else waiters[w]
  }

  function SetSubscription(st: State, s: SubId, sub: Subscription): State {
    st.(subs := st.subs[s := sub], waiters := WakeSleepers(st.waiters, s))
  }

  predicate AnyLive(pool: Pool, handles: seq<TaskId>) {
    exists h :: h in handles && h in Live(pool)
  }

  /** The actor's reply: an error for a missing record, the states when all finished, else a reason to wait. */
  function Reply(pool: Pool, waiter: Waiter): Waiter
    requires waiter.Asking?
  {
    if (exists h :: h in waiter.handles && h !in pool.tasks) || !AnyLive(pool, waiter.handles) then Returned
    else Answered(waiter.sub, waiter.handles, waiter.seen, Revision(pool))
  }

  /** The guard of the wait loop, evaluated under the subscription's lock. */
  function CheckGuard(sub: Subscription, waiter: Waiter): Waiter
    requires waiter.Answered?
  {
    if sub.closed then Returned
    else if sub.revision > waiter.seen then Asking(waiter.sub, waiter.handles, sub.revision)
    else Asleep(waiter.sub, waiter.handles, waiter.seen, waiter.at)
  }

  function PublishRevision(st: State): State {
    var revision := Revision(st.pool);
    if revision <= st.previous then st
    else if st.hub.closed || revision <= st.hub.revision then st.(previous := revision)
    else st.(previous := revision, hub := st.hub.(revision := revision), holder := Publishing(st.hub.subscribers, []))
  }

  /** The next subscriber in the notification loop; dropped and closed ones leave the list. */
  function NotifyOne(st: State): State
    requires st.holder.Publishing? && st.holder.left != []
  {
    var s, rest := st.holder.left[0], st.holder.left[1..];
    if s !in st.subs || st.subs[s].closed then st.(holder := Publishing(rest, st.holder.kept))
    else
      var sub := st.subs[s].(revision := Max(st.subs[s].revision, st.hub.revision));
      SetSubscription(st, s, sub).(holder := Publishing(rest, st.holder.kept + [s]))
  }

  function CloseOne(st: State): State
    requires st.holder.Closing? && st.holder.left != []
  {
    var s, rest := st.holder.left[0], st.holder.left[1..];
    if s !in st.subs then st.(holder := Closing(rest))
    else SetSubscription(st, s, st.subs[s].(closed := true)).(holder := Closing(rest))
  }

  ghost predicate CanHappen(st: State, e: Event) {
    match e
    case CoreStep(step) => st.holder.Free? && Enabled(st.pool, step)
    case Subscribe(s) => st.holder.Free? && s !in st.subs && s !in st.hub.subscribers
    case CloseSubscription(s) => s in st.subs
    case DropSubscription(s) => s in st.subs && forall w :: w in st.waiters && !st.waiters[w].Returned? ==> st.waiters[w].sub != s
    case Begin(w, s, _) => w !in st.waiters && s in st.subs
    case Answer(w) => st.holder.Free? && w in st.waiters && st.waiters[w].Asking?
    case Check(w) => w in st.waiters && st.waiters[w].Answered? && st.waiters[w].sub in st.subs
    case Stir(w) => w in st.waiters && st.waiters[w].Asleep?
    case TimeOut(w) => w in st.waiters && (st.waiters[w].Answered? || st.waiters[w].Asleep?)
    case Publish => st.holder.Free?
    case CloseHub => st.holder.Free?
    case NotifyNext => !st.holder.Free? && st.holder.left != []
    case ReleaseHub => !st.holder.Free? && st.holder.left == []
  }

  function Next(st: State, e: Event): State
    requires CanHappen(st, e)
  {
    match e
    case CoreStep(step) => st.(pool := Apply(st.pool, step))
    case Subscribe(s) =>
      if st.hub.closed then st.(subs := st.subs[s := Subscription(0, true)])
      else st.(subs := st.subs[s := Subscription(st.hub.revision, false)],
               hub := st.hub.(subscribers := st.hub.subscribers + [s]))
    case CloseSubscription(s) => SetSubscription(st, s, st.subs[s].(closed := true))
    case DropSubscription(s) => st.(subs := st.subs - {s})
    case Begin(w, s, handles) => st.(waiters := st.waiters[w := Asking(s, handles, st.subs[s].revision)])
    case Answer(w) => st.(waiters := st.waiters[w := Reply(st.pool, st.waiters[w])])
    case Check(w) => st.(waiters := st.waiters[w := CheckGuard(st.subs[st.waiters[w].sub], st.waiters[w])])
    case Stir(w) =>
      var a := st.waiters[w];
      st.(waiters := st.waiters[w := Answered(a.sub, a.handles, a.seen, a.at)])
    case TimeOut(w) => st.(waiters := st.waiters[w := Returned])
    case Publish => PublishRevision(st)
    case CloseHub => st.(hub := st.hub.(closed := true), holder := Closing(st.hub.subscribers))
    case NotifyNext => if st.holder.Publishing? then NotifyOne(st) else CloseOne(st)
    case ReleaseHub =>
      st.(hub := st.hub.(subscribers := if st.holder.Publishing? then st.holder.kept else []), holder := Free)
  }

  // ---------------------------------------------------------------- the invariant

  /** Revisions only travel downstream: pool, actor, hub. */
  ghost predicate RevisionsOk(pool: Pool, base: nat, previous: nat, hub: Hub) {
    && base <= previous <= Revision(pool)
    && hub.revision <= previous
    && (hub.closed || hub.revision == previous || previous == base)
  }

  /** An open subscription of an open hub holds the hub's revision, unless the loop has yet to reach it. */
  ghost predicate SubscriptionOk(hub: Hub, holder: Holder, s: SubId, sub: Subscription) {
    && sub.revision <= hub.revision
    && (!sub.closed ==>
          match holder
          case Free => !hub.closed && s in hub.subscribers && sub.revision == hub.revision
          case Publishing(left, kept) => !hub.closed && (s in left || (s in kept && sub.revision == hub.revision))
          case Closing(left) => s in left)
  }

  ghost predicate WaiterOk(st: State, waiter: Waiter) {
    match waiter
    case Returned => true
    case Asking(s, _, seen) => s in st.subs && seen <= st.hub.revision
    case Answered(s, handles, seen, at) => s in st.subs && WaitJustified(st, handles, seen, at)
    case Asleep(s, handles, seen, at) =>
      s in st.subs && WaitJustified(st, handles, seen, at) && !st.subs[s].closed && st.subs[s].revision <= seen
  }

  /** Until the pool's revision moves past the answer, some awaited task is still unfinished. */
  ghost predicate WaitJustified(st: State, handles: seq<TaskId>, seen: nat, at: nat) {
    && seen <= at
    && st.base <= at <= Revision(st.pool)
    && (Revision(st.pool) == at ==> AnyLive(st.pool, handles))
  }

  ghost predicate HubInv(st: State) {
    Valid(st.pool) && HubOk(st)
  }

  ghost predicate HubOk(st: State) {
    && RevisionsOk(st.pool, st.base, st.previous, st.hub)
    && (st.holder.Closing? ==> st.hub.closed)
    && (forall s :: s in st.subs ==> SubscriptionOk(st.hub, st.holder, s, st.subs[s]))
    && (forall w :: w in st.waiters ==> WaiterOk(st, st.waiters[w]))
  }

  // ---------------------------------------------------------------- every step keeps it

  lemma WakeKeepsWaiters(st: State, s: SubId, sub: Subscription)
    requires s in st.subs
    requires forall w :: w in st.waiters ==> WaiterOk(st, st.waiters[w])
    ensures forall w :: w in SetSubscription(st, s, sub).waiters ==>
              WaiterOk(SetSubscription(st, s, sub), SetSubscription(st, s, sub).waiters[w])
  {
  }

  lemma CoreStepKeeps(st: State, step: Step)
    requires HubInv(st) && CanHappen(st, CoreStep(step))
    ensures HubInv(Next(st, CoreStep(step)))
  {
    StepKeepsValid(st.pool, step);
    StepNoticed(st.pool, step);
    CoreMoves(st, Next(st, CoreStep(step)));
  }

  lemma CoreMoves(st: State, st': State)
    requires HubOk(st) && Noticed(st.pool, st'.pool) && st' == st.(pool := st'.pool)
    ensures HubOk(st')
  {
  }

  lemma WaiterStepKeeps(st: State, w: WaiterId, waiter: Waiter)
    requires HubOk(st) && WaiterOk(st, waiter)
    ensures HubOk(st.(waiters := st.waiters[w := waiter]))
  {
  }

  /** One more subscription does not concern the waiters on the others. */
  lemma MoreSubscriptions(st: State, st': State, s: SubId)
    requires s !in st.subs && s in st'.subs && st' == st.(subs := st.subs[s := st'.subs[s]], hub := st'.hub)
    requires st'.hub.revision == st.hub.revision
    requires forall w :: w in st.waiters ==> WaiterOk(st, st.waiters[w])
    ensures forall w :: w in st'.waiters ==> WaiterOk(st', st'.waiters[w])
  {
  }

  lemma SubscribeKeeps(st: State, s: SubId)
    requires HubOk(st) && CanHappen(st, Subscribe(s))
    ensures HubOk(Next(st, Subscribe(s)))
  {
    var st' := Next(st, Subscribe(s));
    MoreSubscriptions(st, st', s);
    forall x | x in st'.subs ensures SubscriptionOk(st'.hub, st'.holder, x, st'.subs[x]) {
      if x != s { assert SubscriptionOk(st.hub, st.holder, x, st.subs[x]); }
    }
  }

  lemma DropKeeps(st: State, s: SubId)
    requires HubOk(st) && CanHappen(st, DropSubscription(s))
    ensures HubOk(Next(st, DropSubscription(s)))
  {
  }

  lemma CloseSubKeeps(st: State, s: SubId)
    requires HubOk(st) && s in st.subs
    ensures HubOk(SetSubscription(st, s, st.subs[s].(closed := true)))
  {
  }

  lemma PublishKeeps(st: State)
    requires HubOk(st) && st.holder.Free?
    ensures HubOk(PublishRevision(st))
  {
  }

  lemma CloseHubKeeps(st: State)
    requires HubOk(st) && st.holder.Free?
    ensures HubOk(Next(st, CloseHub))
  {
  }

  lemma NotifyKeeps(st: State)
    requires HubOk(st) && st.holder.Publishing? && st.holder.left != []
    ensures HubOk(NotifyOne(st))
  {
    var s, st' := st.holder.left[0], NotifyOne(st);
    assert st.holder.left == [s] + st.holder.left[1..];
    if s in st.subs && !st.subs[s].closed {
      WakeKeepsWaiters(st, s, st'.subs[s]);
      HolderFree(st', SetSubscription(st, s, st'.subs[s]));
    } else {
      HolderFree(st', st);
    }
    forall x | x in st'.subs ensures SubscriptionOk(st'.hub, st'.holder, x, st'.subs[x]) {
      assert SubscriptionOk(st.hub, st.holder, x, st.subs[x]);
    }
  }

  lemma CloseOneKeeps(st: State)
    requires HubOk(st) && st.holder.Closing? && st.holder.left != []
    ensures HubOk(CloseOne(st))
  {
    var s, st' := st.holder.left[0], CloseOne(st);
    assert st.holder.left == [s] + st.holder.left[1..];
    if s in st.subs {
      WakeKeepsWaiters(st, s, st'.subs[s]);
      HolderFree(st', SetSubscription(st, s, st'.subs[s]));
    } else {
      HolderFree(st', st);
    }
    CloseOneSubscriptions(st);
  }

  lemma CloseOneSubscriptions(st: State)
    requires st.holder.Closing? && st.holder.left != []
    requires forall x :: x in st.subs ==> SubscriptionOk(st.hub, st.holder, x, st.subs[x])
    ensures var st' := CloseOne(st);
      forall x :: x in st'.subs ==> SubscriptionOk(st'.hub, st'.holder, x, st'.subs[x])
  {
  }

  /** Waiters do not look at the hub's lock or its list. */
  lemma HolderFree(st': State, st: State)
    requires st' == st.(holder := st'.holder, hub := st'.hub) && st'.hub.revision == st.hub.revision
    requires forall w :: w in st.waiters ==> WaiterOk(st, st.waiters[w])
    ensures forall w :: w in st'.waiters ==> WaiterOk(st', st'.waiters[w])
  {
  }

  lemma ReleaseKeeps(st: State)
    requires HubOk(st) && CanHappen(st, ReleaseHub)
    ensures HubOk(Next(st, ReleaseHub))
  {
    var st' := Next(st, ReleaseHub);
    HolderFree(st', st);
    forall x | x in st'.subs ensures SubscriptionOk(st'.hub, st'.holder, x, st'.subs[x]) {
      assert SubscriptionOk(st.hub, st.holder, x, st.subs[x]);
    }
  }

  lemma ReplyOk(st: State, waiter: Waiter)
    requires HubInv(st) && waiter.Asking? && WaiterOk(st, waiter)
    ensures WaiterOk(st, Reply(st.pool, waiter))
  {
  }

  lemma GuardOk(st: State, waiter: Waiter)
    requires HubInv(st) && waiter.Answered? && waiter.sub in st.subs && WaiterOk(st, waiter)
    ensures WaiterOk(st, CheckGuard(st.subs[waiter.sub], waiter))
  {
  }

  lemma BeginOk(st: State, s: SubId, handles: seq<TaskId>)
    requires HubInv(st) && s in st.subs
    ensures WaiterOk(st, Asking(s, handles, st.subs[s].revision))
  {
    assert SubscriptionOk(st.hub, st.holder, s, st.subs[s]);
  }

  lemma EventKeeps(st: State, e: Event)
    requires HubInv(st) && CanHappen(st, e)
    ensures HubInv(Next(st, e))
  {
    match e
    case CoreStep(step) => CoreStepKeeps(st, step);
    case Subscribe(s) => SubscribeKeeps(st, s);
    case CloseSubscription(s) => CloseSubKeeps(st, s);
    case DropSubscription(s) => DropKeeps(st, s);
    case Begin(w, s, handles) =>
      BeginOk(st, s, handles);
      WaiterStepKeeps(st, w, Asking(s, handles, st.subs[s].revision));
    case Answer(w) =>
      ReplyOk(st, st.waiters[w]);
      WaiterStepKeeps(st, w, Reply(st.pool, st.waiters[w]));
    case Check(w) =>
      GuardOk(st, st.waiters[w]);
      WaiterStepKeeps(st, w, CheckGuard(st.subs[st.waiters[w].sub], st.waiters[w]));
    case Stir(w) =>
      var a := st.waiters[w];
      assert WaiterOk(st, a);
      WaiterStepKeeps(st, w, Answered(a.sub, a.handles, a.seen, a.at));
    case TimeOut(w) => WaiterStepKeeps(st, w, Returned);
    case Publish => PublishKeeps(st);
    case CloseHub => CloseHubKeeps(st);
    case NotifyNext => if st.holder.Publishing? { NotifyKeeps(st); } else { CloseOneKeeps(st); }
    case ReleaseHub => ReleaseKeeps(st);
  }

  // ---------------------------------------------------------------- whole runs

  ghost predicate IsHistory(states: seq<State>, events: seq<Event>) {
    && |states| == |events| + 1
    && Valid(states[0].pool) && states[0] == Start(states[0].pool)
    && forall i :: 0 <= i < |events| ==> CanHappen(states[i], events[i]) && states[i + 1] == Next(states[i], events[i])
  }

  lemma {:induction false} HistoriesKeepInv(states: seq<State>, events: seq<Event>, i: nat)
    requires IsHistory(states, events) && i < |states|
    ensures HubInv(states[i])
  {
    if i > 0 {
      HistoriesKeepInv(states, events, i - 1);
      EventKeeps(states[i - 1], events[i - 1]);
    }
  }

  /** The actor has published everything that happened in the pool, and the hub is at rest. */
  ghost predicate Published(st: State) {
    st.holder.Free? && st.previous == Revision(st.pool)
  }
}
