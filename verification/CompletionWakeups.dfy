/** No wake-up is lost: what a waiter was told stays justified until the actor has published the news. */
module CompletionWakeups {
  import opened TaskPoolModel
  import opened TaskPoolInvariants
  import opened TaskPoolRuns
  import opened CompletionHub

  predicate IsWaiting(waiter: Waiter) {
    waiter.Answered? || waiter.Asleep?
  }

  lemma PoolUntouched(st: State, e: Event)
    requires CanHappen(st, e) && !e.CoreStep?
    ensures Next(st, e).pool == st.pool
  {
  }

  lemma SameNoticed(p: Pool)
    ensures Noticed(p, p)
  {
  }

  lemma EventNoticed(st: State, e: Event)
    requires Valid(st.pool) && CanHappen(st, e)
    ensures Noticed(st.pool, Next(st, e).pool)
  {
    if e.CoreStep? {
      StepNoticed(st.pool, e.step);
    } else {
      PoolUntouched(st, e);
      SameNoticed(st.pool);
    }
  }

  lemma HistoryNext(states: seq<State>, events: seq<Event>, k: nat)
    requires IsHistory(states, events) && k < |events|
    ensures CanHappen(states[k], events[k]) && states[k + 1] == Next(states[k], events[k])
  {
  }

  lemma {:induction false} NoticedBetween(states: seq<State>, i: nat, j: nat)
    requires i <= j < |states|
    requires forall k :: i <= k < j ==> Noticed(states[k].pool, states[k + 1].pool)
    ensures Noticed(states[i].pool, states[j].pool)
    decreases j
  {
    if i < j {
      NoticedBetween(states, i, j - 1);
      assert Noticed(states[j - 1].pool, states[j - 1 + 1].pool);
    }
  }

  /** The pools of a history: between two of its states a task that finished shows as a higher revision. */
  lemma PoolsNoticed(states: seq<State>, events: seq<Event>, i: nat, j: nat)
    requires IsHistory(states, events) && i <= j < |states|
    ensures Noticed(states[i].pool, states[j].pool)
  {
    forall k | i <= k < j ensures Noticed(states[k].pool, states[k + 1].pool) {
      HistoriesKeepInv(states, events, k);
      HistoryNext(states, events, k);
      EventNoticed(states[k], events[k]);
    }
    NoticedBetween(states, i, j);
  }

  /** Whoever waits afterwards waited before and was told the same. */
  ghost predicate Carried(before: map<WaiterId, Waiter>, after: map<WaiterId, Waiter>, w: WaiterId) {
    w in before ==>
      && w in after
      && (IsWaiting(after[w]) ==>
            && IsWaiting(before[w]) && after[w].sub == before[w].sub && after[w].handles == before[w].handles
            && after[w].seen == before[w].seen && after[w].at == before[w].at)
  }

  /** Only an answer puts a waiter into its wait. */
  lemma EventCarries(st: State, e: Event, w: WaiterId)
    requires CanHappen(st, e) && e != Answer(w)
    ensures Carried(st.waiters, Next(st, e).waiters, w)
  {
  }

  lemma {:induction false} CarriedBetween(states: seq<State>, i: nat, j: nat, w: WaiterId)
    requires i <= j < |states| && w in states[i].waiters
    requires forall k :: i <= k < j ==> Carried(states[k].waiters, states[k + 1].waiters, w)
    ensures Carried(states[i].waiters, states[j].waiters, w)
    decreases j
  {
    if i < j {
      CarriedBetween(states, i, j - 1, w);
      assert Carried(states[j - 1].waiters, states[j - 1 + 1].waiters, w);
    }
  }

  lemma AnswerCarried(states: seq<State>, events: seq<Event>, a: nat, i: nat, w: WaiterId)
    requires IsHistory(states, events) && a < i < |states| && events[a] == Answer(w)
    requires forall k :: a < k < i ==> events[k] != Answer(w)
    ensures w in states[a].waiters && states[a].waiters[w].Asking? && w in states[i].waiters
    ensures var asked, x := states[a].waiters[w], states[i].waiters[w];
      IsWaiting(x) ==> x.sub == asked.sub && x.handles == asked.handles && x.seen == asked.seen && x.at == Revision(states[a].pool)
  {
    HistoryNext(states, events, a);
    forall k | a + 1 <= k < i ensures Carried(states[k].waiters, states[k + 1].waiters, w) {
      HistoryNext(states, events, k);
      EventCarries(states[k], events[k], w);
    }
    CarriedBetween(states, a + 1, i, w);
  }

  /** Once the actor has published a revision above the one a waiter was answered at, nothing can keep it blocked. */
  lemma NewsReaches(st: State, w: WaiterId)
    requires HubInv(st) && Published(st) && w in st.waiters && IsWaiting(st.waiters[w])
    requires Revision(st.pool) > st.waiters[w].at
    ensures var x := st.waiters[w];
      x.Answered? && x.sub in st.subs && (st.subs[x.sub].closed || st.subs[x.sub].revision > x.seen)
  {
    assert WaiterOk(st, st.waiters[w]);
    assert SubscriptionOk(st.hub, st.holder, st.waiters[w].sub, st.subs[st.waiters[w].sub]);
  }

  /**
   No wake-up is lost. In every run, take a waiter that read `seen` and was then told to wait while task
   `h` had not finished. Once `h` has finished and the actor has published, a waiter that has not been
   answered anew is not asleep, and its subscription is closed or holds a revision above `seen`.
   */
  lemma NoLostWakeup(states: seq<State>, events: seq<Event>, a: nat, i: nat, w: WaiterId, h: TaskId)
    requires IsHistory(states, events) && a < i < |states|
    requires events[a] == Answer(w) && forall k :: a < k < i ==> events[k] != Answer(w)
    requires h in Live(states[a].pool) && h !in Live(states[i].pool) && Published(states[i])
    requires w in states[i].waiters && IsWaiting(states[i].waiters[w])
    ensures w in states[a].waiters && states[a].waiters[w].Asking? && states[i].waiters[w].Answered?
    ensures var asked := states[a].waiters[w];
      asked.sub in states[i].subs && (states[i].subs[asked.sub].closed || states[i].subs[asked.sub].revision > asked.seen)
  {
    AnswerCarried(states, events, a, i, w);
    PoolsNoticed(states, events, a, i);
    HistoriesKeepInv(states, events, i);
    NewsReaches(states[i], w);
  }

  /** In particular none of a waiter's handles may have finished unseen: with all of them done it is awake. */
  lemma AllFinishedWakes(states: seq<State>, events: seq<Event>, i: nat, w: WaiterId)
    requires IsHistory(states, events) && i < |states| && Published(states[i])
    requires w in states[i].waiters && IsWaiting(states[i].waiters[w])
    requires !AnyLive(states[i].pool, states[i].waiters[w].handles)
    ensures states[i].waiters[w].Answered?
    ensures var x := states[i].waiters[w];
      x.sub in states[i].subs && (states[i].subs[x.sub].closed || states[i].subs[x.sub].revision > x.seen)
  {
    HistoriesKeepInv(states, events, i);
    assert WaiterOk(states[i], states[i].waiters[w]);
    NewsReaches(states[i], w);
  }

  /** The same from the sleeper's side: whoever sleeps when the actor is at rest has a task left to wait for. */
  lemma SleepersHaveWork(states: seq<State>, events: seq<Event>, i: nat, w: WaiterId)
    requires IsHistory(states, events) && i < |states| && Published(states[i])
    requires w in states[i].waiters && states[i].waiters[w].Asleep?
    ensures AnyLive(states[i].pool, states[i].waiters[w].handles)
  {
    if !AnyLive(states[i].pool, states[i].waiters[w].handles) {
      AllFinishedWakes(states, events, i, w);
    }
  }

  // ---------------------------------------------------------------- when a waiter returns, sleeps or asks again

  /** An answer that ends the wait: a handle without a record, or every handle stored with a terminal status. */
  ghost predicate Settles(tasks: map<TaskId, Record>, handles: seq<TaskId>) {
    || (exists h :: h in handles && h !in tasks)
    || (forall h :: h in handles ==> h in tasks && IsTerminal(tasks[h].status))
  }

  lemma ReplySettles(pool: Pool, waiter: Waiter)
    requires waiter.Asking?
    ensures CompletionHub.Reply(pool, waiter).Returned? <==> Settles(pool.tasks, waiter.handles)
    ensures !Settles(pool.tasks, waiter.handles) ==>
              CompletionHub.Reply(pool, waiter) == Answered(waiter.sub, waiter.handles, waiter.seen, Revision(pool))
  {
    forall h | h in pool.tasks ensures h in Live(pool) <==> !IsTerminal(pool.tasks[h].status) {
    }
  }

  lemma StepReturns(st: State, e: Event, w: WaiterId)
    requires CanHappen(st, e) && w in st.waiters && !st.waiters[w].Returned?
    ensures w in Next(st, e).waiters
    ensures Next(st, e).waiters[w].Returned? <==>
      || e == TimeOut(w)
      || (e == Check(w) && st.subs[st.waiters[w].sub].closed)
      || (e == Answer(w) && CompletionHub.Reply(st.pool, st.waiters[w]).Returned?)
  {
  }

  predicate AtClosed(st: State, s: SubId) {
    s in st.subs && st.subs[s].closed
  }

  /**
   In every run a waiter returns in exactly three cases: it times out, it finds its subscription closed,
   or it is answered while some handle has no record or every handle is stored with a terminal status.
   */
  lemma ReturnsExactlyWhen(states: seq<State>, events: seq<Event>, k: nat, w: WaiterId)
    requires IsHistory(states, events) && k < |events| && w in states[k].waiters && !states[k].waiters[w].Returned?
    ensures w in states[k + 1].waiters
    ensures states[k + 1].waiters[w].Returned? <==>
      || events[k] == TimeOut(w)
      || (events[k] == Check(w) && AtClosed(states[k], states[k].waiters[w].sub))
      || (events[k] == Answer(w) && Settles(states[k].pool.tasks, states[k].waiters[w].handles))
  {
    HistoryNext(states, events, k);
    StepReturns(states[k], events[k], w);
    if events[k] == Answer(w) {
      ReplySettles(states[k].pool, states[k].waiters[w]);
    }
  }

  /** A waiter at an open subscription sleeps exactly when there is no newer revision, else asks again from it. */
  lemma CheckDecides(states: seq<State>, events: seq<Event>, k: nat, w: WaiterId)
    requires IsHistory(states, events) && k < |events| && events[k] == Check(w)
    ensures w in states[k].waiters && IsWaiting(states[k].waiters[w]) && w in states[k + 1].waiters
    ensures states[k].waiters[w].sub in states[k].subs
    ensures var x, y, sub := states[k].waiters[w], states[k + 1].waiters[w], states[k].subs[states[k].waiters[w].sub];
      && (!sub.closed && sub.revision <= x.seen <==> y.Asleep?)
      && (!sub.closed && sub.revision > x.seen <==> y == Asking(x.sub, x.handles, sub.revision))
  {
    HistoryNext(states, events, k);
  }

  // ---------------------------------------------------------------- a publication reaches every subscription

  /** The state once the loop that holds the hub has visited every subscription and released the lock. */
  function LoopDone(st: State): State
    decreases if st.holder.Free? then 0 else |st.holder.left| + 1
  {
    if st.holder.Free? then st
    else if st.holder.left == [] then Next(st, ReleaseHub)
    else LoopDone(Next(st, NotifyNext))
  }

  lemma LoopUntouched(st: State, e: Event)
    requires CanHappen(st, e) && (e == NotifyNext || e == ReleaseHub)
    ensures var q := Next(st, e);
      && q.pool == st.pool && q.base == st.base && q.previous == st.previous
      && q.hub.revision == st.hub.revision && q.hub.closed == st.hub.closed
      && (e == ReleaseHub ==> q.holder.Free?)
      && (e == NotifyNext ==> !q.holder.Free? && |q.holder.left| == |st.holder.left| - 1)
  {
  }

  lemma {:induction false} LoopFinishes(st: State)
    requires HubInv(st)
    ensures var q := LoopDone(st);
      && HubInv(q) && q.holder.Free? && q.pool == st.pool && q.base == st.base && q.previous == st.previous
      && q.hub.revision == st.hub.revision && q.hub.closed == st.hub.closed
    decreases if st.holder.Free? then 0 else |st.holder.left| + 1
  {
    if !st.holder.Free? {
      var e := if st.holder.left == [] then ReleaseHub else NotifyNext;
      EventKeeps(st, e);
      LoopUntouched(st, e);
      if e == NotifyNext {
        LoopFinishes(Next(st, e));
      }
    }
  }

  lemma PublishTakesRevision(st: State)
    requires RevisionsOk(st.pool, st.base, st.previous, st.hub) && st.holder.Free?
    ensures Next(st, Publish).previous == Revision(st.pool) && Next(st, Publish).pool == st.pool
    ensures Next(st, Publish).base == st.base
  {
  }

  /** The actor tells the hub exactly when the pool's revision has moved since and the hub is open. */
  lemma PublishNotifiesIff(st: State)
    requires RevisionsOk(st.pool, st.base, st.previous, st.hub) && st.holder.Free?
    ensures var q := Next(st, Publish);
      && (q.holder.Publishing? <==> !st.hub.closed && Revision(st.pool) > st.previous)
      && (!q.holder.Publishing? ==> q.hub == st.hub && q.holder.Free?)
      && q.subs == st.subs && q.waiters == st.waiters
  {
  }

  /** A publishing loop opens and closes nothing. */
  lemma {:induction false} LoopKeepsOpen(st: State, s: SubId)
    requires !st.holder.Closing?
    ensures s in LoopDone(st).subs <==> s in st.subs
    ensures s in st.subs ==> LoopDone(st).subs[s].closed == st.subs[s].closed
    decreases if st.holder.Free? then 0 else |st.holder.left| + 1
  {
    if st.holder.Publishing? && st.holder.left != [] {
      LoopKeepsOpen(Next(st, NotifyNext), s);
    }
  }

  /**
   A publication by the actor and the loop it starts leave the hub at rest with everything published: every
   subscription is still there, open or closed as before, and each open one holds the pool's revision, once
   that has moved since the actor started.
   */
  lemma PublishReachesEveryone(st: State, s: SubId)
    requires HubInv(st) && st.holder.Free?
    ensures CanHappen(st, Publish)
    ensures var q := LoopDone(Next(st, Publish));
      && Published(q) && q.pool == st.pool
      && (s in q.subs <==> s in st.subs)
      && (s in st.subs ==> q.subs[s].closed == st.subs[s].closed)
      && (s in st.subs && !st.subs[s].closed && Revision(st.pool) > st.base ==>
            q.subs[s].revision == Revision(st.pool))
  {
    EventKeeps(st, Publish);
    PublishTakesRevision(st);
    LoopFinishes(Next(st, Publish));
    LoopKeepsOpen(Next(st, Publish), s);
    var q := LoopDone(Next(st, Publish));
    if s in q.subs {
      assert SubscriptionOk(q.hub, q.holder, s, q.subs[s]);
    }
  }

  // ---------------------------------------------------------------- what closes

  lemma StepCloses(st: State, e: Event, s: SubId)
    requires CanHappen(st, e) && (st.holder.Closing? ==> st.hub.closed)
    ensures var q := Next(st, e);
      && (q.hub.closed <==> st.hub.closed || e == CloseHub)
      && (s in q.subs && q.subs[s].closed && !st.hub.closed && e != CloseSubscription(s) ==>
            s in st.subs && st.subs[s].closed)
  {
  }

  lemma ClosingIsClosed(states: seq<State>, events: seq<Event>, k: nat)
    requires IsHistory(states, events) && k < |states|
    ensures states[k].holder.Closing? ==> states[k].hub.closed
  {
    HistoriesKeepInv(states, events, k);
  }

  /** As long as nobody closes the hub or the subscription, both are open. */
  lemma {:induction false} OpenUntilClosed(states: seq<State>, events: seq<Event>, k: nat, s: SubId)
    requires IsHistory(states, events) && k < |states|
    requires forall j :: 0 <= j < k ==> events[j] != CloseHub && events[j] != CloseSubscription(s)
    ensures !states[k].hub.closed && (s in states[k].subs ==> !states[k].subs[s].closed)
  {
    if k > 0 {
      OpenUntilClosed(states, events, k - 1, s);
      ClosingIsClosed(states, events, k - 1);
      HistoryNext(states, events, k - 1);
      StepCloses(states[k - 1], events[k - 1], s);
    }
  }

  // ---------------------------------------------------------------- what each event is for

  ghost predicate TakesEffect(st: State, e: Event, q: State) {
    match e
    case CoreStep(step) => q.pool == Apply(st.pool, step)
    case CloseSubscription(s) =>
      && q.pool == st.pool && AtClosed(q, s)
      && forall w :: w in q.waiters && q.waiters[w].Asleep? ==> q.waiters[w].sub != s
    case DropSubscription(s) => q.pool == st.pool && s !in q.subs
    case Stir(w) =>
      && q.pool == st.pool && w in st.waiters && w in q.waiters
      && st.waiters[w].Asleep? && q.waiters[w].Answered?
    case _ => q.pool == st.pool
  }

  lemma NextTakesEffect(st: State, e: Event)
    requires CanHappen(st, e)
    ensures TakesEffect(st, e, Next(st, e))
  {
  }

  /**
   In every run the pool changes only by its own operations, a closed subscription has no sleeper left, a
   dropped one is gone, and a sleeper that is stirred looks again.
   */
  lemma EventsTakeEffect(states: seq<State>, events: seq<Event>, k: nat)
    requires IsHistory(states, events) && k < |events|
    ensures TakesEffect(states[k], events[k], states[k + 1])
  {
    HistoryNext(states, events, k);
    NextTakesEffect(states[k], events[k]);
  }
}
