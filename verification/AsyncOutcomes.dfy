/** When the asynchronous executor has returned what a call held, compared with when its outcome goes out. */
module AsyncOutcomes {
  import opened AsyncExecutor

  /**
   The outcome goes out before the reservation is returned. Of a call whose outcome is out nothing is
   held any more exactly when its drop has finished, or the counters still to be lowered were raised by zero.
   */
  lemma OutcomeReturnedIff(states: seq<State>, steps: seq<Step>, i: nat, c: nat)
    requires IsRun(states, steps) && i < |states| && c in states[i].outcomes
    ensures c < |states[i].calls|
    ensures var x := states[i].calls[c];
      HoldsInvocation(x) == HoldsEntries(x) == HoldsBytes(x) == 0
      <==> (|| x.stage.Gone?
            || (x.stage.EntriesDropped? && x.bytes == 0)
            || (x.stage.InvocationDropped? && x.entries == 0 && x.bytes == 0))
  {
    ReservationsAlwaysExact(states, steps, i);
  }

  /** A run with one step more. */
  lemma Extend(states: seq<State>, steps: seq<Step>, s: Step)
    requires IsRun(states, steps) && Enabled(states[|states| - 1], s)
    ensures IsRun(states + [Apply(states[|states| - 1], s)], steps + [s])
  {
  }

  /** An executor with one call. */
  function Alone(limits: Limits, x: Invocation, outcomes: seq<nat>): State {
    State(limits, [x], HoldsInvocation(x), HoldsEntries(x), HoldsBytes(x), outcomes)
  }

  /** The stages of a call that fits, is never contended for and never cancelled. */
  function Path(): seq<Stage> {
    [Fresh, InvocationLoaded(0), InvocationHeld, EntriesLoaded(0), EntriesHeld, BytesLoaded(0),
     Reserved, Spawned, Gated, Running, Settled, Unlisted, Dropping]
  }

  function OnPath(entries: nat, bytes: nat, k: nat): Invocation
    requires k < |Path()|
  {
    Invocation(entries, bytes, Path()[k], Path()[k].Gated? || Path()[k].Running? || Path()[k].Settled?, false)
  }

  lemma PathStep(limits: Limits, entries: nat, bytes: nat, k: nat)
    requires 1 <= limits.invocations && entries <= limits.entries && bytes <= limits.bytes && k + 1 < |Path()|
    ensures var st := Alone(limits, OnPath(entries, bytes, k), []);
      && CanAdvance(st, 0)
      && Advanced(st, 0) == Alone(limits, OnPath(entries, bytes, k + 1), if k + 2 == |Path()| then [0] else [])
  {
    var x, y := OnPath(entries, bytes, k), OnPath(entries, bytes, k + 1);
    assert [x][0 := y] == [y];
  }

  lemma {:induction false} PathRun(limits: Limits, entries: nat, bytes: nat, k: nat) returns (states: seq<State>, steps: seq<Step>)
    requires 1 <= limits.invocations && entries <= limits.entries && bytes <= limits.bytes && k < |Path()|
    ensures IsRun(states, steps)
    ensures states[|states| - 1] == Alone(limits, OnPath(entries, bytes, k), if k + 1 == |Path()| then [0] else [])
  {
    if k == 0 {
      Extend([Initial(limits)], [], Submit(entries, bytes));
      states := [Initial(limits)] + [Apply(Initial(limits), Submit(entries, bytes))];
      steps := [] + [Submit(entries, bytes)];
    } else {
      states, steps := PathRun(limits, entries, bytes, k - 1);
      PathStep(limits, entries, bytes, k - 1);
      Extend(states, steps, Advance(0));
      states, steps := states + [Apply(states[|states| - 1], Advance(0))], steps + [Advance(0)];
    }
  }

  /**
   For every limit and every call that fits it, a run in which the outcome is out and all three amounts are
   still held.
   */
  lemma OutcomeBeforeRelease(limits: Limits, entries: nat, bytes: nat) returns (states: seq<State>, steps: seq<Step>)
    requires 1 <= limits.invocations && entries <= limits.entries && bytes <= limits.bytes
    ensures IsRun(states, steps)
    ensures var st := states[|states| - 1];
      && st.outcomes == [0] && |st.calls| == 1
      && st.invocations == HoldsInvocation(st.calls[0]) == 1
      && st.entries == HoldsEntries(st.calls[0]) == entries
      && st.bytes == HoldsBytes(st.calls[0]) == bytes
  {
    states, steps := PathRun(limits, entries, bytes, |Path()| - 1);
  }
}
