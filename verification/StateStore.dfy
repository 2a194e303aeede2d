/** The optimistic state store: a delta is applied only at the version it expects. */
module StateStore {
  import opened Sequences

  type Ref = string

  type Value = string

  datatype Cell = Cell(version: nat, value: Value)

  datatype Delta = Delta(target: Ref, expected: nat, patch: Value)

  datatype Expectation = Expectation(ref: Ref, expected: nat)

  type Values = map<Ref, Cell>

  function Version(values: Values, ref: Ref): nat {
    if ref in values then values[ref].version else 0
  }

  predicate Accepts(values: Values, d: Delta) {
    Version(values, d.target) == d.expected
  }

  function Applied(values: Values, d: Delta): Values {
    if Accepts(values, d) then values[d.target := Cell(d.expected + 1, d.patch)] else values
  }

  // ---------------------------------------------------------------- runs

  ghost predicate IsRun(stores: seq<Values>, deltas: seq<Delta>) {
    && |stores| == |deltas| + 1
    && stores[0] == map[]
    && forall i :: 0 <= i < |deltas| ==> stores[i + 1] == Applied(stores[i], deltas[i])
  }

  /** The patches accepted for one reference by the first `n` deltas, in order. */
  ghost function AcceptedPatches(stores: seq<Values>, deltas: seq<Delta>, ref: Ref, n: nat): seq<Value>
    requires |stores| == |deltas| + 1 && n <= |deltas|
  {
    if n == 0 then []
    else
      var before, d := AcceptedPatches(stores, deltas, ref, n - 1), deltas[n - 1];
      if d.target == ref && Accepts(stores[n - 1], d) then before + [d.patch] else before
  }

  /**
   At every point of a run a reference's version is the number of deltas accepted for it and its value
   is the last one's patch; so a delta is accepted exactly when it expects that number.
   */
  lemma {:induction false} VersionCountsAccepted(stores: seq<Values>, deltas: seq<Delta>, ref: Ref, n: nat)
    requires IsRun(stores, deltas) && n <= |deltas|
    ensures var patches := AcceptedPatches(stores, deltas, ref, n);
      && Version(stores[n], ref) == |patches|
      && (ref in stores[n] <==> patches != [])
      && (patches != [] ==> stores[n][ref].value == patches[|patches| - 1])
  {
    if n > 0 {
      VersionCountsAccepted(stores, deltas, ref, n - 1);
    }
  }

  lemma {:induction false} VersionsNeverFall(stores: seq<Values>, deltas: seq<Delta>, ref: Ref, i: nat, j: nat)
    requires IsRun(stores, deltas) && i <= j <= |deltas|
    ensures Version(stores[i], ref) <= Version(stores[j], ref)
    ensures Version(stores[i], ref) == Version(stores[j], ref) ==>
              (ref in stores[i] <==> ref in stores[j]) && (ref in stores[i] ==> stores[i][ref] == stores[j][ref])
  {
    if i < j {
      VersionsNeverFall(stores, deltas, ref, i, j - 1);
      VersionCountsAccepted(stores, deltas, ref, i);
      VersionCountsAccepted(stores, deltas, ref, j - 1);
    }
  }

  ghost predicate AllCurrent(values: Values, expectations: seq<Expectation>) {
    forall k :: 0 <= k < |expectations| ==> Version(values, expectations[k].ref) == expectations[k].expected
  }

  ghost predicate FirstStale(values: Values, expectations: seq<Expectation>, k: nat, e: Expectation, actual: nat)
    requires k < |expectations|
  {
    && AllCurrent(values, expectations[..k])
    && e == expectations[k]
    && actual == Version(values, e.ref) && actual != e.expected
  }

  /**
   Expectations that hold at two points were never invalidated and restored in between: every named value is
   unchanged throughout.
   */
  lemma CurrentMeansUntouched(stores: seq<Values>, deltas: seq<Delta>, expectations: seq<Expectation>, i: nat, m: nat,
                              j: nat, k: nat)
    requires IsRun(stores, deltas) && i <= m <= j <= |deltas| && k < |expectations|
    requires AllCurrent(stores[i], expectations) && AllCurrent(stores[j], expectations)
    ensures var ref := expectations[k].ref;
      && Version(stores[m], ref) == expectations[k].expected
      && (ref in stores[m] <==> ref in stores[i]) && (ref in stores[i] ==> stores[m][ref] == stores[i][ref])
  {
    VersionsNeverFall(stores, deltas, expectations[k].ref, i, m);
    VersionsNeverFall(stores, deltas, expectations[k].ref, m, j);
  }

  /** Of all deltas that expect the same version of one reference, at most one is ever accepted. */
  lemma OneWinnerPerVersion(stores: seq<Values>, deltas: seq<Delta>, i: nat, j: nat)
    requires IsRun(stores, deltas) && i < j < |deltas|
    requires deltas[i].target == deltas[j].target && deltas[i].expected == deltas[j].expected
    requires Accepts(stores[i], deltas[i])
    ensures !Accepts(stores[j], deltas[j])
  {
    VersionsNeverFall(stores, deltas, deltas[i].target, i + 1, j);
  }

  // ---------------------------------------------------------------- the store in place

  class StateStore {
    var values: Values

    constructor ()
      ensures values == map[]
    {
      values := map[];
    }

    method Apply(d: Delta) returns (ok: bool)
      modifies this
      ensures ok <==> Accepts(old(values), d)
      ensures values == Applied(old(values), d)
    {
      var current := Version(values, d.target);
      if current != d.expected {
        return false;
      }
      values := values[d.target := Cell(current + 1, d.patch)];
      return true;
    }

    /** Reports the first expectation that does not hold, with the version found. */
    method ValidateExpectations(expectations: seq<Expectation>) returns (stale: Option<(Expectation, nat)>)
      ensures stale.None? <==> AllCurrent(values, expectations)
      ensures stale.Some? ==> exists k :: 0 <= k < |expectations| && FirstStale(values, expectations, k, stale.value.0, stale.value.1)
    {
      for k := 0 to |expectations|
        invariant AllCurrent(values, expectations[..k])
      {
        var actual := Version(values, expectations[k].ref);
        if actual != expectations[k].expected {
          assert FirstStale(values, expectations, k, expectations[k], actual);
          return Some((expectations[k], actual));
        }
      }
      assert expectations[..|expectations|] == expectations;
      return None;
    }
  }
}
