/** Facts about finite sequences that the component models share. */
module Sequences {

  datatype Option<+T> = None | Some(value: T)

  function Min(a: int, b: int): int {
    if a <= b then a else b
  }

  function Max(a: int, b: int): int {
    if a >= b then a else b
  }

  function ToSet<T>(s: seq<T>): set<T> {
    set x | x in s
  }

  ghost predicate NoDup<T>(s: seq<T>) {
    forall i, j :: 0 <= i < j < |s| ==> s[i] != s[j]
  }

  /** The elements of `s` that belong to `wanted`, in order. */
  function Keep<T(==)>(s: seq<T>, wanted: set<T>): seq<T> {
    if s == [] then []
    else if s[0] in wanted then [s[0]] + Keep(s[1..], wanted)
    else Keep(s[1..], wanted)
  }

  /** The elements of `s` that do not belong to `unwanted`, in order. */
  function Omit<T(==)>(s: seq<T>, unwanted: set<T>): seq<T> {
    if s == [] then []
    else if s[0] in unwanted then Omit(s[1..], unwanted)
    else [s[0]] + Omit(s[1..], unwanted)
  }

  /** The last `n` elements of `s`, or all of them when there are fewer. */
  function LastN<T>(s: seq<T>, n: nat): seq<T> {
    if |s| <= n then s else s[|s| - n..]
  }

  function Sum<T>(s: seq<T>, weight: T -> int): int {
    if s == [] then 0 else weight(s[0]) + Sum(s[1..], weight)
  }

  lemma SetInserted<T>(a: set<T>, b: set<T>, x: T)
    requires x !in a && x in b
    requires forall y :: y != x ==> (y in a <==> y in b)
    ensures |b| == |a| + 1
  {
    assert b == a + {x};
  }

  lemma SetSame<T>(a: set<T>, b: set<T>)
    requires forall y :: y in a <==> y in b
    ensures a == b
  {
  }

  lemma ToSetConcat<T>(a: seq<T>, b: seq<T>)
    ensures ToSet(a + b) == ToSet(a) + ToSet(b)
  {
  }

  lemma {:induction false} ToSetSize<T>(s: seq<T>)
    requires NoDup(s)
    ensures |ToSet(s)| == |s|
  {
    if s != [] {
      var rest := s[..|s| - 1];
      ToSetSize(rest);
      assert s == rest + [s[|s| - 1]];
      assert ToSet(s) == ToSet(rest) + {s[|s| - 1]};
    }
  }

  lemma {:induction false} KeepConcat<T>(a: seq<T>, b: seq<T>, wanted: set<T>)
    ensures Keep(a + b, wanted) == Keep(a, wanted) + Keep(b, wanted)
  {
    if a == [] {
      assert a + b == b;
    } else {
      assert (a + b)[1..] == a[1..] + b;
      KeepConcat(a[1..], b, wanted);
      assert Keep(a, wanted) + Keep(b, wanted)
          == (if a[0] in wanted then [a[0]] else []) + (Keep(a[1..], wanted) + Keep(b, wanted));
    }
  }

  lemma {:induction false} OmitConcat<T>(a: seq<T>, b: seq<T>, unwanted: set<T>)
    ensures Omit(a + b, unwanted) == Omit(a, unwanted) + Omit(b, unwanted)
  {
    if a == [] {
      assert a + b == b;
    } else {
      assert (a + b)[1..] == a[1..] + b;
      OmitConcat(a[1..], b, unwanted);
      assert Omit(a, unwanted) + Omit(b, unwanted)
          == (if a[0] in unwanted then [] else [a[0]]) + (Omit(a[1..], unwanted) + Omit(b, unwanted));
    }
  }

  lemma {:induction false} KeepMembers<T>(s: seq<T>, wanted: set<T>)
    ensures ToSet(Keep(s, wanted)) == ToSet(s) * wanted
  {
    if s != [] {
      KeepMembers(s[1..], wanted);
      assert s == [s[0]] + s[1..];
      ToSetConcat([s[0]], s[1..]);
      ToSetConcat([s[0]], Keep(s[1..], wanted));
    }
  }

  lemma {:induction false} OmitMembers<T>(s: seq<T>, unwanted: set<T>)
    ensures ToSet(Omit(s, unwanted)) == ToSet(s) - unwanted
  {
    if s != [] {
      OmitMembers(s[1..], unwanted);
      assert s == [s[0]] + s[1..];
      ToSetConcat([s[0]], s[1..]);
      ToSetConcat([s[0]], Omit(s[1..], unwanted));
    }
  }

  lemma KeepOmitSizes<T>(s: seq<T>, chosen: set<T>)
    ensures |Keep(s, chosen)| + |Omit(s, chosen)| == |s|
  {
  }

  lemma KeepAll<T>(s: seq<T>, wanted: set<T>)
    requires forall x :: x in s ==> x in wanted
    ensures Keep(s, wanted) == s
    ensures Omit(s, wanted) == []
  {
  }

  lemma {:induction false} OmitNoDup<T>(s: seq<T>, unwanted: set<T>)
    requires NoDup(s)
    ensures NoDup(Omit(s, unwanted))
  {
    if s != [] {
      OmitNoDup(s[1..], unwanted);
      OmitMembers(s[1..], unwanted);
      var rest := Omit(s[1..], unwanted);
      forall j | 0 <= j < |rest| ensures rest[j] != s[0] {
        assert rest[j] in ToSet(rest);
      }
    }
  }

  lemma {:induction false} SumConcat<T>(a: seq<T>, b: seq<T>, weight: T -> int)
    ensures Sum(a + b, weight) == Sum(a, weight) + Sum(b, weight)
  {
    if a == [] {
      assert a + b == b;
    } else {
      assert (a + b)[1..] == a[1..] + b;
      SumConcat(a[1..], b, weight);
    }
  }

  lemma {:induction false} SumUpdate<T>(s: seq<T>, i: nat, x: T, weight: T -> int)
    requires i < |s|
    ensures Sum(s[i := x], weight) == Sum(s, weight) - weight(s[i]) + weight(x)
  {
    if i == 0 {
      assert s[i := x][1..] == s[1..];
    } else {
      assert s[i := x][1..] == s[1..][i - 1 := x];
      SumUpdate(s[1..], i - 1, x, weight);
    }
  }

  lemma {:induction false} SumNonNegative<T>(s: seq<T>, weight: T -> int)
    requires forall x :: x in s ==> weight(x) >= 0
    ensures Sum(s, weight) >= 0
    ensures forall i :: 0 <= i < |s| ==> weight(s[i]) <= Sum(s, weight)
  {
    if s != [] {
      SumNonNegative(s[1..], weight);
      forall i | 0 <= i < |s| ensures weight(s[i]) <= Sum(s, weight) {
        if i > 0 {
          assert s[i] == s[1..][i - 1];
        }
      }
    }
  }

  lemma SumZero<T>(s: seq<T>, weight: T -> int)
    requires forall x :: x in s ==> weight(x) == 0
    ensures Sum(s, weight) == 0
  {
  }
}
