/**
 Local selection of an execution variant: the catalogue is sorted by preference, quality and id, and the
 first compatible variant at the requested quality is taken, or one at the minimum quality when the
 policy lets the runtime fall back.
 */
module ExecutionVariants {
  import opened Sequences

  datatype Capabilities = Capabilities(
    architectures: set<string>, instructionSets: set<string>, backends: set<string>, precisions: set<string>,
    memoryClasses: set<string>, memory: Option<nat>,
    runnerVersions: map<string, string>, pluginVersions: map<string, string>, custom: set<string>)

  datatype Variant = Variant(id: string, taskType: string, needs: Capabilities, quality: nat, preference: nat)

  datatype NoPlacement = Fail | Wait | UseFallback

  datatype Policy = Policy(requested: nat, minimum: nat, noPlacement: NoPlacement)

  datatype Selection =
    | Selected(variant: Variant, preferredId: string, fallbackUsed: bool, degraded: bool)
    | NoVariant(recovery: Option<string>, compatible: nat)

  // ---------------------------------------------------------------- compatibility

  predicate VersionsMatch(required: map<string, string>, available: map<string, string>) {
    forall id :: id in required ==> id in available && available[id] == required[id]
  }

  predicate Satisfies(need: Capabilities, have: Capabilities) {
    && need.architectures <= have.architectures
    && need.instructionSets <= have.instructionSets
    && need.backends <= have.backends
    && need.precisions <= have.precisions
    && need.memoryClasses <= have.memoryClasses
    && (need.memory.Some? ==> have.memory.Some? && have.memory.value >= need.memory.value)
    && VersionsMatch(need.runnerVersions, have.runnerVersions)
    && VersionsMatch(need.pluginVersions, have.pluginVersions)
    && need.custom <= have.custom
  }

  // ---------------------------------------------------------------- order

  predicate TextLeq(a: string, b: string) {
    if a == [] then true
    else if b == [] then false
    else if a[0] != b[0] then a[0] < b[0]
    else TextLeq(a[1..], b[1..])
  }

  predicate Leq(a: Variant, b: Variant) {
    || a.preference < b.preference
    || (a.preference == b.preference && a.quality > b.quality)
    || (a.preference == b.preference && a.quality == b.quality && TextLeq(a.id, b.id))
  }

  lemma {:induction false} TextLeqTotal(a: string, b: string)
    ensures TextLeq(a, b) || TextLeq(b, a)
    ensures TextLeq(a, b) && TextLeq(b, a) ==> a == b
  {
    if a != [] && b != [] && a[0] == b[0] {
      TextLeqTotal(a[1..], b[1..]);
      assert a == [a[0]] + a[1..] && b == [b[0]] + b[1..];
    }
  }

  lemma {:induction false} TextLeqTransitive(a: string, b: string, c: string)
    requires TextLeq(a, b) && TextLeq(b, c)
    ensures TextLeq(a, c)
  {
    if a != [] && a[0] == b[0] && b[0] == c[0] {
      TextLeqTransitive(a[1..], b[1..], c[1..]);
    }
  }

  lemma {:induction false} FirstDifferenceDecides(a: string, b: string, k: nat)
    requires k < |a| && k < |b| && a[..k] == b[..k] && a[k] != b[k]
    ensures TextLeq(a, b) <==> a[k] < b[k]
  {
    if k > 0 {
      assert a[0] == a[..k][0] && b[0] == b[..k][0];
      assert a[1..][..k - 1] == a[..k][1..] && b[1..][..k - 1] == b[..k][1..];
      FirstDifferenceDecides(a[1..], b[1..], k - 1);
    }
  }

  lemma {:induction false} ShorterPrefixIsLess(a: string, b: string)
    requires a <= b
    ensures TextLeq(a, b)
  {
    if a != [] {
      ShorterPrefixIsLess(a[1..], b[1..]);
    }
  }

  lemma LeqTotal(a: Variant, b: Variant)
    ensures Leq(a, b) || Leq(b, a)
    ensures Leq(a, b) && Leq(b, a) ==> a.id == b.id
  {
    TextLeqTotal(a.id, b.id);
  }

  lemma LeqTransitive(a: Variant, b: Variant, c: Variant)
    requires Leq(a, b) && Leq(b, c)
    ensures Leq(a, c)
  {
    if a.preference == b.preference == c.preference && a.quality == b.quality == c.quality {
      TextLeqTransitive(a.id, b.id, c.id);
    }
  }

  // ---------------------------------------------------------------- selection

  function Filter(s: seq<Variant>, keep: Variant -> bool): seq<Variant> {
    if s == [] then [] else (if keep(s[0]) then [s[0]] else []) + Filter(s[1..], keep)
  }

  function Insert(x: Variant, s: seq<Variant>): seq<Variant> {
    if s == [] || Leq(x, s[0]) then [x] + s else [s[0]] + Insert(x, s[1..])
  }

  /** A stable sort. */
  function Sort(s: seq<Variant>): seq<Variant> {
    if s == [] then [] else Insert(s[0], Sort(s[1..]))
  }

  function FirstAt(s: seq<Variant>, level: nat): Option<Variant> {
    if s == [] then None else if s[0].quality >= level then Some(s[0]) else FirstAt(s[1..], level)
  }

  function OfType(catalogue: seq<Variant>, taskType: string): seq<Variant> {
    Sort(Filter(catalogue, (v: Variant) => v.taskType == taskType))
  }

  function Compatible(catalogue: seq<Variant>, taskType: string, have: Capabilities): seq<Variant> {
    Sort(Filter(OfType(catalogue, taskType), (v: Variant) => Satisfies(v.needs, have)))
  }

  predicate MayDegrade(policy: Policy) {
    policy.noPlacement.UseFallback? && policy.minimum < policy.requested
  }

  function Choose(catalogue: seq<Variant>, taskType: string, have: Capabilities, policy: Policy): Option<Variant> {
    var compatible := Compatible(catalogue, taskType, have);
    var full := FirstAt(compatible, policy.requested);
    if full.Some? then full
    else if MayDegrade(policy) then FirstAt(compatible, policy.minimum)
    else None
  }

  function SelectLocal(catalogue: seq<Variant>, taskType: string, have: Capabilities, policy: Policy): Selection {
    var all := OfType(catalogue, taskType);
    match Choose(catalogue, taskType, have, policy)
    case None =>
      NoVariant(
        match policy.noPlacement
        case Wait => Some("wait_for_local_capability")
        case UseFallback => Some("provide_explicit_fallback")
        case Fail => None,
        |Compatible(catalogue, taskType, have)|)
    case Some(v) =>
      if all == [] then Selected(v, "", true, v.quality < policy.requested)
      else Selected(v, all[0].id, all[0].id != v.id, v.quality < policy.requested)
  }

  // ---------------------------------------------------------------- what is a best variant

  ghost predicate Fits(v: Variant, catalogue: seq<Variant>, taskType: string, have: Capabilities, level: nat) {
    v in catalogue && v.taskType == taskType && Satisfies(v.needs, have) && v.quality >= level
  }

  /** A compatible variant at the level that no other one precedes. */
  ghost predicate Best(v: Variant, catalogue: seq<Variant>, taskType: string, have: Capabilities, level: nat) {
    Fits(v, catalogue, taskType, have, level)
    && forall u :: u in catalogue && Fits(u, catalogue, taskType, have, level) ==> Leq(v, u)
  }

  ghost predicate Ordered(s: seq<Variant>) {
    forall i, j :: 0 <= i < j < |s| ==> Leq(s[i], s[j])
  }

  lemma {:induction false} FilterMembers(s: seq<Variant>, keep: Variant -> bool, v: Variant)
    ensures v in Filter(s, keep) <==> v in s && keep(v)
  {
    if s != [] {
      FilterMembers(s[1..], keep, v);
      assert s == [s[0]] + s[1..];
    }
  }

  lemma {:induction false} InsertKeeps(x: Variant, s: seq<Variant>)
    requires Ordered(s)
    ensures Ordered(Insert(x, s))
    ensures forall v :: v in Insert(x, s) <==> v == x || v in s
  {
    if s != [] {
      assert s == [s[0]] + s[1..];
      if Leq(x, s[0]) {
        forall j | 0 <= j < |s| ensures Leq(x, s[j]) {
          if j > 0 {
            LeqTransitive(x, s[0], s[j]);
          }
        }
      } else {
        InsertKeeps(x, s[1..]);
        LeqTotal(x, s[0]);
        var rest := Insert(x, s[1..]);
        forall j | 0 <= j < |rest| ensures Leq(s[0], rest[j]) {
          assert rest[j] in rest;
          if rest[j] != x {
            var k :| 0 <= k < |s[1..]| && s[1..][k] == rest[j];
            assert s[k + 1] == rest[j];
          }
        }
      }
    }
  }

  lemma {:induction false} SortSorts(s: seq<Variant>)
    ensures Ordered(Sort(s))
    ensures forall v :: v in Sort(s) <==> v in s
  {
    if s != [] {
      SortSorts(s[1..]);
      InsertKeeps(s[0], Sort(s[1..]));
      assert s == [s[0]] + s[1..];
    }
  }

  lemma {:induction false} FirstIsLeast(s: seq<Variant>, level: nat)
    requires Ordered(s)
    ensures match FirstAt(s, level)
            case None => forall v :: v in s ==> v.quality < level
            case Some(f) => f in s && f.quality >= level && forall v :: v in s && v.quality >= level ==> f == v || Leq(f, v)
  {
    if s != [] {
      assert s == [s[0]] + s[1..];
      forall v | v in s ensures v == s[0] || Leq(s[0], v) {
        var i :| 0 <= i < |s| && s[i] == v;
      }
      FirstIsLeast(s[1..], level);
    }
  }

  lemma CompatibleMembers(catalogue: seq<Variant>, taskType: string, have: Capabilities, v: Variant)
    ensures Ordered(Compatible(catalogue, taskType, have))
    ensures v in Compatible(catalogue, taskType, have) <==> v in catalogue && v.taskType == taskType && Satisfies(v.needs, have)
  {
    FilterMembers(catalogue, (u: Variant) => u.taskType == taskType, v);
    SortSorts(Filter(catalogue, (u: Variant) => u.taskType == taskType));
    FilterMembers(OfType(catalogue, taskType), (u: Variant) => Satisfies(u.needs, have), v);
    SortSorts(Filter(OfType(catalogue, taskType), (u: Variant) => Satisfies(u.needs, have)));
  }

  lemma FirstCompatibleIsBest(catalogue: seq<Variant>, taskType: string, have: Capabilities, level: nat)
    ensures match FirstAt(Compatible(catalogue, taskType, have), level)
            case None => forall v :: v in catalogue ==> !Fits(v, catalogue, taskType, have, level)
            case Some(f) => Best(f, catalogue, taskType, have, level)
  {
    var compatible := Compatible(catalogue, taskType, have);
    forall v: Variant
      ensures v in compatible <==> v in catalogue && v.taskType == taskType && Satisfies(v.needs, have)
      ensures Leq(v, v)
    {
      CompatibleMembers(catalogue, taskType, have, v);
      LeqTotal(v, v);
    }
    CompatibleMembers(catalogue, taskType, have, Variant("", "", have, 0, 0));
    FirstIsLeast(compatible, level);
  }

  // ---------------------------------------------------------------- what selection promises

  ghost predicate AnyFits(catalogue: seq<Variant>, taskType: string, have: Capabilities, level: nat) {
    exists v :: v in catalogue && Fits(v, catalogue, taskType, have, level)
  }

  /** Selection takes a best variant at the requested quality, else, only when permitted, at the minimum; else none. */
  lemma ChoiceIsBest(catalogue: seq<Variant>, taskType: string, have: Capabilities, policy: Policy)
    ensures match Choose(catalogue, taskType, have, policy)
            case Some(v) =>
              if AnyFits(catalogue, taskType, have, policy.requested)
              then Best(v, catalogue, taskType, have, policy.requested)
              else MayDegrade(policy) && Best(v, catalogue, taskType, have, policy.minimum)
            case None =>
              !AnyFits(catalogue, taskType, have, policy.requested)
              && (MayDegrade(policy) ==> !AnyFits(catalogue, taskType, have, policy.minimum))
  {
    FirstCompatibleIsBest(catalogue, taskType, have, policy.requested);
    FirstCompatibleIsBest(catalogue, taskType, have, policy.minimum);
  }

  /** Smaller preference first, then higher quality, then the text order of the ids. */
  ghost predicate Precedes(v: Variant, u: Variant) {
    && v.preference <= u.preference
    && (v.preference == u.preference ==> v.quality >= u.quality)
    && (v.preference == u.preference && v.quality == u.quality ==> TextLeq(v.id, u.id))
  }

  /**
   The chosen variant precedes every other compatible one at the level that applied. A choice below the
   requested quality needs a policy that falls back, and then still has the minimum.
   */
  lemma ChoicePrecedes(catalogue: seq<Variant>, taskType: string, have: Capabilities, policy: Policy)
    requires Choose(catalogue, taskType, have, policy).Some?
    ensures var v := Choose(catalogue, taskType, have, policy).value;
      var level := if v.quality >= policy.requested then policy.requested else policy.minimum;
      && v in catalogue && v.taskType == taskType && Extends(have, v.needs) && v.quality >= level
      && (v.quality < policy.requested ==> policy.noPlacement.UseFallback? && policy.minimum < policy.requested)
      && forall u :: u in catalogue && u.taskType == taskType && Extends(have, u.needs) && u.quality >= level ==>
           Precedes(v, u)
  {
    var v := Choose(catalogue, taskType, have, policy).value;
    ChoiceIsBest(catalogue, taskType, have, policy);
    BestFits(v, catalogue, taskType, have, policy);
    forall u | u in catalogue && u.taskType == taskType && Extends(have, u.needs) && u.quality >= policy.minimum
      ensures Fits(u, catalogue, taskType, have, policy.minimum)
    {
    }
    forall u | u in catalogue && u.taskType == taskType && Extends(have, u.needs) && u.quality >= policy.requested
      ensures Fits(u, catalogue, taskType, have, policy.requested)
    {
    }
  }

  ghost predicate DistinctIds(catalogue: seq<Variant>) {
    forall u, v :: u in catalogue && v in catalogue && u.id == v.id ==> u == v
  }

  lemma BestIsUnique(u: Variant, v: Variant, catalogue: seq<Variant>, taskType: string, have: Capabilities, level: nat)
    requires DistinctIds(catalogue)
    requires Best(u, catalogue, taskType, have, level) && Best(v, catalogue, taskType, have, level)
    ensures u == v
  {
    LeqTotal(u, v);
  }

  lemma BestIgnoresOrder(v: Variant, a: seq<Variant>, b: seq<Variant>, taskType: string, have: Capabilities, level: nat)
    requires forall u :: u in a <==> u in b
    ensures Best(v, a, taskType, have, level) <==> Best(v, b, taskType, have, level)
    ensures AnyFits(a, taskType, have, level) <==> AnyFits(b, taskType, have, level)
  {
  }

  /** With distinct ids the choice depends on which variants the catalogue holds and not on their order. */
  lemma ChoiceIgnoresOrder(a: seq<Variant>, b: seq<Variant>, taskType: string, have: Capabilities, policy: Policy)
    requires DistinctIds(a) && forall v :: v in a <==> v in b
    ensures Choose(a, taskType, have, policy) == Choose(b, taskType, have, policy)
  {
    ChoiceIsBest(a, taskType, have, policy);
    ChoiceIsBest(b, taskType, have, policy);
    var x, y := Choose(a, taskType, have, policy), Choose(b, taskType, have, policy);
    var none := Variant("", "", have, 0, 0);
    var v := if y.Some? then y.value else none;
    BestIgnoresOrder(v, a, b, taskType, have, policy.requested);
    BestIgnoresOrder(v, a, b, taskType, have, policy.minimum);
    if x.Some? && y.Some? {
      var level := if AnyFits(a, taskType, have, policy.requested) then policy.requested else policy.minimum;
      BestIsUnique(x.value, y.value, a, taskType, have, level);
    } else if x.Some? {
      BestFits(x.value, a, taskType, have, policy);
    }
  }

  lemma HeadIgnoresOrder(a: seq<Variant>, b: seq<Variant>, taskType: string)
    requires DistinctIds(a) && forall v :: v in a <==> v in b
    ensures OfType(a, taskType) != [] <==> OfType(b, taskType) != []
    ensures OfType(a, taskType) != [] ==> OfType(a, taskType)[0] == OfType(b, taskType)[0]
  {
    var x, y := OfType(a, taskType), OfType(b, taskType);
    SortSorts(Filter(a, (u: Variant) => u.taskType == taskType));
    SortSorts(Filter(b, (u: Variant) => u.taskType == taskType));
    forall v: Variant ensures v in x <==> v in y ensures v in x ==> v in a {
      FilterMembers(a, (u: Variant) => u.taskType == taskType, v);
      FilterMembers(b, (u: Variant) => u.taskType == taskType, v);
    }
    if x != [] {
      assert x[0] in y;
    }
    if y != [] {
      assert y[0] in x;
      var i :| 0 <= i < |x| && x[i] == y[0];
      var j :| 0 <= j < |y| && y[j] == x[0];
      LeqTotal(x[0], y[0]);
    }
  }

  lemma {:induction false} FilterCounts(s: seq<Variant>, keep: Variant -> bool, v: Variant)
    ensures multiset(Filter(s, keep))[v] == if keep(v) then multiset(s)[v] else 0
  {
    if s != [] {
      FilterCounts(s[1..], keep, v);
      assert s == [s[0]] + s[1..];
    }
  }

  lemma FilterKeepsSame(a: seq<Variant>, b: seq<Variant>, keep: Variant -> bool)
    requires multiset(a) == multiset(b)
    ensures multiset(Filter(a, keep)) == multiset(Filter(b, keep))
  {
    forall v: Variant ensures multiset(Filter(a, keep))[v] == multiset(Filter(b, keep))[v] {
      FilterCounts(a, keep, v);
      FilterCounts(b, keep, v);
    }
  }

  lemma {:induction false} InsertAdds(x: Variant, s: seq<Variant>)
    ensures multiset(Insert(x, s)) == multiset{x} + multiset(s)
  {
    if s != [] && !Leq(x, s[0]) {
      InsertAdds(x, s[1..]);
      assert s == [s[0]] + s[1..];
    }
  }

  lemma {:induction false} SortPermutes(s: seq<Variant>)
    ensures multiset(Sort(s)) == multiset(s)
  {
    if s != [] {
      SortPermutes(s[1..]);
      InsertAdds(s[0], Sort(s[1..]));
      assert s == [s[0]] + s[1..];
    }
  }

  lemma CompatibleSame(a: seq<Variant>, b: seq<Variant>, taskType: string, have: Capabilities)
    requires multiset(a) == multiset(b)
    ensures |Compatible(a, taskType, have)| == |Compatible(b, taskType, have)|
  {
    var ofType, fits := (v: Variant) => v.taskType == taskType, (v: Variant) => Satisfies(v.needs, have);
    FilterKeepsSame(a, b, ofType);
    SortPermutes(Filter(a, ofType));
    SortPermutes(Filter(b, ofType));
    FilterKeepsSame(OfType(a, taskType), OfType(b, taskType), fits);
    SortPermutes(Filter(OfType(a, taskType), fits));
    SortPermutes(Filter(OfType(b, taskType), fits));
    assert |multiset(Compatible(a, taskType, have))| == |multiset(Compatible(b, taskType, have))|;
  }

  /**
   So is everything a successful selection reports; and a catalogue that is merely reordered gives the
   same answer in every part, the recovery and the number of compatible variants of a failure included.
   */
  lemma SelectionIgnoresOrder(a: seq<Variant>, b: seq<Variant>, taskType: string, have: Capabilities, policy: Policy)
    requires DistinctIds(a) && forall v :: v in a <==> v in b
    ensures var x, y := SelectLocal(a, taskType, have, policy), SelectLocal(b, taskType, have, policy);
      (x.Selected? <==> y.Selected?) && (x.Selected? || multiset(a) == multiset(b) ==> x == y)
  {
    ChoiceIgnoresOrder(a, b, taskType, have, policy);
    HeadIgnoresOrder(a, b, taskType);
    if multiset(a) == multiset(b) {
      CompatibleSame(a, b, taskType, have);
    }
  }

  lemma BestFits(v: Variant, catalogue: seq<Variant>, taskType: string, have: Capabilities, policy: Policy)
    ensures Best(v, catalogue, taskType, have, policy.requested) ==> AnyFits(catalogue, taskType, have, policy.requested)
    ensures Best(v, catalogue, taskType, have, policy.minimum) ==> AnyFits(catalogue, taskType, have, policy.minimum)
  {
  }

  // ---------------------------------------------------------------- more capabilities

  /** `more` offers at least what `less` offers. */
  ghost predicate Extends(more: Capabilities, less: Capabilities) {
    && less.architectures <= more.architectures && less.instructionSets <= more.instructionSets
    && less.backends <= more.backends && less.precisions <= more.precisions
    && less.memoryClasses <= more.memoryClasses && less.custom <= more.custom
    && (less.memory.Some? ==> more.memory.Some? && more.memory.value >= less.memory.value)
    && VersionsMatch(less.runnerVersions, more.runnerVersions)
    && VersionsMatch(less.pluginVersions, more.pluginVersions)
  }

  lemma StillFits(catalogue: seq<Variant>, taskType: string, less: Capabilities, more: Capabilities, level: nat)
    requires Extends(more, less)
    ensures AnyFits(catalogue, taskType, less, level) ==> AnyFits(catalogue, taskType, more, level)
    ensures forall v :: Fits(v, catalogue, taskType, less, level) ==> Fits(v, catalogue, taskType, more, level)
  {
  }

  /**
   Enlarging the capabilities never turns a selection into a failure, nor a full-quality choice into a
   degraded one, and a full-quality choice is replaced only by a variant that precedes it.
   */
  lemma MoreCapabilitiesNeverHurt(catalogue: seq<Variant>, taskType: string, less: Capabilities, more: Capabilities,
                                  policy: Policy)
    requires Extends(more, less)
    ensures var x, y := SelectLocal(catalogue, taskType, less, policy), SelectLocal(catalogue, taskType, more, policy);
      && (x.Selected? ==> y.Selected?)
      && (x.Selected? && !x.degraded ==> !y.degraded && Leq(y.variant, x.variant))
  {
    ChoiceIsBest(catalogue, taskType, less, policy);
    ChoiceIsBest(catalogue, taskType, more, policy);
    StillFits(catalogue, taskType, less, more, policy.requested);
    StillFits(catalogue, taskType, less, more, policy.minimum);
    var x, y := Choose(catalogue, taskType, less, policy), Choose(catalogue, taskType, more, policy);
    if x.Some? {
      BestFits(x.value, catalogue, taskType, less, policy);
      if x.value.quality >= policy.requested {
        assert Fits(x.value, catalogue, taskType, less, policy.requested);
      }
    }
  }

  /** The preferred id is that of a variant of the type that precedes all variants of the type. */
  ghost predicate IsPreferred(id: string, catalogue: seq<Variant>, taskType: string) {
    exists w :: w in catalogue && w.taskType == taskType && w.id == id
                && forall u :: u in catalogue && u.taskType == taskType ==> Precedes(w, u)
  }

  /**
   What the outcome reports: degraded exactly when nothing met the requested quality, fallback exactly
   when some variant of the type precedes the chosen one, and as preferred the id of the variant of the
   type that precedes them all.
   */
  lemma OutcomeIsHonest(catalogue: seq<Variant>, taskType: string, have: Capabilities, policy: Policy)
    requires DistinctIds(catalogue) && SelectLocal(catalogue, taskType, have, policy).Selected?
    ensures var x := SelectLocal(catalogue, taskType, have, policy);
      && (x.degraded <==> !AnyFits(catalogue, taskType, have, policy.requested))
      && (x.fallbackUsed <==>
            exists v :: v in catalogue && v.taskType == taskType && v != x.variant && Leq(v, x.variant))
      && IsPreferred(x.preferredId, catalogue, taskType)
  {
    var x := SelectLocal(catalogue, taskType, have, policy);
    ChoiceIsBest(catalogue, taskType, have, policy);
    BestFits(x.variant, catalogue, taskType, have, policy);
    PreferredIsLeast(catalogue, taskType, x.variant);
  }

  lemma PreferredIsLeast(catalogue: seq<Variant>, taskType: string, chosen: Variant)
    requires DistinctIds(catalogue) && chosen in catalogue && chosen.taskType == taskType
    ensures var all := OfType(catalogue, taskType);
      && all != []
      && (all[0].id != chosen.id <==>
            exists v :: v in catalogue && v.taskType == taskType && v != chosen && Leq(v, chosen))
      && IsPreferred(all[0].id, catalogue, taskType)
  {
    var all := OfType(catalogue, taskType);
    forall v: Variant ensures v in all <==> v in catalogue && v.taskType == taskType {
      FilterMembers(catalogue, (u: Variant) => u.taskType == taskType, v);
      SortSorts(Filter(catalogue, (u: Variant) => u.taskType == taskType));
    }
    SortSorts(Filter(catalogue, (u: Variant) => u.taskType == taskType));
    assert chosen in all && all[0] in all;
    forall u | u in catalogue && u.taskType == taskType ensures Precedes(all[0], u) {
      var j :| 0 <= j < |all| && all[j] == u;
      LeqTotal(u, u);
    }
    var i :| 0 <= i < |all| && all[i] == chosen;
    if all[0].id == chosen.id {
      forall v | v in catalogue && v.taskType == taskType && Leq(v, chosen) ensures v == chosen {
        var j :| 0 <= j < |all| && all[j] == v;
        LeqTotal(v, chosen);
      }
    } else {
      assert Leq(all[0], all[i]);
    }
  }

  // ---------------------------------------------------------------- what a failure reports

  lemma {:induction false} FilterLast(s: seq<Variant>, keep: Variant -> bool)
    requires s != []
    ensures var front, last := s[..|s| - 1], s[|s| - 1];
      Filter(s, keep) == Filter(front, keep) + if keep(last) then [last] else []
  {
    if |s| > 1 {
      FilterLast(s[1..], keep);
      assert s[1..][..|s| - 2] == s[..|s| - 1][1..];
    }
  }

  /** The positions at which the catalogue holds a variant of the type that the capabilities satisfy. */
  ghost function FittingAt(catalogue: seq<Variant>, taskType: string, have: Capabilities): set<nat> {
    set i: nat | i < |catalogue| && catalogue[i].taskType == taskType && Extends(have, catalogue[i].needs)
  }

  lemma {:induction false} FittingCount(catalogue: seq<Variant>, taskType: string, have: Capabilities)
    ensures |Filter(catalogue, (v: Variant) => v.taskType == taskType && Satisfies(v.needs, have))|
         == |FittingAt(catalogue, taskType, have)|
  {
    var keep := (v: Variant) => v.taskType == taskType && Satisfies(v.needs, have);
    if catalogue == [] {
      SetSame(FittingAt(catalogue, taskType, have), {});
    } else {
      var n := |catalogue| - 1;
      var front := catalogue[..n];
      FilterLast(catalogue, keep);
      FittingCount(front, taskType, have);
      if keep(catalogue[n]) {
        SetInserted(FittingAt(front, taskType, have), FittingAt(catalogue, taskType, have), n);
      } else {
        SetSame(FittingAt(front, taskType, have), FittingAt(catalogue, taskType, have));
      }
    }
  }

  lemma CompatibleCount(catalogue: seq<Variant>, taskType: string, have: Capabilities)
    ensures |Compatible(catalogue, taskType, have)| == |FittingAt(catalogue, taskType, have)|
  {
    var ofType, fits := (v: Variant) => v.taskType == taskType, (v: Variant) => Satisfies(v.needs, have);
    var both := (v: Variant) => v.taskType == taskType && Satisfies(v.needs, have);
    SortPermutes(Filter(catalogue, ofType));
    SortPermutes(Filter(OfType(catalogue, taskType), fits));
    forall v: Variant
      ensures multiset(Compatible(catalogue, taskType, have))[v] == multiset(Filter(catalogue, both))[v]
    {
      FilterCounts(catalogue, ofType, v);
      FilterCounts(OfType(catalogue, taskType), fits, v);
      FilterCounts(catalogue, both, v);
    }
    assert multiset(Compatible(catalogue, taskType, have)) == multiset(Filter(catalogue, both));
    assert |multiset(Compatible(catalogue, taskType, have))| == |multiset(Filter(catalogue, both))|;
    FittingCount(catalogue, taskType, have);
  }

  /**
   A failure counts the compatible variants of the type, each below the requested quality, and below the
   minimum as well when the policy may fall back; it suggests a recovery unless the policy is to fail.
   */
  lemma FailureIsHonest(catalogue: seq<Variant>, taskType: string, have: Capabilities, policy: Policy)
    requires SelectLocal(catalogue, taskType, have, policy).NoVariant?
    ensures var x := SelectLocal(catalogue, taskType, have, policy);
      && x.compatible == |FittingAt(catalogue, taskType, have)|
      && (forall i :: i in FittingAt(catalogue, taskType, have) ==>
            && catalogue[i].quality < policy.requested
            && (policy.noPlacement.UseFallback? ==> catalogue[i].quality < policy.minimum))
      && (x.recovery == Some("wait_for_local_capability") <==> policy.noPlacement.Wait?)
      && (x.recovery == Some("provide_explicit_fallback") <==> policy.noPlacement.UseFallback?)
      && (x.recovery == None <==> policy.noPlacement.Fail?)
  {
    CompatibleCount(catalogue, taskType, have);
    ChoiceIsBest(catalogue, taskType, have, policy);
    forall i | i in FittingAt(catalogue, taskType, have)
      ensures catalogue[i].quality < policy.requested
      ensures MayDegrade(policy) ==> catalogue[i].quality < policy.minimum
    {
      var v := catalogue[i];
      assert v in catalogue;
      assert !Fits(v, catalogue, taskType, have, policy.requested);
      assert MayDegrade(policy) ==> !Fits(v, catalogue, taskType, have, policy.minimum);
    }
  }
}
