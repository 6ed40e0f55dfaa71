/** Enumerating parameter sets: a mixed-radix index and the grid it agrees with. */
module ParameterSpace {
  import opened Prelude

  datatype Definition = Definition(name: string, values: seq<real>)

  /** Values chosen for the definitions, in their order. */
  type ParameterSet = seq<(string, real)>

  ghost predicate Distinct(values: seq<real>)
  {
    forall i, j :: 0 <= i < j < |values| ==> values[i] != values[j]
  }

  /** What the definitions' own constructors accept: at least one value each, no value twice. */
  ghost predicate ValidSpace(defs: seq<Definition>)
  {
    forall i :: 0 <= i < |defs| ==> defs[i].values != [] && Distinct(defs[i].values)
  }

  function Times(n: nat, k: nat): nat { n * k }

  function Quot(i: nat, n: nat): nat
    requires n > 0
  {
    i / n
  }

  function Rem(i: nat, n: nat): (r: nat)
    requires n > 0
    ensures r < n
  {
    i % n
  }

  lemma Division(i: nat, n: nat)
    requires n > 0
    ensures i == Times(n, Quot(i, n)) + Rem(i, n)
  {
  }

  lemma DivisionUnique(i: nat, n: nat, q: nat, r: nat)
    requires n > 0 && i == Times(n, q) + r && r < n
    ensures Quot(i, n) == q && Rem(i, n) == r
  {
    QuotientUnique(n, i / n, i % n, q, r);
  }

  lemma TimesSteps(n: nat, k: nat)
    ensures Times(n, 0) == 0 && Times(n, k + 1) == Times(n, k) + n
  {
  }

  lemma TimesOrder(n: nat, a: nat, b: nat)
    requires a <= b
    ensures Times(n, a) <= Times(n, b)
  {
    TimesMonotone(n, a, b);
  }

  function CombinationCount(defs: seq<Definition>): nat
  {
    if defs == [] then 1 else Times(|defs[|defs| - 1].values|, CombinationCount(defs[..|defs| - 1]))
  }

  /** The last definition takes the remainder, the others the quotient. */
  function Decode(defs: seq<Definition>, index: nat): ParameterSet
    requires ValidSpace(defs)
  {
    if defs == [] then []
    else
      var last := defs[|defs| - 1];
      Decode(defs[..|defs| - 1], Quot(index, |last.values|)) + [(last.name, last.values[Rem(index, |last.values|)])]
  }

  // -------------------------------------------------------------------- the grid

  function Row(base: ParameterSet, name: string, values: seq<real>): seq<ParameterSet>
  {
    if values == [] then [] else Row(base, name, values[..|values| - 1]) + [base + [(name, values[|values| - 1])]]
  }

  function Cross(sets: seq<ParameterSet>, d: Definition): seq<ParameterSet>
  {
    if sets == [] then [] else Cross(sets[..|sets| - 1], d) + Row(sets[|sets| - 1], d.name, d.values)
  }

  /** The Cartesian product, the last definition varying fastest. */
  function Grid(defs: seq<Definition>): seq<ParameterSet>
  {
    if defs == [] then [[]] else Cross(Grid(defs[..|defs| - 1]), defs[|defs| - 1])
  }

  lemma {:induction false} RowAt(base: ParameterSet, name: string, values: seq<real>, k: nat)
    ensures |Row(base, name, values)| == |values|
    ensures k < |values| ==> Row(base, name, values)[k] == base + [(name, values[k])]
  {
    if values != [] { RowAt(base, name, values[..|values| - 1], k); }
  }

  lemma {:induction false} CrossAt(sets: seq<ParameterSet>, d: Definition, i: nat)
    requires d.values != []
    ensures |Cross(sets, d)| == Times(|d.values|, |sets|)
    ensures i < |Cross(sets, d)| ==>
      Quot(i, |d.values|) < |sets|
      && Cross(sets, d)[i] == sets[Quot(i, |d.values|)] + [(d.name, d.values[Rem(i, |d.values|)])]
  {
    hide Times, Quot, Rem;
    var n := |d.values|;
    TimesSteps(n, 0);
    if sets != [] {
      var init, last := sets[..|sets| - 1], sets[|sets| - 1];
      CrossAt(init, d, i);
      TimesSteps(n, |init|);
      var before := Times(n, |init|);
      RowAt(last, d.name, d.values, if i < before then 0 else i - before);
      if before <= i < before + n {
        DivisionUnique(i, n, |init|, i - before);
      }
    }
  }

  /** The index decodes to the element of the grid at that place, and the grid has no other. */
  lemma {:induction false} DecodeIsGrid(defs: seq<Definition>, i: nat)
    requires ValidSpace(defs)
    ensures |Grid(defs)| == CombinationCount(defs)
    ensures i < CombinationCount(defs) ==> Grid(defs)[i] == Decode(defs, i)
  {
    hide Cross, Distinct, Times, Quot, Rem;
    if defs != [] {
      var init, last := defs[..|defs| - 1], defs[|defs| - 1];
      DecodeIsGrid(init, Quot(i, |last.values|));
      CrossAt(Grid(init), last, i);
    }
  }

  // ------------------------------------------------------------------- bijection

  /** One value of every definition, under its name. */
  ghost predicate Combination(defs: seq<Definition>, c: ParameterSet)
  {
    |c| == |defs| && forall i :: 0 <= i < |defs| ==> c[i].0 == defs[i].name && c[i].1 in defs[i].values
  }

  ghost function PlaceOf(values: seq<real>, v: real): (k: nat)
    requires v in values
    ensures k < |values| && values[k] == v
  {
    var k :| 0 <= k < |values| && values[k] == v;
    k
  }

  ghost function Encode(defs: seq<Definition>, c: ParameterSet): nat
    requires Combination(defs, c)
  {
    if defs == [] then 0
    else
      var n := |defs| - 1;
      Times(|defs[n].values|, Encode(defs[..n], c[..n])) + PlaceOf(defs[n].values, c[n].1)
  }

  lemma {:induction false} DecodeIsCombination(defs: seq<Definition>, i: nat)
    requires ValidSpace(defs)
    ensures Combination(defs, Decode(defs, i))
  {
    hide Distinct, Quot, Rem;
    if defs != [] {
      var last := defs[|defs| - 1];
      DecodeIsCombination(defs[..|defs| - 1], Quot(i, |last.values|));
    }
  }

  /** A combination without its last value is one of the definitions before. */
  lemma Front(defs: seq<Definition>, c: ParameterSet)
    requires ValidSpace(defs) && Combination(defs, c) && defs != []
    ensures var m := |defs| - 1;
      && |c| == |defs| && ValidSpace(defs[..m]) && Combination(defs[..m], c[..m]) && c == c[..m] + [c[m]]
      && c[m].0 == defs[m].name && c[m].1 in defs[m].values && defs[m].values != []
  {
    hide Distinct;
  }

  /** Onto: every combination is the decoding of its own index, which is in range. */
  lemma {:induction false} EveryCombinationHasIndex(defs: seq<Definition>, c: ParameterSet)
    requires ValidSpace(defs) && Combination(defs, c)
    ensures Encode(defs, c) < CombinationCount(defs) && Decode(defs, Encode(defs, c)) == c
  {
    hide ValidSpace, Times, Quot, Rem;
    if defs != [] {
      hide Combination;
      var m := |defs| - 1;
      var init, last := defs[..m], defs[m];
      Front(defs, c);
      var n, high, low := |last.values|, Encode(init, c[..m]), PlaceOf(last.values, c[m].1);
      EveryCombinationHasIndex(init, c[..m]);
      DivisionUnique(Times(n, high) + low, n, high, low);
      TimesSteps(n, high);
      TimesOrder(n, high + 1, CombinationCount(init));
    }
  }

  /** One to one: different indexes below the count decode to different sets. */
  lemma {:induction false} DecodeInjective(defs: seq<Definition>, i: nat, j: nat)
    requires ValidSpace(defs) && i < CombinationCount(defs) && j < CombinationCount(defs)
    requires Decode(defs, i) == Decode(defs, j)
    ensures i == j
  {
    hide Times, Quot, Rem;
    if defs != [] {
      var init, last := defs[..|defs| - 1], defs[|defs| - 1];
      var n := |last.values|;
      var a, b := Decode(defs, i), Decode(defs, j);
      assert a[..|a| - 1] == Decode(init, Quot(i, n)) && b[..|b| - 1] == Decode(init, Quot(j, n));
      assert a[|a| - 1].1 == last.values[Rem(i, n)] && b[|b| - 1].1 == last.values[Rem(j, n)];
      Division(i, n);
      Division(j, n);
      QuotientInRange(i, n, CombinationCount(init));
      QuotientInRange(j, n, CombinationCount(init));
      DecodeInjective(init, Quot(i, n), Quot(j, n));
    }
  }

  lemma QuotientInRange(i: nat, n: nat, count: nat)
    requires n > 0 && i < Times(n, count)
    ensures Quot(i, n) < count
  {
    hide Times, Quot, Rem;
    Division(i, n);
    if Quot(i, n) >= count { TimesOrder(n, count, Quot(i, n)); }
  }

  // -------------------------------------------------------------------- the search

  datatype SearchError = NoTrials | GridTooLarge

  /** The loop over the definitions from the last to the first. */
  method SetFromIndex(defs: seq<Definition>, index: nat) returns (r: Option<ParameterSet>)
    requires ValidSpace(defs)
    ensures r.None? <==> index >= CombinationCount(defs)
    ensures r.Some? ==> r.value == Decode(defs, index)
  {
    if index >= CombinationCount(defs) { return None; }
    hide Distinct;
    var values: ParameterSet, remainder: nat := [], index;
    var k := |defs|;
    assert defs[..k] == defs && Decode(defs, index) + [] == Decode(defs, index);
    while k > 0
      invariant 0 <= k <= |defs|
      invariant Decode(defs, index) == Decode(defs[..k], remainder) + values
    {
      k := k - 1;
      assert defs[..k + 1][..k] == defs[..k];
      var d := defs[k];
      values := [(d.name, d.values[Rem(remainder, |d.values|)])] + values;
      remainder := Quot(remainder, |d.values|);
    }
    return Some(values);
  }

  function SampleSize(defs: seq<Definition>, maxTrials: int): nat
    requires maxTrials > 0
  {
    if maxTrials <= CombinationCount(defs) then maxTrials else CombinationCount(defs)
  }

  /** Drawing k of n indexes: as many as asked for, all in range, none twice. */
  ghost predicate Draws(sample: (nat, nat) -> seq<nat>)
  {
    forall n, k :: k <= n ==>
      && |sample(n, k)| == k
      && (forall i :: 0 <= i < k ==> sample(n, k)[i] < n)
      && forall i, j :: 0 <= i < j < k ==> sample(n, k)[i] != sample(n, k)[j]
  }

  /**
   * Grid search lists the whole grid or refuses.  Sampled search takes as many of the combinations as
   * the limit allows, the ones the drawn indexes stand for, and never one of them twice.
   */
  method EnumerateParameterSets(defs: seq<Definition>, grid: bool, maxTrials: int, sample: (nat, nat) -> seq<nat>)
    returns (r: Result<seq<ParameterSet>, SearchError>)
    requires ValidSpace(defs) && Draws(sample)
    ensures maxTrials <= 0 <==> r == Err(NoTrials)
    ensures maxTrials > 0 && grid && defs != [] ==>
      if CombinationCount(defs) > maxTrials then r == Err(GridTooLarge) else r == Ok(Grid(defs))
    ensures maxTrials > 0 && !grid && defs != [] ==>
      var size := SampleSize(defs, maxTrials);
      && r.Ok? && |r.value| == size
      && (forall i :: 0 <= i < size ==> r.value[i] == Decode(defs, sample(CombinationCount(defs), size)[i]))
      && (forall i, j :: 0 <= i < j < size ==> r.value[i] != r.value[j])
    ensures maxTrials > 0 && defs == [] ==> r == Ok([[]])
  {
    if maxTrials <= 0 { return Err(NoTrials); }
    if defs == [] { return Ok([[]]); }
    if grid {
      if CombinationCount(defs) > maxTrials { return Err(GridTooLarge); }
      return Ok(Grid(defs));
    }
    hide CombinationCount, Decode, Grid, ValidSpace;
    var size := SampleSize(defs, maxTrials);
    var indexes := sample(CombinationCount(defs), size);
    var sets: seq<ParameterSet> := [];
    for i := 0 to |indexes|
      invariant |sets| == i && forall k :: 0 <= k < i ==> sets[k] == Decode(defs, indexes[k])
    {
      var chosen := SetFromIndex(defs, indexes[i]);
      sets := sets + [chosen.value];
    }
    forall i, j | 0 <= i < j < size ensures sets[i] != sets[j] { SamplesNeverRepeat(defs, indexes, i, j); }
    return Ok(sets);
  }

  /** Sampling indexes without repetition never repeats a parameter set. */
  lemma SamplesNeverRepeat(defs: seq<Definition>, indexes: seq<nat>, i: nat, j: nat)
    requires ValidSpace(defs) && i < j < |indexes| && indexes[i] != indexes[j]
    requires indexes[i] < CombinationCount(defs) && indexes[j] < CombinationCount(defs)
    ensures Decode(defs, indexes[i]) != Decode(defs, indexes[j])
  {
    if Decode(defs, indexes[i]) == Decode(defs, indexes[j]) { DecodeInjective(defs, indexes[i], indexes[j]); }
  }
}
