/** Shell statistics: the outermost principal shell of a charge state, its capacity and its
    population, as the radiative-recombination model needs them. */
module ShellStatistics {
  import opened Failures
  import opened ElementData
  import RealSums

  /** (principal quantum number, number of states in the shell, electrons in the shell) */
  datatype ShellStat = ShellStat(n: int, capacity: int, population: int)

  /** The convention for the bare ion, which has no shell left. */
  const BareIonStat := ShellStat(1, 2, 0)

  /** Electron states per principal shell, for n = 1 .. 7. */
  const ShellCapacities: map<int, int> := map[1 := 2, 2 := 8, 3 := 18, 4 := 32, 5 := 50, 6 := 72, 7 := 98]

  /** The capacity table is 2n^2 on 1 .. 7 and has no other entry. */
  function ShellCapacity(n: int): (c: int)
    requires n in ShellCapacities
    ensures 1 <= n <= 7 && c == 2 * n * n
  {
    ShellCapacities[n]
  }

  /** A label whose first character is a decimal digit (the principal quantum number). */
  predicate Numbered(name: string)
  {
    |name| > 0 && '0' <= name[0] <= '9'
  }

  function LeadingDigit(name: string): (d: int)
    requires Numbered(name)
    ensures 0 <= d <= 9
  {
    name[0] as int - '0' as int
  }

  predicate LabelsNumbered(rec: Record)
  {
    forall k | k in rec :: Numbered(k)
  }

  /** The distinct principal quantum numbers among the labels of a record. */
  function PrincipalNumbers(rec: Record): set<int>
    requires LabelsNumbered(rec)
  {
    set k | k in rec :: LeadingDigit(k)
  }

  /** The electrons of shell n held by the subshells `keys` of a record. */
  ghost function ShellPopulation(rec: Record, keys: set<string>, n: int): int
    requires LabelsNumbered(rec) && keys <= rec.Keys
    decreases |keys|
  {
    if keys == {} then 0
    else
      var k := RealSums.Pick(keys);
      (if LeadingDigit(k) == n then rec[k].p else 0) + ShellPopulation(rec, keys - {k}, n)
  }

  /** Any subshell may be counted first. */
  lemma {:induction false} ShellPopulationRemove(rec: Record, keys: set<string>, n: int, k: string)
    requires LabelsNumbered(rec) && keys <= rec.Keys && k in keys
    ensures ShellPopulation(rec, keys, n)
         == (if LeadingDigit(k) == n then rec[k].p else 0) + ShellPopulation(rec, keys - {k}, n)
    decreases |keys|
  {
    var x := RealSums.Pick(keys);
    if x != k {
      ShellPopulationRemove(rec, keys - {x}, n, k);
      ShellPopulationRemove(rec, keys - {k}, n, x);
      assert keys - {x} - {k} == keys - {k} - {x};
    }
  }

  /** Subshells of other shells contribute nothing. */
  lemma {:induction false} ShellPopulationOfAbsentShell(rec: Record, keys: set<string>, n: int)
    requires LabelsNumbered(rec) && keys <= rec.Keys
    requires forall k | k in keys :: LeadingDigit(k) != n
    ensures ShellPopulation(rec, keys, n) == 0
    decreases |keys|
  {
    if keys != {} {
      ShellPopulationOfAbsentShell(rec, keys - {RealSums.Pick(keys)}, n);
    }
  }

  /** Shell statistics of charge state i. The outermost shell is taken to be the one whose
      number is the COUNT of distinct principal numbers present; that count must be in the
      capacity table and must itself be present, or the lookup fails. */
  ghost function ShellStatOf(elem: Element, i: int): (r: Result<ShellStat>)
    requires ChargeStatesDense(elem)
    ensures i == |elem| ==> r == Ok(BareIonStat)
    ensures r.Ok? ==> r.value.capacity >= 2
    ensures r.Ok? && i != |elem| ==>
      0 <= i < |elem| && LabelsNumbered(elem[i])
      && r.value.n == |PrincipalNumbers(elem[i])| && r.value.n in PrincipalNumbers(elem[i])
      && 1 <= r.value.n <= 7 && r.value.capacity == 2 * r.value.n * r.value.n
      && r.value.population == ShellPopulation(elem[i], elem[i].Keys, r.value.n)
  {
    if i == |elem| then Ok(BareIonStat)
    else if i !in elem then Err(UnknownChargeState(i))
    else
      var rec := elem[i];
      if !LabelsNumbered(rec) then Err(MalformedLabel)
      else
        var n := |PrincipalNumbers(rec)|;
        if n !in ShellCapacities then Err(NoShellCapacity(n))
        else if n !in PrincipalNumbers(rec) then Err(ShellNotPresent(n))
        else Ok(ShellStat(n, ShellCapacity(n), ShellPopulation(rec, rec.Keys, n)))
  }

  /** The statistics exist exactly for the bare ion and for a charge state whose labels are
      numbered, whose count of shells is in the capacity table and is itself a shell present. */
  lemma ShellStatDefined(elem: Element, i: int)
    requires ChargeStatesDense(elem)
    ensures ShellStatOf(elem, i).Ok? <==> (i == |elem| || (i in elem && LabelsNumbered(elem[i])
      && 1 <= |PrincipalNumbers(elem[i])| <= 7 && |PrincipalNumbers(elem[i])| in PrincipalNumbers(elem[i])))
  {
    if i != |elem| && i in elem && LabelsNumbered(elem[i]) {
      var n := |PrincipalNumbers(elem[i])|;
      assert n in ShellCapacities <==> 1 <= n <= 7;
    }
  }

  /** Computes the statistics as the source does: the shells are tallied first, then the
      outermost one is looked up by the count of shells. */
  method ComputeShellStat(elem: Element, i: int) returns (r: Result<ShellStat>)
    requires ChargeStatesDense(elem)
    ensures r == ShellStatOf(elem, i)
  {
    if i == |elem| {
      return Ok(BareIonStat);
    }
    if i !in elem {
      return Err(UnknownChargeState(i));
    }
    var rec := elem[i];
    if !LabelsNumbered(rec) {
      return Err(MalformedLabel);
    }
    var population := TallyShells(rec);
    assert |population| == |PrincipalNumbers(rec)| by {
      assert population.Keys == PrincipalNumbers(rec);
    }
    var n := |population|;
    if n !in ShellCapacities {
      return Err(NoShellCapacity(n));
    }
    var states := ShellCapacities[n];
    if n !in population {
      return Err(ShellNotPresent(n));
    }
    return Ok(ShellStat(n, states, population[n]));
  }

  /** A dictionary from each principal number present to the electrons of that shell, filled
      by one pass over the subshells. */
  method TallyShells(rec: Record) returns (population: map<int, int>)
    requires LabelsNumbered(rec)
    ensures population.Keys == PrincipalNumbers(rec)
    ensures forall n | n in population :: population[n] == ShellPopulation(rec, rec.Keys, n)
  {
    var principal := PrincipalNumbers(rec);
    population := map n | n in principal :: 0;
    var remaining := rec.Keys;
    while remaining != {}
      invariant remaining <= rec.Keys
      invariant population.Keys == principal
      invariant forall n | n in principal :: population[n] == ShellPopulation(rec, rec.Keys - remaining, n)
      decreases |remaining|
    {
      var k :| k in remaining;
      var d := LeadingDigit(k);
      forall n | n in principal
        ensures ShellPopulation(rec, rec.Keys - (remaining - {k}), n)
             == ShellPopulation(rec, rec.Keys - remaining, n) + (if d == n then rec[k].p else 0)
      {
        TallyStep(rec, remaining, k, n);
      }
      population := population[d := population[d] + rec[k].p];
      remaining := remaining - {k};
    }
    assert rec.Keys - remaining == rec.Keys;
  }

  /** Moving subshell k from the remaining ones to the counted ones adds its electrons to its
      own shell only. */
  lemma TallyStep(rec: Record, remaining: set<string>, k: string, n: int)
    requires LabelsNumbered(rec) && remaining <= rec.Keys && k in remaining
    ensures ShellPopulation(rec, rec.Keys - (remaining - {k}), n)
         == ShellPopulation(rec, rec.Keys - remaining, n) + (if LeadingDigit(k) == n then rec[k].p else 0)
  {
    assert rec.Keys - (remaining - {k}) - {k} == rec.Keys - remaining;
    ShellPopulationRemove(rec, rec.Keys - (remaining - {k}), n, k);
  }

  /** When the shells present are exactly 1 .. m (shells fill from the inside out), the
      count-based choice is the highest shell, and the statistics exist. */
  lemma {:induction false} ContiguousShellsSucceed(elem: Element, i: int, m: int)
    requires ChargeStatesDense(elem) && 0 <= i < |elem|
    requires LabelsNumbered(elem[i]) && 1 <= m <= 7
    requires forall n :: n in PrincipalNumbers(elem[i]) <==> 1 <= n <= m
    ensures ShellStatOf(elem, i).Ok?
    ensures ShellStatOf(elem, i).value.n == m
    ensures forall d | d in PrincipalNumbers(elem[i]) :: d <= ShellStatOf(elem, i).value.n
  {
    RangeCardinality(PrincipalNumbers(elem[i]), m);
  }

  /** A set holding exactly 1 .. m has m elements. */
  lemma {:induction false} RangeCardinality(s: set<int>, m: nat)
    requires forall n :: n in s <==> 1 <= n <= m
    ensures |s| == m
  {
    if m > 0 {
      RangeCardinality(s - {m}, m - 1);
    } else {
      assert forall x :: x !in s;
    }
  }

  /** A gap in the shells breaks the count-based choice: with shells 1 and 3 present the
      source looks up shell 2, which has no subshell, and fails. */
  lemma ShellGapFails(elem: Element, i: int)
    requires ChargeStatesDense(elem) && 0 <= i < |elem|
    requires LabelsNumbered(elem[i]) && PrincipalNumbers(elem[i]) == {1, 3}
    ensures ShellStatOf(elem, i) == Err(ShellNotPresent(2))
  {
  }

  /** A gap does not always fail: with shells 1, 3 and 4 present the count is 3, which is a
      shell present, so the source returns the statistics of shell 3 although shell 4 is
      occupied. */
  lemma ShellGapHidesOuterShell(elem: Element, i: int)
    requires ChargeStatesDense(elem) && 0 <= i < |elem|
    requires LabelsNumbered(elem[i]) && PrincipalNumbers(elem[i]) == {1, 3, 4}
    ensures ShellStatOf(elem, i).Ok? && ShellStatOf(elem, i).value.n == 3
    ensures 4 in PrincipalNumbers(elem[i])
  {
    assert |PrincipalNumbers(elem[i])| == 3;
  }

  /** Neutral argon, 1s2 2s2 2p6 3s2 3p6: outermost shell 3, capacity 18, population 8. */
  lemma ArgonNeutral(elem: Element)
    requires ChargeStatesDense(elem) && |elem| == 18
    requires elem[0].Keys == ArgonLabels
    requires elem[0]["1s"].p == 2 && elem[0]["2s"].p == 2 && elem[0]["2p-"].p == 2
    requires elem[0]["2p+"].p == 4 && elem[0]["3s"].p == 2 && elem[0]["3p-"].p == 2
    requires elem[0]["3p+"].p == 4
    ensures ShellStatOf(elem, 0) == Ok(ShellStat(3, 18, 8))
  {
    ArgonShells(elem[0]);
    ThreeShells(elem, 0);
    ArgonThirdShell(elem[0]);
  }

  /** A charge state with shells 1, 2 and 3 has outermost shell 3 of capacity 18. */
  lemma ThreeShells(elem: Element, i: int)
    requires ChargeStatesDense(elem) && 0 <= i < |elem|
    requires LabelsNumbered(elem[i]) && PrincipalNumbers(elem[i]) == {1, 2, 3}
    ensures ShellStatOf(elem, i) == Ok(ShellStat(3, 18, ShellPopulation(elem[i], elem[i].Keys, 3)))
  {
    assert |PrincipalNumbers(elem[i])| == 3;
  }

  lemma ArgonThirdShell(rec: Record)
    requires rec.Keys == ArgonLabels
    requires rec["3s"].p == 2 && rec["3p-"].p == 2 && rec["3p+"].p == 4
    ensures LabelsNumbered(rec) && ShellPopulation(rec, rec.Keys, 3) == 8
  {
    ArgonShells(rec);
    var inner := {"1s", "2s", "2p-", "2p+"};
    ShellPopulationRemove(rec, rec.Keys, 3, "3s");
    assert rec.Keys - {"3s"} == inner + {"3p-", "3p+"};
    ShellPopulationRemove(rec, inner + {"3p-", "3p+"}, 3, "3p-");
    assert inner + {"3p-", "3p+"} - {"3p-"} == inner + {"3p+"};
    ShellPopulationRemove(rec, inner + {"3p+"}, 3, "3p+");
    assert inner + {"3p+"} - {"3p+"} == inner;
    ShellPopulationOfAbsentShell(rec, inner, 3);
  }

  const ArgonLabels: set<string> := {"1s", "2s", "2p-", "2p+", "3s", "3p-", "3p+"}

  lemma ArgonShells(rec: Record)
    requires rec.Keys == ArgonLabels
    ensures LabelsNumbered(rec) && PrincipalNumbers(rec) == {1, 2, 3}
  {
    assert LeadingDigit("1s") == 1 && LeadingDigit("2s") == 2 && LeadingDigit("3s") == 3;
  }
}
