/** Per-element electronic-structure data as the core consumes it: for each charge state
    (0 = neutral atom) a record of subshells keyed by label ("1s", "2p-", "2p+", ...). */
module ElementData {

  /** One subshell of one charge state: binding energy E (eV), population p (electrons),
      and the Lotz fit coefficients a, b, c. */
  datatype Subshell = Subshell(E: real, p: int, a: real, b: real, c: real)

  /** The subshells of one charge state, keyed by label. */
  type Record = map<string, Subshell>

  /** An element: charge state -> record. */
  type Element = map<int, Record>

  /** The element data holds one record for each charge state 0 .. Z-1 and none for the bare
      ion, so the number of records is the nuclear charge Z. */
  ghost predicate ChargeStatesDense(elem: Element)
  {
    forall i :: i in elem <==> 0 <= i < |elem|
  }

  /** Populations are electron counts. */
  predicate PhysicalPopulations(elem: Element)
  {
    forall i, k | i in elem && k in elem[i] :: elem[i][k].p >= 0
  }

  /** Atomic masses (amu), 110 entries in increasing order of mass; the ion mass of an element
      with nuclear charge Z is read at index Z - 1. The table is written as the rows of its
      source listing. */
  const ElementMasses: seq<real> := MassesGroup1 + MassesGroup2 + MassesGroup3 + MassesGroup4

  const MassesGroup1: seq<real> := MassesRow01 + MassesRow02 + MassesRow03
  const MassesGroup2: seq<real> := MassesRow04 + MassesRow05 + MassesRow06
  const MassesGroup3: seq<real> := MassesRow07 + MassesRow08 + MassesRow09
  const MassesGroup4: seq<real> := MassesRow10 + MassesRow11 + MassesRow12

  const MassesRow01: seq<real> := [1.0079, 4.0026, 6.941, 9.0122, 10.811, 12.0107, 14.0067, 15.9994]
  const MassesRow02: seq<real> := [18.9984, 20.1797, 22.9897, 24.305, 26.9815, 28.0855, 30.9738, 32.065]
  const MassesRow03: seq<real> := [35.453, 39.0983, 39.948, 40.078, 44.9559, 47.867, 50.9415, 51.9961]
  const MassesRow04: seq<real> := [54.938, 55.845, 58.6934, 58.9332, 63.546, 65.39, 69.723, 72.64]
  const MassesRow05: seq<real> := [74.9216, 78.96, 79.904, 83.8, 85.4678, 87.62, 88.9059, 91.224, 92.9064]
  const MassesRow06: seq<real> := [95.94, 98.0, 101.07, 102.9055, 106.42, 107.8682, 112.411, 114.818, 118.71]
  const MassesRow07: seq<real> := [121.76, 126.9045, 127.6, 131.293, 132.9055, 137.327, 138.9055, 140.116]
  const MassesRow08: seq<real> := [140.9077, 144.24, 145.0, 150.36, 151.964, 157.25, 158.9253, 162.5, 164.9303]
  const MassesRow09: seq<real> := [167.259, 168.9342, 173.04, 174.967, 178.49, 180.9479, 183.84, 186.207]
  const MassesRow10: seq<real> := [190.23, 192.217, 195.078, 196.9665, 200.59, 204.3833, 207.2, 208.9804]
  const MassesRow11: seq<real> := [209.0, 210.0, 222.0, 223.0, 226.0, 227.0, 231.0359, 232.0381, 237.0, 238.0289, 243.0, 244.0]
  const MassesRow12: seq<real> := [247.0, 247.0, 251.0, 252.0, 257.0, 258.0, 259.0, 261.0, 262.0, 262.0, 264.0, 266.0, 268.0, 272.0, 277.0]

  /** Every entry of xs is positive and at least its predecessor. */
  ghost predicate AscendingPositive(xs: seq<real>)
  {
    (forall k | 0 <= k < |xs| :: xs[k] > 0.0) && (forall k | 0 < k < |xs| :: xs[k - 1] <= xs[k])
  }

  /** The same property from index j on, unfolded one entry at a time so that the verifier can
      check it on a literal row. */
  predicate AscendingPositiveFrom(xs: seq<real>, j: nat)
    decreases |xs| - j
  {
    j >= |xs| || (xs[j] > 0.0 && (j == 0 || xs[j - 1] <= xs[j]) && AscendingPositiveFrom(xs, j + 1))
  }

  lemma {:induction false} AscendingPositiveFromAll(xs: seq<real>, j: nat)
    requires AscendingPositiveFrom(xs, j)
    ensures forall k | j <= k < |xs| :: xs[k] > 0.0
    ensures forall k | j <= k < |xs| && k > 0 :: xs[k - 1] <= xs[k]
    decreases |xs| - j
  {
    if j < |xs| {
      AscendingPositiveFromAll(xs, j + 1);
    }
  }

  /** Two ascending positive runs whose junction is in order make one. */
  lemma AscendingPositiveAppend(xs: seq<real>, ys: seq<real>)
    requires AscendingPositive(xs) && AscendingPositive(ys)
    requires xs != [] && ys != [] && xs[|xs| - 1] <= ys[0]
    ensures AscendingPositive(xs + ys)
  {
    var zs := xs + ys;
    forall k | 0 < k < |zs|
      ensures zs[k - 1] <= zs[k]
    {
      if k == |xs| {
      } else if k < |xs| {
        assert zs[k - 1] == xs[k - 1] && zs[k] == xs[k];
      } else {
        assert zs[k - 1] == ys[k - 1 - |xs|] && zs[k] == ys[k - |xs|];
      }
    }
  }

  lemma RowAscending(row: seq<real>)
    requires AscendingPositiveFrom(row, 0)
    ensures AscendingPositive(row)
  {
    AscendingPositiveFromAll(row, 0);
  }

  /** Three consecutive rows that are each ascending and positive, and in order where they
      meet, are so together. */
  lemma ThreeRowsAscending(r1: seq<real>, r2: seq<real>, r3: seq<real>)
    requires AscendingPositiveFrom(r1, 0) && AscendingPositiveFrom(r2, 0) && AscendingPositiveFrom(r3, 0)
    requires r1 != [] && r2 != [] && r3 != []
    requires r1[|r1| - 1] <= r2[0] && r2[|r2| - 1] <= r3[0]
    ensures AscendingPositive(r1 + r2 + r3)
  {
    RowAscending(r1);
    RowAscending(r2);
    RowAscending(r3);
    AscendingPositiveAppend(r1, r2);
    assert (r1 + r2)[|r1 + r2| - 1] == r2[|r2| - 1];
    AscendingPositiveAppend(r1 + r2, r3);
  }

  lemma MassesGroup1Ascending()
    ensures AscendingPositive(MassesGroup1)
  {
    ThreeRowsAscending(MassesRow01, MassesRow02, MassesRow03);
  }

  lemma MassesGroup2Ascending()
    ensures AscendingPositive(MassesGroup2)
  {
    ThreeRowsAscending(MassesRow04, MassesRow05, MassesRow06);
  }

  lemma MassesGroup3Ascending()
    ensures AscendingPositive(MassesGroup3)
  {
    ThreeRowsAscending(MassesRow07, MassesRow08, MassesRow09);
  }

  lemma MassesGroup4Ascending()
    ensures AscendingPositive(MassesGroup4)
  {
    ThreeRowsAscending(MassesRow10, MassesRow11, MassesRow12);
  }

  /** Every tabulated mass is positive and the table is ordered by mass. */
  lemma MassesPositive()
    ensures |ElementMasses| == 110
    ensures AscendingPositive(ElementMasses)
  {
    MassesGroup1Ascending();
    MassesGroup2Ascending();
    MassesGroup3Ascending();
    MassesGroup4Ascending();
    var g12 := MassesGroup1 + MassesGroup2;
    AscendingPositiveAppend(MassesGroup1, MassesGroup2);
    assert g12[|g12| - 1] == MassesGroup2[|MassesGroup2| - 1];
    AscendingPositiveAppend(g12, MassesGroup3);
    var g123 := g12 + MassesGroup3;
    assert g123[|g123| - 1] == MassesGroup3[|MassesGroup3| - 1];
    AscendingPositiveAppend(g123, MassesGroup4);
  }
}
