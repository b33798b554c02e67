/** Right-hand side of the rate equations for the charge state distribution: a tridiagonal
    transition matrix built from the ionization (rei), radiative recombination (rrr) and charge
    exchange (rcx) rates, multiplied by the vector of abundances. */
module CsdEvolution {
  import opened RealSums

  /** Rates and abundances describe the same charge states 0 .. n-1, at least two of them. */
  predicate Aligned(a: seq<real>, rei: seq<real>, rrr: seq<real>, rcx: seq<real>)
  {
    |a| >= 2 && |rei| == |a| && |rrr| == |a| && |rcx| == |a|
  }

  /** Entry (row, col) of the transition matrix, row by row as the matrix is filled: the first
      and the last row have two entries, every interior row three, all others are zero. */
  function TransitionEntry(rei: seq<real>, rrr: seq<real>, rcx: seq<real>, row: int, col: int): (e: real)
    requires |rei| >= 2 && |rrr| == |rei| && |rcx| == |rei|
    requires 0 <= row < |rei| && 0 <= col < |rei|
    ensures row - col > 1 || col - row > 1 ==> e == 0.0
  {
    var n := |rei|;
    if row == 0 then
      if col == 0 then -rei[0] else if col == 1 then rrr[1] + rcx[1] else 0.0
    else if row == n - 1 then
      if col == n - 2 then rei[n - 2] else if col == n - 1 then -(rrr[n - 1] + rcx[n - 1]) else 0.0
    else if col == row - 1 then rei[row - 1]
    else if col == row then -(rei[row] + rrr[row] + rcx[row])
    else if col == row + 1 then rrr[row + 1] + rcx[row + 1]
    else 0.0
  }

  /** Ionization rate out of state k; the bare ion (the last state) cannot be ionized. */
  function IonizationOut(rei: seq<real>, k: int): real
    requires 0 <= k < |rei|
  {
    if k < |rei| - 1 then rei[k] else 0.0
  }

  /** Electron capture rate out of state k (recombination and charge exchange); the neutral
      atom (state 0) cannot capture. */
  function CaptureOut(rrr: seq<real>, rcx: seq<real>, k: int): real
    requires 0 <= k < |rrr| == |rcx|
  {
    if k > 0 then rrr[k] + rcx[k] else 0.0
  }

  /** Net population flux from state k to state k + 1 (ionization up minus capture down);
      nothing flows below state 0 or above the bare ion. */
  function NetFlux(a: seq<real>, rei: seq<real>, rrr: seq<real>, rcx: seq<real>, k: int): real
    requires Aligned(a, rei, rrr, rcx)
  {
    if 0 <= k < |a| - 1 then IonizationOut(rei, k) * a[k] - CaptureOut(rrr, rcx, k + 1) * a[k + 1]
    else 0.0
  }

  /** Time derivative of the abundance of state k: what flows in from below and above minus
      what flows out. */
  function Derivative(a: seq<real>, rei: seq<real>, rrr: seq<real>, rcx: seq<real>, k: int): (d: real)
    requires Aligned(a, rei, rrr, rcx) && 0 <= k < |a|
    ensures d == NetFlux(a, rei, rrr, rcx, k - 1) - NetFlux(a, rei, rrr, rcx, k)
  {
    var inflow := (if k > 0 then IonizationOut(rei, k - 1) * a[k - 1] else 0.0)
      + (if k < |a| - 1 then CaptureOut(rrr, rcx, k + 1) * a[k + 1] else 0.0);
    var outflow := (IonizationOut(rei, k) + CaptureOut(rrr, rcx, k)) * a[k];
    inflow - outflow
  }

  function Derivatives(a: seq<real>, rei: seq<real>, rrr: seq<real>, rcx: seq<real>): (d: seq<real>)
    requires Aligned(a, rei, rrr, rcx)
    ensures |d| == |a| && forall k | 0 <= k < |a| :: d[k] == Derivative(a, rei, rrr, rcx, k)
  {
    seq(|a|, k requires 0 <= k < |a| => Derivative(a, rei, rrr, rcx, k))
  }

  /** Builds the transition matrix: zero everywhere, the first and the last row set, then the
      interior rows one by one. */
  method BuildTransitionMatrix(rei: seq<real>, rrr: seq<real>, rcx: seq<real>) returns (m: array2<real>)
    requires |rei| >= 2 && |rrr| == |rei| && |rcx| == |rei|
    ensures fresh(m) && m.Length0 == |rei| && m.Length1 == |rei|
    ensures forall row, col | 0 <= row < |rei| && 0 <= col < |rei| ::
      m[row, col] == TransitionEntry(rei, rrr, rcx, row, col)
  {
    var n := |rei|;
    m := new real[n, n]((row, col) => 0.0);
    m[0, 0] := -rei[0];
    m[0, 1] := rrr[1] + rcx[1];
    m[n - 1, n - 2] := rei[n - 2];
    m[n - 1, n - 1] := -(rrr[n - 1] + rcx[n - 1]);
    for i := 1 to n - 1
      invariant forall row, col | 0 <= row < n && 0 <= col < n ::
        m[row, col] == (if row < i || row == n - 1 then TransitionEntry(rei, rrr, rcx, row, col) else 0.0)
    {
      m[i, i - 1] := rei[i - 1];
      m[i, i] := -(rei[i] + rrr[i] + rcx[i]);
      m[i, i + 1] := rrr[i + 1] + rcx[i + 1];
    }
  }

  /** Sum of the first k products of row `row` of the transition matrix with the abundances. */
  function RowPartial(a: seq<real>, rei: seq<real>, rrr: seq<real>, rcx: seq<real>, row: int, k: int): real
    requires Aligned(a, rei, rrr, rcx) && 0 <= row < |a| && 0 <= k <= |a|
  {
    if k == 0 then 0.0
    else RowPartial(a, rei, rrr, rcx, row, k - 1) + TransitionEntry(rei, rrr, rcx, row, k - 1) * a[k - 1]
  }

  /** One entry of the matrix-vector product: row `row` of the transition matrix dotted with
      the abundances. */
  method RowTimesAbundances(m: array2<real>, a: seq<real>, rei: seq<real>, rrr: seq<real>, rcx: seq<real>,
                            row: int) returns (acc: real)
    requires Aligned(a, rei, rrr, rcx) && 0 <= row < |a|
    requires m.Length0 == |a| && m.Length1 == |a|
    requires forall r, c | 0 <= r < |a| && 0 <= c < |a| :: m[r, c] == TransitionEntry(rei, rrr, rcx, r, c)
    ensures acc == RowPartial(a, rei, rrr, rcx, row, |a|)
  {
    acc := 0.0;
    for col := 0 to |a|
      invariant acc == RowPartial(a, rei, rrr, rcx, row, col)
    {
      var entry := m[row, col];
      assert entry == TransitionEntry(rei, rrr, rcx, row, col);
      acc := acc + entry * a[col];
    }
  }

  /** The time derivatives of the abundances: the transition matrix times the abundance vector.
      The time argument is unused, as the solver's calling convention requires it. */
  method CsdEvolutionStep(a: seq<real>, time: real, rei: seq<real>, rrr: seq<real>, rcx: seq<real>)
    returns (d: seq<real>)
    requires Aligned(a, rei, rrr, rcx)
    ensures d == Derivatives(a, rei, rrr, rcx)
    ensures Sum(d) == 0.0
  {
    var n := |a|;
    var m := BuildTransitionMatrix(rei, rrr, rcx);
    d := [];
    for row := 0 to n
      invariant forall r, c | 0 <= r < n && 0 <= c < n :: m[r, c] == TransitionEntry(rei, rrr, rcx, r, c)
      invariant |d| == row
      invariant forall k | 0 <= k < row :: d[k] == Derivative(a, rei, rrr, rcx, k)
    {
      var acc := RowTimesAbundances(m, a, rei, rrr, rcx, row);
      RowPartialIsDerivative(a, rei, rrr, rcx, row);
      d := d + [acc];
    }
    assert d == Derivatives(a, rei, rrr, rcx);
    DerivativesSumToZero(a, rei, rrr, rcx);
  }

  /** Entries of a row left of its band contribute nothing. */
  lemma {:induction false} RowPartialBelowBand(a: seq<real>, rei: seq<real>, rrr: seq<real>, rcx: seq<real>,
                                               row: int, k: int)
    requires Aligned(a, rei, rrr, rcx) && 0 <= row < |a| && 0 <= k <= |a| && k <= row - 1
    ensures RowPartial(a, rei, rrr, rcx, row, k) == 0.0
  {
    if k > 0 {
      RowPartialBelowBand(a, rei, rrr, rcx, row, k - 1);
    }
  }

  /** Entries of a row right of its band add nothing. */
  lemma {:induction false} RowPartialAboveBand(a: seq<real>, rei: seq<real>, rrr: seq<real>, rcx: seq<real>,
                                               row: int, k: int)
    requires Aligned(a, rei, rrr, rcx) && 0 <= row < |a| && row + 2 <= k <= |a|
    ensures RowPartial(a, rei, rrr, rcx, row, k) == RowPartial(a, rei, rrr, rcx, row, row + 2)
  {
    if k > row + 2 {
      RowPartialAboveBand(a, rei, rrr, rcx, row, k - 1);
    }
  }

  /** A full row of the product is the flux balance of that charge state. */
  lemma RowPartialIsDerivative(a: seq<real>, rei: seq<real>, rrr: seq<real>, rcx: seq<real>, row: int)
    requires Aligned(a, rei, rrr, rcx) && 0 <= row < |a|
    ensures RowPartial(a, rei, rrr, rcx, row, |a|) == Derivative(a, rei, rrr, rcx, row)
  {
    var n := |a|;
    if row == 0 {
      RowPartialAboveBand(a, rei, rrr, rcx, row, n);
      assert RowPartial(a, rei, rrr, rcx, 0, 1) == -rei[0] * a[0];
      assert RowPartial(a, rei, rrr, rcx, 0, 2) == -rei[0] * a[0] + (rrr[1] + rcx[1]) * a[1];
    } else if row == n - 1 {
      RowPartialBelowBand(a, rei, rrr, rcx, row, n - 2);
      assert TransitionEntry(rei, rrr, rcx, row, n - 2) == rei[n - 2];
      assert RowPartial(a, rei, rrr, rcx, row, n - 1) == rei[n - 2] * a[n - 2];
    } else {
      RowPartialBelowBand(a, rei, rrr, rcx, row, row - 1);
      RowPartialAboveBand(a, rei, rrr, rcx, row, n);
      InteriorRow(a, rei, rrr, rcx, row);
    }
  }

  /** The three band entries of an interior row. */
  lemma InteriorRow(a: seq<real>, rei: seq<real>, rrr: seq<real>, rcx: seq<real>, row: int)
    requires Aligned(a, rei, rrr, rcx) && 0 < row < |a| - 1
    requires RowPartial(a, rei, rrr, rcx, row, row - 1) == 0.0
    ensures RowPartial(a, rei, rrr, rcx, row, row + 2) == Derivative(a, rei, rrr, rcx, row)
  {
    var below, diagonal, above := rei[row - 1], -(rei[row] + rrr[row] + rcx[row]), rrr[row + 1] + rcx[row + 1];
    assert TransitionEntry(rei, rrr, rcx, row, row - 1) == below;
    assert TransitionEntry(rei, rrr, rcx, row, row) == diagonal;
    assert TransitionEntry(rei, rrr, rcx, row, row + 1) == above;
    var x, y, z := a[row - 1], a[row], a[row + 1];
    assert RowPartial(a, rei, rrr, rcx, row, row) == below * x;
    assert RowPartial(a, rei, rrr, rcx, row, row + 1) == below * x + diagonal * y;
    assert RowPartial(a, rei, rrr, rcx, row, row + 2) == below * x + diagonal * y + above * z;
    assert IonizationOut(rei, row - 1) == below;
    assert IonizationOut(rei, row) + CaptureOut(rrr, rcx, row) == -diagonal;
    assert CaptureOut(rrr, rcx, row + 1) == above;
  }

  /** Sum of the first k entries of column `col` of the transition matrix. */
  function ColumnPartial(rei: seq<real>, rrr: seq<real>, rcx: seq<real>, col: int, k: int): real
    requires |rei| >= 2 && |rrr| == |rei| && |rcx| == |rei|
    requires 0 <= col < |rei| && 0 <= k <= |rei|
  {
    if k == 0 then 0.0
    else ColumnPartial(rei, rrr, rcx, col, k - 1) + TransitionEntry(rei, rrr, rcx, k - 1, col)
  }

  lemma {:induction false} ColumnPartialBelowBand(rei: seq<real>, rrr: seq<real>, rcx: seq<real>, col: int, k: int)
    requires |rei| >= 2 && |rrr| == |rei| && |rcx| == |rei|
    requires 0 <= col < |rei| && 0 <= k <= |rei| && k <= col - 1
    ensures ColumnPartial(rei, rrr, rcx, col, k) == 0.0
  {
    if k > 0 {
      ColumnPartialBelowBand(rei, rrr, rcx, col, k - 1);
    }
  }

  lemma {:induction false} ColumnPartialAboveBand(rei: seq<real>, rrr: seq<real>, rcx: seq<real>, col: int, k: int)
    requires |rei| >= 2 && |rrr| == |rei| && |rcx| == |rei|
    requires 0 <= col < |rei| && col + 2 <= k <= |rei|
    ensures ColumnPartial(rei, rrr, rcx, col, k) == ColumnPartial(rei, rrr, rcx, col, col + 2)
  {
    if k > col + 2 {
      ColumnPartialAboveBand(rei, rrr, rcx, col, k - 1);
    }
  }

  /** Every column of the transition matrix sums to zero: what leaves a charge state arrives in
      a neighbouring one. */
  lemma ColumnSumsToZero(rei: seq<real>, rrr: seq<real>, rcx: seq<real>, col: int)
    requires |rei| >= 2 && |rrr| == |rei| && |rcx| == |rei| && 0 <= col < |rei|
    ensures ColumnPartial(rei, rrr, rcx, col, |rei|) == 0.0
  {
    var n := |rei|;
    if col == 0 {
      ColumnPartialAboveBand(rei, rrr, rcx, col, n);
      assert ColumnPartial(rei, rrr, rcx, 0, 1) == -rei[0];
      assert TransitionEntry(rei, rrr, rcx, 1, 0) == rei[0];
    } else if col == n - 1 {
      ColumnPartialBelowBand(rei, rrr, rcx, col, n - 2);
      assert TransitionEntry(rei, rrr, rcx, n - 2, n - 1) == rrr[n - 1] + rcx[n - 1];
      assert ColumnPartial(rei, rrr, rcx, col, n - 1) == rrr[n - 1] + rcx[n - 1];
    } else {
      ColumnPartialBelowBand(rei, rrr, rcx, col, col - 1);
      ColumnPartialAboveBand(rei, rrr, rcx, col, n);
      assert TransitionEntry(rei, rrr, rcx, col - 1, col) == rrr[col] + rcx[col];
      assert ColumnPartial(rei, rrr, rcx, col, col) == rrr[col] + rcx[col];
      assert ColumnPartial(rei, rrr, rcx, col, col + 1) == -rei[col];
      assert TransitionEntry(rei, rrr, rcx, col + 1, col) == rei[col];
    }
  }

  /** The derivatives row by row, written out in the rates. */
  lemma DerivativeRows(a: seq<real>, rei: seq<real>, rrr: seq<real>, rcx: seq<real>)
    requires Aligned(a, rei, rrr, rcx)
    ensures var d, n := Derivatives(a, rei, rrr, rcx), |a|;
      && d[0] == -rei[0] * a[0] + (rrr[1] + rcx[1]) * a[1]
      && d[n - 1] == rei[n - 2] * a[n - 2] - (rrr[n - 1] + rcx[n - 1]) * a[n - 1]
      && forall i | 0 < i < n - 1 :: d[i]
           == rei[i - 1] * a[i - 1] - (rei[i] + rrr[i] + rcx[i]) * a[i] + (rrr[i + 1] + rcx[i + 1]) * a[i + 1]
  {
  }

  /** The first k derivatives add up to minus the flux out of state k - 1. */
  lemma {:induction false} PrefixSumTelescopes(a: seq<real>, rei: seq<real>, rrr: seq<real>, rcx: seq<real>, k: int)
    requires Aligned(a, rei, rrr, rcx) && 0 <= k <= |a|
    ensures Sum(Derivatives(a, rei, rrr, rcx)[..k]) == -NetFlux(a, rei, rrr, rcx, k - 1)
  {
    var d := Derivatives(a, rei, rrr, rcx);
    if k > 0 {
      PrefixSumTelescopes(a, rei, rrr, rcx, k - 1);
      assert d[..k][..k - 1] == d[..k - 1];
    }
  }

  /** The total number of ions is conserved: the derivatives sum to zero. */
  lemma DerivativesSumToZero(a: seq<real>, rei: seq<real>, rrr: seq<real>, rcx: seq<real>)
    requires Aligned(a, rei, rrr, rcx)
    ensures Sum(Derivatives(a, rei, rrr, rcx)) == 0.0
  {
    var d := Derivatives(a, rei, rrr, rcx);
    PrefixSumTelescopes(a, rei, rrr, rcx, |a|);
    assert d[..|a|] == d;
  }

  /** An empty charge state with non-negative rates and abundances cannot lose ions, so
      abundances never become negative. */
  lemma EmptyStateDoesNotDecrease(a: seq<real>, rei: seq<real>, rrr: seq<real>, rcx: seq<real>, k: int)
    requires Aligned(a, rei, rrr, rcx) && 0 <= k < |a| && a[k] == 0.0
    requires forall j | 0 <= j < |a| :: a[j] >= 0.0 && rei[j] >= 0.0 && rrr[j] >= 0.0 && rcx[j] >= 0.0
    ensures Derivative(a, rei, rrr, rcx, k) >= 0.0
  {
  }

  /** The ionization rate of the bare ion and the capture rates of the neutral atom are never
      used. */
  lemma UnusedRates(a: seq<real>, rei: seq<real>, rrr: seq<real>, rcx: seq<real>,
                    rei': seq<real>, rrr': seq<real>, rcx': seq<real>)
    requires Aligned(a, rei, rrr, rcx) && Aligned(a, rei', rrr', rcx')
    requires rei[..|a| - 1] == rei'[..|a| - 1] && rrr[1..] == rrr'[1..] && rcx[1..] == rcx'[1..]
    ensures Derivatives(a, rei, rrr, rcx) == Derivatives(a, rei', rrr', rcx')
  {
    var n := |a|;
    forall k | 0 <= k < n
      ensures IonizationOut(rei, k) == IonizationOut(rei', k)
      ensures CaptureOut(rrr, rcx, k) == CaptureOut(rrr', rcx', k)
    {
      if k < n - 1 {
        assert rei[k] == rei[..n - 1][k] && rei'[k] == rei'[..n - 1][k];
      }
      if k > 0 {
        assert rrr[k] == rrr[1..][k - 1] && rrr'[k] == rrr'[1..][k - 1];
        assert rcx[k] == rcx[1..][k - 1] && rcx'[k] == rcx'[1..][k - 1];
      }
    }
    forall k | 0 <= k < n
      ensures Derivatives(a, rei, rrr, rcx)[k] == Derivatives(a, rei', rrr', rcx')[k]
    {
      if k > 0 {
        assert IonizationOut(rei, k - 1) == IonizationOut(rei', k - 1);
      }
      if k < n - 1 {
        assert CaptureOut(rrr, rcx, k + 1) == CaptureOut(rrr', rcx', k + 1);
      }
    }
  }

  /** Uniform abundances under unit ionization alone: the neutral atom drains at unit rate, the
      bare ion fills at unit rate, and every state in between is in balance. */
  lemma UniformIonizationOnly(a: seq<real>, rei: seq<real>, rrr: seq<real>, rcx: seq<real>)
    requires Aligned(a, rei, rrr, rcx)
    requires forall j | 0 <= j < |a| :: a[j] == 1.0 && rei[j] == 1.0 && rrr[j] == 0.0 && rcx[j] == 0.0
    ensures Derivatives(a, rei, rrr, rcx)[0] == -1.0
    ensures Derivatives(a, rei, rrr, rcx)[|a| - 1] == 1.0
    ensures forall k | 0 < k < |a| - 1 :: Derivatives(a, rei, rrr, rcx)[k] == 0.0
  {
  }

  /** Ten charge states (0 .. 9) in that setting give [-1, 0, ..., 0, 1]. */
  lemma TenStatesIonizationOnly()
    ensures Derivatives(seq(10, _ => 1.0), seq(10, _ => 1.0), seq(10, _ => 0.0), seq(10, _ => 0.0))
         == [-1.0, 0.0, 0.0, 0.0, 0.0, 0.0, 0.0, 0.0, 0.0, 1.0]
  {
    var ones, zeros := seq(10, _ => 1.0), seq(10, _ => 0.0);
    UniformIonizationOnly(ones, ones, zeros, zeros);
  }
}
