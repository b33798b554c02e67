/** Reaction rates (1/s) of every charge state: the cross sections scaled by the electron flux
    (ionization, recombination) or by the neutral density times the ion velocity (charge
    exchange). */
module ReactionRates {
  import opened Failures
  import opened ElementData
  import opened ShellStatistics
  import opened CrossSections

  const BoltzmannConstant: real := 1.38e-23
  const ElementaryCharge: real := 1.6e-19
  /** Default gas temperature, K. */
  const RoomTemperature: real := 300.0
  /** Atomic mass unit as the ion mass conversion uses it, kg. */
  const MassUnit: real := 1.6726e-27

  /** Neutral gas density (1/cm^3) at pressure `pressure` (mbar) and gas temperature `tGas` (K):
      the ideal-gas law n = P / (k T) with P converted from mbar to Pa and n from 1/m^3 to
      1/cm^3. Fails only for a zero temperature. */
  function NeutralDensity(pressure: real, tGas: real): (r: Result<real>)
    ensures r.Ok? <==> tGas != 0.0
    ensures r.Ok? ==> r.value * BoltzmannConstant * tGas == pressure * 1e-4
  {
    if tGas == 0.0 then Err(DivisionByZero)
    else Ok(100.0 * pressure / (BoltzmannConstant * tGas) * 1e-6)
  }

  /** The density is proportional to the pressure and positive exactly for positive pressure
      (at a positive temperature). */
  lemma NeutralDensityLinear(p1: real, p2: real, tGas: real)
    requires tGas > 0.0
    ensures NeutralDensity(p1 + p2, tGas).value
         == NeutralDensity(p1, tGas).value + NeutralDensity(p2, tGas).value
    ensures NeutralDensity(p1, tGas).value > 0.0 <==> p1 > 0.0
  {
    var k := BoltzmannConstant * tGas;
    assert k > 0.0;
    var n1, n2, n := NeutralDensity(p1, tGas).value, NeutralDensity(p2, tGas).value,
                     NeutralDensity(p1 + p2, tGas).value;
    assert n * k == (p1 + p2) * 1e-4;
    assert (n1 + n2) * k == (p1 + p2) * 1e-4;
    assert (n - (n1 + n2)) * k == 0.0;
    assert n1 * k == p1 * 1e-4;
  }

  /** Ion mass (kg): the mass table entry at index Z - 1, with Python's negative index for
      Z = 0. */
  function IonMass(elem: Element): (r: Result<real>)
    ensures r.Ok? <==> |elem| <= |ElementMasses|
    ensures r.Ok? ==> r.value > 0.0
    ensures 1 <= |elem| <= |ElementMasses| ==> r.Ok? && r.value == ElementMasses[|elem| - 1] * MassUnit
  {
    MassesPositive();
    var amu :- PyIndex(ElementMasses, |elem| - 1);
    Ok(amu * MassUnit)
  }

  /** Mean thermal speed (cm/s) of particles of mass m (kg) at temperature tIon (eV):
      100 sqrt(8 T q / (pi m)), with pi written 3.1416. */
  function ThermalSpeed(tIon: real, m: real, math: Math): real
    requires m > 0.0
  {
    100.0 * math.pow(8.0 * tIon * ElementaryCharge / (3.1416 * m), 0.5)
  }

  /** Mean thermal speed (cm/s) of the element's ions at temperature tIon (eV); fails when the
      mass lookup does. */
  function IonVelocity(elem: Element, tIon: real, math: Math): (r: Result<real>)
    ensures r.Ok? <==> |elem| <= |ElementMasses|
    ensures r.Ok? ==> (IonMass(elem).Ok? && IonMass(elem).value > 0.0
      && r.value == ThermalSpeed(tIon, IonMass(elem).value, math))
    ensures r.Err? ==> r.error == IonMass(elem).error
  {
    var m :- IonMass(elem);
    Ok(ThermalSpeed(tIon, m, math))
  }

  /** Hydrogen (Z = 1) takes the first table entry; the data of a neutral-only element with
      no records wraps to the last entry. */
  lemma IonMassEnds(elem: Element)
    ensures |elem| == 1 ==> IonMass(elem) == Ok(1.0079 * MassUnit)
    ensures |elem| == 0 ==> IonMass(elem) == Ok(277.0 * MassUnit)
  {
    assert ElementMasses[0] == 1.0079;
    assert ElementMasses[109] == 277.0;
  }

  /** The table is indexed by position in mass order, so argon (Z = 18) is given the mass at
      position 17, which is 39.0983, the potassium value, not argon's 39.948 (also in the
      table, one position later). */
  lemma ArgonMassFromMassOrder(elem: Element)
    requires |elem| == 18
    ensures IonMass(elem) == Ok(39.0983 * MassUnit)
    ensures ElementMasses[18] == 39.948
  {
  }

  /** A heavier element than the table covers has no mass. */
  lemma IonMassBeyondTable(elem: Element)
    requires |elem| > 110
    ensures IonMass(elem) == Err(IndexOutOfRange(|elem| - 1, 110))
  {
    MassesPositive();
  }

  /** The three rate vectors, each aligned with the charge states it was asked for. */
  datatype Rates = Rates(rei: seq<real>, rrr: seq<real>, rcx: seq<real>)

  /** One cross section per charge state, stopping at the first failure as a list
      comprehension does. */
  ghost function PerChargeState(chStates: seq<int>, sigma: int -> Result<real>): (r: Result<seq<real>>)
    ensures r.Ok? <==> forall j | 0 <= j < |chStates| :: sigma(chStates[j]).Ok?
    ensures r.Ok? ==> (|r.value| == |chStates|
      && forall j | 0 <= j < |chStates| :: r.value[j] == sigma(chStates[j]).value)
    ensures r.Err? ==> exists j | 0 <= j < |chStates| ::
      FirstFailure(chStates, sigma, j) && r.error == sigma(chStates[j]).error
  {
    if chStates == [] then Ok([])
    else
      var first :- sigma(chStates[0]);
      var rest :- PerChargeState(chStates[1..], sigma);
      Ok([first] + rest)
  }

  /** Charge state j is the first whose cross section fails. */
  ghost predicate FirstFailure(chStates: seq<int>, sigma: int -> Result<real>, j: int)
    requires 0 <= j < |chStates|
  {
    sigma(chStates[j]).Err? && forall j' | 0 <= j' < j :: sigma(chStates[j']).Ok?
  }

  function Scale(c: real, xs: seq<real>): (ys: seq<real>)
    ensures |ys| == |xs| && forall j | 0 <= j < |xs| :: ys[j] == c * xs[j]
  {
    seq(|xs|, j requires 0 <= j < |xs| => c * xs[j])
  }

  /** The three cross sections as functions of the charge state alone. */
  ghost function RrOf(elem: Element, eE: real, math: Math): (f: int -> Result<real>)
    requires ChargeStatesDense(elem)
    ensures forall i :: f(i) == RrCrossSection(elem, i, eE, math)
  {
    i => RrCrossSection(elem, i, eE, math)
  }

  ghost function EiOf(elem: Element, eE: real, math: Math): (f: int -> Result<real>)
    requires ChargeStatesDense(elem)
    ensures forall i :: f(i) == EiCrossSection(elem, i, eE, math)
  {
    i => EiCrossSection(elem, i, eE, math)
  }

  function CxOf(ip: real, math: Math): (f: int -> Result<real>)
    ensures forall i :: f(i) == CxCrossSection(i, 1, ip, math)
  {
    i => CxCrossSection(i, 1, ip, math)
  }

  /** The assembly of the three rate vectors from cross-section functions: one list per
      reaction over the charge states, in the order recombination, ionization, charge exchange,
      the first two scaled by the electron flux and the last by the neutral flux. */
  ghost function AssembleRates(chStates: seq<int>, rr: int -> Result<real>, ei: int -> Result<real>,
                               cx: int -> Result<real>, electronFlux: real, neutralFlux: real): (r: Result<Rates>)
    ensures r.Ok? <==> forall j | 0 <= j < |chStates| :: rr(chStates[j]).Ok? && ei(chStates[j]).Ok? && cx(chStates[j]).Ok?
    ensures r.Ok? ==>
      |r.value.rei| == |chStates| && |r.value.rrr| == |chStates| && |r.value.rcx| == |chStates|
    ensures r.Ok? ==> forall j | 0 <= j < |chStates| ::
      r.value.rrr[j] == electronFlux * rr(chStates[j]).value
      && r.value.rei[j] == electronFlux * ei(chStates[j]).value
      && r.value.rcx[j] == neutralFlux * cx(chStates[j]).value
  {
    var rrs :- PerChargeState(chStates, rr);
    var eis :- PerChargeState(chStates, ei);
    var cxs :- PerChargeState(chStates, cx);
    ScaledPerChargeState(chStates, rr, rrs, electronFlux);
    ScaledPerChargeState(chStates, ei, eis, electronFlux);
    ScaledPerChargeState(chStates, cx, cxs, neutralFlux);
    Ok(Rates(Scale(electronFlux, eis), Scale(electronFlux, rrs), Scale(neutralFlux, cxs)))
  }

  /** Scaling a list of per-charge-state cross sections scales each of them. */
  lemma ScaledPerChargeState(chStates: seq<int>, sigma: int -> Result<real>, xs: seq<real>, c: real)
    requires |xs| == |chStates|
    requires forall j | 0 <= j < |chStates| :: sigma(chStates[j]).Ok? && xs[j] == sigma(chStates[j]).value
    ensures forall j | 0 <= j < |chStates| :: Scale(c, xs)[j] == c * sigma(chStates[j]).value
  {
    forall j | 0 <= j < |chStates|
      ensures Scale(c, xs)[j] == c * sigma(chStates[j]).value
    {
      ScaledBySameFactor(Scale(c, xs)[j], c, xs[j], sigma(chStates[j]).value);
    }
  }

  /** Rewriting the second factor of a product by an equal value. */
  lemma ScaledBySameFactor(x: real, factor: real, a: real, b: real)
    requires x == factor * a && a == b
    ensures x == factor * b
  {
  }

  /** Electrons per second and cm^2 in a beam of current density jE (A/cm^2). */
  function ElectronFlux(jE: real): real
  {
    jE / ElementaryCharge
  }

  /** Neutral particles met per second and cm^2 by an ion of speed vI (cm/s) in room
      temperature gas at pressure pVac (mbar). */
  function ChargeExchangeFlux(pVac: real, vI: real): real
  {
    NeutralDensity(pVac, RoomTemperature).value * vI
  }

  /** Ionization, recombination and charge-exchange rates for an electron beam of current
      density jE (A/cm^2) and energy eE (eV), ions at temperature tIon (eV), residual gas at
      pressure pVac (mbar, room temperature) with ionization potential ip (eV). The ion
      velocity is computed first, so a missing mass fails before any cross section. */
  ghost function ReactionRates(elem: Element, jE: real, eE: real, tIon: real, pVac: real, ip: real,
                               chStates: seq<int>, math: Math): (r: Result<Rates>)
    requires ChargeStatesDense(elem)
    ensures |elem| > |ElementMasses| ==> r == Err(IonVelocity(elem, tIon, math).error)
    ensures |elem| <= |ElementMasses| ==>
      r == AssembleRates(chStates, RrOf(elem, eE, math), EiOf(elem, eE, math),
                         CxOf(ip, math), ElectronFlux(jE),
                         ChargeExchangeFlux(pVac, IonVelocity(elem, tIon, math).value))
  {
    var velocity := IonVelocity(elem, tIon, math);
    if velocity.Err? then Err(velocity.error)
    else
      AssembleRates(chStates, RrOf(elem, eE, math), EiOf(elem, eE, math),
                    CxOf(ip, math), ElectronFlux(jE), ChargeExchangeFlux(pVac, velocity.value))
  }

  /** The rates exist exactly when the mass table covers the element and every requested
      charge state lies in 0 .. Z with a recombination cross section. */
  lemma ReactionRatesDefined(elem: Element, jE: real, eE: real, tIon: real, pVac: real, ip: real,
                             chStates: seq<int>, math: Math)
    requires ChargeStatesDense(elem)
    ensures ReactionRates(elem, jE, eE, tIon, pVac, ip, chStates, math).Ok? <==>
      |elem| <= |ElementMasses|
      && (forall j | 0 <= j < |chStates| :: RrCrossSection(elem, chStates[j], eE, math).Ok?)
      && (forall j | 0 <= j < |chStates| :: 0 <= chStates[j] <= |elem|)
  {
  }

  /** The guards of the cross sections carry over to the rates: no recombination and no
      charge exchange onto the neutral atom, no ionization of the bare ion, and one entry per
      requested charge state. */
  lemma RatesZeroAtGuards(elem: Element, jE: real, eE: real, tIon: real, pVac: real, ip: real,
                          chStates: seq<int>, math: Math, j: int)
    requires ChargeStatesDense(elem)
    requires ReactionRates(elem, jE, eE, tIon, pVac, ip, chStates, math).Ok?
    requires 0 <= j < |chStates|
    ensures var rates := ReactionRates(elem, jE, eE, tIon, pVac, ip, chStates, math).value;
      |rates.rei| == |chStates| && |rates.rrr| == |chStates| && |rates.rcx| == |chStates|
      && (chStates[j] == 0 ==> rates.rrr[j] == 0.0 && rates.rcx[j] == 0.0)
      && (chStates[j] == |elem| ==> rates.rei[j] == 0.0)
  {
    var vI := IonVelocity(elem, tIon, math).value;
    var rr, ei, cx := RrOf(elem, eE, math), EiOf(elem, eE, math), CxOf(ip, math);
    assert |elem| <= |ElementMasses|;
    assert ReactionRates(elem, jE, eE, tIon, pVac, ip, chStates, math)
      == AssembleRates(chStates, rr, ei, cx, ElectronFlux(jE), ChargeExchangeFlux(pVac, vI));
    AssembledZeros(chStates, rr, ei, cx, ElectronFlux(jE), ChargeExchangeFlux(pVac, vI), j);
    assert rr(chStates[j]) == RrCrossSection(elem, chStates[j], eE, math);
    assert ei(chStates[j]) == EiCrossSection(elem, chStates[j], eE, math);
    assert cx(chStates[j]) == CxCrossSection(chStates[j], 1, ip, math);
  }

  /** A charge state whose cross section is zero gets a zero rate, whatever the flux. */
  lemma AssembledZeros(chStates: seq<int>, rr: int -> Result<real>, ei: int -> Result<real>,
                       cx: int -> Result<real>, electronFlux: real, neutralFlux: real, j: int)
    requires AssembleRates(chStates, rr, ei, cx, electronFlux, neutralFlux).Ok? && 0 <= j < |chStates|
    ensures var rates := AssembleRates(chStates, rr, ei, cx, electronFlux, neutralFlux).value;
      (rr(chStates[j]) == Ok(0.0) ==> rates.rrr[j] == 0.0)
      && (ei(chStates[j]) == Ok(0.0) ==> rates.rei[j] == 0.0)
      && (cx(chStates[j]) == Ok(0.0) ==> rates.rcx[j] == 0.0)
  {
  }
}
