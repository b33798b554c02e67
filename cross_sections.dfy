/** The three cross-section models: electron-impact ionization (Lotz), radiative
    recombination (Kim and Pratt) and charge exchange (Salzborn and Mueller scaling law).
    The floating-point library functions they call are parameters, so only the structure of
    each formula (guards, filters, rational arithmetic, assembly) is fixed by the model. */
module CrossSections {
  import opened Failures
  import opened ElementData
  import opened ShellStatistics
  import opened RealSums

  /** exp, natural log, and power with a real exponent (`x ** y`), as the floating-point
      library computes them. */
  datatype Transcendentals = Transcendentals(exp: real -> real, ln: real -> real, pow: (real, real) -> real)

  /** The only fact assumed of them: `3.0 ** 0.5` is positive, so the Kim-Pratt normalisation
      constant is defined. */
  type Math = m: Transcendentals | m.pow(3.0, 0.5) > 0.0
    witness Transcendentals(x => x, x => x, (x, y) => 1.0)

  // ---------------------------------------------------------------- charge exchange

  /** Scaling-law coefficients for capture of k = 1 .. 4 electrons (index k - 1). */
  const CxScaling: seq<real> := [1.43e-12, 1.08e-12, 5.5e-14, 3.57e-16]
  const CxAlpha: seq<real> := [1.17, 0.71, 2.1, 4.2]
  const CxBeta: seq<real> := [-2.76, -2.8, -2.89, -3.03]

  /** Charge-exchange cross section (cm^2) of charge state i capturing k electrons from a gas
      of ionization potential ip (eV). The coefficient tables are indexed with k - 1 the way
      NumPy indexes, so k = 0 .. -3 wrap to the end of the tables. */
  function CxCrossSection(i: int, k: int, ip: real, math: Math): (r: Result<real>)
    ensures i == 0 ==> r == Ok(0.0)
    ensures i != 0 && 1 <= k <= 4 ==>
      (r.Ok? && r.value == CxScaling[k - 1] * math.pow(i as real, CxAlpha[k - 1]) * math.pow(ip, CxBeta[k - 1]))
    ensures r.Err? <==> i != 0 && !(-3 <= k <= 4)
  {
    if i == 0 then Ok(0.0)
    else
      var index := k - 1;
      if !(-4 <= index < 4) then Err(IndexOutOfRange(index, 4))
      else
        var j := if index < 0 then index + 4 else index;
        Ok(CxScaling[j] * math.pow(i as real, CxAlpha[j]) * math.pow(ip, CxBeta[j]))
  }

  /** Capture order k and k + 4 read the same coefficients whenever k - 1 is a valid
      negative index. */
  lemma CxIndexWraps(i: int, k: int, ip: real, math: Math)
    requires -3 <= k <= 0
    ensures CxCrossSection(i, k, ip, math) == CxCrossSection(i, k + 4, ip, math)
  {
    if i != 0 {
      assert CxCrossSection(i, k, ip, math).value == CxCrossSection(i, k + 4, ip, math).value;
    }
  }

  // ---------------------------------------------------------- radiative recombination

  const FineStructure: real := 1.0 / 137.035
  /** Reduced Compton wavelength of the electron, cm. */
  const ComptonWavelength: real := 3.86e-11
  /** Hydrogen ionization potential, eV, as the Kim-Pratt model uses it. */
  const Rydberg: real := 13.605

  /** The Kim-Pratt normalisation 8 pi / (3 sqrt 3), with pi written 3.1416. */
  function KimPrattNorm(math: Math): (c: real)
    ensures c * (3.0 * math.pow(3.0, 0.5)) == 8.0 * 3.1416
  {
    8.0 * 3.1416 / (3.0 * math.pow(3.0, 0.5))
  }

  /** The effective principal quantum number of the outermost shell: its number, less a
      quantum defect of 0.3, plus the fraction of the shell that is filled. */
  function EffectiveQuantumNumber(s: ShellStat): (nEff: real)
    requires s.capacity != 0
    ensures nEff == s.n as real - 0.3 + s.population as real / s.capacity as real
    ensures 0 <= s.population <= s.capacity ==> s.n as real - 0.3 <= nEff <= s.n as real + 0.7
  {
    var vacancy := (s.capacity - s.population) as real / s.capacity as real;
    assert vacancy == 1.0 - s.population as real / s.capacity as real by {
      var c, p := s.capacity as real, s.population as real;
      assert (s.capacity - s.population) as real == c - p;
      FractionComplement(c, p);
    }
    s.n as real + (1.0 - vacancy) - 0.3
  }

  lemma FractionComplement(c: real, p: real)
    requires c != 0.0
    ensures (c - p) / c == 1.0 - p / c
  {
    var q := p / c;
    assert q * c == p;
    assert (c - p) / c * c == c - p;
    assert (1.0 - q) * c == c - p;
    MulCancel((c - p) / c, 1.0 - q, c);
  }

  lemma MulCancel(x: real, y: real, c: real)
    requires c != 0.0 && x * c == y * c
    ensures x == y
  {
    assert (x - y) * c == 0.0;
  }

  /** Radiative-recombination cross section (cm^2) of charge state i at electron energy eE
      (eV). The effective ion charge is the mean of the nuclear charge and i. */
  ghost function RrCrossSection(elem: Element, i: int, eE: real, math: Math): (r: Result<real>)
    requires ChargeStatesDense(elem)
    ensures i == 0 ==> r == Ok(0.0)
    ensures i != 0 && eE == 0.0 ==> r == Err(DivisionByZero)
    ensures i != 0 && ShellStatOf(elem, i).Err? && eE != 0.0 ==> r == Err(ShellStatOf(elem, i).error)
  {
    if i == 0 then Ok(0.0)
    else
      var qEff := 0.5 * (|elem| as real + i as real);
      if eE == 0.0 then Err(DivisionByZero)
      else
        var chi := ReducedEnergy(qEff, eE);
        var stat :- ShellStatOf(elem, i);
        var nEff := EffectiveQuantumNumber(stat);
        if nEff == 0.0 then Err(DivisionByZero)
        else Ok(KimPrattFormula(chi, nEff, math))
  }

  /** The reduced energy chi = 2 q_eff^2 Ry / E_e of an electron recombining onto an ion of
      effective charge qEff. */
  function ReducedEnergy(qEff: real, eE: real): real
    requires eE != 0.0
  {
    2.0 * qEff * qEff * Rydberg / eE
  }

  /** The Kim-Pratt cross section for reduced energy chi and effective quantum number nEff. */
  function KimPrattFormula(chi: real, nEff: real, math: Math): real
    requires nEff != 0.0
  {
    KimPrattNorm(math) * FineStructure * ComptonWavelength * ComptonWavelength * chi
      * math.ln(1.0 + chi / (2.0 * nEff * nEff))
  }

  /** Every shell population is a sum of non-negative subshell populations. */
  lemma {:induction false} ShellPopulationNonNegative(rec: Record, keys: set<string>, n: int)
    requires LabelsNumbered(rec) && keys <= rec.Keys
    requires forall k | k in rec :: rec[k].p >= 0
    ensures ShellPopulation(rec, keys, n) >= 0
    decreases |keys|
  {
    if keys != {} {
      ShellPopulationNonNegative(rec, keys - {RealSums.Pick(keys)}, n);
    }
  }

  /** With physical populations the effective quantum number is at least 0.7, so the only
      ways the RR cross section can fail are a zero electron energy and missing shell
      statistics. */
  lemma RrDefined(elem: Element, i: int, eE: real, math: Math)
    requires ChargeStatesDense(elem) && PhysicalPopulations(elem)
    requires i != 0 && eE != 0.0 && ShellStatOf(elem, i).Ok?
    ensures RrCrossSection(elem, i, eE, math).Ok?
  {
    var s := ShellStatOf(elem, i).value;
    if i != |elem| {
      ShellPopulationNonNegative(elem[i], elem[i].Keys, s.n);
    }
    assert s.n as real - 0.3 <= EffectiveQuantumNumber(s);
  }

  /** The bare ion recombines into shell 1 as if it were empty: effective quantum number 0.7
      and effective charge Z. */
  lemma RrBareIon(elem: Element, eE: real, math: Math)
    requires ChargeStatesDense(elem) && |elem| > 0 && eE != 0.0
    ensures EffectiveQuantumNumber(BareIonStat) == 0.7
    ensures RrCrossSection(elem, |elem|, eE, math).Ok?
    ensures RrCrossSection(elem, |elem|, eE, math).value
         == KimPrattFormula(ReducedEnergy(|elem| as real, eE), 0.7, math)
  {
    assert 0.5 * (|elem| as real + |elem| as real) == |elem| as real;
    assert ShellStatOf(elem, |elem|) == Ok(BareIonStat);
    assert EffectiveQuantumNumber(BareIonStat) == 0.7;
  }

  // ------------------------------------------------------- electron-impact ionization

  /** A subshell takes part in ionization when it is bound (E > 0), below the electron energy
      and populated. */
  predicate Qualifies(s: Subshell, eE: real)
  {
    s.E < eE && s.p > 0 && s.E > 0.0
  }

  /** One term of the Lotz sum, from the five per-subshell values. */
  function LotzFormula(E: real, p: real, a: real, b: real, c: real, eE: real, math: Math): real
    requires 0.0 < E < eE
  {
    a * (1.0 - b * math.exp(-1.0 * c * (eE / E - 1.0))) * p * math.ln(eE / E) / (eE * E)
  }

  /** The Lotz term of one qualifying subshell. */
  function LotzTerm(s: Subshell, eE: real, math: Math): real
    requires Qualifies(s, eE)
  {
    LotzFormula(s.E, s.p as real, s.a, s.b, s.c, eE, math)
  }

  /** The elementwise Lotz terms of five aligned arrays. */
  function LotzTerms(energies: seq<real>, populations: seq<real>, lotzA: seq<real>, lotzB: seq<real>,
                     lotzC: seq<real>, eE: real, math: Math): (terms: seq<real>)
    requires |populations| == |lotzA| == |lotzB| == |lotzC| == |energies|
    requires forall j | 0 <= j < |energies| :: 0.0 < energies[j] < eE
    ensures |terms| == |energies|
  {
    seq(|energies|, j requires 0 <= j < |energies|
                    => LotzFormula(energies[j], populations[j], lotzA[j], lotzB[j], lotzC[j], eE, math))
  }

  /** The labels of `order` whose subshells qualify, in the same order. */
  function QualifyingLabels(order: seq<string>, rec: Record, eE: real): (ks: seq<string>)
    requires forall k | k in order :: k in rec
    ensures forall k | k in ks :: k in order && Qualifies(rec[k], eE)
    ensures forall k | k in order && Qualifies(rec[k], eE) :: k in ks
  {
    if order == [] then []
    else
      (if Qualifies(rec[order[0]], eE) then [order[0]] else []) + QualifyingLabels(order[1..], rec, eE)
  }

  /** The five per-subshell quantities the Lotz sum reads. */
  datatype Field = Energy | Population | LotzA | LotzB | LotzC

  function Project(s: Subshell, f: Field): real
  {
    match f
    case Energy => s.E
    case Population => s.p as real
    case LotzA => s.a
    case LotzB => s.b
    case LotzC => s.c
  }

  /** One of the five filtered arrays: field f of each qualifying subshell, in key order.
      Entry j of every column comes from the same subshell, so the arrays stay aligned. */
  function Column(order: seq<string>, rec: Record, eE: real, f: Field): (col: seq<real>)
    requires forall k | k in order :: k in rec
    ensures |col| == |QualifyingLabels(order, rec, eE)|
    ensures forall j | 0 <= j < |col| :: col[j] == Project(rec[QualifyingLabels(order, rec, eE)[j]], f)
  {
    if order == [] then []
    else
      var head := if Qualifies(rec[order[0]], eE) then [order[0]] else [];
      assert QualifyingLabels(order, rec, eE) == head + QualifyingLabels(order[1..], rec, eE);
      (if Qualifies(rec[order[0]], eE) then [Project(rec[order[0]], f)] else [])
      + Column(order[1..], rec, eE, f)
  }

  /** The Lotz cross section of one record, visiting its subshells in `order`: filter, build
      the five aligned arrays, sum the elementwise terms, convert to cm^2. */
  function EiFromOrder(rec: Record, order: seq<string>, eE: real, math: Math): real
    requires forall k | k in order :: k in rec
  {
    var energies := Column(order, rec, eE, Energy);
    var populations := Column(order, rec, eE, Population);
    var lotzA := Column(order, rec, eE, LotzA);
    var lotzB := Column(order, rec, eE, LotzB);
    var lotzC := Column(order, rec, eE, LotzC);
    Sum(LotzTerms(energies, populations, lotzA, lotzB, lotzC, eE, math)) * 1e-14
  }

  /** Electron-impact ionization cross section (cm^2) of charge state i at electron energy eE
      (eV). The subshells are visited in the record's own iteration order, which the model
      does not know; EiOrderIndependent shows the result does not depend on it. */
  ghost function EiCrossSection(elem: Element, i: int, eE: real, math: Math): (r: Result<real>)
    requires ChargeStatesDense(elem)
    ensures i == |elem| ==> r == Ok(0.0)
    ensures r.Ok? <==> 0 <= i <= |elem|
  {
    if i == |elem| then Ok(0.0)
    else if i !in elem then Err(UnknownChargeState(i))
    else Ok(EiFromOrder(elem[i], Enumerate(elem[i].Keys), eE, math))
  }

  /** What subshell k adds to the Lotz sum: its term if it qualifies, else nothing. */
  ghost function Contribution(rec: Record, eE: real, math: Math): string -> real
  {
    k => if k in rec && Qualifies(rec[k], eE) then LotzTerm(rec[k], eE, math) else 0.0
  }

  lemma {:induction false} FilteredSum(order: seq<string>, rec: Record, eE: real, math: Math)
    requires forall k | k in order :: k in rec
    ensures MapSum(QualifyingLabels(order, rec, eE), Contribution(rec, eE, math))
         == MapSum(order, Contribution(rec, eE, math))
  {
    var f := Contribution(rec, eE, math);
    if order != [] {
      var ks := QualifyingLabels(order, rec, eE);
      var rest := QualifyingLabels(order[1..], rec, eE);
      FilteredSum(order[1..], rec, eE, math);
      if Qualifies(rec[order[0]], eE) {
        assert ks == [order[0]] + rest;
        assert ks[1..] == rest;
      } else {
        assert ks == rest;
      }
    }
  }

  /** The Lotz sum over any repetition-free order of all the record's labels is the
      order-free sum of the contributions. */
  lemma EiOrderIndependent(rec: Record, order: seq<string>, eE: real, math: Math)
    requires Distinct(order) && forall k :: k in order <==> k in rec
    ensures EiFromOrder(rec, order, eE, math) == SetSum(rec.Keys, Contribution(rec, eE, math)) * 1e-14
  {
    var f := Contribution(rec, eE, math);
    ColumnsAreContributions(rec, order, eE, math);
    FilteredSum(order, rec, eE, math);
    MapSumIsSetSum(order, rec.Keys, f);
  }

  /** The elementwise Lotz terms are the contributions of the qualifying labels, in order. */
  lemma ColumnsAreContributions(rec: Record, order: seq<string>, eE: real, math: Math)
    requires forall k | k in order :: k in rec
    ensures EiFromOrder(rec, order, eE, math)
         == MapSum(QualifyingLabels(order, rec, eE), Contribution(rec, eE, math)) * 1e-14
  {
    var ks := QualifyingLabels(order, rec, eE);
    var terms := LotzTerms(Column(order, rec, eE, Energy), Column(order, rec, eE, Population),
                           Column(order, rec, eE, LotzA), Column(order, rec, eE, LotzB),
                           Column(order, rec, eE, LotzC), eE, math);
    forall j | 0 <= j < |terms| ensures terms[j] == Contribution(rec, eE, math)(ks[j]) {
      TermIsContribution(rec, order, eE, math, j);
    }
    SumOfTerms(terms, ks, Contribution(rec, eE, math));
  }

  lemma TermIsContribution(rec: Record, order: seq<string>, eE: real, math: Math, j: int)
    requires forall k | k in order :: k in rec
    requires 0 <= j < |QualifyingLabels(order, rec, eE)|
    ensures LotzTerms(Column(order, rec, eE, Energy), Column(order, rec, eE, Population),
                      Column(order, rec, eE, LotzA), Column(order, rec, eE, LotzB),
                      Column(order, rec, eE, LotzC), eE, math)[j]
         == Contribution(rec, eE, math)(QualifyingLabels(order, rec, eE)[j])
  {
    var k := QualifyingLabels(order, rec, eE)[j];
    assert k in QualifyingLabels(order, rec, eE);
    assert Column(order, rec, eE, Energy)[j] == rec[k].E;
  }

  /** Below every threshold (no qualifying subshell) the cross section is zero. */
  lemma EiNoQualifyingSubshell(elem: Element, i: int, eE: real, math: Math)
    requires ChargeStatesDense(elem) && i in elem
    requires forall k | k in elem[i] :: !Qualifies(elem[i][k], eE)
    ensures EiCrossSection(elem, i, eE, math) == Ok(0.0)
  {
    var rec := elem[i];
    var order := Enumerate(rec.Keys);
    EiOrderIndependent(rec, order, eE, math);
    SetSumZero(rec.Keys, Contribution(rec, eE, math));
  }

  /** A subshell changes the cross section by exactly its Lotz term if it qualifies and not at
      all otherwise. */
  lemma EiSubshellContribution(elem: Element, i: int, k: string, eE: real, math: Math)
    requires ChargeStatesDense(elem) && i in elem && k in elem[i]
    ensures ChargeStatesDense(elem[i := elem[i] - {k}])
    ensures EiCrossSection(elem, i, eE, math).value
         == EiCrossSection(elem[i := elem[i] - {k}], i, eE, math).value
            + (if Qualifies(elem[i][k], eE) then LotzTerm(elem[i][k], eE, math) * 1e-14 else 0.0)
  {
    var rec := elem[i];
    var smaller := rec - {k};
    var elem' := elem[i := smaller];
    assert elem'.Keys == elem.Keys;
    assert |elem'| == |elem|;
    var f := Contribution(rec, eE, math);
    var g := Contribution(smaller, eE, math);
    EiOrderIndependent(rec, Enumerate(rec.Keys), eE, math);
    EiOrderIndependent(smaller, Enumerate(smaller.Keys), eE, math);
    SetSumRemove(rec.Keys, f, k);
    assert rec.Keys - {k} == smaller.Keys;
    SetSumCongruent(smaller.Keys, f, g);
  }
}
