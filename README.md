# PyCB charge state distribution core, in Dafny

PyCB computes how ions in an electron beam ion source (EBIS) move between charge states.
Electron-impact ionization (EI) raises the charge of an ion by one. Radiative recombination
(RR) and charge exchange (CX) with the residual gas lower it by one. This project models the
core of `csd.py`:

- The element data: one record per charge state 0 .. Z-1, mapping subshell labels to binding
  energy, population and Lotz coefficients.
- Shell statistics: the outermost shell of a charge state, its capacity and its population.
- The three cross sections: Lotz EI, Kim-Pratt RR and Salzborn-Müller CX.
- The neutral gas density, the ion mass lookup, and the assembly of the three rate vectors.
- The right-hand side of the rate equations (the CSD evolution operator). It is a
  tridiagonal transition matrix filled in place and then multiplied by the abundances.
- The palette helper used to colour charge states in plots.

Numbers are Dafny `real`, so the structural identities hold exactly rather than up to
rounding. `exp`, `log` and real-exponent powers appear only as the fields of a
`Transcendentals` value passed in. Nothing is assumed about them except that `3 ** 0.5` is
positive. Python exceptions (`KeyError`, `IndexError`, `ValueError`,
`ZeroDivisionError`) become the `Err` case of a `Result`.

Where the code and its own description differ, the model follows the code:

- **Outermost shell.** `shell_stat` takes as the outermost shell the *count* of distinct
  principal numbers present, not the largest one (csd.py:86). The two agree when the shells
  present are exactly 1 .. m, which `ShellStatistics.ContiguousShellsSucceed` proves. With a
  gap the lookup fails only when the count is not itself a shell present: shells {1, 3} fail
  (`ShellStatistics.ShellGapFails`), but shells {1, 3, 4} return the statistics of shell 3
  although shell 4 is occupied (`ShellStatistics.ShellGapHidesOuterShell`). The element data
  generator writes each record's labels as a prefix of one fixed subshell list
  (dev/JSON_generator.py:12-13, 72), so records built that way have contiguous shells.
- **Mass table order.** `ELEM_MASSES` has 110 entries in increasing order of mass, not of
  atomic number, and the ion mass is read at index Z - 1 (csd.py:24-35, 254). Wherever the
  two orders differ, the element receives its neighbour's mass. Argon (Z = 18) gets 39.0983,
  which is potassium's value. Co/Ni, Te/I, Th/Pa, U/Np and Pu/Am are affected the same way.
  The model keeps the table exactly as written; `ReactionRates.ArgonMassFromMassOrder`
  states the argon case.
- **Out-of-range indices.** `csd_evolution` and `cx_sm_cs` are compiled with numba, which
  does not bounds-check. An out-of-range read is therefore undefined in the compiled code.
  The model treats it as an error in `cx_sm_cs`, and as a precondition of `csd_evolution`
  (at least two charge states).

## Model

| member | source | states |
|---|---|---|
| Failures.PyIndex | csd.py:254 | Python list indexing: succeeds exactly for -len <= index < len; a negative index counts from the end |
| ElementData.MassesPositive | csd.py:24-35 | the mass table has 110 entries, all positive and in non-decreasing order of mass |
| ShellStatistics.ShellCapacity | csd.py:74 | the capacity table holds exactly n = 1 .. 7, with capacity 2n² |
| ShellStatistics.LeadingDigit | csd.py:78 | the principal number read from a label's first character is a decimal digit 0 .. 9 |
| ShellStatistics.ShellPopulationRemove | csd.py:83-84 | a shell's population is the sum over its subshells in any order: any subshell may be added first |
| ShellStatistics.ShellPopulationOfAbsentShell | csd.py:80-84 | a shell with no subshell among the labels has population 0 |
| ShellStatistics.ShellStatOf | csd.py:65-91 | bare ion gives (1, 2, 0); otherwise, on success, n is the count of distinct principal numbers, n is present and in 1 .. 7, capacity is 2n², and population is the sum of p over the subshells of shell n |
| ShellStatistics.ShellStatDefined | csd.py:70-91 | the statistics exist exactly for the bare ion, or for an existing charge state whose labels start with a digit and whose count of shells is in 1 .. 7 and is itself a shell present |
| ShellStatistics.ComputeShellStat | csd.py:70-91 | the imperative computation returns exactly the shell statistics above, including each failure |
| ShellStatistics.TallyShells | csd.py:76-84 | the dictionary filled by one pass over the subshells has one key per principal number present, holding the sum of p over that shell's subshells |
| ShellStatistics.TallyStep | csd.py:83-84 | counting one more subshell adds its population to its own shell and to no other |
| ShellStatistics.ContiguousShellsSucceed | csd.py:78-91 | when the shells present are exactly 1 .. m, the count-based choice succeeds and picks the largest shell m |
| ShellStatistics.ShellGapFails | csd.py:86-91 | shells {1, 3} give count 2, which is not a shell present, so the population lookup fails |
| ShellStatistics.ShellGapHidesOuterShell | csd.py:86-91 | shells {1, 3, 4} give count 3, which is present, so the statistics of shell 3 are returned without error although shell 4 is occupied |
| ShellStatistics.ArgonNeutral | test_func_pytest.py:143-148 | neutral argon (1s2 2s2 2p6 3s2 3p6) gives [3, 18, 8] |
| ShellStatistics.ThreeShells | csd.py:86-91 | a charge state with shells {1, 2, 3} has outermost shell 3 with 18 states |
| ShellStatistics.ArgonThirdShell | test_func_pytest.py:143-148 | argon's third shell holds 8 electrons |
| ShellStatistics.ArgonShells | test_func_pytest.py:143-148 | argon's labels cover principal numbers {1, 2, 3} |
| CrossSections.CxCrossSection | csd.py:49-62 | zero for the neutral atom for every k; for k in 1 .. 4 uses coefficients at index k - 1; fails exactly when i != 0 and k - 1 is not a valid (possibly negative) index into four coefficients |
| CrossSections.CxIndexWraps | csd.py:61 | for k in -3 .. 0 the negative coefficient index wraps around: k and k + 4 give the same cross section |
| CrossSections.EffectiveQuantumNumber | csd.py:109-111 | n_eff = n + (1 - (capacity - population)/capacity) - 0.3 = n - 0.3 + population/capacity, and lies in [n - 0.3, n + 0.7] for a physical population |
| CrossSections.RrCrossSection | csd.py:94-114 | zero for the neutral atom; otherwise zero electron energy divides by zero, and a shell-statistics failure is propagated unchanged |
| CrossSections.ShellPopulationNonNegative | csd.py:83-84 | with non-negative subshell populations every shell population is non-negative |
| CrossSections.RrDefined | csd.py:106-113 | with physical populations, a non-zero energy and existing shell statistics, the RR cross section is defined (n_eff is never zero) |
| CrossSections.RrBareIon | csd.py:106-113 | for the bare ion q_eff = Z, n_eff = 0.7, and the cross section is the Kim-Pratt formula with those values |
| CrossSections.LotzTerms | csd.py:139-140 | the elementwise Lotz terms of five aligned arrays have the arrays' length |
| CrossSections.QualifyingLabels | csd.py:125-127 | a label is kept exactly when its subshell has 0 < E < e_e and p > 0 |
| CrossSections.Column | csd.py:129-138 | each of the five filtered arrays lists, at position j, the field of the j-th qualifying subshell, so the arrays stay index-aligned |
| CrossSections.EiCrossSection | csd.py:117-141 | zero for the bare ion; defined exactly for charge states 0 .. Z |
| CrossSections.FilteredSum | csd.py:125-140 | summing the qualifying labels' terms equals summing every label's contribution, non-qualifying ones adding zero |
| CrossSections.EiOrderIndependent | csd.py:124-141 | for any repetition-free order of the subshells, the Lotz sum equals the order-free sum of per-subshell contributions times 1e-14 |
| CrossSections.ColumnsAreContributions | csd.py:129-140 | the sum of the elementwise products of the five filtered arrays is the sum of contributions of the qualifying labels |
| CrossSections.TermIsContribution | csd.py:139-140 | the j-th elementwise term is the Lotz term of the j-th qualifying subshell |
| CrossSections.EiNoQualifyingSubshell | csd.py:125-141 | when no subshell qualifies the sum is empty and the cross section is 0 |
| CrossSections.EiSubshellContribution | csd.py:125-141 | removing one subshell lowers the cross section by its Lotz term × 1e-14 if it qualifies and leaves it unchanged otherwise |
| ReactionRates.NeutralDensity | csd.py:243-249 | fails exactly for zero gas temperature; otherwise n·k_B·T = P·1e-4 (ideal gas law, mbar to Pa, 1/m³ to 1/cm³) |
| ReactionRates.NeutralDensityLinear | csd.py:248 | the density is additive in the pressure and positive exactly for positive pressure |
| ReactionRates.IonMass | csd.py:254 | defined exactly when Z <= 110, always positive, and for 1 <= Z <= 110 the table entry Z - 1 in amu times 1.6726e-27 kg |
| ReactionRates.IonVelocity | csd.py:251-256 | defined exactly when the mass is, with the mass lookup's error otherwise; the value is the thermal speed 100·(8·T·q/(3.1416·m))^0.5 of a positive mass m |
| ReactionRates.IonMassEnds | test_func_pytest.py:160-169 | hydrogen uses 1.0079 amu; an element with no records wraps to the last entry, 277 amu |
| ReactionRates.ArgonMassFromMassOrder | csd.py:254 | argon (Z = 18) is given 39.0983 amu, while argon's 39.948 sits at index 18 |
| ReactionRates.IonMassBeyondTable | csd.py:254 | for Z > 110 the mass lookup is an index error |
| ReactionRates.PerChargeState | csd.py:267-269 | a list comprehension over charge states succeeds exactly when every element does, is aligned with the charge states, and otherwise fails with the first failure |
| ReactionRates.Scale | csd.py:267-269 | scaling an array multiplies each entry and keeps its length |
| ReactionRates.AssembleRates | csd.py:267-269 | succeeds exactly when every RR, EI and CX cross section of the requested charge states does; then the three vectors are aligned with the charge states, rrr[j] and rei[j] are the electron flux times the RR and EI cross sections of charge state j, and rcx[j] is the neutral flux times its CX cross section |
| ReactionRates.ReactionRates | csd.py:259-271 | for Z > 110 the ion-velocity failure comes first; otherwise the rates are the assembly of the RR, EI and CX cross sections with electron flux j_e/q and neutral flux n_0(p_vac, 300 K)·v_i |
| ReactionRates.ReactionRatesDefined | csd.py:263-269 | the rates exist exactly when Z <= 110, every charge state is in 0 .. Z, and every RR cross section exists |
| ReactionRates.RatesZeroAtGuards | csd.py:267-269 | the three vectors have one entry per charge state; rrr and rcx are 0 at charge 0 and rei is 0 at the bare ion, as the cross sections' guards give (test_func_pytest.py:191-192 shows these zeros) |
| Palette.ColorPicker | csd.py:40-45 | the colour is always from the palette; with fewer items than colours it succeeds exactly for a valid Python index; otherwise it succeeds exactly for a non-empty palette and picks item mod palette size |
| Palette.ColorPickerInRange | csd.py:42-45 | an item within the palette gets the colour at its own position in both branches |
| Palette.ColorPickerCycles | csd.py:44-45 | once the palette is exhausted, colours repeat with period len(palette) |
| CsdEvolution.TransitionEntry | csd.py:148-156 | every matrix entry more than one place off the diagonal is zero |
| CsdEvolution.Derivative | csd.py:158 | the derivative of state k is net flux in from k - 1 minus net flux out to k + 1 |
| CsdEvolution.Derivatives | csd.py:158 | one derivative per charge state, each the flux balance of that state |
| CsdEvolution.BuildTransitionMatrix | csd.py:148-156 | the filled n×n matrix holds exactly the tridiagonal transition entries |
| CsdEvolution.RowTimesAbundances | csd.py:158 | one row of the matrix-vector product, accumulated entry by entry, is that row's partial dot product with the abundances |
| CsdEvolution.CsdEvolutionStep | csd.py:145-160 | the matrix-vector product returns the flux-balance derivatives, which sum to zero |
| CsdEvolution.RowPartialBelowBand | csd.py:148-158 | entries left of a row's band contribute nothing to the product |
| CsdEvolution.RowPartialAboveBand | csd.py:148-158 | entries right of a row's band add nothing to the product |
| CsdEvolution.RowPartialIsDerivative | csd.py:158 | each row of the product is the flux balance of its charge state |
| CsdEvolution.InteriorRow | csd.py:153-156 | an interior row's three band entries give rei[i-1]·a[i-1] − (rei[i]+rrr[i]+rcx[i])·a[i] + (rrr[i+1]+rcx[i+1])·a[i+1] |
| CsdEvolution.ColumnPartialBelowBand | csd.py:148-156 | entries above a column's band are zero |
| CsdEvolution.ColumnPartialAboveBand | csd.py:148-156 | entries below a column's band add nothing |
| CsdEvolution.ColumnSumsToZero | csd.py:148-156 | every column of the transition matrix sums to zero |
| CsdEvolution.DerivativeRows | csd.py:148-158 | d[0] = −rei[0]·a[0] + (rrr[1]+rcx[1])·a[1]; interior rows as above; d[N−1] = rei[N−2]·a[N−2] − (rrr[N−1]+rcx[N−1])·a[N−1] |
| CsdEvolution.PrefixSumTelescopes | csd.py:158 | the first k derivatives sum to minus the net flux from state k - 1 to state k |
| CsdEvolution.DerivativesSumToZero | csd.py:145-160 | the derivatives sum to exactly zero: the total ion count is conserved |
| CsdEvolution.EmptyStateDoesNotDecrease | csd.py:148-158 | with non-negative rates and abundances an empty charge state has a non-negative derivative |
| CsdEvolution.UnusedRates | csd.py:148-156 | rei[N−1], rrr[0] and rcx[0] never affect the result |
| CsdEvolution.UniformIonizationOnly | test_func_pytest.py:128-140 | unit abundances with unit ionization and no capture give −1 at charge 0, +1 at the bare ion and 0 between |
| CsdEvolution.TenStatesIonizationOnly | test_func_pytest.py:128-140 | for N = 10 that setting gives exactly [−1, 0, 0, 0, 0, 0, 0, 0, 0, 1] |

## Left out

- Numeric values of `exp`, `log` and real-exponent powers (csd.py:61, 102, 113, 139, 255): these are floating-point semi-empirical formulas, so they are parameters here. The literature regression tests and the Helium rate table compare floats to a tolerance and are not modelled.
- Floating-point rounding, and the `float32` conversion numba applies to the CX ionization potential: all arithmetic is exact `real`.
- CrossSections.CxCrossSection: for k outside 1 .. 4 the contract states only that the result is defined (the wrapped coefficient index) or an error, not its value, apart from the wrap-around lemma.
- CrossSections.RrCrossSection: the contract states the guards and the failure cases; its value is stated only for the bare ion (RrBareIon), since it passes through `log`.
- CrossSections.EiCrossSection: the value is stated through EiOrderIndependent and the two subshell lemmas, not in the function's own contract.
- Python's dictionary iteration order is not modelled: the EI sum is taken over an arbitrary repetition-free enumeration of the subshells, and EiOrderIndependent shows the order never matters.
- `get_element_data` (csd.py:232-240) reads a JSON file. The element map is an input, with a precondition that its records are exactly charge states 0 .. Z-1.
- The plot figures `csd_base_figure` and `cs_base_figure` (csd.py:163-230), the numba `@jit` decorators, simulation.py, streamlit_demo.py and dev/JSON_generator.py are UI, integration or file generation, not part of this model.
- CsdEvolution.CsdEvolutionStep: it requires at least two charge states and rate vectors as long as the abundances. With fewer states the source reads outside the matrix, and longer rate vectors would shift its negative indices.
- Charge states are `int`; the floats that `np.linspace` produces in the tests and scripts are not modelled.
- ReactionRates.IonVelocity: no value is stated beyond the formula, because of the square root.
- ShellStatistics.LeadingDigit: only the ASCII digits '0' .. '9' count as a principal number, whereas Python's `int(k[0])` (csd.py:78, 84) also accepts other Unicode decimal digits; a label starting with one is `MalformedLabel` here. The generated labels are ASCII (dev/JSON_generator.py:12-13).
