# nonrad utilities: a Dafny model

This project models the preparation helpers of `nonrad/utils.py` from nonrad. nonrad computes nonradiative capture coefficients from a configuration-coordinate (CC) diagram. The model covers:

- **CC structures.** `get_cc_structures` drops zero displacements and asks for one ground family at each displacement and one excited family at each displacement plus one. `get_dQ` is the mass-weighted distance between the endpoints.
- **Q of a structure.** `get_Q_from_struct` pools the per-axis ratios of every site that moves at least `tol`. It rounds them to six decimals, sorts and groups them, and takes the value of the first largest group times dQ.
- **Potential energy surface.** `get_PES_from_vaspruns` computes Q for each run's final structure and shifts the energies by their minimum.
- **WSWQ reader.** `_read_WSWQ` is a line-by-line scan with two regular expressions. A marker line `spin=.., kpoint=..` opens a section; a data line `i=.., j=.. : re im` writes an overlap into the current section.
- **Overlap assembly.** The first half of `get_Wif_from_WSWQ` fills the absolute eigenvalues of the bulk bands (the source's `deig`, which its comment calls differences). It then fills Q and the signed overlap magnitudes, sample by sample, and leaves a trailing zero entry.

Python exceptions are modelled by name (`KeyError`, `IndexError`, `ValueError`) in a `Result` type. The loops of the source are Dafny methods over arrays or local sequences. The WSWQ reader loop (`ReadWswq`), the Q computation (`GetQFromStruct`) and the PES loop (`GetPesWith`, `GetPesFromRuns`) are each proved equal to a specification function, and the properties are proved about those functions. `CollectRatios` states its pool through the specification function `Pool`. The array-filling methods (`Pes.ShiftByMin`, and `FillAbsEigenvalues`, `FillColumn`, `FillSamples`, `AssembleWith` and `AssembleOverlaps` in `WifFromWswq`) instead state their result entry by entry: what each array entry holds, and which error stops them. The PES loop takes the per-run Q computation, and the overlap loop the WSWQ reader, as a function parameter. The methods that model the source functions pass in `get_Q_from_struct` and the reader. The loop proofs therefore hold for any Q computation and any reader.

Modules:

- `Wrappers`: `Option`, `Result`, `Error`.
- `WswqLines`: the line recogniser for the two patterns, a renderer of lines in the file's layout, and recognition lemmas.
- `WswqScan`: the scan as a fold, the reader method, and its properties.
- `ConsensusMode`: sort, `groupby`, and first-longest `max`.
- `ConfigCoord`: `get_cc_structures`, `get_dQ`, `get_Q_from_struct`.
- `Pes`: `get_PES_from_vaspruns`.
- `WifFromWswq`: the array-filling part of `get_Wif_from_WSWQ`.

Error behaviour the model keeps from the code:

- `get_dQ` does not check site counts: `zip` stops at the shorter structure. `get_Q_from_struct` raises IndexError only when the structure has more sites than an endpoint.
- A data line with no section raises KeyError, and so does a looked-up overlap that is missing.
- A number token that `float()` rejects raises ValueError. The right-hand side of the assignment is evaluated before its target, so this ValueError comes before the KeyError of a data line with no section.

## Model

| member | source | states |
|---|---|---|
| WswqLines.SearchFrom | nonrad/utils.py:343-348 | `re.search`: the result is the leftmost offset at which the pattern matches; None exactly when it matches at no offset |
| WswqLines.FloatText | nonrad/utils.py:355 | definition of the tokens `float()` accepts: an optional minus, then digits with at most one dot and at least one digit; characterised by WswqScan.BadTokenFails and WswqScan.NumericNoValueError |
| WswqLines.DigitsValue | nonrad/utils.py:351-354 | definition of `int()` on a digit group; characterised by WswqLines.NumberOfDigits |
| WswqLines.MarkerPrefix | nonrad/utils.py:344 | definition of the marker pattern anchored at one offset: `spin=`, digits, `, kpoint=`, optional spaces, digits; characterised by WswqLines.MarkerLineRecognised |
| WswqLines.DataPrefix | nonrad/utils.py:346-347 | definition of the data pattern anchored at one offset: `i=`, optional spaces, digits, `, j=`, optional spaces, digits, optional spaces, a colon, then two number tokens separated by at least one space; characterised by WswqLines.DataLineRecognised |
| WswqLines.MatchAt | nonrad/utils.py:344-347 | definition: the chosen pattern tried at offset p; characterised by WswqLines.SearchFrom and WswqLines.ClassifyMeaning |
| WswqLines.Classify | nonrad/utils.py:343-353 | definition: marker if the marker pattern is found, else data if the data pattern is found, else neither; characterised by WswqLines.ClassifyMeaning |
| WswqLines.ClassifyMeaning | nonrad/utils.py:343-353 | a line is a marker iff the marker pattern matches somewhere in it; it is a data line iff the marker matches nowhere and the data pattern somewhere (`if`/`elif`) |
| WswqLines.MarkerLineRecognised | nonrad/utils.py:343-351 | a rendered `spin=<s>, kpoint=<pad><k>` line is recognised as the marker for key (s, k): `int()` of the digit groups gives the numbers back |
| WswqLines.DataLineRecognised | nonrad/utils.py:345-355 | a rendered data line with any positive padding is recognised as the data line for bands (i, j) and its two tokens, never as a marker |
| WswqScan.Step | nonrad/utils.py:349-355 | definition of one line's effect on the table and the current key; characterised by WswqScan.SectionAfterMarker, WswqScan.OrphanDataFails and WswqScan.BadTokenFails |
| WswqScan.Scan | nonrad/utils.py:342-355 | definition of the line loop as a fold of Step from the empty table with no current section, stopping at the first error; characterised by WswqScan.SectionAfterMarker, WswqScan.OrphanDataFails, WswqScan.ErrorPersists and WswqScan.OtherLineIgnored |
| WswqScan.ReadTable | nonrad/utils.py:339-356 | definition of what `_read_WSWQ` returns: the table, or the error that stopped the scan; characterised by WswqScan.ReadWswq and WswqScan.TwoSections |
| WswqScan.ReadWswq | nonrad/utils.py:339-356 | the reader loop returns exactly the fold of the line steps over the classified lines |
| WswqScan.ScanFails | nonrad/utils.py:349-355 | the reader fails only with KeyError or ValueError |
| WswqScan.NumericNoValueError | nonrad/utils.py:353-355 | when every data token is a number `float()` accepts, the reader never raises ValueError |
| WswqScan.SectionAfterMarker | nonrad/utils.py:349-355 | after a marker for k, up to the next marker, the table is the table before the marker with k mapped to exactly the entries written since: the section is reset to empty and no other section changes |
| WswqScan.LastWriteWins | nonrad/utils.py:353-355 | a repeated (i, j) in one section overwrites: the last data line for the pair decides its value |
| WswqScan.CurrentHasSection | nonrad/utils.py:349-355 | once set, the current key always names a section of the table |
| WswqScan.OrphanDataFails | nonrad/utils.py:340-354 | a (numeric) data line before any marker makes the reader fail with KeyError |
| WswqScan.BadTokenFails | nonrad/utils.py:353-355 | a data line whose tokens `float()` rejects fails with ValueError, section or not |
| WswqScan.OtherLineIgnored | nonrad/utils.py:342-355 | deleting a line that matches neither pattern does not change the outcome |
| WswqScan.ErrorPersists | nonrad/utils.py:342-355 | once the scan has failed, later lines do not change the failure |
| WswqScan.TwoSections | nonrad/utils.py:339-356 | a concrete file with two sections gives a table with those two sections |
| ConsensusMode.Insert | nonrad/utils.py:123 | one insertion step of the sort adds exactly that value to the multiset |
| ConsensusMode.InsertSorted | nonrad/utils.py:123 | inserting into a sorted list keeps it sorted, with the new value or the old first value in front |
| ConsensusMode.Sort | nonrad/utils.py:123 | `np.sort`: the result is sorted and a permutation of the input |
| ConsensusMode.Groups | nonrad/utils.py:124 | `groupby`: groups exist iff the list is non-empty, the first group has the first value, every group is non-empty, and neighbouring groups differ in value |
| ConsensusMode.PushExpand | nonrad/utils.py:124 | putting a value in front of the groups puts exactly that value in front of what they stand for |
| ConsensusMode.GroupsExpand | nonrad/utils.py:124 | `groupby` loses and invents nothing: expanding the groups gives the sorted list back |
| ConsensusMode.SortedGroupsCount | nonrad/utils.py:123-124 | on sorted input each group's size is the multiplicity of its value |
| ConsensusMode.GroupOf | nonrad/utils.py:124 | every value of the list has a group of its own value |
| ConsensusMode.FirstLongest | nonrad/utils.py:124 | `max(..., key=len)` picks a largest group, and no earlier group is as large |
| ConsensusMode.Mode | nonrad/utils.py:124 | the consensus of an empty pool is ValueError, and only of an empty pool |
| ConsensusMode.ModeIsMostFrequent | nonrad/utils.py:123-124 | the consensus value occurs in the pool, no value occurs more often, and among equally frequent values it is the smallest |
| ConsensusMode.ModeOfUnanimous | nonrad/utils.py:123-124 | a pool of one repeated value has that value as its consensus |
| ConfigCoord.RemoveZeros | nonrad/utils.py:56-57 | no zero is left, and every non-zero displacement is kept as often as it occurred |
| ConfigCoord.RemoveZerosAppend | nonrad/utils.py:57 | the filter works piece by piece, so kept displacements stay in their order |
| ConfigCoord.RemoveZerosKeepsNonzero | nonrad/utils.py:57 | a list without zeros passes unchanged |
| ConfigCoord.UsedDisplacements | nonrad/utils.py:56-57 | definition: the displacements with zeros removed when `remove_zero` is set; characterised by ConfigCoord.RemoveZeros and ConfigCoord.NoEndpointRepeated |
| ConfigCoord.CcStructures | nonrad/utils.py:55-60 | both families have one structure per used displacement; structure i of the ground family is at d_i and of the excited family at d_i + 1 |
| ConfigCoord.NoEndpointRepeated | nonrad/utils.py:56-59 | for an interpolation that tells parameters apart, with zeros removed, the ground family does not contain the ground endpoint and the excited family does not contain the excited endpoint |
| ConfigCoord.DQSquared | nonrad/utils.py:80 | definition of the sum of mass * distance^2 over `zip(ground, excited)`; characterised by ConfigCoord.DQSquaredNonNegative, ConfigCoord.DQSquaredSame and ConfigCoord.DQSquaredTruncates |
| ConfigCoord.GetDQ | nonrad/utils.py:78-81 | definition: the square root of DQSquared; characterised through ConfigCoord.QOnPath |
| ConfigCoord.DQSquaredNonNegative | nonrad/utils.py:78-81 | with non-negative masses the sum under the square root is non-negative |
| ConfigCoord.DQSquaredSame | nonrad/utils.py:78-81 | identical endpoints give dQ squared zero |
| ConfigCoord.DQSquaredTruncates | nonrad/utils.py:80 | `zip` stops at the shorter structure: extra excited sites are not counted |
| ConfigCoord.AxisRatios | nonrad/utils.py:121-122 | the three per-axis ratios of a site: along each axis the site sits at ground + ratio * (excited - ground) |
| ConfigCoord.CollectRatios | nonrad/utils.py:117-122 | the loop gives IndexError iff the structure has more sites than an endpoint; otherwise it gives the pool of ratios of the kept sites |
| ConfigCoord.Pool | nonrad/utils.py:117-122 | definition of `possible_x`: the per-axis ratios of every site that moves at least tol, in site order; characterised by ConfigCoord.PoolLength, ConfigCoord.PoolAt and ConfigCoord.PoolOnPath |
| ConfigCoord.PoolLength | nonrad/utils.py:118-122 | the pool holds three ratios per site whose distance is at least tol |
| ConfigCoord.PoolAt | nonrad/utils.py:118-122 | the ratios of kept site i sit, in axis order, right after those of the kept sites before it; a site at distance exactly tol is kept |
| ConfigCoord.KeptCountMonotone | nonrad/utils.py:118-120 | the number of kept sites only grows along the structure |
| ConfigCoord.RoundHalfEven | nonrad/utils.py:123 | `np.round`: within one half of the input, ties go to the even neighbour |
| ConfigCoord.RoundIntegral | nonrad/utils.py:123 | rounding leaves a whole number unchanged |
| ConfigCoord.Round6 | nonrad/utils.py:123 | definition of `np.round(x, 6)` as a count of 10^-6 units; characterised by ConfigCoord.RoundHalfEven and ConfigCoord.AlongPathEnds |
| ConfigCoord.RoundAll | nonrad/utils.py:123 | every pooled ratio is rounded, in place and order |
| ConfigCoord.AlongPath | nonrad/utils.py:124 | definition of `dQ * ...[0]` for the consensus count of 10^-6 units; characterised by ConfigCoord.AlongPathEnds and ConfigCoord.QOnPath |
| ConfigCoord.QFromStruct | nonrad/utils.py:116-124 | definition of `get_Q_from_struct`; characterised by ConfigCoord.QFromStructFails, ConfigCoord.QOnPath, ConfigCoord.QOfGround and ConfigCoord.QOfExcited |
| ConfigCoord.GetQFromStruct | nonrad/utils.py:116-124 | the method computes exactly QFromStruct: dQ times the consensus of the rounded pooled ratios, or the error on the way |
| ConfigCoord.QFromStructFails | nonrad/utils.py:118-124 | the result is a value iff the structure fits the endpoints and some site passes the filter; otherwise IndexError or ValueError respectively |
| ConfigCoord.RatioOnPath | nonrad/utils.py:121-122 | a coordinate at fraction t of the way gives the ratio t |
| ConfigCoord.PoolOnPath | nonrad/utils.py:118-122 | for a structure on the straight path at fraction t, every pooled ratio is t |
| ConfigCoord.QOnPath | nonrad/utils.py:116-124 | a structure at fraction t of the path gets Q = dQ * round(t, 6) |
| ConfigCoord.EndsOnPath | nonrad/utils.py:116-122 | the ground structure lies at fraction 0 and the excited structure at fraction 1 of the path |
| ConfigCoord.AlongPathEnds | nonrad/utils.py:124 | the consensus fractions 0 and 1 give Q = 0 and Q = dQ |
| ConfigCoord.QOfGround | nonrad/utils.py:116-124 | the ground structure is at Q = 0 |
| ConfigCoord.QOfExcited | nonrad/utils.py:116-124 | the excited structure is at Q = dQ |
| Pes.MinOf | nonrad/utils.py:164 | `np.min`: an element of the list that no element is below |
| Pes.Energies | nonrad/utils.py:163 | energy i is the final energy of run i |
| Pes.QOf | nonrad/utils.py:162 | the per-run Q is `get_Q_from_struct` against the fixed endpoints, defined for every structure whose ratios are defined |
| Pes.RunQs | nonrad/utils.py:160-162 | one Q result per run, in run order, each from that run's final structure |
| Pes.GetPesWith | nonrad/utils.py:158-164 | for any per-run Q computation, the loop fills Q and energy by index, stops at the first failing Q, and shifts the energies by their minimum: exactly PesWith |
| Pes.GetPesFromRuns | nonrad/utils.py:158-164 | the method computes exactly PesFromRuns, the loop run with `get_Q_from_struct` |
| Pes.Shifted | nonrad/utils.py:164 | one shifted energy per energy; characterised by Pes.ShiftedIsRelative and Pes.ShiftInvariant |
| Pes.ShiftByMin | nonrad/utils.py:164 | the energy array becomes the old energies minus their minimum |
| Pes.Collect | nonrad/utils.py:160-162 | definition of the loop's exception propagation: the values in order, or the first error; characterised by Pes.CollectInOrder, Pes.CollectErrorPersists and Pes.CollectFirstError |
| Pes.CollectInOrder | nonrad/utils.py:160-163 | the per-run results combine to a value iff every run's Q does, keeping every Q in run order |
| Pes.CollectErrorPersists | nonrad/utils.py:160-162 | the first failing run ends the whole computation with its error |
| Pes.CollectFirstError | nonrad/utils.py:160-162 | a failed collection carries the error of the first failing outcome, and every outcome before it succeeded |
| Pes.PesFailsAt | nonrad/utils.py:160-162 | once the Q outcomes of the first n runs fail to combine, the surface fails with that same error, whatever the later runs give |
| Pes.ShiftedIsRelative | nonrad/utils.py:164 | the shifted energies keep every pairwise difference, are all non-negative, and one of them is zero |
| Pes.ShiftInvariant | nonrad/utils.py:164 | adding a constant to every energy leaves the surface unchanged |
| Pes.PesWith | nonrad/utils.py:158-164 | definition of the surface for a given Q computation; characterised by Pes.PesWithMeaning |
| Pes.PesFromRuns | nonrad/utils.py:158-164 | definition of `get_PES_from_vaspruns` with `get_Q_from_struct`; characterised by Pes.PesFromRunsMeaning |
| Pes.PesWithMeaning | nonrad/utils.py:158-164 | for any per-run Q computation: the surface fails iff there are no runs (ValueError) or some Q fails, and then with the error of the first run whose Q fails; otherwise one Q per run in run order, and energies relative to the lowest |
| Pes.PesFromRunsMeaning | nonrad/utils.py:158-164 | the surface fails iff there are no runs (ValueError) or some Q fails, and then with the error of the first run whose Q fails; otherwise it has one Q per run in run order, and the energies are relative to the lowest, all non-negative with a zero |
| WifFromWswq.SpinOf | nonrad/utils.py:406 | definition of `Spin.up if spin == 0 else Spin.down`; the channel FillAbsEigenvalues reads |
| WifFromWswq.Sign | nonrad/utils.py:415 | definition of `np.sign`; characterised by WifFromWswq.MatelSignedMagnitude |
| WifFromWswq.SectionKey | nonrad/utils.py:416 | definition of the key `(spin+1, kpoint)`; characterised by WifFromWswq.Lookup and WifFromWswq.ExampleMatels |
| WifFromWswq.Lookup | nonrad/utils.py:416 | the double subscript raises KeyError iff the (spin+1, kpoint) section or the (band, defect) pair is missing; otherwise it gives that entry |
| WifFromWswq.AbsEigenvalue | nonrad/utils.py:407-408 | definition of `np.abs(bvr.eigenvalues[sp][kpoint-1][bi-1][0])`; the value FillAbsEigenvalues stores |
| WifFromWswq.Matel | nonrad/utils.py:415-416 | definition of `np.sign(q) * np.abs(wswq[(spin+1, kpoint)][(bi, def_index)])`; characterised by WifFromWswq.MatelSignedMagnitude and WifFromWswq.ReadableIffMatels |
| WifFromWswq.FillAbsEigenvalues | nonrad/utils.py:405-408 | entry j of `deig` becomes the absolute eigenvalue of bulk band j at the chosen spin channel and k-point (0-based indices) |
| WifFromWswq.FillColumn | nonrad/utils.py:414-416 | column i is filled with sign(q) * |overlap| for every bulk band iff every lookup succeeds; no other column changes |
| WifFromWswq.FillSamples | nonrad/utils.py:411-416 | it fails iff some sample's file cannot be read or lacks an overlap, and then with the error of the first such sample: the reader's error, or KeyError for a missing overlap; otherwise Q[i] is sample i's Q, column i holds its matrix elements, and the extra last entries stay zero |
| WifFromWswq.AssembleWith | nonrad/utils.py:400-416 | the whole assembly for a given reader: it fails with the error of the first sample whose file does not parse or lacks an overlap; otherwise Q, the matrix elements and the absolute eigenvalues `deig`, each with one trailing zero where the source allocates Nw+1 |
| WifFromWswq.AssembleOverlaps | nonrad/utils.py:400-416 | the same with every file read by the WSWQ reader: it fails iff some file does not parse or lacks an overlap, with the first such file's error (ValueError or KeyError from the reader, KeyError for a missing overlap) |
| WifFromWswq.FirstFailureUnique | nonrad/utils.py:411-416 | at most one sample is the first unusable one, so the error the assembly reports is determined |
| WifFromWswq.ReadableIffMatels | nonrad/utils.py:413-416 | with a bulk band, a file is usable iff every bulk band's matrix element can be formed from it |
| WifFromWswq.MatelSignedMagnitude | nonrad/utils.py:415-416 | a matrix element is zero at Q = 0, has the overlap's magnitude otherwise, and the sign of Q |
| WifFromWswq.ExampleMatels | nonrad/utils.py:411-416 | for a concrete two-section file, spin channel 0 at k-point 1 yields the signed overlap; spin channel 1 raises KeyError |

## Left out

- File I/O is not modelled: `zopen`, `Vasprun`, `BSVasprun` and `Structure.from_file`. A WSWQ file is given as its lines, a vasprun as its final structure and final energy, and the band-structure eigenvalues as a function parameter `eigen`. A `struct` given as a file path is not modelled.
- pymatgen's `distance`, `Structure.interpolate` and `np.sqrt` are function parameters. The model does not interpret them.
- Floating point is not modelled. Reals are exact, and `np.round(x, 6)` is exact round-half-to-even of x * 10^6.
- The complex number `complex(float(re), float(im))` is kept as its two tokens. `np.abs` of it is the parameter `absOf`. Whether `float()` accepts a token is modelled, but its value is not.
- Regular-expression classes `\d` and `\s` are modelled on ASCII; other Unicode digits and spaces are not. `str(line)` is the identity on the given lines.
- ConfigCoord.CollectRatios: requires every kept site to move along each axis (RatiosDefined). numpy would divide by zero to inf/nan with a warning. The same applies to ConfigCoord.GetQFromStruct, ConfigCoord.QFromStruct and Pes.GetPesFromRuns.
- WswqScan.OrphanDataFails: states KeyError only when the data lines up to the orphan hold numbers. The other case is WswqScan.BadTokenFails.
- WswqScan.SectionAfterMarker: states the section only when the data lines after the marker hold numbers.
- WifFromWswq.FillAbsEigenvalues: `eigen` is total. Not modelled: the source's IndexError for a band or k-point index out of range, numpy's negative indexing, and the KeyError of `bvr.eigenvalues[Spin.down]` for a calculation without a spin-down channel.
- `vr.structures[-1]` of a vasprun without structures (IndexError) is not modelled.
- A scalar `bulk_index` is not modelled; bulk bands are a sequence.
- The rest of `get_Wif_from_WSWQ` is not part of this model: the result `deig[i] * np.polyfit(Q, matels[i, :], 1)[0]`, the slope of a linear fit of each band's matrix elements against Q, and the optional plotting.
- Also not part of this model: `get_omega_from_PES` (curve fit), `get_Wif_from_wavecars` and `_compute_matel` (wavefunction overlaps), and the plotting.
