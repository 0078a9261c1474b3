/** The assembly of overlap matrix elements in `get_Wif_from_WSWQ` of
    nonrad/utils.py: for every displaced configuration Q and every bulk band,
    the overlap with the defect band read from that configuration's WSWQ file,
    signed by Q; plus the absolute eigenvalues of the bulk bands (the
    source's array `deig`, which its comment calls eigenvalue differences).

    The band-structure file is not read here: its eigenvalues are a function
    parameter `eigen(spin channel, k-point index, band index)`. The magnitude
    of a complex overlap (`np.abs(complex(float(re), float(im)))`) is the
    parameter `absOf`. The final fit of the matrix elements against Q is not
    part of this model. */
module WifFromWswq {
  import opened Wrappers
  import opened WswqLines
  import opened WswqScan

  datatype Spin = Up | Down

  /** `Spin.up if spin == 0 else Spin.down`. */
  function SpinOf(spin: int): Spin {
    if spin == 0 then Up else Down
  }

  /** One entry of `wswqs`: the displacement Q and the lines of its WSWQ file. */
  datatype Sample = Sample(q: real, lines: seq<string>)

  /** The three arrays built before the fit: Q with one extra trailing entry,
      one row of matrix elements per bulk band (same extra entry), and the
      absolute eigenvalue of each bulk band (`deig`). */
  datatype Assembly = Assembly(q: seq<real>, matels: seq<seq<real>>, deig: seq<real>)

  function Abs(x: real): real {
    if x < 0.0 then -x else x
  }

  /** `np.sign`. */
  function Sign(x: real): real {
    if x > 0.0 then 1.0 else if x < 0.0 then -1.0 else 0.0
  }

  /** The section the overlaps are looked up in: spin channels are 0-based in
      the call and 1-based in the file. */
  function SectionKey(spin: int, kpoint: int): Key {
    Key(spin + 1, kpoint)
  }

  /** `wswq[(spin+1, kpoint)][(bi, def_index)]`: either lookup can raise KeyError. */
  function Lookup(t: Table, spin: int, kpoint: int, bi: int, defIndex: int): (r: Result<Overlap>)
    ensures r.Err? <==> SectionKey(spin, kpoint) !in t || BandPair(bi, defIndex) !in t[SectionKey(spin, kpoint)]
    ensures r.Err? ==> r.error == KeyError
    ensures r.Ok? ==> r.value == t[Key(spin + 1, kpoint)][BandPair(bi, defIndex)]
  {
    var key := SectionKey(spin, kpoint);
    if key !in t then Err(KeyError)
    else if BandPair(bi, defIndex) !in t[key] then Err(KeyError)
    else Ok(t[key][BandPair(bi, defIndex)])
  }

  /** `np.sign(q) * np.abs(wswq[(spin+1, kpoint)][(bi, def_index)])`, where
      `wswq` is what reading the file gave (a failed read propagates). */
  function Matel(q: real, read: Result<Table>, spin: int, kpoint: int, bi: int, defIndex: int,
                 absOf: Overlap -> real): Result<real>
  {
    if read.Err? then Err(read.error)
    else
      var v := Lookup(read.value, spin, kpoint, bi, defIndex);
      if v.Err? then Err(v.error) else Ok(Sign(q) * absOf(v.value))
  }

  /** The file read and every bulk band's overlap with the defect band is there. */
  predicate ReadableFrom(read: Result<Table>, spin: int, kpoint: int, bulk: seq<int>, defIndex: int) {
    read.Ok? && forall j :: 0 <= j < |bulk| ==> Lookup(read.value, spin, kpoint, bulk[j], defIndex).Ok?
  }

  /** The WSWQ file of a sample parses and holds every looked-up overlap. */
  predicate Readable(s: Sample, spin: int, kpoint: int, bulk: seq<int>, defIndex: int) {
    ReadableFrom(ReadTable(s.lines), spin, kpoint, bulk, defIndex)
  }

  /** The error a sample's file raises when it is not usable: the reader's own
      error when the file does not parse, otherwise the KeyError of a missing overlap. */
  function ErrorOf(read: Result<Table>): Error {
    if read.Err? then read.error else KeyError
  }

  /** Sample k is the first sample whose file is not usable. */
  predicate FailsFirstAt(samples: seq<Sample>, read: seq<string> -> Result<Table>,
                         spin: int, kpoint: int, bulk: seq<int>, defIndex: int, k: int)
  {
    0 <= k < |samples| &&
    (forall k' :: 0 <= k' < k ==> ReadableFrom(read(samples[k'].lines), spin, kpoint, bulk, defIndex)) &&
    !ReadableFrom(read(samples[k].lines), spin, kpoint, bulk, defIndex)
  }

  /** There is at most one first unusable sample, so the error it names is determined. */
  lemma FirstFailureUnique(samples: seq<Sample>, read: seq<string> -> Result<Table>,
                           spin: int, kpoint: int, bulk: seq<int>, defIndex: int, k1: int, k2: int)
    requires FailsFirstAt(samples, read, spin, kpoint, bulk, defIndex, k1)
    requires FailsFirstAt(samples, read, spin, kpoint, bulk, defIndex, k2)
    ensures k1 == k2
  {
  }

  /** `np.abs(bvr.eigenvalues[sp][kpoint-1][bi-1][0])` for bulk band bi: the
      entry the source stores in its array `deig`. */
  function AbsEigenvalue(eigen: (Spin, int, int) -> real, spin: int, kpoint: int, bi: int): real {
    Abs(eigen(SpinOf(spin), kpoint - 1, bi - 1))
  }

  /** The contents of a two-dimensional array, row by row. */
  function Rows(m: array2<real>): (rows: seq<seq<real>>)
    reads m
    ensures |rows| == m.Length0
    ensures forall j :: 0 <= j < m.Length0 ==> |rows[j]| == m.Length1
    ensures forall j, i :: 0 <= j < m.Length0 && 0 <= i < m.Length1 ==> rows[j][i] == m[j, i]
  {
    seq(m.Length0, j requires 0 <= j < m.Length0 reads m =>
      seq(m.Length1, i requires 0 <= i < m.Length1 reads m => m[j, i]))
  }

  /** The loop that stores each bulk band's eigenvalue in `deig`, followed by
      `deig = np.abs(deig)`. */
  method FillAbsEigenvalues(deig: array<real>, eigen: (Spin, int, int) -> real, bulk: seq<int>,
                              spin: int, kpoint: int)
    requires deig.Length == |bulk|
    modifies deig
    ensures forall j :: 0 <= j < |bulk| ==> deig[j] == AbsEigenvalue(eigen, spin, kpoint, bulk[j])
  {
    for j := 0 to |bulk|
      invariant forall j' :: 0 <= j' < j ==> deig[j'] == eigen(SpinOf(spin), kpoint - 1, bulk[j'] - 1)
    {
      var sp := SpinOf(spin);
      deig[j] := eigen(sp, kpoint - 1, bulk[j] - 1);
    }
    for j := 0 to |bulk|
      invariant forall j' :: 0 <= j' < j ==> deig[j'] == AbsEigenvalue(eigen, spin, kpoint, bulk[j'])
      invariant forall j' :: j <= j' < |bulk| ==> deig[j'] == eigen(SpinOf(spin), kpoint - 1, bulk[j'] - 1)
    {
      deig[j] := Abs(deig[j]);
    }
  }

  /** The inner loop for one sample: column i of the matrix elements from the
      sample's table t. It reports false (a KeyError) as soon as a lookup
      fails, and touches no other column. */
  method FillColumn(matels: array2<real>, i: nat, q: real, t: Table, absOf: Overlap -> real,
                    defIndex: int, bulk: seq<int>, spin: int, kpoint: int) returns (found: bool)
    requires matels.Length0 == |bulk| && i < matels.Length1
    modifies matels
    ensures found <==> ReadableFrom(Ok(t), spin, kpoint, bulk, defIndex)
    ensures found ==> forall j :: 0 <= j < |bulk| ==>
      Matel(q, Ok(t), spin, kpoint, bulk[j], defIndex, absOf) == Ok(matels[j, i])
    ensures forall j, k :: 0 <= j < matels.Length0 && 0 <= k < matels.Length1 && k != i ==>
      matels[j, k] == old(matels[j, k])
  {
    for j := 0 to |bulk|
      invariant forall j' :: 0 <= j' < j ==>
        Matel(q, Ok(t), spin, kpoint, bulk[j'], defIndex, absOf) == Ok(matels[j', i])
      invariant forall j', k :: 0 <= j' < matels.Length0 && 0 <= k < matels.Length1 && k != i ==>
        matels[j', k] == old(matels[j', k])
    {
      var key := SectionKey(spin, kpoint);
      if key !in t {
        assert Lookup(t, spin, kpoint, bulk[j], defIndex).Err?;
        return false;
      }
      var pair := BandPair(bulk[j], defIndex);
      if pair !in t[key] {
        assert Lookup(t, spin, kpoint, bulk[j], defIndex).Err?;
        return false;
      }
      matels[j, i] := Sign(q) * absOf(t[key][pair]);
    }
    return true;
  }

  /** The loop over the samples: Q[i] and column i of the matrix elements for
      each sample in turn, reading the sample's file with `read`; the first file
      that does not parse or lacks an overlap stops it with that file's error. */
  method FillSamples(q: array<real>, matels: array2<real>, samples: seq<Sample>,
                     read: seq<string> -> Result<Table>, absOf: Overlap -> real,
                     defIndex: int, bulk: seq<int>, spin: int, kpoint: int) returns (failure: Option<Error>)
    requires forall k :: 0 <= k < |samples| && read(samples[k].lines).Err? ==>
      read(samples[k].lines).error == KeyError || read(samples[k].lines).error == ValueError
    requires q.Length == |samples| + 1 && q[|samples|] == 0.0
    requires matels.Length0 == |bulk| && matels.Length1 == |samples| + 1
    requires forall j :: 0 <= j < |bulk| ==> matels[j, |samples|] == 0.0
    modifies q, matels
    ensures failure.Some? ==> failure.value == KeyError || failure.value == ValueError
    ensures failure.Some? <==>
      exists k :: 0 <= k < |samples| && !ReadableFrom(read(samples[k].lines), spin, kpoint, bulk, defIndex)
    ensures failure.Some? ==>
      exists k :: FailsFirstAt(samples, read, spin, kpoint, bulk, defIndex, k) &&
        failure.value == ErrorOf(read(samples[k].lines))
    ensures failure.None? ==>
      q[|samples|] == 0.0 && (forall k :: 0 <= k < |samples| ==> q[k] == samples[k].q) &&
      (forall j :: 0 <= j < |bulk| ==> matels[j, |samples|] == 0.0) &&
      forall j, k :: 0 <= j < |bulk| && 0 <= k < |samples| ==>
        Matel(samples[k].q, read(samples[k].lines), spin, kpoint, bulk[j], defIndex, absOf) == Ok(matels[j, k])
  {
    var nw := |samples|;
    for i := 0 to nw
      invariant q[nw] == 0.0 && forall k :: 0 <= k < i ==> q[k] == samples[k].q
      invariant forall k :: 0 <= k < i ==> ReadableFrom(read(samples[k].lines), spin, kpoint, bulk, defIndex)
      invariant forall j, k :: 0 <= j < |bulk| && 0 <= k < i ==>
        Matel(samples[k].q, read(samples[k].lines), spin, kpoint, bulk[j], defIndex, absOf) == Ok(matels[j, k])
      invariant forall j :: 0 <= j < |bulk| ==> matels[j, nw] == 0.0
    {
      q[i] := samples[i].q;
      var wswq := read(samples[i].lines);
      if wswq.Err? {
        assert FailsFirstAt(samples, read, spin, kpoint, bulk, defIndex, i);
        return Some(wswq.error);
      }
      var found := FillColumn(matels, i, samples[i].q, wswq.value, absOf, defIndex, bulk, spin, kpoint);
      if !found {
        assert FailsFirstAt(samples, read, spin, kpoint, bulk, defIndex, i);
        return Some(KeyError);
      }
    }
    return None;
  }

  /** The part of `get_Wif_from_WSWQ` before the fit, for a given file reader:
      the absolute eigenvalues, then Q and the matrix elements sample by
      sample, each row ending in a zero entry. */
  method AssembleWith(samples: seq<Sample>, read: seq<string> -> Result<Table>,
                      eigen: (Spin, int, int) -> real, absOf: Overlap -> real,
                      defIndex: int, bulk: seq<int>, spin: int, kpoint: int)
    returns (r: Result<Assembly>)
    requires forall k :: 0 <= k < |samples| && read(samples[k].lines).Err? ==>
      read(samples[k].lines).error == KeyError || read(samples[k].lines).error == ValueError
    ensures r.Err? <==>
      exists k :: 0 <= k < |samples| && !ReadableFrom(read(samples[k].lines), spin, kpoint, bulk, defIndex)
    ensures r.Err? ==> r.error == KeyError || r.error == ValueError
    ensures r.Err? ==>
      exists k :: FailsFirstAt(samples, read, spin, kpoint, bulk, defIndex, k) &&
        r.error == ErrorOf(read(samples[k].lines))
    ensures r.Ok? ==>
      |r.value.q| == |samples| + 1 && r.value.q[|samples|] == 0.0 &&
      (forall k :: 0 <= k < |samples| ==> r.value.q[k] == samples[k].q)
    ensures r.Ok? ==>
      |r.value.matels| == |bulk| &&
      forall j :: 0 <= j < |bulk| ==>
        |r.value.matels[j]| == |samples| + 1 && r.value.matels[j][|samples|] == 0.0 &&
        forall k :: 0 <= k < |samples| ==>
          Matel(samples[k].q, read(samples[k].lines), spin, kpoint, bulk[j], defIndex, absOf) ==
            Ok(r.value.matels[j][k])
    ensures r.Ok? ==>
      |r.value.deig| == |bulk| &&
      forall j :: 0 <= j < |bulk| ==> r.value.deig[j] == AbsEigenvalue(eigen, spin, kpoint, bulk[j])
  {
    var nw, nbi := |samples|, |bulk|;
    var q := new real[nw + 1](_ => 0.0);
    var matels := new real[nbi, nw + 1]((_, _) => 0.0);
    var deig := new real[nbi](_ => 0.0);

    FillAbsEigenvalues(deig, eigen, bulk, spin, kpoint);
    var failure := FillSamples(q, matels, samples, read, absOf, defIndex, bulk, spin, kpoint);
    if failure.Some? {
      return Err(failure.value);
    }
    return Ok(Assembly(q[..], Rows(matels), deig[..]));
  }

  /** `get_Wif_from_WSWQ` up to the fit, each file read with `_read_WSWQ`. It
      fails exactly when some WSWQ file does not parse (KeyError or ValueError)
      or lacks one of the looked-up overlaps (KeyError); otherwise Q and every row of matrix
      elements carry one entry per sample, in sample order, followed by a zero
      entry, and `deig` holds the magnitudes of the bulk
      bands' eigenvalues. */
  method AssembleOverlaps(samples: seq<Sample>, eigen: (Spin, int, int) -> real, absOf: Overlap -> real,
                          defIndex: int, bulk: seq<int>, spin: int, kpoint: int)
    returns (r: Result<Assembly>)
    ensures r.Err? <==> exists k :: 0 <= k < |samples| && !Readable(samples[k], spin, kpoint, bulk, defIndex)
    ensures r.Err? ==> r.error == KeyError || r.error == ValueError
    ensures r.Err? ==>
      exists k :: FailsFirstAt(samples, ReadTable, spin, kpoint, bulk, defIndex, k) &&
        r.error == ErrorOf(ReadTable(samples[k].lines))
    ensures r.Ok? ==>
      |r.value.q| == |samples| + 1 && r.value.q[|samples|] == 0.0 &&
      (forall k :: 0 <= k < |samples| ==> r.value.q[k] == samples[k].q)
    ensures r.Ok? ==>
      |r.value.matels| == |bulk| &&
      forall j :: 0 <= j < |bulk| ==>
        |r.value.matels[j]| == |samples| + 1 && r.value.matels[j][|samples|] == 0.0 &&
        forall k :: 0 <= k < |samples| ==>
          Matel(samples[k].q, ReadTable(samples[k].lines), spin, kpoint, bulk[j], defIndex, absOf) ==
            Ok(r.value.matels[j][k])
    ensures r.Ok? ==>
      |r.value.deig| == |bulk| &&
      forall j :: 0 <= j < |bulk| ==> r.value.deig[j] == AbsEigenvalue(eigen, spin, kpoint, bulk[j])
  {
    forall k | 0 <= k < |samples|
      ensures ReadTable(samples[k].lines).Err? ==>
        ReadTable(samples[k].lines).error == KeyError || ReadTable(samples[k].lines).error == ValueError
    {
      ScanFails(ClassifyAll(samples[k].lines));
    }
    r := AssembleWith(samples, ReadTable, eigen, absOf, defIndex, bulk, spin, kpoint);
  }

  /** With at least one bulk band, a file can be used exactly when every bulk
      band's matrix element can be formed from it. */
  lemma ReadableIffMatels(read: Result<Table>, q: real, spin: int, kpoint: int, bulk: seq<int>,
                          defIndex: int, absOf: Overlap -> real)
    requires |bulk| > 0
    ensures ReadableFrom(read, spin, kpoint, bulk, defIndex) <==>
      forall j :: 0 <= j < |bulk| ==> Matel(q, read, spin, kpoint, bulk[j], defIndex, absOf).Ok?
  {
    if read.Err? {
      assert Matel(q, read, spin, kpoint, bulk[0], defIndex, absOf).Err?;
    }
  }

  /** A matrix element has the magnitude of its overlap and the sign of Q:
      it is zero at Q = 0, non-negative for Q > 0 and non-positive for Q < 0. */
  lemma MatelSignedMagnitude(q: real, t: Table, spin: int, kpoint: int, bi: int, defIndex: int,
                             absOf: Overlap -> real, v: Overlap)
    requires Lookup(t, spin, kpoint, bi, defIndex) == Ok(v) && absOf(v) >= 0.0
    ensures Matel(q, Ok(t), spin, kpoint, bi, defIndex, absOf).Ok?
    ensures Abs(Matel(q, Ok(t), spin, kpoint, bi, defIndex, absOf).value) == if q == 0.0 then 0.0 else absOf(v)
    ensures q > 0.0 ==> Matel(q, Ok(t), spin, kpoint, bi, defIndex, absOf).value >= 0.0
    ensures q < 0.0 ==> Matel(q, Ok(t), spin, kpoint, bi, defIndex, absOf).value <= 0.0
  {
  }

  /** The file of the two-section example: spin channel 0 at k-point 1 finds
      the overlap of bands (1, 2), signed by Q; spin channel 1 has no section. */
  lemma ExampleMatels(absOf: Overlap -> real)
    ensures Matel(-0.5, ReadTable([MarkerLine(1, 1, 3), DataLine(1, 2, "0.5", "-0.25", 2),
                                   MarkerLine(1, 2, 3), DataLine(1, 2, "0.5", "-0.25", 2)]),
                  0, 1, 1, 2, absOf) == Ok(-1.0 * absOf(Overlap("0.5", "-0.25")))
    ensures Matel(-0.5, ReadTable([MarkerLine(1, 1, 3), DataLine(1, 2, "0.5", "-0.25", 2),
                                   MarkerLine(1, 2, 3), DataLine(1, 2, "0.5", "-0.25", 2)]),
                  1, 1, 1, 2, absOf) == Err(KeyError)
  {
    TwoSections();
    ExampleMatelsOf(ReadTable([MarkerLine(1, 1, 3), DataLine(1, 2, "0.5", "-0.25", 2),
                               MarkerLine(1, 2, 3), DataLine(1, 2, "0.5", "-0.25", 2)]), absOf);
  }

  lemma ExampleMatelsOf(read: Result<Table>, absOf: Overlap -> real)
    requires read == Ok(map[Key(1, 1) := map[BandPair(1, 2) := Overlap("0.5", "-0.25")],
                            Key(1, 2) := map[BandPair(1, 2) := Overlap("0.5", "-0.25")]])
    ensures Matel(-0.5, read, 0, 1, 1, 2, absOf) == Ok(-1.0 * absOf(Overlap("0.5", "-0.25")))
    ensures Matel(-0.5, read, 1, 1, 1, 2, absOf) == Err(KeyError)
  {
  }
}
