/** The potential energy surface of `get_PES_from_vaspruns` in nonrad/utils.py:
    one (Q, energy) point per finished relaxation, energies taken relative to
    the lowest one. Reading vasprun.xml files is not modelled: each run is
    given as its final structure and final energy. */
module Pes {
  import opened Wrappers
  import opened ConfigCoord

  /** What is used of one vasprun.xml: the last ionic structure and the final energy. */
  datatype Run = Run(finalStructure: Structure, finalEnergy: real)

  /** The returned pair of arrays, as sequences. */
  datatype Surface = Surface(q: seq<real>, energy: seq<real>)

  /** `np.min` of a non-empty list. */
  function MinOf(es: seq<real>): (m: real)
    requires es != []
    ensures m in es
    ensures forall k :: 0 <= k < |es| ==> m <= es[k]
  {
    if |es| == 1 then es[0]
    else
      var rest := MinOf(es[1..]);
      assert forall k :: 1 <= k < |es| ==> es[k] == es[1..][k - 1];
      if es[0] <= rest then es[0] else rest
  }

  /** `energy - np.min(energy)`. */
  function Shifted(es: seq<real>): (r: seq<real>)
    requires es != []
    ensures |r| == |es|
  {
    seq(|es|, k requires 0 <= k < |es| => es[k] - MinOf(es))
  }

  function Energies(runs: seq<Run>): (es: seq<real>)
    ensures |es| == |runs| && forall k :: 0 <= k < |runs| ==> es[k] == runs[k].finalEnergy
  {
    seq(|runs|, k requires 0 <= k < |runs| => runs[k].finalEnergy)
  }

  /** Every run's final structure has well-defined axis ratios. */
  predicate AllRatiosDefined(ground: Structure, excited: Structure, runs: seq<Run>, tol: real,
                             distance: (Site, Site) -> real) {
    forall k :: 0 <= k < |runs| ==> RatiosDefined(ground, excited, runs[k].finalStructure, tol, distance)
  }

  /** `get_Q_from_struct(ground, excited, ., tol)` as a function of the structure. */
  function QOf(ground: Structure, excited: Structure, tol: real, distance: (Site, Site) -> real,
               sqrt: real -> real): (qOf: Structure --> Result<real>)
    ensures forall s :: RatiosDefined(ground, excited, s, tol, distance) ==>
      qOf.requires(s) && qOf(s) == QFromStruct(ground, excited, s, tol, distance, sqrt)
  {
    s requires RatiosDefined(ground, excited, s, tol, distance) => QFromStruct(ground, excited, s, tol, distance, sqrt)
  }

  /** qOf can be applied to every run's final structure. */
  ghost predicate Applicable(runs: seq<Run>, qOf: Structure --> Result<real>) {
    forall k :: 0 <= k < |runs| ==> qOf.requires(runs[k].finalStructure)
  }

  /** The outcome of the Q computation for each run's final structure, in run order. */
  function RunQs(runs: seq<Run>, qOf: Structure --> Result<real>): (rs: seq<Result<real>>)
    requires Applicable(runs, qOf)
    ensures |rs| == |runs|
    ensures forall k :: 0 <= k < |runs| ==> rs[k] == qOf(runs[k].finalStructure)
  {
    seq(|runs|, k requires 0 <= k < |runs| => qOf(runs[k].finalStructure))
  }

  /** The values of the outcomes in order; the first failure ends the whole
      computation with its error. */
  function Collect(rs: seq<Result<real>>): Result<seq<real>> {
    if rs == [] then Ok([])
    else
      var last := |rs| - 1;
      var earlier := Collect(rs[..last]);
      if earlier.Err? then earlier
      else if rs[last].Err? then Err(rs[last].error)
      else Ok(earlier.value + [rs[last].value])
  }

  /** The surface for a given Q computation: the Q values, then the energies
      shifted by their minimum; with no runs at all `np.min` raises ValueError. */
  function PesWith(runs: seq<Run>, qOf: Structure --> Result<real>): Result<Surface>
    requires Applicable(runs, qOf)
  {
    var qs := Collect(RunQs(runs, qOf));
    if qs.Err? then Err(qs.error)
    else if runs == [] then Err(ValueError)
    else Ok(Surface(qs.value, Shifted(Energies(runs))))
  }

  /** `get_PES_from_vaspruns`. */
  function PesFromRuns(ground: Structure, excited: Structure, runs: seq<Run>, tol: real,
                       distance: (Site, Site) -> real, sqrt: real -> real): Result<Surface>
    requires AllRatiosDefined(ground, excited, runs, tol, distance)
  {
    PesWith(runs, QOf(ground, excited, tol, distance, sqrt))
  }

  /** The loop of `get_PES_from_vaspruns` for a given Q computation: Q and
      energy filled by index, then the energies shifted by their minimum. */
  method GetPesWith(runs: seq<Run>, qOf: Structure --> Result<real>) returns (r: Result<Surface>)
    requires Applicable(runs, qOf)
    ensures r == PesWith(runs, qOf)
  {
    var num := |runs|;
    var q := new real[num](_ => 0.0);
    var energy := new real[num](_ => 0.0);
    ghost var qs := RunQs(runs, qOf);
    var i := 0;
    while i < num
      invariant 0 <= i <= num
      invariant Collect(qs[..i]) == Ok(q[..i])
      invariant energy[..i] == Energies(runs[..i])
    {
      var qi := qOf(runs[i].finalStructure);
      CollectStep(qs, i);
      if qi.Err? {
        PesFailsAt(runs, qOf, i + 1);
        return Err(qi.error);
      }
      q[i] := qi.value;
      energy[i] := runs[i].finalEnergy;
      assert q[..i + 1] == q[..i] + [qi.value];
      assert energy[..i + 1] == Energies(runs[..i + 1]);
      i := i + 1;
    }
    assert qs[..num] == qs;
    if num == 0 {
      return Err(ValueError);
    }
    assert q[..num] == q[..] && energy[..num] == energy[..] && runs[..num] == runs;
    ShiftByMin(energy);
    return Ok(Surface(q[..], energy[..]));
  }

  /** `get_PES_from_vaspruns` with each run's Q from `get_Q_from_struct`. */
  method GetPesFromRuns(ground: Structure, excited: Structure, runs: seq<Run>, tol: real,
                        distance: (Site, Site) -> real, sqrt: real -> real) returns (r: Result<Surface>)
    requires AllRatiosDefined(ground, excited, runs, tol, distance)
    ensures r == PesFromRuns(ground, excited, runs, tol, distance, sqrt)
  {
    r := GetPesWith(runs, QOf(ground, excited, tol, distance, sqrt));
  }

  /** `energy - np.min(energy)`, written over the array. */
  method ShiftByMin(energy: array<real>)
    requires energy.Length > 0
    modifies energy
    ensures energy[..] == Shifted(old(energy[..]))
  {
    var low := MinOf(energy[..]);
    ghost var raw := energy[..];
    for k := 0 to energy.Length
      invariant forall j :: 0 <= j < k ==> energy[j] == raw[j] - low
      invariant forall j :: k <= j < energy.Length ==> energy[j] == raw[j]
    {
      energy[k] := energy[k] - low;
    }
  }

  lemma CollectStep(rs: seq<Result<real>>, n: nat)
    requires n < |rs|
    ensures Collect(rs[..n + 1]) ==
      if Collect(rs[..n]).Err? then Collect(rs[..n])
      else if rs[n].Err? then Err(rs[n].error)
      else Ok(Collect(rs[..n]).value + [rs[n].value])
  {
    assert rs[..n + 1][..n] == rs[..n];
  }

  /** Once a prefix of the outcomes fails, every longer prefix fails the same way. */
  lemma {:induction false} CollectErrorPersists(rs: seq<Result<real>>, n: nat)
    requires n <= |rs|
    requires Collect(rs[..n]).Err?
    ensures Collect(rs) == Collect(rs[..n])
    decreases |rs| - n
  {
    if n < |rs| {
      assert rs[..n + 1][..n] == rs[..n];
      CollectErrorPersists(rs, n + 1);
    } else {
      assert rs[..n] == rs;
    }
  }

  /** A Q that fails makes the whole surface fail with the first such error. */
  lemma PesFailsAt(runs: seq<Run>, qOf: Structure --> Result<real>, n: nat)
    requires n <= |runs| && Applicable(runs, qOf)
    requires Collect(RunQs(runs, qOf)[..n]).Err?
    ensures PesWith(runs, qOf) == Err(Collect(RunQs(runs, qOf)[..n]).error)
  {
    CollectErrorPersists(RunQs(runs, qOf), n);
  }

  /** Collecting succeeds exactly when every outcome does, and then keeps
      every value in order. */
  lemma {:induction false} CollectInOrder(rs: seq<Result<real>>)
    ensures Collect(rs).Ok? <==> forall k :: 0 <= k < |rs| ==> rs[k].Ok?
    ensures Collect(rs).Ok? ==>
      |Collect(rs).value| == |rs| && forall k :: 0 <= k < |rs| ==> Collect(rs).value[k] == rs[k].value
  {
    if rs != [] {
      var last := |rs| - 1;
      var init := rs[..last];
      CollectInOrder(init);
      forall k | 0 <= k < last ensures init[k] == rs[k] { }
    }
  }

  /** A failed collection carries the error of the first failing outcome:
      every outcome before it succeeded. */
  lemma {:induction false} CollectFirstError(rs: seq<Result<real>>)
    ensures Collect(rs).Err? ==>
      exists k :: 0 <= k < |rs| && (forall j :: 0 <= j < k ==> rs[j].Ok?) &&
        rs[k].Err? && Collect(rs).error == rs[k].error
  {
    if rs != [] && Collect(rs).Err? {
      var last := |rs| - 1;
      var init := rs[..last];
      if Collect(init).Err? {
        CollectFirstError(init);
        var k :| 0 <= k < |init| && (forall j :: 0 <= j < k ==> init[j].Ok?) &&
          init[k].Err? && Collect(init).error == init[k].error;
        assert forall j :: 0 <= j <= k ==> init[j] == rs[j];
      } else {
        CollectInOrder(init);
        assert forall j :: 0 <= j < last ==> init[j] == rs[j];
        assert rs[last].Err? && Collect(rs).error == rs[last].error;
      }
    }
  }

  /** The shifted energies keep every difference, are all non-negative, and the
      lowest run sits at exactly zero. */
  lemma ShiftedIsRelative(es: seq<real>)
    requires es != []
    ensures forall a, b :: 0 <= a < |es| && 0 <= b < |es| ==> Shifted(es)[a] - Shifted(es)[b] == es[a] - es[b]
    ensures forall k :: 0 <= k < |es| ==> Shifted(es)[k] >= 0.0
    ensures exists k :: 0 <= k < |es| && Shifted(es)[k] == 0.0
  {
    var m := MinOf(es);
    var k :| 0 <= k < |es| && es[k] == m;
    assert Shifted(es)[k] == 0.0;
  }

  /** Adding the same constant to every energy does not change the surface. */
  lemma ShiftInvariant(es: seq<real>, c: real)
    requires es != []
    ensures Shifted(seq(|es|, k requires 0 <= k < |es| => es[k] + c)) == Shifted(es)
  {
    var moved := seq(|es|, k requires 0 <= k < |es| => es[k] + c);
    var m := MinOf(es);
    var mm := MinOf(moved);
    var k :| 0 <= k < |es| && es[k] == m;
    var j :| 0 <= j < |moved| && moved[j] == mm;
    assert mm <= moved[k];
    assert m <= es[j];
    assert mm == m + c;
  }

  /** What the surface is, for any Q computation: an error exactly when there
      are no runs or some run's Q fails, and then the error of the first run
      whose Q fails (ValueError when there are no runs); otherwise one Q per run in run order
      and energies relative to the lowest run, all non-negative with a zero. */
  lemma PesWithMeaning(runs: seq<Run>, qOf: Structure --> Result<real>)
    requires Applicable(runs, qOf)
    ensures PesWith(runs, qOf).Err? <==>
      runs == [] || exists k :: 0 <= k < |runs| && qOf(runs[k].finalStructure).Err?
    ensures runs == [] ==> PesWith(runs, qOf) == Err(ValueError)
    ensures PesWith(runs, qOf).Err? && runs != [] ==>
      exists k :: 0 <= k < |runs| && (forall j :: 0 <= j < k ==> qOf(runs[j].finalStructure).Ok?) &&
        qOf(runs[k].finalStructure).Err? && PesWith(runs, qOf).error == qOf(runs[k].finalStructure).error
    ensures PesWith(runs, qOf).Ok? ==>
      var s := PesWith(runs, qOf).value;
      |s.q| == |s.energy| == |runs| &&
      (forall k :: 0 <= k < |runs| ==> s.q[k] == qOf(runs[k].finalStructure).value) &&
      (forall k :: 0 <= k < |runs| ==> s.energy[k] >= 0.0) &&
      (exists k :: 0 <= k < |runs| && s.energy[k] == 0.0) &&
      (forall a, b :: 0 <= a < |runs| && 0 <= b < |runs| ==>
        s.energy[a] - s.energy[b] == runs[a].finalEnergy - runs[b].finalEnergy)
  {
    CollectInOrder(RunQs(runs, qOf));
    CollectFirstError(RunQs(runs, qOf));
    if runs != [] {
      ShiftedIsRelative(Energies(runs));
    }
  }

  /** What `get_PES_from_vaspruns` returns: an error exactly when there are no
      runs (ValueError) or `get_Q_from_struct` fails for some run; otherwise
      that Q for each run in run order, and energies relative to the lowest run. */
  lemma PesFromRunsMeaning(ground: Structure, excited: Structure, runs: seq<Run>, tol: real,
                           distance: (Site, Site) -> real, sqrt: real -> real)
    requires AllRatiosDefined(ground, excited, runs, tol, distance)
    ensures PesFromRuns(ground, excited, runs, tol, distance, sqrt).Err? <==>
      runs == [] || exists k :: 0 <= k < |runs| && QFromStruct(ground, excited, runs[k].finalStructure, tol, distance, sqrt).Err?
    ensures runs == [] ==> PesFromRuns(ground, excited, runs, tol, distance, sqrt) == Err(ValueError)
    ensures PesFromRuns(ground, excited, runs, tol, distance, sqrt).Err? && runs != [] ==>
      exists k :: 0 <= k < |runs| &&
        (forall j :: 0 <= j < k ==> QFromStruct(ground, excited, runs[j].finalStructure, tol, distance, sqrt).Ok?) &&
        QFromStruct(ground, excited, runs[k].finalStructure, tol, distance, sqrt).Err? &&
        PesFromRuns(ground, excited, runs, tol, distance, sqrt).error ==
          QFromStruct(ground, excited, runs[k].finalStructure, tol, distance, sqrt).error
    ensures PesFromRuns(ground, excited, runs, tol, distance, sqrt).Ok? ==>
      var s := PesFromRuns(ground, excited, runs, tol, distance, sqrt).value;
      |s.q| == |s.energy| == |runs| &&
      (forall k :: 0 <= k < |runs| ==> s.q[k] == QFromStruct(ground, excited, runs[k].finalStructure, tol, distance, sqrt).value) &&
      (forall k :: 0 <= k < |runs| ==> s.energy[k] >= 0.0) &&
      (exists k :: 0 <= k < |runs| && s.energy[k] == 0.0) &&
      (forall a, b :: 0 <= a < |runs| && 0 <= b < |runs| ==> s.energy[a] - s.energy[b] == runs[a].finalEnergy - runs[b].finalEnergy)
  {
    PesWithMeaning(runs, QOf(ground, excited, tol, distance, sqrt));
  }
}
