/** The configuration-coordinate helpers of nonrad/utils.py: the displacement
    lists of `get_cc_structures`, the mass-weighted distance of `get_dQ`, and
    the recovery of Q for a structure in `get_Q_from_struct`.

    pymatgen's site distance, `Structure.interpolate` and `np.sqrt` are not
    visible here; they are taken as function parameters and left uninterpreted. */
module ConfigCoord {
  import opened Wrappers
  import opened ConsensusMode

  datatype Vec = Vec(x: real, y: real, z: real)

  /** A site: Cartesian position and the atomic mass of its species. */
  datatype Site = Site(coords: Vec, mass: real)

  type Structure = seq<Site>

  // ---------------------------------------------------------------------------
  // get_cc_structures

  /** `displacements[displacements != 0.]`: drop every exact zero, keep the order. */
  function RemoveZeros(ds: seq<real>): (r: seq<real>)
    ensures 0.0 !in r
    ensures multiset(r) == multiset(ds)[0.0 := 0]
  {
    if ds == [] then []
    else
      assert ds == [ds[0]] + ds[1..];
      (if ds[0] == 0.0 then [] else [ds[0]]) + RemoveZeros(ds[1..])
  }

  /** Removing zeros works piece by piece, so it keeps the order of what it keeps. */
  lemma {:induction false} RemoveZerosAppend(a: seq<real>, b: seq<real>)
    ensures RemoveZeros(a + b) == RemoveZeros(a) + RemoveZeros(b)
  {
    if a != [] {
      assert (a + b)[1..] == a[1..] + b;
      RemoveZerosAppend(a[1..], b);
    } else {
      assert a + b == b;
    }
  }

  /** A list without zeros passes unchanged. */
  lemma {:induction false} RemoveZerosKeepsNonzero(ds: seq<real>)
    requires 0.0 !in ds
    ensures RemoveZeros(ds) == ds
  {
    if ds != [] {
      assert ds[1..] == ds[1..] && 0.0 !in ds[1..] by {
        forall k | 0 <= k < |ds[1..]| ensures ds[1..][k] != 0.0 {
          assert ds[1..][k] == ds[k + 1];
        }
      }
      RemoveZerosKeepsNonzero(ds[1..]);
      assert ds == [ds[0]] + ds[1..];
    }
  }

  /** The displacements used: without zeros when removeZero is set. */
  function UsedDisplacements(ds: seq<real>, removeZero: bool): seq<real> {
    if removeZero then RemoveZeros(ds) else ds
  }

  /** The two families of structures, as the interpolation parameters they are
      requested at: the ground family at each displacement, the excited family
      at each displacement plus one. */
  function CcStructures<S>(ds: seq<real>, removeZero: bool, interp: real -> S): (r: (seq<S>, seq<S>))
    ensures |r.0| == |r.1| == |UsedDisplacements(ds, removeZero)|
    ensures forall i :: 0 <= i < |r.0| ==>
      r.0[i] == interp(UsedDisplacements(ds, removeZero)[i]) &&
      r.1[i] == interp(UsedDisplacements(ds, removeZero)[i] + 1.0)
  {
    var used := UsedDisplacements(ds, removeZero);
    (seq(|used|, i requires 0 <= i < |used| => interp(used[i])),
     seq(|used|, i requires 0 <= i < |used| => interp(used[i] + 1.0)))
  }

  /** With zeros removed and an interpolation that tells parameters apart, the
      ground family never repeats the ground endpoint (parameter 0) and the
      excited family never repeats the excited endpoint (parameter 1). */
  lemma NoEndpointRepeated<S>(ds: seq<real>, interp: real -> S)
    requires forall a, b :: interp(a) == interp(b) ==> a == b
    ensures interp(0.0) !in CcStructures(ds, true, interp).0
    ensures interp(1.0) !in CcStructures(ds, true, interp).1
  {
  }

  // ---------------------------------------------------------------------------
  // get_dQ

  /** dQ squared: the sum of mass * distance^2 over the sites of `zip(ground, excited)`
      (which stops at the shorter structure), using the ground site's mass. */
  function DQSquared(ground: Structure, excited: Structure, distance: (Site, Site) -> real): real {
    if ground == [] || excited == [] then 0.0
    else
      var d := distance(ground[0], excited[0]);
      d * d * ground[0].mass + DQSquared(ground[1..], excited[1..], distance)
  }

  /** `get_dQ`: the square root of DQSquared. */
  function GetDQ(ground: Structure, excited: Structure, distance: (Site, Site) -> real,
                 sqrt: real -> real): real {
    sqrt(DQSquared(ground, excited, distance))
  }

  /** With non-negative masses dQ squared is non-negative. */
  lemma {:induction false} DQSquaredNonNegative(ground: Structure, excited: Structure,
                                                distance: (Site, Site) -> real)
    requires forall i :: 0 <= i < |ground| ==> ground[i].mass >= 0.0
    ensures DQSquared(ground, excited, distance) >= 0.0
  {
    if ground != [] && excited != [] {
      var d := distance(ground[0], excited[0]);
      assert d * d >= 0.0;
      assert ground[0].mass >= 0.0;
      assert d * d * ground[0].mass >= 0.0;
      DQSquaredNonNegative(ground[1..], excited[1..], distance);
    }
  }

  /** Identical endpoints are no distance apart. */
  lemma {:induction false} DQSquaredSame(a: Structure, distance: (Site, Site) -> real)
    requires forall s :: distance(s, s) == 0.0
    ensures DQSquared(a, a, distance) == 0.0
  {
    if a != [] {
      DQSquaredSame(a[1..], distance);
    }
  }

  /** Sites past the end of the shorter structure are not counted. */
  lemma {:induction false} DQSquaredTruncates(ground: Structure, excited: Structure,
                                              distance: (Site, Site) -> real)
    requires |ground| <= |excited|
    ensures DQSquared(ground, excited, distance) == DQSquared(ground, excited[..|ground|], distance)
  {
    if ground != [] {
      assert excited[..|ground|][1..] == excited[1..][..|ground| - 1];
      DQSquaredTruncates(ground[1..], excited[1..], distance);
    }
  }

  // ---------------------------------------------------------------------------
  // get_Q_from_struct

  /** The per-axis denominators of a site are all non-zero. */
  predicate Moves(g: Site, e: Site) {
    e.coords.x != g.coords.x && e.coords.y != g.coords.y && e.coords.z != g.coords.z
  }

  /** `(site.coords - ground.coords) / (excited.coords - ground.coords)`, per axis. */
  function AxisRatios(g: Site, e: Site, s: Site): (r: seq<real>)
    requires Moves(g, e)
    ensures |r| == 3
    ensures s.coords.x == g.coords.x + r[0] * (e.coords.x - g.coords.x)
    ensures s.coords.y == g.coords.y + r[1] * (e.coords.y - g.coords.y)
    ensures s.coords.z == g.coords.z + r[2] * (e.coords.z - g.coords.z)
  {
    [(s.coords.x - g.coords.x) / (e.coords.x - g.coords.x),
     (s.coords.y - g.coords.y) / (e.coords.y - g.coords.y),
     (s.coords.z - g.coords.z) / (e.coords.z - g.coords.z)]
  }

  /** Every site that passes the distance filter moves along each axis
      (division by zero is not modelled). */
  predicate RatiosDefined(ground: Structure, excited: Structure, struct: Structure, tol: real,
                          distance: (Site, Site) -> real) {
    forall i :: (0 <= i < |struct| && i < |ground| && i < |excited| &&
                 distance(ground[i], excited[i]) >= tol) ==> Moves(ground[i], excited[i])
  }

  /** `possible_x` after the first n sites: the ratios of each site whose
      ground-to-excited distance is at least tol, in site order. */
  function Pool(ground: Structure, excited: Structure, struct: Structure, n: nat, tol: real,
                distance: (Site, Site) -> real): seq<real>
    requires n <= |struct| && n <= |ground| && n <= |excited|
    requires RatiosDefined(ground, excited, struct, tol, distance)
  {
    if n == 0 then []
    else
      var i := n - 1;
      Pool(ground, excited, struct, i, tol, distance) +
        (if distance(ground[i], excited[i]) < tol then []
         else AxisRatios(ground[i], excited[i], struct[i]))
  }

  /** How many of the first n sites pass the distance filter. */
  function KeptCount(ground: Structure, excited: Structure, n: nat, tol: real,
                     distance: (Site, Site) -> real): nat
    requires n <= |ground| && n <= |excited|
  {
    if n == 0 then 0
    else
      KeptCount(ground, excited, n - 1, tol, distance) +
        (if distance(ground[n - 1], excited[n - 1]) < tol then 0 else 1)
  }

  /** Kept sites only accumulate. */
  lemma {:induction false} KeptCountMonotone(ground: Structure, excited: Structure, i: nat, n: nat,
                                             tol: real, distance: (Site, Site) -> real)
    requires i <= n <= |ground| && n <= |excited|
    ensures KeptCount(ground, excited, i, tol, distance) <= KeptCount(ground, excited, n, tol, distance)
  {
    if i < n {
      KeptCountMonotone(ground, excited, i, n - 1, tol, distance);
    }
  }

  /** The pool holds exactly three ratios per kept site. */
  lemma {:induction false} PoolLength(ground: Structure, excited: Structure, struct: Structure, n: nat,
                                      tol: real, distance: (Site, Site) -> real)
    requires n <= |struct| && n <= |ground| && n <= |excited|
    requires RatiosDefined(ground, excited, struct, tol, distance)
    ensures |Pool(ground, excited, struct, n, tol, distance)| == 3 * KeptCount(ground, excited, n, tol, distance)
  {
    if n > 0 {
      PoolLength(ground, excited, struct, n - 1, tol, distance);
    }
  }

  /** The pool is in site order: the three ratios of a kept site i start right
      after those of the kept sites before it. A site at distance exactly tol
      is kept. */
  lemma {:induction false} PoolAt(ground: Structure, excited: Structure, struct: Structure, n: nat,
                                  i: nat, a: nat, tol: real, distance: (Site, Site) -> real)
    requires n <= |struct| && n <= |ground| && n <= |excited|
    requires RatiosDefined(ground, excited, struct, tol, distance)
    requires i < n && distance(ground[i], excited[i]) >= tol && a < 3
    ensures 3 * KeptCount(ground, excited, i, tol, distance) + a < |Pool(ground, excited, struct, n, tol, distance)|
    ensures Pool(ground, excited, struct, n, tol, distance)[3 * KeptCount(ground, excited, i, tol, distance) + a]
      == AxisRatios(ground[i], excited[i], struct[i])[a]
  {
    var m := n - 1;
    PoolLength(ground, excited, struct, m, tol, distance);
    if i < m {
      PoolAt(ground, excited, struct, m, i, a, tol, distance);
    }
  }

  /** The loop of `get_Q_from_struct` that fills `possible_x`; indexing the
      endpoint structures past their end raises IndexError. */
  method CollectRatios(ground: Structure, excited: Structure, struct: Structure, tol: real,
                       distance: (Site, Site) -> real) returns (r: Result<seq<real>>)
    requires RatiosDefined(ground, excited, struct, tol, distance)
    ensures r.Err? <==> |struct| > |ground| || |struct| > |excited|
    ensures r.Err? ==> r.error == IndexError
    ensures r.Ok? ==> r.value == Pool(ground, excited, struct, |struct|, tol, distance)
  {
    var possibleX: seq<real> := [];
    var i := 0;
    while i < |struct|
      invariant i <= |struct| && i <= |ground| && i <= |excited|
      invariant possibleX == Pool(ground, excited, struct, i, tol, distance)
    {
      if i >= |ground| || i >= |excited| {
        return Err(IndexError);
      }
      if distance(ground[i], excited[i]) >= tol {
        possibleX := possibleX + AxisRatios(ground[i], excited[i], struct[i]);
      }
      i := i + 1;
    }
    return Ok(possibleX);
  }

  /** `np.round(x)` on an exact value: the nearest integer, ties to even. */
  function RoundHalfEven(x: real): (r: int)
    ensures x - 0.5 <= r as real <= x + 0.5
    ensures (r as real - x == 0.5 || x - r as real == 0.5) ==> r % 2 == 0
  {
    var f := x.Floor;
    var d := x - f as real;
    if d < 0.5 then f
    else if d > 0.5 then f + 1
    else if f % 2 == 0 then f
    else f + 1
  }

  /** An integral value rounds to itself. */
  lemma RoundIntegral(n: int)
    ensures RoundHalfEven(n as real) == n
  {
    assert (n as real).Floor == n;
  }

  /** 10^6: `np.round(x, 6)` keeps six decimals. */
  const Scale: int := 1000000

  /** `np.round(x, 6)`, as the integer count of 10^-6 units. */
  function Round6(x: real): int {
    RoundHalfEven(x * Scale as real)
  }

  function RoundAll(xs: seq<real>): (r: seq<int>)
    ensures |r| == |xs| && forall k :: 0 <= k < |xs| ==> r[k] == Round6(xs[k])
  {
    seq(|xs|, k requires 0 <= k < |xs| => Round6(xs[k]))
  }

  /** The Q of a fraction given in 10^-6 units of the path of length dQ. */
  function AlongPath(dQ: real, fraction: int): real {
    dQ * (fraction as real / Scale as real)
  }

  /** `get_Q_from_struct`: dQ times the consensus fraction of the pooled ratios. */
  function QFromStruct(ground: Structure, excited: Structure, struct: Structure, tol: real,
                       distance: (Site, Site) -> real, sqrt: real -> real): Result<real>
    requires RatiosDefined(ground, excited, struct, tol, distance)
  {
    if |struct| > |ground| || |struct| > |excited| then Err(IndexError)
    else
      var m := Mode(RoundAll(Pool(ground, excited, struct, |struct|, tol, distance)));
      if m.Err? then Err(m.error)
      else Ok(AlongPath(GetDQ(ground, excited, distance, sqrt), m.value))
  }

  method GetQFromStruct(ground: Structure, excited: Structure, struct: Structure, tol: real,
                        distance: (Site, Site) -> real, sqrt: real -> real) returns (r: Result<real>)
    requires RatiosDefined(ground, excited, struct, tol, distance)
    ensures r == QFromStruct(ground, excited, struct, tol, distance, sqrt)
  {
    var possibleX := CollectRatios(ground, excited, struct, tol, distance);
    if possibleX.Err? {
      return Err(possibleX.error);
    }
    assert possibleX.value == Pool(ground, excited, struct, |struct|, tol, distance);
    var m := Mode(RoundAll(possibleX.value));
    if m.Err? {
      return Err(m.error);
    }
    var dQ := GetDQ(ground, excited, distance, sqrt);
    return Ok(AlongPath(dQ, m.value));
  }

  /** The computation fails exactly when a site index runs past an endpoint
      structure (IndexError) or when no site passes the distance filter
      (ValueError from `max` of nothing). */
  lemma QFromStructFails(ground: Structure, excited: Structure, struct: Structure, tol: real,
                         distance: (Site, Site) -> real, sqrt: real -> real)
    requires RatiosDefined(ground, excited, struct, tol, distance)
    ensures QFromStruct(ground, excited, struct, tol, distance, sqrt).Ok? <==>
      |struct| <= |ground| && |struct| <= |excited| && KeptCount(ground, excited, |struct|, tol, distance) > 0
    ensures QFromStruct(ground, excited, struct, tol, distance, sqrt).Err? ==>
      QFromStruct(ground, excited, struct, tol, distance, sqrt).error ==
        if |struct| > |ground| || |struct| > |excited| then IndexError else ValueError
  {
    if |struct| <= |ground| && |struct| <= |excited| {
      PoolLength(ground, excited, struct, |struct|, tol, distance);
    }
  }

  /** The point at fraction t of the straight path from a to b. */
  function Lerp(a: Vec, b: Vec, t: real): Vec {
    Vec(a.x + t * (b.x - a.x), a.y + t * (b.y - a.y), a.z + t * (b.z - a.z))
  }

  /** Every site of struct lies at fraction t of the way from ground to excited. */
  predicate OnPath(ground: Structure, excited: Structure, struct: Structure, t: real) {
    forall i :: 0 <= i < |struct| && i < |ground| && i < |excited| ==>
      struct[i].coords == Lerp(ground[i].coords, excited[i].coords, t)
  }

  lemma RatioOnPath(g: real, e: real, c: real, t: real)
    requires e != g && c == g + t * (e - g)
    ensures (c - g) / (e - g) == t
  {
    assert c - g == t * (e - g);
  }

  /** On the path, every pooled ratio is t. */
  lemma {:induction false} PoolOnPath(ground: Structure, excited: Structure, struct: Structure, n: nat,
                                      tol: real, distance: (Site, Site) -> real, t: real)
    requires n <= |struct| && n <= |ground| && n <= |excited|
    requires RatiosDefined(ground, excited, struct, tol, distance)
    requires OnPath(ground, excited, struct, t)
    ensures forall k :: 0 <= k < |Pool(ground, excited, struct, n, tol, distance)| ==>
      Pool(ground, excited, struct, n, tol, distance)[k] == t
  {
    if n > 0 {
      var i := n - 1;
      PoolOnPath(ground, excited, struct, i, tol, distance, t);
      if distance(ground[i], excited[i]) >= tol {
        var g, e, c := ground[i].coords, excited[i].coords, struct[i].coords;
        assert c == Lerp(g, e, t);
        RatioOnPath(g.x, e.x, c.x, t);
        RatioOnPath(g.y, e.y, c.y, t);
        RatioOnPath(g.z, e.z, c.z, t);
      }
    }
  }

  /** A structure at fraction t along the path gets Q = dQ * round(t, 6):
      the consensus recovers the fraction the structure was built at. */
  lemma QOnPath(ground: Structure, excited: Structure, struct: Structure, tol: real,
                distance: (Site, Site) -> real, sqrt: real -> real, t: real)
    requires |struct| <= |ground| && |struct| <= |excited|
    requires RatiosDefined(ground, excited, struct, tol, distance)
    requires OnPath(ground, excited, struct, t)
    requires KeptCount(ground, excited, |struct|, tol, distance) > 0
    ensures QFromStruct(ground, excited, struct, tol, distance, sqrt) ==
      Ok(AlongPath(GetDQ(ground, excited, distance, sqrt), Round6(t)))
  {
    var pool := Pool(ground, excited, struct, |struct|, tol, distance);
    PoolLength(ground, excited, struct, |struct|, tol, distance);
    PoolOnPath(ground, excited, struct, |struct|, tol, distance, t);
    var xs := RoundAll(pool);
    forall k | 0 <= k < |xs| ensures xs[k] == Round6(t) {
      assert pool[k] == t;
    }
    ModeOfUnanimous(xs, Round6(t));
  }

  /** The ends of the path: fraction 0 gives Q = 0 and fraction 1 gives Q = dQ. */
  lemma AlongPathEnds(dQ: real)
    ensures AlongPath(dQ, Round6(0.0)) == 0.0
    ensures AlongPath(dQ, Round6(1.0)) == dQ
  {
    RoundIntegral(0);
    RoundIntegral(Scale);
    assert 1.0 * Scale as real == Scale as real;
  }

  /** Each endpoint structure lies on the path: ground at fraction 0, excited at fraction 1. */
  lemma EndsOnPath(ground: Structure, excited: Structure)
    ensures OnPath(ground, excited, ground, 0.0)
    ensures OnPath(ground, excited, excited, 1.0)
  {
    forall i | 0 <= i < |ground| && i < |excited|
      ensures ground[i].coords == Lerp(ground[i].coords, excited[i].coords, 0.0)
      ensures excited[i].coords == Lerp(ground[i].coords, excited[i].coords, 1.0)
    {
      var g, e := ground[i].coords, excited[i].coords;
      assert g.x + 1.0 * (e.x - g.x) == e.x;
      assert g.y + 1.0 * (e.y - g.y) == e.y;
      assert g.z + 1.0 * (e.z - g.z) == e.z;
    }
  }

  /** The ground structure itself is at Q = 0. */
  lemma QOfGround(ground: Structure, excited: Structure, tol: real,
                  distance: (Site, Site) -> real, sqrt: real -> real)
    requires |ground| <= |excited|
    requires RatiosDefined(ground, excited, ground, tol, distance)
    requires KeptCount(ground, excited, |ground|, tol, distance) > 0
    ensures QFromStruct(ground, excited, ground, tol, distance, sqrt) == Ok(0.0)
  {
    EndsOnPath(ground, excited);
    QOnPath(ground, excited, ground, tol, distance, sqrt, 0.0);
    AlongPathEnds(GetDQ(ground, excited, distance, sqrt));
  }

  /** The excited structure itself is at Q = dQ. */
  lemma QOfExcited(ground: Structure, excited: Structure, tol: real,
                   distance: (Site, Site) -> real, sqrt: real -> real)
    requires |excited| <= |ground|
    requires RatiosDefined(ground, excited, excited, tol, distance)
    requires KeptCount(ground, excited, |excited|, tol, distance) > 0
    ensures QFromStruct(ground, excited, excited, tol, distance, sqrt) ==
      Ok(GetDQ(ground, excited, distance, sqrt))
  {
    EndsOnPath(ground, excited);
    QOnPath(ground, excited, excited, tol, distance, sqrt, 1.0);
    AlongPathEnds(GetDQ(ground, excited, distance, sqrt));
  }
}
