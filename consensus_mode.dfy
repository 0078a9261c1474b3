/** The consensus pick of `get_Q_from_struct`: sort the pooled values, group
    equal neighbours (`itertools.groupby`), and keep the value of the largest
    group; `max` keeps the first of equally large groups, so among equally
    frequent values the smallest wins. Values are the rounded per-axis
    fractions scaled by 10^6, so they are integers. */
module ConsensusMode {
  import opened Wrappers

  predicate Sorted(s: seq<int>) {
    forall i, j :: 0 <= i < j < |s| ==> s[i] <= s[j]
  }

  function Insert(x: int, s: seq<int>): (r: seq<int>)
    ensures multiset(r) == multiset(s) + multiset{x}
  {
    if s == [] || x <= s[0] then [x] + s
    else
      assert s == [s[0]] + s[1..];
      [s[0]] + Insert(x, s[1..])
  }

  /** Inserting into a sorted sequence keeps it sorted, and the new head is x or the old head. */
  lemma {:induction false} InsertSorted(x: int, s: seq<int>)
    requires Sorted(s)
    ensures Sorted(Insert(x, s))
    ensures Insert(x, s)[0] == x || (s != [] && Insert(x, s)[0] == s[0])
  {
    if s != [] && x > s[0] {
      var rest := Insert(x, s[1..]);
      InsertSorted(x, s[1..]);
      assert s[0] <= rest[0];
      var r := [s[0]] + rest;
      assert r == Insert(x, s);
      forall i, j | 0 <= i < j < |r|
        ensures r[i] <= r[j]
      {
        assert r[j] == rest[j - 1];
        if i > 0 {
          assert r[i] == rest[i - 1];
        } else {
          assert rest[0] <= rest[j - 1];
        }
      }
    }
  }

  /** `np.sort`: the values in ascending order. */
  function Sort(s: seq<int>): (r: seq<int>)
    ensures Sorted(r) && multiset(r) == multiset(s)
  {
    if s == [] then []
    else
      assert s == [s[0]] + s[1..];
      var t := Sort(s[1..]);
      InsertSorted(s[0], t);
      Insert(s[0], t)
  }

  /** One group of `groupby`: a value and how many equal neighbours it covers. */
  datatype Group = Group(value: int, size: nat)

  /** `groupby`: maximal runs of equal neighbours, in order. */
  function Groups(s: seq<int>): (gs: seq<Group>)
    ensures |s| > 0 <==> |gs| > 0
    ensures |s| > 0 ==> gs[0].value == s[0]
    ensures forall j :: 0 <= j < |gs| ==> gs[j].size > 0
    ensures forall j :: 0 <= j < |gs| - 1 ==> gs[j].value != gs[j + 1].value
  {
    if s == [] then [] else Push(s[0], Groups(s[1..]))
  }

  /** One value in front of the groups of the rest: it joins the first group when equal to it. */
  function Push(x: int, rest: seq<Group>): seq<Group> {
    if rest != [] && rest[0].value == x then [Group(x, rest[0].size + 1)] + rest[1..]
    else [Group(x, 1)] + rest
  }

  /** The values the groups stand for, each repeated as often as its group is large. */
  function Expand(gs: seq<Group>): seq<int> {
    if gs == [] then [] else seq(gs[0].size, _ => gs[0].value) + Expand(gs[1..])
  }

  /** `groupby` loses and invents nothing: expanding the groups gives the input back. */
  lemma {:induction false} GroupsExpand(s: seq<int>)
    ensures Expand(Groups(s)) == s
  {
    if s != [] {
      GroupsExpand(s[1..]);
      PushExpand(s[0], Groups(s[1..]));
      assert s == [s[0]] + s[1..];
    }
  }

  /** Pushing x in front of the groups puts x in front of their expansion. */
  lemma PushExpand(x: int, rest: seq<Group>)
    ensures Expand(Push(x, rest)) == [x] + Expand(rest)
  {
    if rest != [] && rest[0].value == x {
      var n := rest[0].size;
      assert rest == [rest[0]] + rest[1..];
      ExpandCons(rest[0], rest[1..]);
      ExpandCons(Group(x, n + 1), rest[1..]);
      var tail := Expand(rest[1..]);
      assert seq(n, _ => rest[0].value) == seq(n, _ => x);
      assert seq(n + 1, _ => x) == [x] + seq(n, _ => x);
      assert seq(n + 1, _ => x) + tail == [x] + (seq(n, _ => x) + tail);
    } else {
      ExpandCons(Group(x, 1), rest);
      assert seq(1, _ => x) == [x];
    }
  }

  lemma ExpandCons(g: Group, gs: seq<Group>)
    ensures Expand([g] + gs) == seq(g.size, _ => g.value) + Expand(gs)
  {
    assert ([g] + gs)[1..] == gs;
  }

  /** `max(..., key=len)`: the index of the first largest group. */
  function FirstLongest(gs: seq<Group>): (k: nat)
    requires |gs| > 0
    ensures k < |gs|
    ensures forall j :: 0 <= j < |gs| ==> gs[j].size <= gs[k].size
    ensures forall j :: 0 <= j < k ==> gs[j].size < gs[k].size
  {
    if |gs| == 1 then 0
    else
      var k := FirstLongest(gs[1..]) + 1;
      if gs[k].size > gs[0].size then k else 0
  }

  /** The consensus value of the pooled list; `max` of no groups raises ValueError. */
  function Mode(xs: seq<int>): (r: Result<int>)
    ensures r.Err? <==> xs == []
    ensures r.Err? ==> r.error == ValueError
  {
    if xs == [] then Err(ValueError)
    else
      var gs := Groups(Sort(xs));
      Ok(gs[FirstLongest(gs)].value)
  }

  /** For sorted input the groups are in strictly increasing order of value. */
  lemma {:induction false} SortedGroupsIncrease(s: seq<int>)
    requires Sorted(s)
    ensures forall i, j :: 0 <= i < j < |Groups(s)| ==> Groups(s)[i].value < Groups(s)[j].value
  {
    if s != [] {
      var x, t := s[0], s[1..];
      SortedGroupsIncrease(t);
      var rest, gs := Groups(t), Groups(s);
      if rest != [] && rest[0].value == x {
        assert gs == [Group(x, rest[0].size + 1)] + rest[1..];
      } else {
        assert gs == [Group(x, 1)] + rest;
        assert t != [] ==> rest[0].value == t[0] && x < t[0];
      }
    }
  }

  /** Every value of the input has a group: j is its index. */
  lemma {:induction false} GroupOf(s: seq<int>, v: int) returns (j: nat)
    requires v in s
    ensures j < |Groups(s)| && Groups(s)[j].value == v
  {
    var x, t := s[0], s[1..];
    var rest, gs := Groups(t), Groups(s);
    if v == x {
      j := 0;
    } else {
      assert s == [x] + t;
      assert v in t;
      var i := GroupOf(t, v);
      if rest != [] && rest[0].value == x {
        assert gs == [Group(x, rest[0].size + 1)] + rest[1..];
        assert i > 0;
        j := i;
        assert gs[j] == rest[i];
      } else {
        assert gs == [Group(x, 1)] + rest;
        j := i + 1;
        assert gs[j] == rest[i];
      }
    }
  }

  /** For sorted input each group's size is the multiplicity of its value. */
  lemma {:induction false} SortedGroupsCount(s: seq<int>)
    requires Sorted(s)
    ensures forall j :: 0 <= j < |Groups(s)| ==> multiset(s)[Groups(s)[j].value] == Groups(s)[j].size
  {
    if s != [] {
      var x, t := s[0], s[1..];
      assert s == [x] + t;
      SortedGroupsCount(t);
      SortedGroupsIncrease(t);
      var rest, gs := Groups(t), Groups(s);
      if rest != [] && rest[0].value == x {
        assert gs == [Group(x, rest[0].size + 1)] + rest[1..];
      } else {
        assert gs == [Group(x, 1)] + rest;
        if t != [] {
          assert rest[0].value == t[0] && x < t[0];
          assert forall k :: 0 <= k < |t| ==> x < t[k];
        }
        assert x !in multiset(t);
      }
    }
  }

  /** The consensus value occurs in the pool, no value occurs more often, and
      of equally frequent values it is the smallest. */
  lemma ModeIsMostFrequent(xs: seq<int>)
    requires xs != []
    ensures Mode(xs).Ok?
    ensures Mode(xs).value in multiset(xs)
    ensures forall v :: multiset(xs)[v] <= multiset(xs)[Mode(xs).value]
    ensures forall v :: v in multiset(xs) && multiset(xs)[v] == multiset(xs)[Mode(xs).value] ==> Mode(xs).value <= v
  {
    var s := Sort(xs);
    var gs := Groups(s);
    var k := FirstLongest(gs);
    var m := gs[k].value;
    assert Mode(xs) == Ok(m);
    assert multiset(s) == multiset(xs);
    SortedGroupsIncrease(s);
    SortedGroupsCount(s);
    assert multiset(s)[m] == gs[k].size > 0;
    forall v
      ensures multiset(xs)[v] <= multiset(xs)[m]
      ensures v in multiset(xs) && multiset(xs)[v] == multiset(xs)[m] ==> m <= v
    {
      if v in multiset(s) {
        assert v in s;
        var j := GroupOf(s, v);
        if j < k {
          assert gs[j].size < gs[k].size;
        } else if k < j {
          assert m < v;
        }
      }
    }
  }

  /** When every value in the pool agrees, that value is the consensus. */
  lemma ModeOfUnanimous(xs: seq<int>, v: int)
    requires xs != []
    requires forall k :: 0 <= k < |xs| ==> xs[k] == v
    ensures Mode(xs) == Ok(v)
  {
    ModeIsMostFrequent(xs);
    var m := Mode(xs).value;
    assert m in multiset(xs);
    assert m in xs;
  }
}
