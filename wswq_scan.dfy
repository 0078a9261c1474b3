/** The WSWQ overlap-file reader (`_read_WSWQ`): a one-pass scan over the
    lines of the file that fills a two-level table
    (spin, kpoint) -> (band i, band j) -> overlap.
    The scan is stated over the classified lines (see WswqLines.Classify). */
module WswqScan {
  import opened Wrappers
  import opened WswqLines

  type Section = map<BandPair, Overlap>
  type Table = map<Key, Section>

  /** The scan state: the table so far and the key of the current section,
      which is None until the first marker line. */
  datatype ScanState = ScanState(table: Table, current: Option<Key>)

  const Start := ScanState(map[], None)

  /** The tokens of a data line are numbers float() accepts; other lines have none. */
  predicate Numeric(c: Line) {
    c.Data? ==> FloatText(c.value.re) && FloatText(c.value.im)
  }

  /** One line of the scan. A marker opens (or re-opens, emptied) its section
      and makes it current; a data line writes into the current section. The
      value of the assignment is computed before its target, so a data line
      whose tokens are not numbers fails with ValueError, and otherwise one with
      no current section fails with KeyError. Any other line changes nothing. */
  function Step(st: ScanState, c: Line): Result<ScanState> {
    match c
    case Marker(k) => Ok(ScanState(st.table[k := map[]], Some(k)))
    case Data(bands, v) =>
      if !FloatText(v.re) || !FloatText(v.im) then Err(ValueError)
      else if st.current.None? || st.current.value !in st.table then Err(KeyError)
      else
        var k := st.current.value;
        Ok(st.(table := st.table[k := st.table[k][bands := v]]))
    case Other => Ok(st)
  }

  /** The scan of all classified lines, from the start state; the first failure ends it. */
  function Scan(cs: seq<Line>): Result<ScanState> {
    if cs == [] then Ok(Start)
    else
      match Scan(cs[..|cs| - 1])
      case Err(e) => Err(e)
      case Ok(st) => Step(st, cs[|cs| - 1])
  }

  /** Each line mapped through f, in order. */
  function MapLines(f: string -> Line, lines: seq<string>): (cs: seq<Line>)
    ensures |cs| == |lines|
    ensures forall i :: 0 <= i < |lines| ==> cs[i] == f(lines[i])
  {
    if lines == [] then []
    else MapLines(f, lines[..|lines| - 1]) + [f(lines[|lines| - 1])]
  }

  /** Mapping a prefix of the lines gives the prefix of the mapped lines. */
  lemma MapLinesPrefix(f: string -> Line, lines: seq<string>, k: nat)
    requires k <= |lines|
    ensures MapLines(f, lines[..k]) == MapLines(f, lines)[..k]
  {
    var a, b := MapLines(f, lines[..k]), MapLines(f, lines)[..k];
    forall i | 0 <= i < k
      ensures a[i] == b[i]
    {
      assert lines[..k][i] == lines[i];
    }
  }

  /** Every line classified, in order. */
  function ClassifyAll(lines: seq<string>): (cs: seq<Line>)
    ensures |cs| == |lines|
    ensures forall i :: 0 <= i < |lines| ==> cs[i] == Classify(lines[i])
  {
    MapLines(Classify, lines)
  }

  /** What the reader returns: the table, or the error that stopped the scan. */
  function ReadTable(lines: seq<string>): Result<Table> {
    match Scan(ClassifyAll(lines))
    case Err(e) => Err(e)
    case Ok(st) => Ok(st.table)
  }

  /** The reader fails only with ValueError (a token that is not a number) or
      KeyError (a data line before any marker line). */
  lemma {:induction false} ScanFails(cs: seq<Line>)
    ensures Scan(cs).Err? ==> Scan(cs).error == KeyError || Scan(cs).error == ValueError
  {
    if cs != [] {
      ScanFails(cs[..|cs| - 1]);
    }
  }

  /** When every data line carries numbers, the reader never fails with ValueError. */
  lemma {:induction false} NumericNoValueError(cs: seq<Line>)
    requires forall t :: 0 <= t < |cs| ==> Numeric(cs[t])
    ensures Scan(cs) != Err(ValueError)
  {
    if cs != [] {
      NumericNoValueError(cs[..|cs| - 1]);
    }
  }

  /** The entries the data lines among cs write, later lines overwriting earlier ones. */
  function Entries(cs: seq<Line>): Section {
    if cs == [] then map[]
    else
      var rest := Entries(cs[..|cs| - 1]);
      match cs[|cs| - 1]
      case Data(bands, v) => rest[bands := v]
      case _ => rest
  }

  /** The reader: a loop that updates the table and the current key in place. */
  method ReadWswq(lines: seq<string>) returns (r: Result<Table>)
    ensures r == ReadTable(lines)
  {
    var wswq: Table := map[];
    var current: Option<Key> := None;
    var n := 0;
    while n < |lines|
      invariant 0 <= n <= |lines|
      invariant Scan(ClassifyAll(lines[..n])) == Ok(ScanState(wswq, current))
    {
      var c := Classify(lines[n]);
      ScanExtend(lines, n);
      match c {
        case Marker(k) =>
          current := Some(k);
          wswq := wswq[k := map[]];
        case Data(bands, v) =>
          if !FloatText(v.re) || !FloatText(v.im) {
            FailurePersists(lines, n + 1);
            return Err(ValueError);
          }
          if current.None? || current.value !in wswq {
            FailurePersists(lines, n + 1);
            return Err(KeyError);
          }
          wswq := wswq[current.value := wswq[current.value][bands := v]];
        case Other =>
      }
      n := n + 1;
    }
    assert lines[..n] == lines;
    r := Ok(wswq);
  }

  /** One more line: the scan of a prefix one line longer is one more step. */
  lemma ScanExtend(lines: seq<string>, n: nat)
    requires n < |lines|
    ensures Scan(ClassifyAll(lines[..n + 1])) ==
      match Scan(ClassifyAll(lines[..n]))
      case Err(e) => Err(e)
      case Ok(st) => Step(st, Classify(lines[n]))
  {
    assert lines[..n + 1][..n] == lines[..n];
    assert lines[..n + 1][n] == lines[n];
  }

  /** A failure on a prefix of the lines is the failure of the whole read. */
  lemma FailurePersists(lines: seq<string>, n: nat)
    requires n <= |lines| && Scan(ClassifyAll(lines[..n])).Err?
    ensures ReadTable(lines) == Err(Scan(ClassifyAll(lines[..n])).error)
  {
    ClassifyAllPrefix(lines, n);
    ErrorPersists(ClassifyAll(lines), n);
  }

  /** Classifying a prefix of the lines gives the prefix of the classification. */
  lemma ClassifyAllPrefix(lines: seq<string>, k: nat)
    requires k <= |lines|
    ensures ClassifyAll(lines[..k]) == ClassifyAll(lines)[..k]
  {
    MapLinesPrefix(Classify, lines, k);
  }

  /** A failed scan stays failed, whatever lines follow. */
  lemma {:induction false} ErrorPersists(cs: seq<Line>, n: nat)
    requires n <= |cs| && Scan(cs[..n]).Err?
    ensures Scan(cs) == Scan(cs[..n])
    decreases |cs| - n
  {
    if n < |cs| {
      var init := cs[..|cs| - 1];
      assert init[..n] == cs[..n];
      ErrorPersists(init, n);
    } else {
      assert cs[..n] == cs;
    }
  }

  /** The current key, once set, always names a section of the table. */
  lemma {:induction false} CurrentHasSection(cs: seq<Line>)
    requires Scan(cs).Ok?
    ensures Scan(cs).value.current.Some? ==> Scan(cs).value.current.value in Scan(cs).value.table
  {
    if cs != [] {
      CurrentHasSection(cs[..|cs| - 1]);
    }
  }

  /** After a marker line for key k, and up to the next marker line, the table
      is the table before the marker with k mapped to exactly the entries of the
      data lines since the marker: the section is emptied even if it held
      entries, every following (numeric) data line writes into it, and no other
      section changes. */
  lemma {:induction false} SectionAfterMarker(cs: seq<Line>, m: nat, k: Key)
    requires m < |cs| && cs[m] == Marker(k)
    requires forall t :: m < t < |cs| ==> !cs[t].Marker? && Numeric(cs[t])
    requires Scan(cs[..m]).Ok?
    ensures Scan(cs) == Ok(ScanState(Scan(cs[..m]).value.table[k := Entries(cs[m + 1..])], Some(k)))
  {
    var init := cs[..|cs| - 1];
    if |cs| == m + 1 {
      assert init == cs[..m];
      assert cs[m + 1..] == [];
    } else {
      assert init[..m] == cs[..m];
      SectionAfterMarker(init, m, k);
      var tail := cs[m + 1..];
      assert tail[..|tail| - 1] == init[m + 1..];
      assert tail[|tail| - 1] == cs[|cs| - 1];
      var before := Scan(cs[..m]).value.table;
      var e := Entries(init[m + 1..]);
      var c := cs[|cs| - 1];
      assert Scan(init) == Ok(ScanState(before[k := e], Some(k)));
      assert Scan(cs) == Step(ScanState(before[k := e], Some(k)), c);
      StepInSection(before[k := e], k, c);
      if c.Data? {
        assert Entries(tail) == e[c.bands := c.value];
        assert before[k := e][k := e[c.bands := c.value]] == before[k := e[c.bands := c.value]];
      } else {
        assert Entries(tail) == e;
      }
    }
  }

  /** A numeric non-marker line inside a section writes (at most) into that section. */
  lemma StepInSection(table: Table, k: Key, c: Line)
    requires k in table && !c.Marker? && Numeric(c)
    ensures Step(ScanState(table, Some(k)), c) ==
      Ok(ScanState(table[k := if c.Data? then table[k][c.bands := c.value] else table[k]], Some(k)))
  {
    if !c.Data? {
      assert table[k := table[k]] == table;
    }
  }

  /** Within a section, the last data line for a band pair decides its value. */
  lemma {:induction false} LastWriteWins(xs: seq<Line>, bands: BandPair, v: Overlap, ys: seq<Line>)
    requires forall t :: 0 <= t < |ys| ==> !(ys[t].Data? && ys[t].bands == bands)
    ensures bands in Entries(xs + [Data(bands, v)] + ys)
    ensures Entries(xs + [Data(bands, v)] + ys)[bands] == v
  {
    var all := xs + [Data(bands, v)] + ys;
    if ys == [] {
      assert all[..|all| - 1] == xs;
    } else {
      var ys' := ys[..|ys| - 1];
      assert all[..|all| - 1] == xs + [Data(bands, v)] + ys';
      assert all[|all| - 1] == ys[|ys| - 1];
      LastWriteWins(xs, bands, v, ys');
    }
  }

  /** Without a marker line and with numeric data lines, the scan either has
      seen no data line yet or has failed with KeyError. */
  lemma {:induction false} NoMarkerNoSection(cs: seq<Line>)
    requires forall t :: 0 <= t < |cs| ==> !cs[t].Marker? && Numeric(cs[t])
    ensures Scan(cs) == Ok(Start) || Scan(cs) == Err(KeyError)
  {
    if cs != [] {
      NoMarkerNoSection(cs[..|cs| - 1]);
    }
  }

  /** A numeric data line before any marker line makes the scan fail with KeyError. */
  lemma OrphanDataFails(cs: seq<Line>, n: nat)
    requires n < |cs| && cs[n].Data?
    requires forall t :: 0 <= t < n ==> !cs[t].Marker?
    requires forall t :: 0 <= t <= n ==> Numeric(cs[t])
    ensures Scan(cs) == Err(KeyError)
  {
    var pre := cs[..n + 1];
    assert pre[..n] == cs[..n];
    assert forall t :: 0 <= t < n ==> cs[..n][t] == cs[t];
    NoMarkerNoSection(cs[..n]);
    assert pre[n] == cs[n] && Numeric(cs[n]);
    assert Scan(pre) == Err(KeyError);
    ErrorPersists(cs, n + 1);
  }

  /** A data line whose tokens are not numbers makes a scan that reached it
      fail with ValueError, even before any marker line. */
  lemma BadTokenFails(cs: seq<Line>, n: nat)
    requires n < |cs| && cs[n].Data? && !Numeric(cs[n])
    requires Scan(cs[..n]).Ok?
    ensures Scan(cs) == Err(ValueError)
  {
    assert cs[..n + 1][..n] == cs[..n];
    ErrorPersists(cs, n + 1);
  }

  /** A line matching neither pattern can be deleted without changing the outcome. */
  lemma {:induction false} OtherLineIgnored(xs: seq<Line>, ys: seq<Line>)
    ensures Scan(xs + [Other] + ys) == Scan(xs + ys)
  {
    if ys == [] {
      assert (xs + [Other] + ys)[..|xs|] == xs;
      assert xs + ys == xs;
    } else {
      var ys' := ys[..|ys| - 1];
      assert (xs + [Other] + ys)[..|xs| + |ys|] == xs + [Other] + ys';
      assert (xs + ys)[..|xs| + |ys| - 1] == xs + ys';
      OtherLineIgnored(xs, ys');
    }
  }

  /** Two sections with one data line each give two separate sections. */
  lemma TwoSections()
    ensures ReadTable([MarkerLine(1, 1, 3), DataLine(1, 2, "0.5", "-0.25", 2),
                       MarkerLine(1, 2, 3), DataLine(1, 2, "0.5", "-0.25", 2)])
         == Ok(map[Key(1, 1) := map[BandPair(1, 2) := Overlap("0.5", "-0.25")],
                   Key(1, 2) := map[BandPair(1, 2) := Overlap("0.5", "-0.25")]])
  {
    MarkerLineRecognised(1, 1, 3);
    MarkerLineRecognised(1, 2, 3);
    ExampleTokens();
    DataLineRecognised(1, 2, "0.5", "-0.25", 2);
    TwoSectionsOf(MarkerLine(1, 1, 3), DataLine(1, 2, "0.5", "-0.25", 2), MarkerLine(1, 2, 3));
  }

  lemma TwoSectionsOf(m1: string, d: string, m2: string)
    requires Classify(m1) == Marker(Key(1, 1)) && Classify(m2) == Marker(Key(1, 2))
    requires Classify(d) == Data(BandPair(1, 2), Overlap("0.5", "-0.25"))
    ensures ReadTable([m1, d, m2, d])
         == Ok(map[Key(1, 1) := map[BandPair(1, 2) := Overlap("0.5", "-0.25")],
                   Key(1, 2) := map[BandPair(1, 2) := Overlap("0.5", "-0.25")]])
  {
    var c := Data(BandPair(1, 2), Overlap("0.5", "-0.25"));
    var lines := [m1, d, m2, d];
    assert [m1][..0] == [];
    assert ClassifyAll([m1]) == [Marker(Key(1, 1))];
    assert [m1, d][..1] == [m1];
    assert ClassifyAll([m1, d]) == [Marker(Key(1, 1)), c];
    assert [m1, d, m2][..2] == [m1, d];
    assert ClassifyAll([m1, d, m2]) == [Marker(Key(1, 1)), c, Marker(Key(1, 2))];
    assert lines[..3] == [m1, d, m2];
    assert ClassifyAll(lines) == [Marker(Key(1, 1)), c, Marker(Key(1, 2)), c];
    ScanTwoSections(c);
  }

  lemma ExampleTokens()
    ensures AllIn("0.5", NumChar) && AllIn("-0.25", NumChar)
    ensures FloatText("0.5") && FloatText("-0.25")
  {
    var a, b := "0.5", "-0.25";
    assert a[0] == '0' && a[1] == '.' && a[2] == '5';
    assert b[0] == '-' && b[1] == '0' && b[2] == '.' && b[3] == '2' && b[4] == '5';
    var c := b[1..];
    assert c[0] == '0' && c[1] == '.' && c[2] == '2' && c[3] == '5';
    assert forall k :: 0 <= k < |a| ==> InClass(a[k], Digit) || a[k] == '.';
    assert forall k :: 0 <= k < |c| ==> InClass(c[k], Digit) || c[k] == '.';
  }

  lemma ScanTwoSections(d: Line)
    requires d == Data(BandPair(1, 2), Overlap("0.5", "-0.25"))
    ensures Scan([Marker(Key(1, 1)), d, Marker(Key(1, 2)), d])
         == Ok(ScanState(map[Key(1, 1) := map[BandPair(1, 2) := Overlap("0.5", "-0.25")],
                             Key(1, 2) := map[BandPair(1, 2) := Overlap("0.5", "-0.25")]], Some(Key(1, 2))))
  {
    var m1, m2 := Marker(Key(1, 1)), Marker(Key(1, 2));
    var sec := map[BandPair(1, 2) := Overlap("0.5", "-0.25")];
    ExampleTokens();
    assert [m1][..0] == [];
    assert Scan([m1]) == Ok(ScanState(map[Key(1, 1) := map[]], Some(Key(1, 1))));
    assert [m1, d][..1] == [m1];
    assert map[Key(1, 1) := map[]][Key(1, 1) := sec] == map[Key(1, 1) := sec];
    assert Scan([m1, d]) == Ok(ScanState(map[Key(1, 1) := sec], Some(Key(1, 1))));
    assert [m1, d, m2][..2] == [m1, d];
    assert Scan([m1, d, m2]) == Ok(ScanState(map[Key(1, 1) := sec, Key(1, 2) := map[]], Some(Key(1, 2))));
    assert [m1, d, m2, d][..3] == [m1, d, m2];
    assert map[Key(1, 1) := sec, Key(1, 2) := map[]][Key(1, 2) := sec] == map[Key(1, 1) := sec, Key(1, 2) := sec];
  }
}
