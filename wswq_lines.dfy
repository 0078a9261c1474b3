/** Line recogniser of the WSWQ overlap-file reader (`_read_WSWQ`).

    Each line is searched, anywhere in the line, for two regular expressions:
      marker:  \s*spin=(\d+), kpoint=\s*(\d+)
      data:    i=\s*(\d+), j=\s*(\d+)\s*:\s*([0-9\-.]+)\s+([0-9\-.]+)
    A line in which the marker is found is a marker, whether or not the data
    pattern is also found in it; otherwise a line in which the data pattern is
    found is a data line; every other line is ignored.

    The leading `\s*` of the marker pattern may match nothing, so it changes
    neither whether the marker is found nor what its groups capture; the
    recogniser starts at `spin=`.

    All quantifiers in both patterns are deterministic here (each run is
    followed by a character outside its class or by a literal the class cannot
    contain), so a match at a given offset is computed by taking maximal runs.
    The two number tokens are kept as text. */
module WswqLines {
  import opened Wrappers

  /** Outer key of the table: (spin, kpoint). */
  datatype Key = Key(spin: int, kpoint: int)

  /** Inner key of the table: (band i, band j). */
  datatype BandPair = BandPair(i: int, j: int)

  /** A complex overlap, as its real and imaginary number tokens. */
  datatype Overlap = Overlap(re: string, im: string)

  datatype Line =
    | Marker(key: Key)
    | Data(bands: BandPair, value: Overlap)
    | Other

  /** The character classes the patterns use: `\d`, `\s` and `[0-9\-.]`. */
  datatype CharClass = Digit | Space | NumChar

  predicate InClass(c: char, cls: CharClass) {
    match cls
    case Digit => '0' <= c <= '9'
    case Space => c == ' ' || '\U{9}' <= c <= '\U{D}' || '\U{1C}' <= c <= '\U{1F}'
    case NumChar => '0' <= c <= '9' || c == '-' || c == '.'
  }

  predicate AllIn(s: string, cls: CharClass) {
    forall k :: 0 <= k < |s| ==> InClass(s[k], cls)
  }

  /** Python's float() accepts a token of `[0-9\-.]+` exactly when it is an
      optional minus sign followed by digits and at most one decimal point,
      with at least one digit. */
  predicate FloatText(tok: string) {
    var body := if |tok| > 0 && tok[0] == '-' then tok[1..] else tok;
    body != [] && body != "." &&
    (forall k :: 0 <= k < |body| ==> InClass(body[k], Digit) || body[k] == '.') &&
    (forall k, l :: 0 <= k < l < |body| ==> body[k] != '.' || body[l] != '.')
  }

  /** Length of the longest prefix of s made of characters of class cls. */
  function RunLen(s: string, cls: CharClass): (n: nat)
    ensures n <= |s| && AllIn(s[..n], cls)
    ensures n < |s| ==> !InClass(s[n], cls)
  {
    if s == [] || !InClass(s[0], cls) then 0
    else
      var n := 1 + RunLen(s[1..], cls);
      assert forall k :: 1 <= k < n ==> s[..n][k] == s[1..][..n - 1][k - 1];
      n
  }

  /** s with its longest prefix of class cls removed. */
  function Skip(s: string, cls: CharClass): string {
    s[RunLen(s, cls)..]
  }

  function DigitValue(c: char): nat {
    if '0' <= c <= '9' then c as int - '0' as int else 0
  }

  /** Python's int() of an ASCII digit string. */
  function DigitsValue(ds: string): nat {
    if ds == [] then 0 else 10 * DigitsValue(ds[..|ds| - 1]) + DigitValue(ds[|ds| - 1])
  }

  /** The literal lit at the start of s, and what follows it. */
  function Lit(lit: string, s: string): (r: Option<string>)
    ensures r.Some? <==> lit <= s
    ensures r.Some? ==> s == lit + r.value
  {
    if lit <= s then Some(s[|lit|..]) else None
  }

  /** `(\d+)` at the start of s: its int() value and what follows the digits. */
  function Number(s: string): Option<(nat, string)> {
    var n := RunLen(s, Digit);
    if n == 0 then None else Some((DigitsValue(s[..n]), s[n..]))
  }

  /** `([0-9\-.]+)` at the start of s: the token and what follows it. */
  function Token(s: string): Option<(string, string)> {
    var n := RunLen(s, NumChar);
    if n == 0 then None else Some((s[..n], s[n..]))
  }

  /** The marker pattern `spin=(\d+), kpoint=\s*(\d+)` matched at the start of s. */
  function MarkerPrefix(s: string): (r: Option<Line>)
    ensures r.Some? ==> r.value.Marker?
  {
    match Lit("spin=", s)
    case None => None
    case Some(a) =>
      match Number(a)
      case None => None
      case Some((spin, b)) =>
        match Lit(", kpoint=", b)
        case None => None
        case Some(c) =>
          match Number(Skip(c, Space))
          case None => None
          case Some((kpoint, _)) => Some(Marker(Key(spin, kpoint)))
  }

  /** The data pattern `i=\s*(\d+), j=\s*(\d+)\s*:` followed by the two
      number tokens, matched at the start of s. */
  function DataPrefix(s: string): (r: Option<Line>)
    ensures r.Some? ==> r.value.Data?
  {
    match Lit("i=", s)
    case None => None
    case Some(a) =>
      match Number(Skip(a, Space))
      case None => None
      case Some((i, b)) =>
        match Lit(", j=", b)
        case None => None
        case Some(c) =>
          match Number(Skip(c, Space))
          case None => None
          case Some((j, d)) =>
            match ColonValues(d)
            case None => None
            case Some(v) => Some(Data(BandPair(i, j), v))
  }

  /** The tail `\s*:` and the two number tokens of the data pattern. */
  function ColonValues(s: string): Option<Overlap> {
    match Lit(":", Skip(s, Space))
    case None => None
    case Some(e) => ValuePart(e)
  }

  /** The tail `\s*([0-9\-.]+)\s+([0-9\-.]+)` of the data pattern, after the colon. */
  function ValuePart(s: string): Option<Overlap> {
    match Token(Skip(s, Space))
    case None => None
    case Some((re, f)) =>
      if RunLen(f, Space) == 0 then None
      else
        match Token(Skip(f, Space))
        case None => None
        case Some((im, _)) => Some(Overlap(re, im))
  }

  datatype Pattern = MarkerPattern | DataPattern

  /** The pattern matched at offset p of the line. */
  function MatchAt(line: string, p: nat, pat: Pattern): Option<Line>
    requires p <= |line|
  {
    if pat == MarkerPattern then MarkerPrefix(line[p..]) else DataPrefix(line[p..])
  }

  /** `re.search` from offset p: the leftmost offset at or after p where pat matches. */
  function SearchFrom(line: string, p: nat, pat: Pattern): (r: Option<nat>)
    requires p <= |line|
    ensures r.Some? ==> p <= r.value <= |line| && MatchAt(line, r.value, pat).Some?
    ensures r.Some? ==> forall q: nat :: p <= q < r.value ==> MatchAt(line, q, pat).None?
    ensures r.None? ==> forall q: nat :: p <= q <= |line| ==> MatchAt(line, q, pat).None?
    decreases |line| - p
  {
    if MatchAt(line, p, pat).Some? then Some(p)
    else if p == |line| then None
    else SearchFrom(line, p + 1, pat)
  }

  /** The classification of one line: the marker takes precedence over the data
      pattern (the `if` / `elif` of the scanner), anything else is ignored. */
  function Classify(line: string): Line {
    match SearchFrom(line, 0, MarkerPattern)
    case Some(p) => MatchAt(line, p, MarkerPattern).value
    case None =>
      match SearchFrom(line, 0, DataPattern)
      case Some(p) => MatchAt(line, p, DataPattern).value
      case None => Other
  }

  /** The classification, stated without the search: a line is a marker exactly
      when the marker pattern matches somewhere in it, and a data line exactly
      when the marker pattern matches nowhere and the data pattern somewhere. */
  lemma ClassifyMeaning(line: string)
    ensures Classify(line).Marker? <==> exists p: nat :: p <= |line| && MatchAt(line, p, MarkerPattern).Some?
    ensures Classify(line).Data? <==>
      (forall p: nat :: p <= |line| ==> MatchAt(line, p, MarkerPattern).None?) &&
      (exists p: nat :: p <= |line| && MatchAt(line, p, DataPattern).Some?)
  {
  }

  // ---------------------------------------------------------------------------
  // Rendering lines in the file's layout, and recognising what was rendered.

  function DigitChar(d: nat): (c: char)
    requires d < 10
    ensures InClass(c, Digit) && DigitValue(c) == d
  {
    ('0' as int + d) as char
  }

  /** Decimal text of n; int() of it gives n back. */
  function Digits(n: nat): (ds: string)
    ensures |ds| > 0 && AllIn(ds, Digit)
    ensures DigitsValue(ds) == n
    decreases n
  {
    if n < 10 then [DigitChar(n)]
    else
      var ds := Digits(n / 10) + [DigitChar(n % 10)];
      assert ds[..|ds| - 1] == Digits(n / 10);
      ds
  }

  function Spaces(n: nat): (s: string)
    ensures |s| == n && AllIn(s, Space)
  {
    seq(n, _ => ' ')
  }

  /** `spin=<s>, kpoint=<pad spaces><k>` */
  function MarkerLine(s: nat, k: nat, pad: nat): string {
    "spin=" + (Digits(s) + (", kpoint=" + (Spaces(pad) + Digits(k))))
  }

  /** `i=<pad><i>, j=<pad><j> :<pad><re><pad><im>` */
  function DataLine(i: nat, j: nat, re: string, im: string, pad: nat): string {
    "i=" + (Spaces(pad) + (Digits(i) + (", j=" + (Spaces(pad) + (Digits(j) +
      (" " + (":" + (Spaces(pad) + (re + (Spaces(pad) + im))))))))))
  }

  /** A maximal run: x is all of class cls and y does not continue it. */
  lemma {:induction false} RunLenAppend(x: string, y: string, cls: CharClass)
    requires AllIn(x, cls)
    requires y == [] || !InClass(y[0], cls)
    ensures RunLen(x + y, cls) == |x|
    ensures (x + y)[..|x|] == x && (x + y)[|x|..] == y
  {
    if x != [] {
      assert (x + y)[1..] == x[1..] + y;
      RunLenAppend(x[1..], y, cls);
    }
  }

  lemma LitAppend(lit: string, rest: string)
    ensures Lit(lit, lit + rest) == Some(rest)
  {
    assert (lit + rest)[|lit|..] == rest;
  }

  lemma NumberOfDigits(n: nat, rest: string)
    requires rest == [] || !InClass(rest[0], Digit)
    ensures Number(Digits(n) + rest) == Some((n, rest))
  {
    RunLenAppend(Digits(n), rest, Digit);
  }

  lemma TokenAppend(tok: string, rest: string)
    requires |tok| > 0 && AllIn(tok, NumChar)
    requires rest == [] || !InClass(rest[0], NumChar)
    ensures Token(tok + rest) == Some((tok, rest))
  {
    RunLenAppend(tok, rest, NumChar);
  }

  lemma SkipSpaces(pad: nat, rest: string)
    requires rest == [] || !InClass(rest[0], Space)
    ensures Skip(Spaces(pad) + rest, Space) == rest
  {
    RunLenAppend(Spaces(pad), rest, Space);
  }

  lemma {:induction false} MarkerLineRecognised(s: nat, k: nat, pad: nat)
    ensures Classify(MarkerLine(s, k, pad)) == Marker(Key(s, k))
  {
    var line := MarkerLine(s, k, pad);
    var c := Spaces(pad) + Digits(k);
    LitAppend("spin=", Digits(s) + (", kpoint=" + c));
    NumberOfDigits(s, ", kpoint=" + c);
    LitAppend(", kpoint=", c);
    SkipSpaces(pad, Digits(k));
    NumberOfDigits(k, []);
    assert Digits(k) + [] == Digits(k);
    assert line[0..] == line;
  }

  /** Text made of one character class holds no letter `s`. */
  lemma NoLetterS(s: string, cls: CharClass)
    requires AllIn(s, cls)
    ensures 's' !in s
  {
  }

  /** The marker pattern can only match where the line holds the letter `s`. */
  lemma MarkerNeedsS(line: string, p: nat)
    requires p <= |line|
    ensures MatchAt(line, p, MarkerPattern).Some? ==> 's' in line
  {
    if MatchAt(line, p, MarkerPattern).Some? {
      assert line[p..][0] == 's';
      assert line[p] == line[p..][0];
    }
  }

  lemma {:induction false} ValuePartRecognised(re: string, im: string, pad: nat)
    requires pad > 0
    requires |re| > 0 && AllIn(re, NumChar)
    requires |im| > 0 && AllIn(im, NumChar)
    ensures ValuePart(Spaces(pad) + (re + (Spaces(pad) + im))) == Some(Overlap(re, im))
  {
    var sp := Spaces(pad);
    SkipSpaces(pad, re + (sp + im));
    TokenAppend(re, sp + im);
    SkipSpaces(pad, im);
    TokenAppend(im, []);
    assert im + [] == im;
  }

  lemma ColonAfterSpace(e: string)
    ensures Lit(":", Skip(" " + (":" + e), Space)) == Some(e)
  {
    RunLenAppend(" ", ":" + e, Space);
    LitAppend(":", e);
  }

  /** DataPrefix succeeds when each of its stages does. */
  lemma DataPrefixSteps(s: string, a: string, b: string, c: string, d: string, i: nat, j: nat, v: Overlap)
    requires Lit("i=", s) == Some(a) && Number(Skip(a, Space)) == Some((i, b))
    requires Lit(", j=", b) == Some(c) && Number(Skip(c, Space)) == Some((j, d))
    requires ColonValues(d) == Some(v)
    ensures DataPrefix(s) == Some(Data(BandPair(i, j), v))
  {
  }

  lemma {:induction false} DataPrefixOfDataLine(i: nat, j: nat, re: string, im: string, pad: nat)
    requires pad > 0
    requires |re| > 0 && AllIn(re, NumChar)
    requires |im| > 0 && AllIn(im, NumChar)
    ensures DataPrefix(DataLine(i, j, re, im, pad)) == Some(Data(BandPair(i, j), Overlap(re, im)))
  {
    var sp := Spaces(pad);
    var e := sp + (re + (sp + im));
    var d := " " + (":" + e);
    var c := sp + (Digits(j) + d);
    var b := ", j=" + c;
    var a := sp + (Digits(i) + b);
    var line := "i=" + a;
    assert line == DataLine(i, j, re, im, pad);
    LitAppend("i=", a);
    assert Lit("i=", line) == Some(a);
    SkipSpaces(pad, Digits(i) + b);
    NumberOfDigits(i, b);
    assert Number(Skip(a, Space)) == Some((i, b));
    LitAppend(", j=", c);
    assert Lit(", j=", b) == Some(c);
    SkipSpaces(pad, Digits(j) + d);
    NumberOfDigits(j, d);
    assert Number(Skip(c, Space)) == Some((j, d));
    ColonAfterSpace(e);
    ValuePartRecognised(re, im, pad);
    assert ColonValues(d) == Some(Overlap(re, im));
    DataPrefixSteps(line, a, b, c, d, i, j, Overlap(re, im));
  }

  /** A data line holds no letter `s`, so no marker can be found in it. */
  lemma DataLineHasNoS(i: nat, j: nat, re: string, im: string, pad: nat)
    requires AllIn(re, NumChar) && AllIn(im, NumChar)
    ensures 's' !in DataLine(i, j, re, im, pad)
  {
    var sp := Spaces(pad);
    NoLetterS(sp, Space); NoLetterS(Digits(i), Digit); NoLetterS(Digits(j), Digit);
    NoLetterS(re, NumChar); NoLetterS(im, NumChar);
    var e := sp + (re + (sp + im));
    assert 's' !in e;
    var d := " " + (":" + e);
    assert 's' !in d;
    var c := sp + (Digits(j) + d);
    assert 's' !in c;
    var a := sp + (Digits(i) + (", j=" + c));
    assert 's' !in a;
    assert DataLine(i, j, re, im, pad) == "i=" + a;
  }

  /** A line in which no marker is found and whose start matches the data pattern is that data line. */
  lemma ClassifiedAsData(line: string, x: Line)
    requires forall p: nat :: p <= |line| ==> MatchAt(line, p, MarkerPattern).None?
    requires DataPrefix(line) == Some(x)
    ensures Classify(line) == x
  {
    assert line[0..] == line;
    assert MatchAt(line, 0, DataPattern) == Some(x);
  }

  lemma {:induction false} DataLineRecognised(i: nat, j: nat, re: string, im: string, pad: nat)
    requires pad > 0
    requires |re| > 0 && AllIn(re, NumChar)
    requires |im| > 0 && AllIn(im, NumChar)
    ensures Classify(DataLine(i, j, re, im, pad)) == Data(BandPair(i, j), Overlap(re, im))
  {
    var line := DataLine(i, j, re, im, pad);
    DataLineHasNoS(i, j, re, im, pad);
    forall p: nat | p <= |line|
      ensures MatchAt(line, p, MarkerPattern).None?
    {
      MarkerNeedsS(line, p);
    }
    DataPrefixOfDataLine(i, j, re, im, pad);
    ClassifiedAsData(line, Data(BandPair(i, j), Overlap(re, im)));
  }
}
