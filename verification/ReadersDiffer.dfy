/** Files on which the flat scanner and the line reader differ. */
module ReadersDiffer {
  import opened Wrappers
  import opened Utf8
  import opened Text
  import opened Dimacs
  import opened DimacsRoundTrip
  import opened FlatRoundTrip
  import opened LineScan
  import opened WordTokens
  import opened ReadersAgree
  import F = FlatScan

  function LineBytes(line: string): Bytes {
    Encode(line) + [NEWLINE]
  }

  function OneEmptyClause(numVars: nat): Cnf {
    Cnf(numVars, [], [[]], [])
  }

  /** A problem line announcing one clause, and one more line. */
  function FileOf(numVars: nat, body: string): Bytes {
    LineBytes(Join(HeaderWords(OneEmptyClause(numVars)))) + LineBytes(body)
  }

  lemma {:induction false} ReadsFirst(line: string, rest: Bytes, r: Reader)
    requires '\n' !in line
    ensures ReadLines(Plain, LineBytes(line) + rest, r) ==
            match ReadLine(Plain, line, r) case Err(e) => Err(e) case Ok(r') => ReadLines(Plain, rest, r')
  {
    var bs, n := LineBytes(line) + rest, |Encode(line)|;
    EncodedLine(line, rest);
    assert bs[..n] == Encode(line) && bs[n + 1..] == rest;
    DecodeEncode(line);
  }

  lemma {:induction false} FileRead(numVars: nat, body: string)
    requires numVars < U64_LIMIT && '\n' !in body
    ensures ReadLines(Plain, FileOf(numVars, body), FRESH) == ReadLine(Plain, body, FRESH.(header := Some((numVars, 1))))
  {
    var c, r := OneEmptyClause(numVars), FRESH.(header := Some((numVars, 1)));
    HeaderHasNoNewline(c);
    ReadHeader(Plain, c, FRESH);
    ReadsFirst(Join(HeaderWords(c)), LineBytes(body), FRESH);
    ReadsFirst(body, [], r);
    assert LineBytes(body) + [] == LineBytes(body);
  }

  function Headed(numVars: nat): F.Scan {
    F.Scan(numVars, 1, true, [], 0)
  }

  lemma {:induction false} LineScanned(line: string, s: F.Scan)
    requires '\n' !in line
    ensures Scanned(LineBytes(line), s) == ScannedText(line, s)
  {
    forall k | 0 <= k < |Encode(line)| ensures Encode(line)[k] != NEWLINE { NotNewline(line, k); }
    ScanSplits(Encode(line), [NEWLINE], s);
    if ScannedText(line, s).Some? {
      F.SkipPart([NEWLINE], 1, ScannedText(line, s).value);
      assert [NEWLINE][1..] == [];
    }
  }

  lemma {:induction false} FileScanned(numVars: nat, body: string)
    requires numVars < U64_LIMIT && '\n' !in body
    ensures Scanned(FileOf(numVars, body), F.FRESH) == ScannedText(body, Headed(numVars))
  {
    var c := OneEmptyClause(numVars);
    ScanHeader(c, LineBytes(body), F.FRESH);
    assert F.FRESH.(numVars := numVars, expected := 1, headed := true) == Headed(numVars);
    LineScanned(body, Headed(numVars));
  }

  /* ---------- Accepted by the scanner only ---------- */

  lemma {:induction false} AdjacentScan(x: string, y: string, s: F.Scan)
    requires s.headed && ParseI32(x).Some? && ParseI32(y).Some? && y[0] == '-'
    requires Abs(ParseI32(x).value) <= s.numVars && Abs(ParseI32(y).value) <= s.numVars
    ensures ScannedText(x + (y + " 0"), s) == Some(After([ParseI32(x).value, ParseI32(y).value, 0], s))
  {
    var a, b := ParseI32(x).value, ParseI32(y).value;
    var s1 := After([a], s);
    var s2 := After([b], s1);
    TokenTaken(x, y + " 0", a, s);
    TokenTaken(y, " 0", b, s1);
    TextSpace(" 0", s2);
    assert " 0"[1..] == "0";
    ZeroScanned(s2);
    AfterCons(b, [0], s1);
    AfterCons(a, [b, 0], s);
    assert [b] + [0] == [b, 0] && [a] + [b, 0] == [a, b, 0];
  }

  lemma {:induction false} ZeroParses()
    ensures ParseI32("0") == Some(0) && IsWord("0") && ParseTokens(["0"]) == Ok([0])
  {
    assert ShowInt(0) == [DigitChar(0)] == "0";
    ParseShownInt(0);
    var words: seq<string> := ["0"];
    assert words[1..] == [] && ParseTokens(words[1..]) == Ok([]);
    assert [0] + [] == [0];
  }

  lemma {:induction false} ZeroScanned(s: F.Scan)
    requires s.headed
    ensures ScannedText("0", s) == Some(After([0], s))
  {
    ZeroParses();
    TokenTaken("0", "", 0, s);
    assert "0" + "" == "0";
  }

  lemma {:induction false} AdjacentRejected(x: string, y: string, r: Reader)
    requires IsWord(x) && IsDigitChar(x[0]) && IsWord(y) && y[0] == '-'
    ensures ReadLine(Plain, x + (y + " 0"), r).Err?
    ensures '\n' !in x + (y + " 0")
  {
    var body, k := x + (y + " 0"), |x|;
    assert body[k] == '-';
    forall j | 0 <= j <= k ensures !IsSpace(body[j]) {
      if j < k { assert body[j] == x[j]; }
    }
    BadStart(body, k);
    WordsOfTrimmed(body);
    TrimFacts(body);
    assert Trim(body)[0] == body[0] == x[0];
    forall j | 0 <= j < |body| ensures body[j] != '\n' {
      if j < k { assert body[j] == x[j]; } else if j < k + |y| { assert body[j] == y[j - k]; }
    }
  }

  /**
   * Two literals with nothing between them: the scanner reads both, the line reader rejects the
   * word. The file is `p cnf <numVars> 1` and a line such as `1-2 0`.
   */
  lemma {:induction false} AdjacentLiterals(numVars: nat, a: int, b: int)
    requires numVars < U64_LIMIT && 0 < a <= numVars && 0 < -b <= numVars && a < I32_LIMIT && -b <= I32_LIMIT
    ensures var file := FileOf(numVars, ShowInt(a) + (ShowInt(b) + " 0"));
      F.ScanSpec(file) == Ok(F.FlatCnf(numVars, 1, [a, b, 0])) && ParseSpec(Plain, file).Err?
  {
    var x, y := ShowInt(a), ShowInt(b);
    ParseShownInt(a);
    ParseShownInt(b);
    assert IsDigitChar(ShowNat(a)[0]);
    AdjacentRejected(x, y, FRESH.(header := Some((numVars, 1))));
    AdjacentScan(x, y, Headed(numVars));
    var body := x + (y + " 0");
    FileRead(numVars, body);
    FileScanned(numVars, body);
    ThreeTokens(numVars, a, b);
  }

  lemma {:induction false} ThreeTokens(numVars: nat, a: int, b: int)
    requires a != 0 && b != 0
    ensures F.FinishScan(After([a, b, 0], Headed(numVars))) == Ok(F.FlatCnf(numVars, 1, [a, b, 0]))
  {
    var xs := [a, b, 0];
    assert Zeros([0]) == 1 by { assert [0][1..] == []; }
    assert Zeros([b, 0]) == 1 by { assert [b, 0][1..] == [0]; }
    assert Zeros(xs) == 1 by { assert xs[1..] == [b, 0]; }
    assert [] + xs == xs;
  }

  /* ---------- Accepted by the line reader only ---------- */

  const TAB_ZERO: string := ['\U{000B}', '0']

  lemma {:induction false} TabRead(r: Reader)
    requires r.header.Some?
    ensures ReadLine(Plain, TAB_ZERO, r) == Ok(r.(tokens := r.tokens + [0])) && '\n' !in TAB_ZERO
  {
    ZeroParses();
    TrimTrimmed("0");
    FirstWord("0", "");
    assert "0" + "" == "0";
    assert TAB_ZERO[1..] == "0";
    assert Trim(TAB_ZERO) == Trim("0") == "0";
  }

  lemma {:induction false} TabStops(s: F.Scan)
    ensures ScannedText(TAB_ZERO, s) == None
  {
    TextStuck(TAB_ZERO, s);
  }

  lemma {:induction false} OneZero(numVars: nat)
    ensures Finish(Reader(Some((numVars, 1)), [], [], [0])) == Ok(OneEmptyClause(numVars))
  {
    assert [0][1..] == [];
    var none: seq<Clause>, current: Clause := [], [];
    assert none + [current] == [current];
  }

  /** A line indented with a vertical tab: the line reader trims it, the scanner stops at it. */
  lemma {:induction false} VerticalTab(numVars: nat)
    requires numVars < U64_LIMIT
    ensures ParseSpec(Plain, FileOf(numVars, TAB_ZERO)) == Ok(OneEmptyClause(numVars))
    ensures F.ScanSpec(FileOf(numVars, TAB_ZERO)).Err?
  {
    var r := FRESH.(header := Some((numVars, 1)));
    TabRead(r);
    assert [] + [0] == [0];
    FileRead(numVars, TAB_ZERO);
    OneZero(numVars);
    FileScanned(numVars, TAB_ZERO);
    TabStops(Headed(numVars));
  }
}
