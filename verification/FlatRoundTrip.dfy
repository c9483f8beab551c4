/**
 * The flat scanner on written files: its literal assembler reads a token as the text's integer
 * parse does, and the scan of a written problem is its counts and its flattened clauses.
 */
module FlatRoundTrip {
  import opened Wrappers
  import opened Utf8
  import opened Text
  import opened Dimacs
  import opened DimacsRoundTrip
  import P = ParseLit
  import F = FlatScan

  /* ---------- Literals ---------- */

  /** A digit run in bytes spells what it spells in text. */
  lemma {:induction false} MagnitudeOfText(s: string)
    requires IsNumeral(s)
    ensures |Encode(s)| == |s| && P.AllDigits(Encode(s)) && P.Magnitude(Encode(s)) == DigitsValue(s)
  {
    EncodeAscii(s);
    assert forall k :: 0 <= k < |s| ==> IsDigitChar(s[k]);
    MagnitudeMatches(Encode(s), s);
  }

  lemma {:induction false} MagnitudeMatches(bs: Bytes, s: string)
    requires |bs| == |s| && forall k :: 0 <= k < |s| ==> IsDigitChar(s[k]) && bs[k] == s[k] as int
    ensures P.AllDigits(bs) && P.Magnitude(bs) == DigitsValue(s)
  {
    if s != "" {
      MagnitudeMatches(bs[..|bs| - 1], s[..|s| - 1]);
    }
  }

  /** An optional sign and at least one digit. */
  predicate IsToken(t: string) {
    t != "" && IsNumeral(if t[0] == '+' || t[0] == '-' then t[1..] else t)
  }

  function SignOf(t: string): nat
    requires t != ""
  {
    if t[0] == '+' || t[0] == '-' then 1 else 0
  }

  /** The byte-level assembler accepts and values every token exactly as parsing its text as an i32 does. */
  lemma {:induction false} LitSpecIsStrParse(t: string, rest: Bytes)
    requires IsToken(t)
    ensures |Encode(t)| == |t|
    ensures P.AllDigits((Encode(t) + rest)[SignOf(t)..|t|])
    ensures P.LitSpec(Encode(t) + rest, 0, SignOf(t), |t|) == ParseI32(t)
  {
    var ds := SignOf(t);
    TokenAscii(t);
    EncodeAscii(t);
    EncodeAscii(t[ds..]);
    MagnitudeOfText(t[ds..]);
    assert (Encode(t) + rest)[ds..|t|] == Encode(t[ds..]);
    assert (Encode(t) + rest)[0] == t[0] as int;
  }

  lemma {:induction false} TokenAscii(t: string)
    requires IsToken(t)
    ensures Ascii(t) && IsNumeral(t[SignOf(t)..])
  {
    var ds := SignOf(t);
    forall k | 0 <= k < |t| ensures t[k] as int < 0x80 {
      assert k >= ds ==> t[k] == t[ds..][k - ds];
    }
  }

  /** A token extends to the first byte that is not a digit, whatever that is. */
  lemma {:induction false} TokenExtent(t: string, next: Bytes)
    requires IsToken(t) && (next != [] ==> !P.IsDigit(next[0]))
    ensures var bs := Encode(t) + next;
      && bs != [] && !F.OpensLine(bs[0]) && !F.IsWs(bs[0])
      && F.SignLength(bs) == SignOf(t) && F.TokenLength(bs) == |t| == |Encode(t)| && |t| > SignOf(t)
  {
    var bs, ds := Encode(t) + next, SignOf(t);
    TokenAscii(t);
    EncodeAscii(t);
    assert bs[0] == t[0] as int;
    var digits := t[ds..];
    assert ds == 0 ==> IsDigitChar(digits[0]);
    forall k | 0 <= k < |digits| ensures P.IsDigit(bs[ds..][k]) {
      assert IsDigitChar(digits[k]);
      assert bs[ds..][k] == t[ds + k] as int;
    }
    assert next != [] ==> bs[ds..][|digits|] == next[0];
    F.DigitRunIs(bs[ds..], |digits|);
  }

  /** A written literal is consumed and counted; no separator is asked for. */
  lemma {:induction false} ScanLiteral(l: int, next: Bytes, s: F.Scan)
    requires next != [] ==> !P.IsDigit(next[0])
    requires s.headed && -I32_LIMIT <= l < I32_LIMIT && F.AddLiteral(l, s).Ok?
    ensures F.ScanRest(Encode(ShowInt(l)) + next, s) == F.ScanRest(next, F.AddLiteral(l, s).value)
  {
    var t := ShowInt(l);
    var bs, s' := Encode(t) + next, F.AddLiteral(l, s).value;
    ShownIsToken(l);
    ParseShownInt(l);
    TokenExtent(t, next);
    LitSpecIsStrParse(t, next);
    assert F.ScanToken(bs, s) == Ok(s');
    assert bs[|t|..] == next;
  }

  lemma {:induction false} ScanShown(l: int, sep: byte, rest: Bytes, s: F.Scan)
    requires F.IsWs(sep) && s.headed && -I32_LIMIT <= l < I32_LIMIT && F.AddLiteral(l, s).Ok?
    ensures F.ScanRest(Encode(ShowInt(l)) + [sep] + rest, s) == F.ScanRest(rest, F.AddLiteral(l, s).value)
  {
    assert Encode(ShowInt(l)) + [sep] + rest == Encode(ShowInt(l)) + ([sep] + rest);
    ScanLiteral(l, [sep] + rest, s);
    SkipSeparator(sep, rest, F.AddLiteral(l, s).value);
  }

  lemma {:induction false} SkipSeparator(sep: byte, rest: Bytes, s: F.Scan)
    requires F.IsWs(sep)
    ensures F.ScanRest([sep] + rest, s) == F.ScanRest(rest, s)
  {
    F.SkipPart([sep] + rest, 1, s);
    assert ([sep] + rest)[1..] == rest;
  }

  lemma {:induction false} ShownIsToken(l: int)
    ensures IsToken(ShowInt(l))
  {
    if l < 0 {
      assert ShowInt(l)[1..] == ShowNat(-l);
    } else {
      assert IsDigitChar(ShowNat(l)[0]);
    }
  }

  /* ---------- Lines ---------- */

  /** A comment or problem line and its newline. */
  lemma {:induction false} ScanTextLine(line: string, rest: Bytes, s: F.Scan, s': F.Scan)
    requires line != "" && (line[0] == 'c' || line[0] == 'p') && '\n' !in line
    requires F.ScanLine(Encode(line), s) == Ok(s')
    ensures F.ScanRest(Encode(line) + [NEWLINE] + rest, s) == F.ScanRest(rest, s')
  {
    var bs, n := Encode(line) + [NEWLINE] + rest, |Encode(line)|;
    EncodedLine(line, rest);
    assert bs[0] == EncodeChar(line[0])[0];
    assert F.OpensLine(bs[0]);
    assert bs[..n] == Encode(line) && bs[n..] == [NEWLINE] + rest;
    SkipSeparator(NEWLINE, rest, s');
  }

  lemma {:induction false} ScanComment(c: string, rest: Bytes, s: F.Scan)
    requires WritableComment(c)
    ensures F.ScanRest(Encode("c " + c) + [NEWLINE] + rest, s) == F.ScanRest(rest, s)
  {
    var line := "c " + c;
    DecodeEncode(line);
    CommentTrims(c);
    assert '\n' !in line;
    ScanTextLine(line, rest, s, s);
  }

  lemma {:induction false} CommentTrims(c: string)
    requires WritableComment(c)
    ensures "c" <= Trim("c " + c)
  {
    var line := "c " + c;
    if c == "" {
      assert line == "c ";
      assert line[..1] == "c";
      assert TrimStart("c ") == "c " && TrimEnd("c ") == TrimEnd("c") == "c";
    } else {
      assert line[|line| - 1] == c[|c| - 1];
      TrimTrimmed(line);
    }
  }

  lemma {:induction false} ScanHeader(c: Cnf, rest: Bytes, s: F.Scan)
    requires c.numVars < U64_LIMIT && |c.clauses| < U64_LIMIT
    ensures F.ScanRest(Encode(Join(HeaderWords(c))) + [NEWLINE] + rest, s)
         == F.ScanRest(rest, s.(numVars := c.numVars, expected := |c.clauses|, headed := true))
  {
    var line := Join(HeaderWords(c));
    HeaderParses(c);
    HeaderHasNoNewline(c);
    DecodeEncode(line);
    assert !("c" <= line);
    ScanTextLine(line, rest, s, s.(numVars := c.numVars, expected := |c.clauses|, headed := true));
  }

  /** The scan after all of the literals, each within range. */
  function Counting(xs: seq<int>, s: F.Scan): F.Scan {
    if xs == [] then s
    else Counting(xs[1..], s.(lits := s.lits + [xs[0]], clauses := s.clauses + if xs[0] == 0 then 1 else 0))
  }

  predicate InScanRange(xs: seq<int>, numVars: nat) {
    forall k :: 0 <= k < |xs| ==> Abs(xs[k]) <= numVars && -I32_LIMIT <= xs[k] < I32_LIMIT
  }

  lemma {:induction false} ScanInts(xs: seq<int>, rest: Bytes, s: F.Scan)
    requires xs != [] && s.headed && InScanRange(xs, s.numVars)
    ensures F.ScanRest(Encode(Join(ShowInts(xs))) + [NEWLINE] + rest, s) == F.ScanRest(rest, Counting(xs, s))
  {
    var words := ShowInts(xs);
    var s' := s.(lits := s.lits + [xs[0]], clauses := s.clauses + if xs[0] == 0 then 1 else 0);
    assert F.AddLiteral(xs[0], s) == Ok(s');
    assert words[1..] == ShowInts(xs[1..]);
    if |xs| == 1 {
      ScanShown(xs[0], NEWLINE, rest, s);
      assert Counting(xs[1..], s') == s';
    } else {
      var tail := Encode(Join(words[1..])) + [NEWLINE] + rest;
      JoinedBytes(words[0], words[1..], rest);
      ScanShown(xs[0], 0x20, tail, s);
      ScanInts(xs[1..], rest, s');
    }
  }

  lemma {:induction false} JoinedBytes(word: string, words: seq<string>, rest: Bytes)
    requires words != []
    ensures Encode(Join([word] + words)) + [NEWLINE] + rest
         == Encode(word) + [0x20] + (Encode(Join(words)) + [NEWLINE] + rest)
  {
    assert ([word] + words)[1..] == words;
    EncodeConcat(word + " ", Join(words));
    EncodeConcat(word, " ");
    assert Encode(" ") == [0x20] by { assert " "[1..] == ""; }
  }

  lemma {:induction false} CountingClause(c: Clause, numVars: nat, s: F.Scan)
    requires WritableClause(c, numVars)
    ensures Counting(c + [0], s) == s.(lits := s.lits + (c + [0]), clauses := s.clauses + 1)
  {
    var xs := c + [0];
    if c == [] {
      assert xs[1..] == [];
    } else {
      assert xs[1..] == c[1..] + [0];
      var s' := s.(lits := s.lits + [c[0]]);
      CountingClause(c[1..], numVars, s');
      assert s.lits + [c[0]] + (c[1..] + [0]) == s.lits + xs;
      assert s'.clauses == s.clauses + 0;
    }
  }

  lemma {:induction false} ScanClause(c: Clause, rest: Bytes, s: F.Scan)
    requires s.headed && WritableClause(c, s.numVars)
    ensures F.ScanRest(Encode(Join(ClauseWords(c))) + [NEWLINE] + rest, s)
         == F.ScanRest(rest, s.(lits := s.lits + (c + [0]), clauses := s.clauses + 1))
  {
    ZeroWord(c);
    ScanInts(c + [0], rest, s);
    CountingClause(c, s.numVars, s);
  }

  /* ---------- The whole file ---------- */

  type Scanner = (Bytes, F.Scan) -> Result<F.Scan, Error>

  function Scanning(): Scanner {
    (bs, s) => F.ScanRest(bs, s)
  }

  /** Lines that change nothing. */
  lemma {:induction false} ScanSkips(scan: Scanner, lines: seq<string>, rest: Bytes, s: F.Scan)
    requires forall k, tail :: 0 <= k < |lines| ==> scan(Encode(lines[k]) + [NEWLINE] + tail, s) == scan(tail, s)
    ensures scan(Encode(Unlines(lines)) + rest, s) == scan(rest, s)
  {
    if lines == [] {
      assert Encode(Unlines(lines)) + rest == rest;
    } else {
      var tail := Encode(Unlines(lines[1..])) + rest;
      LinesBytes(lines, rest);
      assert scan(Encode(lines[0]) + [NEWLINE] + tail, s) == scan(tail, s);
      ScanSkips(scan, lines[1..], rest, s);
    }
  }

  lemma {:induction false} LinesBytes(lines: seq<string>, rest: Bytes)
    requires lines != []
    ensures Encode(Unlines(lines)) + rest == Encode(lines[0]) + [NEWLINE] + (Encode(Unlines(lines[1..])) + rest)
  {
    assert lines == [lines[0]] + lines[1..];
    EncodeLines(lines[0], lines[1..]);
  }

  ghost predicate CountsClauses(scan: Scanner, lines: seq<string>, cs: seq<Clause>, s: F.Scan) {
    && |lines| == |cs|
    && forall k, tail, seen, n: nat :: 0 <= k < |lines| ==>
         scan(Encode(lines[k]) + [NEWLINE] + tail, s.(lits := seen, clauses := n))
           == scan(tail, s.(lits := seen + (cs[k] + [0]), clauses := n + 1))
  }

  lemma {:induction false} ScanCounts(scan: Scanner, lines: seq<string>, cs: seq<Clause>, rest: Bytes, s: F.Scan)
    requires CountsClauses(scan, lines, cs, s)
    ensures scan(Encode(Unlines(lines)) + rest, s)
         == scan(rest, s.(lits := s.lits + Flatten(cs), clauses := s.clauses + |cs|))
  {
    if lines == [] {
      assert Encode(Unlines(lines)) + rest == rest;
      assert s.lits + Flatten(cs) == s.lits;
    } else {
      var s' := s.(lits := s.lits + (cs[0] + [0]), clauses := s.clauses + 1);
      var tail := Encode(Unlines(lines[1..])) + rest;
      LinesBytes(lines, rest);
      assert s.(lits := s.lits, clauses := s.clauses) == s;
      assert scan(Encode(lines[0]) + [NEWLINE] + tail, s) == scan(tail, s');
      ScanCounts(scan, lines[1..], cs[1..], rest, s');
      assert s'.lits + Flatten(cs[1..]) == s.lits + Flatten(cs);
    }
  }

  lemma {:induction false} FlattenEnds(cs: seq<Clause>)
    ensures Flatten(cs) != [] ==> Flatten(cs)[|Flatten(cs)| - 1] == 0
  {
    if cs != [] {
      FlattenEnds(cs[1..]);
    }
  }

  lemma {:induction false} ScanComments(cs: seq<string>, rest: Bytes, s: F.Scan)
    requires forall k :: 0 <= k < |cs| ==> WritableComment(cs[k])
    ensures F.ScanRest(Encode(Unlines(CommentLines(cs))) + rest, s) == F.ScanRest(rest, s)
  {
    var scan, lines := Scanning(), CommentLines(cs);
    forall k, tail | 0 <= k < |lines| ensures scan(Encode(lines[k]) + [NEWLINE] + tail, s) == scan(tail, s) {
      ScanComment(cs[k], tail, s);
    }
    ScanSkips(scan, lines, rest, s);
  }

  lemma {:induction false} ScanClauses(cs: seq<Clause>, rest: Bytes, s: F.Scan)
    requires s.headed && forall k :: 0 <= k < |cs| ==> WritableClause(cs[k], s.numVars)
    ensures F.ScanRest(Encode(Unlines(ClauseLines(cs))) + rest, s)
         == F.ScanRest(rest, s.(lits := s.lits + Flatten(cs), clauses := s.clauses + |cs|))
  {
    var scan, lines := Scanning(), ClauseLines(cs);
    forall k, tail, seen, n: nat | 0 <= k < |lines|
      ensures scan(Encode(lines[k]) + [NEWLINE] + tail, s.(lits := seen, clauses := n))
           == scan(tail, s.(lits := seen + (cs[k] + [0]), clauses := n + 1))
    {
      ScanClause(cs[k], tail, s.(lits := seen, clauses := n));
    }
    ScanCounts(scan, lines, cs, rest, s);
  }

  lemma {:induction false} WrittenParts(c: Cnf)
    requires c.quantifiers == []
    ensures WrittenBytes(c)
         == Encode(Unlines(CommentLines(c.comments)))
            + (Encode(Join(HeaderWords(c))) + [NEWLINE] + (Encode(Unlines(ClauseLines(c.clauses))) + []))
  {
    var comments, clauses, header := CommentLines(c.comments), ClauseLines(c.clauses), Join(HeaderWords(c));
    assert BlockLines(c.quantifiers) == [];
    assert WrittenLines(c) == comments + ([header] + clauses);
    UnlinesConcat(comments, [header] + clauses);
    EncodeConcat(Unlines(comments), Unlines([header] + clauses));
    EncodeLines(header, clauses);
    assert Encode(Unlines(clauses)) + [] == Encode(Unlines(clauses));
  }

  lemma {:induction false} ScansWrittenBytes(c: Cnf)
    requires Writable(Plain, c)
    ensures F.ScanRest(WrittenBytes(c), F.FRESH)
         == Ok(F.Scan(c.numVars, |c.clauses|, true, Flatten(c.clauses), |c.clauses|))
  {
    var s := F.FRESH.(numVars := c.numVars, expected := |c.clauses|, headed := true);
    var body := Encode(Unlines(ClauseLines(c.clauses))) + [];
    WrittenParts(c);
    ScanComments(c.comments, Encode(Join(HeaderWords(c))) + [NEWLINE] + body, F.FRESH);
    ScanHeader(c, body, F.FRESH);
    ScanClauses(c.clauses, [], s);
    assert [] + Flatten(c.clauses) == Flatten(c.clauses);
  }

  /**
   * The flat scan of a written file is its literal stream, and cutting that at the zeros gives
   * the clauses back: the two readers agree on every written problem.
   */
  lemma {:induction false} ScanWrite(c: Cnf)
    requires Writable(Plain, c)
    ensures F.ScanSpec(WrittenBytes(c)) == Ok(F.FlatCnf(c.numVars, |c.clauses|, Flatten(c.clauses)))
    ensures Split(Flatten(c.clauses), c.numVars, [], []) == Ok(c.clauses)
  {
    ScansWrittenBytes(c);
    FlattenEnds(c.clauses);
    SplitFlatten(c.clauses, c.numVars, []);
    assert [] + c.clauses == c.clauses;
  }
}
