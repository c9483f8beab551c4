/** When the flat scanner and the line reader agree, for every file. */
module ReadersAgree {
  import opened Wrappers
  import opened Utf8
  import opened Text
  import opened Dimacs
  import opened DimacsRoundTrip
  import opened LineScan
  import opened WordTokens
  import F = FlatScan

  /* ---------- Trimming ---------- */

  /** How many spaces a text starts with. */
  function Lead(text: string): (n: nat)
    ensures n <= |text| && TrimStart(text) == text[n..]
    ensures forall k :: 0 <= k < n ==> IsSpace(text[k])
    ensures n < |text| ==> !IsSpace(text[n])
  {
    if text == "" || !IsSpace(text[0]) then 0 else
      assert text[1..][Lead(text[1..])..] == text[1 + Lead(text[1..])..];
      1 + Lead(text[1..])
  }

  /** The scanner knows the leading white space. */
  predicate LeadAscii(text: string) {
    forall k :: 0 <= k < Lead(text) ==> AsciiSpace(text[k])
  }

  lemma {:induction false} LeadScan(text: string, s: F.Scan)
    ensures ScannedText(text, s) == if LeadAscii(text) then ScannedText(TrimStart(text), s) else None
  {
    if text != "" && IsSpace(text[0]) {
      var rest := text[1..];
      if AsciiSpace(text[0]) {
        TextSpace(text, s);
        LeadScan(rest, s);
        if LeadAscii(rest) {
          forall k | 0 <= k < Lead(text) ensures AsciiSpace(text[k]) { assert k > 0 ==> text[k] == rest[k - 1]; }
        }
        if LeadAscii(text) {
          forall k | 0 <= k < Lead(rest) ensures AsciiSpace(rest[k]) { assert rest[k] == text[k + 1]; }
        }
      } else {
        TextStuck(text, s);
      }
    }
  }

  lemma {:induction false} TrimEndFacts(text: string)
    requires text != "" && !IsSpace(text[0])
    ensures TrimEnd(text) != "" && TrimEnd(text)[0] == text[0]
  {
    if IsSpace(text[|text| - 1]) {
      TrimEndFacts(text[..|text| - 1]);
    }
  }

  /** Trimming keeps the first character that is no space. */
  lemma {:induction false} TrimFacts(text: string)
    ensures Trim(text) == "" <==> TrimStart(text) == ""
    ensures Trim(text) != "" ==> Trim(text)[0] == TrimStart(text)[0] && !IsSpace(Trim(text)[0])
    ensures Trim(TrimStart(text)) == Trim(text)
  {
    var u := TrimStart(text);
    assert u == text[Lead(text)..];
    if u != "" {
      assert !IsSpace(u[0]);
      TrimEndFacts(u);
    }
  }

  lemma {:induction false} WordsBeforeSpace(text: string, c: char)
    requires IsSpace(c)
    ensures Words(text + [c]) == Words(text)
    decreases |text|
  {
    var all := text + [c];
    if text == "" {
      assert all == [c] && all[1..] == "";
    } else if IsSpace(text[0]) {
      assert all[1..] == text[1..] + [c];
      WordsBeforeSpace(text[1..], c);
    } else {
      var n := WordLength(text);
      var w, rest := text[..n], text[n..];
      FirstWordOf(text);
      WordEnds(text);
      assert all == w + (rest + [c]);
      assert (rest + [c])[0] == if rest == "" then c else rest[0];
      FirstWord(w, rest + [c]);
      WordsBeforeSpace(rest, c);
    }
  }

  lemma {:induction false} WordsOfTrimmed(text: string)
    ensures Words(Trim(text)) == Words(text)
  {
    WordsOfTrimStart(text);
    WordsOfTrimEnd(TrimStart(text));
  }

  lemma {:induction false} WordsOfTrimStart(text: string)
    ensures Words(TrimStart(text)) == Words(text)
  {
    if text != "" && IsSpace(text[0]) { WordsOfTrimStart(text[1..]); }
  }

  lemma {:induction false} WordsOfTrimEnd(text: string)
    ensures Words(TrimEnd(text)) == Words(text)
  {
    if text != "" && IsSpace(text[|text| - 1]) {
      WordsOfTrimEnd(text[..|text| - 1]);
      WordsBeforeSpace(text[..|text| - 1], text[|text| - 1]);
      assert text == text[..|text| - 1] + [text[|text| - 1]];
    }
  }

  /* ---------- One line ---------- */

  /** The reader and the scan have gathered the same. */
  predicate Tracks(r: Reader, s: F.Scan) {
    && (s.headed <==> r.header.Some?)
    && (s.headed ==> r.header == Some((s.numVars, s.expected)))
    && r.tokens == s.lits && s.clauses == Zeros(s.lits)
  }

  /** Neither blank nor a comment nor a problem line. */
  predicate IsBody(line: string) {
    var t := Trim(line);
    t != "" && t[0] != 'c' && !(PREFIX <= t)
  }

  function Literals(line: string): seq<int> {
    match ParseTokens(Words(line)) case Ok(vs) => vs case Err(_) => []
  }

  /**
   * A line the scan accepts like the reader: only ASCII white space, the vertical tab excepted,
   * before a comment or problem line and anywhere in a body line, whose literals are within the
   * header in force.
   */
  predicate LineScannable(line: string, numVars: nat) {
    LeadAscii(line) && (IsBody(line) ==> AsciiSpaced(line) && Within(Literals(line), numVars))
  }

  /**
   * A line the reader accepts like the scan: a comment, a problem line, or one where no comment or
   * problem line starts midway, no other line starts with a `p`, and every sign follows a space.
   */
  predicate LineReadable(line: string) {
    var t := Trim(line);
    "c" <= t || PREFIX <= t || Separated(line)
  }

  /** The number of variables in force after the line. */
  function InForce(line: string, numVars: nat): nat {
    var t := Trim(line);
    if PREFIX <= t && ParseHeader(t).Ok? then ParseHeader(t).value.0 else numVars
  }

  /** What the scan makes of a line whose first character opens a comment or problem line. */
  lemma {:induction false} OpenedText(line: string, s: F.Scan)
    requires '\n' !in line && Trim(line) != "" && (Trim(line)[0] == 'c' || Trim(line)[0] == 'p')
    ensures var t := Trim(line);
      ScannedText(line, s) ==
        if !LeadAscii(line) then None
        else if t[0] == 'p' && PREFIX <= t then
          match ParseHeader(t)
          case Err(_) => None
          case Ok((vars, clauses)) => Some(s.(numVars := vars, expected := clauses, headed := true))
        else Some(s)
  {
    var u, t := TrimStart(line), Trim(line);
    TrimFacts(line);
    LeadScan(line, s);
    assert u == line[Lead(line)..];
    TextOpens(u, s);
    DecodeEncode(u);
    assert "c" <= t <==> t[0] == 'c';
  }

  lemma {:induction false} BlankText(line: string, s: F.Scan)
    requires Trim(line) == ""
    ensures ScannedText(line, s) == if LeadAscii(line) then Some(s) else None
  {
    TrimFacts(line);
    LeadScan(line, s);
  }

  lemma SpacedLead(line: string)
    requires AsciiSpaced(line)
    ensures LeadAscii(line)
  {}

  /** A line the reader accepts: the scan accepts it iff it is scannable, and keeps track. */
  lemma {:induction false} ReaderLine(line: string, r: Reader, s: F.Scan)
    requires '\n' !in line && Tracks(r, s) && ReadLine(Plain, line, r).Ok?
    ensures ScannedText(line, s).Some? <==> LineScannable(line, s.numVars)
    ensures ScannedText(line, s).Some? ==>
      Tracks(ReadLine(Plain, line, r).value, ScannedText(line, s).value) && ScannedText(line, s).value.numVars == InForce(line, s.numVars)
  {
    var t := Trim(line);
    if t == "" {
      BlankText(line, s);
    } else if IsBody(line) {
      BodyRead(line, r, s);
    } else {
      OpenedText(line, s);
    }
  }

  lemma {:induction false} BodyRead(line: string, r: Reader, s: F.Scan)
    requires Tracks(r, s) && ReadLine(Plain, line, r).Ok? && IsBody(line)
    ensures ScannedText(line, s).Some? <==> LineScannable(line, s.numVars)
    ensures ScannedText(line, s).Some? ==>
      Tracks(ReadLine(Plain, line, r).value, ScannedText(line, s).value) && ScannedText(line, s).value.numVars == s.numVars
  {
    WordsOfTrimmed(line);
    WordsScan(line, s);
    ZerosConcat(s.lits, Literals(line));
    if AsciiSpaced(line) { SpacedLead(line); }
  }

  /** A line the scan accepts: the reader accepts it iff it is readable. */
  lemma {:induction false} ScannedLine(line: string, r: Reader, s: F.Scan)
    requires '\n' !in line && Tracks(r, s) && ScannedText(line, s).Some?
    ensures ReadLine(Plain, line, r).Ok? <==> LineReadable(line)
  {
    var t := Trim(line);
    WordsOfTrimmed(line);
    TrimFacts(line);
    if t == "" {
      BlankSeparated(line);
    } else if t[0] == 'p' && !(PREFIX <= t) {
      BadStart(t, 0);
      assert TrimStart(line)[0] == line[Lead(line)];
    } else if t[0] == 'c' || t[0] == 'p' {
      OpenedText(line, s);
    } else {
      LeadScan(line, s);
      if !s.headed { TextUnheaded(TrimStart(line), s); }
      ScanWords(line, s);
    }
  }

  lemma {:induction false} BlankSeparated(line: string)
    requires Trim(line) == ""
    ensures Separated(line)
  {
    TrimFacts(line);
    assert Lead(line) == |line|;
    forall k | 0 <= k < |line| ensures IsSpace(line[k]) && line[k] != 'c' && line[k] != 'p' && !IsSignChar(line[k]) {}
  }

  /* ---------- Whole files ---------- */

  /** What follows the first line. */
  function NextLines(bs: Bytes): (rest: Bytes)
    requires bs != []
    ensures |rest| < |bs|
  {
    if LineLength(bs) < |bs| then bs[LineLength(bs) + 1..] else []
  }

  /** Every line is scannable, under the header then in force. */
  predicate Scannable(bs: Bytes, numVars: nat)
    decreases |bs|
  {
    bs == [] ||
    match Decode(bs[..LineLength(bs)])
    case None => false
    case Some(line) => LineScannable(line, numVars) && Scannable(NextLines(bs), InForce(line, numVars))
  }

  /** Every line is readable. */
  predicate Readable(bs: Bytes)
    decreases |bs|
  {
    bs == [] ||
    match Decode(bs[..LineLength(bs)])
    case None => false
    case Some(line) => LineReadable(line) && Readable(NextLines(bs))
  }

  lemma {:induction false} FirstLineScan(bs: Bytes, s: F.Scan)
    requires bs != []
    ensures NEWLINE !in bs[..LineLength(bs)]
    ensures Scanned(bs, s) ==
            match Scanned(bs[..LineLength(bs)], s) case None => None case Some(s') => Scanned(NextLines(bs), s')
  {
    var n := LineLength(bs);
    var line, rest := bs[..n], bs[n..];
    assert bs == line + rest;
    ScanSplits(line, rest, s);
    if n < |bs| && Scanned(line, s).Some? {
      F.SkipPart(rest, 1, Scanned(line, s).value);
      assert rest[1..] == NextLines(bs);
    }
  }

  lemma {:induction false} CharIsByte(text: string, c: char)
    requires c in text && c as int < 0x80
    ensures c as int in Encode(text)
  {
    FirstByte(text);
    if text[0] != c {
      CharIsByte(text[1..], c);
    } else {
      assert Encode(text)[0] == c as int;
    }
  }

  /** A decoded line has no newline and its bytes back. */
  lemma {:induction false} DecodedLine(line: Bytes)
    requires NEWLINE !in line && Decode(line).Some?
    ensures Encode(Decode(line).value) == line && '\n' !in Decode(line).value
  {
    EncodeDecode(line);
    if '\n' in Decode(line).value { CharIsByte(Decode(line).value, '\n'); }
  }

  /** Lines the reader accepts: the scan accepts them iff they are scannable, and gathers the same. */
  lemma {:induction false} ReaderFile(bs: Bytes, r: Reader, s: F.Scan)
    requires Tracks(r, s) && ReadLines(Plain, bs, r).Ok?
    ensures Scanned(bs, s).Some? <==> Scannable(bs, s.numVars)
    ensures Scanned(bs, s).Some? ==> Tracks(ReadLines(Plain, bs, r).value, Scanned(bs, s).value)
    decreases |bs|
  {
    if bs != [] {
      var line := Decode(bs[..LineLength(bs)]).value;
      FirstLineScan(bs, s);
      DecodedLine(bs[..LineLength(bs)]);
      ReaderLine(line, r, s);
      if ScannedText(line, s).Some? {
        ReaderFile(NextLines(bs), ReadLine(Plain, line, r).value, ScannedText(line, s).value);
      }
    }
  }

  /** Lines the scan accepts: the reader accepts them iff they are readable. */
  lemma {:induction false} ScannedFile(bs: Bytes, r: Reader, s: F.Scan)
    requires Tracks(r, s) && Scanned(bs, s).Some?
    ensures ReadLines(Plain, bs, r).Ok? <==> Readable(bs)
    decreases |bs|
  {
    if bs != [] {
      var bytes := bs[..LineLength(bs)];
      FirstLineScan(bs, s);
      ScannedIsText(bytes, s);
      DecodedLine(bytes);
      var line := Decode(bytes).value;
      ScannedLine(line, r, s);
      if ReadLine(Plain, line, r).Ok? {
        ReaderLine(line, r, s);
        ScannedFile(NextLines(bs), ReadLine(Plain, line, r).value, ScannedText(line, s).value);
      }
    }
  }

  /* ---------- The end of the file ---------- */

  lemma {:induction false} FlattenSnoc(cs: seq<Clause>, c: Clause)
    ensures Flatten(cs + [c]) == Flatten(cs) + (c + [0])
  {
    if cs == [] {
      assert cs + [c] == [c] && [c][1..] == [];
    } else {
      assert (cs + [c])[1..] == cs[1..] + [c];
      FlattenSnoc(cs[1..], c);
      assert cs[0] + [0] + (Flatten(cs[1..]) + (c + [0])) == cs[0] + [0] + Flatten(cs[1..]) + (c + [0]);
    }
  }

  /** No clause is left open. */
  predicate Closed(tokens: seq<int>) {
    tokens != [] ==> tokens[|tokens| - 1] == 0
  }

  /** Cutting succeeds iff every literal is in range and the last clause is closed, and loses nothing. */
  lemma {:induction false} SplitExact(tokens: seq<int>, numVars: nat, done: seq<Clause>, current: Clause)
    requires 0 !in current
    ensures Split(tokens, numVars, done, current).Ok? <==> Within(tokens, numVars) && Closed(current + tokens)
    ensures Split(tokens, numVars, done, current).Ok? ==>
      var cs := Split(tokens, numVars, done, current).value;
      Flatten(cs) == Flatten(done) + (current + tokens) && |cs| == |done| + Zeros(tokens)
    decreases |tokens|
  {
    if tokens == [] {
      assert current + tokens == current;
      assert current != [] ==> current[|current| - 1] in current;
      assert Flatten(done) + [] == Flatten(done);
    } else {
      SplitStep(tokens, numVars, done, current);
    }
  }

  lemma {:induction false} ClosedTail(front: seq<int>, rest: seq<int>)
    requires front != [] && front[|front| - 1] == 0
    ensures Closed(front + rest) <==> Closed(rest)
  {
    assert rest != [] ==> (front + rest)[|front + rest| - 1] == rest[|rest| - 1];
  }

  lemma {:induction false} SplitStep(tokens: seq<int>, numVars: nat, done: seq<Clause>, current: Clause)
    requires tokens != [] && 0 !in current
    ensures Split(tokens, numVars, done, current).Ok? <==> Within(tokens, numVars) && Closed(current + tokens)
    ensures Split(tokens, numVars, done, current).Ok? ==>
      var cs := Split(tokens, numVars, done, current).value;
      Flatten(cs) == Flatten(done) + (current + tokens) && |cs| == |done| + Zeros(tokens)
    decreases |tokens|, 0
  {
    var l, rest := tokens[0], tokens[1..];
    assert tokens == [l] + rest;
    WithinCons(l, rest, numVars);
    assert current + tokens == current + [l] + rest;
    if l == 0 {
      SplitExact(rest, numVars, done + [current], []);
      FlattenSnoc(done, current);
      ClosedTail(current + [0], rest);
      Regrouped(Flatten(done), current + [0], rest);
      assert [] + rest == rest;
    } else if Abs(l) <= numVars {
      SplitExact(rest, numVars, done, current + [l]);
    }
  }

  lemma Regrouped(a: seq<int>, b: seq<int>, c: seq<int>)
    ensures a + b + c == a + (b + c)
  {}

  /** Both accept: the scan's header and literal stream are the reader's. */
  predicate SameProblem(c: Cnf, f: F.FlatCnf) {
    f == F.FlatCnf(c.numVars, |c.clauses|, Flatten(c.clauses))
  }

  lemma {:induction false} FinishSame(r: Reader, s: F.Scan)
    requires Tracks(r, s)
    ensures Finish(r).Ok? <==> F.FinishScan(s).Ok? && Within(s.lits, s.numVars)
    ensures Finish(r).Ok? ==> SameProblem(Finish(r).value, F.FinishScan(s).value)
  {
    if s.headed {
      SplitExact(r.tokens, s.numVars, [], []);
      assert [] + r.tokens == r.tokens;
    }
  }

  lemma FreshTracks()
    ensures Tracks(FRESH, F.FRESH)
  {}

  /** Whatever file both readers accept, they read the same problem from it. */
  lemma {:induction false} AcceptedAlike(bs: Bytes)
    requires ParseSpec(Plain, bs).Ok? && F.ScanSpec(bs).Ok?
    ensures SameProblem(ParseSpec(Plain, bs).value, F.ScanSpec(bs).value)
  {
    FreshTracks();
    ReaderFile(bs, FRESH, F.FRESH);
    FinishSame(ReadLines(Plain, bs, FRESH).value, Scanned(bs, F.FRESH).value);
  }

  /** A file the line reader accepts: the scanner accepts it iff it is scannable. */
  lemma {:induction false} ScanAcceptsIff(bs: Bytes)
    requires ParseSpec(Plain, bs).Ok?
    ensures F.ScanSpec(bs).Ok? <==> Scannable(bs, 0)
  {
    FreshTracks();
    ReaderFile(bs, FRESH, F.FRESH);
    if Scanned(bs, F.FRESH).Some? {
      FinishSame(ReadLines(Plain, bs, FRESH).value, Scanned(bs, F.FRESH).value);
    }
  }

  /** A file the scanner accepts: the line reader accepts it iff it is readable, with every literal within the last header. */
  lemma {:induction false} ParseAcceptsIff(bs: Bytes)
    requires F.ScanSpec(bs).Ok?
    ensures ParseSpec(Plain, bs).Ok? <==> Readable(bs) && Within(F.ScanSpec(bs).value.lits, F.ScanSpec(bs).value.numVars)
  {
    FreshTracks();
    ScannedFile(bs, FRESH, F.FRESH);
    if ReadLines(Plain, bs, FRESH).Ok? {
      ReaderFile(bs, FRESH, F.FRESH);
      FinishSame(ReadLines(Plain, bs, FRESH).value, Scanned(bs, F.FRESH).value);
    }
  }

  /** The two readers do the same with the file: both fail, or both accept and read the same problem. */
  predicate Agree(bs: Bytes) {
    match (ParseSpec(Plain, bs), F.ScanSpec(bs))
    case (Ok(c), Ok(f)) => SameProblem(c, f)
    case (Err(_), Err(_)) => true
    case (_, _) => false
  }

  /** The documented agreement holds of exactly these files. */
  lemma {:induction false} AgreeIff(bs: Bytes)
    ensures Agree(bs) <==>
      && (ParseSpec(Plain, bs).Ok? ==> Scannable(bs, 0))
      && (F.ScanSpec(bs).Ok? ==>
            Readable(bs) && Within(F.ScanSpec(bs).value.lits, F.ScanSpec(bs).value.numVars))
  {
    if ParseSpec(Plain, bs).Ok? { ScanAcceptsIff(bs); }
    if F.ScanSpec(bs).Ok? { ParseAcceptsIff(bs); }
    if ParseSpec(Plain, bs).Ok? && F.ScanSpec(bs).Ok? { AcceptedAlike(bs); }
  }
}
