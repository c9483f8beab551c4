/**
 * The flat scan taken line by line and along a line's text. The scanner walks bytes and knows lines
 * only at a comment or a problem line; here its walk over a file is cut at the newlines, and its
 * steps are told in characters.
 */
module LineScan {
  import opened Wrappers
  import opened Utf8
  import opened Text
  import opened Dimacs
  import opened FlatRoundTrip
  import P = ParseLit
  import F = FlatScan

  /** Where the scan of some bytes arrives, if it does not fail. */
  function Scanned(bs: Bytes, s: F.Scan): Option<F.Scan> {
    match F.ScanRest(bs, s)
    case Err(_) => None
    case Ok(s') => Some(s')
  }

  /* ---------- Lines ---------- */

  lemma {:induction false} DigitRunStops(line: Bytes, rest: Bytes)
    requires rest != [] ==> !P.IsDigit(rest[0])
    ensures F.DigitRun(line + rest) == F.DigitRun(line)
  {
    var n := F.DigitRun(line);
    assert n < |line| ==> (line + rest)[n] == line[n];
    assert n == |line| && rest != [] ==> (line + rest)[n] == rest[0];
    F.DigitRunIs(line + rest, n);
  }

  lemma {:induction false} LineLengthWithin(line: Bytes, rest: Bytes)
    requires NEWLINE !in line && (rest != [] ==> rest[0] == NEWLINE)
    ensures LineLength(line + rest) == |line|
  {
    if line == [] {
      assert line + rest == rest;
    } else {
      assert (line + rest)[1..] == line[1..] + rest;
      LineLengthWithin(line[1..], rest);
    }
  }

  /** A token that begins on a line ends on it. */
  lemma {:induction false} TokenOnLine(line: Bytes, rest: Bytes)
    requires line != [] && (rest != [] ==> rest[0] == NEWLINE)
    ensures F.SignLength(line + rest) == F.SignLength(line)
    ensures F.TokenLength(line + rest) == F.TokenLength(line)
  {
    var ds := F.SignLength(line);
    assert (line + rest)[ds..] == line[ds..] + rest;
    DigitRunStops(line[ds..], rest);
  }

  lemma {:induction false} SameToken(line: Bytes, rest: Bytes, s: F.Scan)
    requires line != [] && (rest != [] ==> rest[0] == NEWLINE)
    ensures F.ScanToken(line + rest, s).Ok? <==> F.ScanToken(line, s).Ok?
    ensures F.ScanToken(line, s).Ok? ==> F.ScanToken(line + rest, s) == F.ScanToken(line, s) && F.TokenLength(line) > 0
  {
    var ds, end := F.SignLength(line), F.TokenLength(line);
    TokenOnLine(line, rest);
    if end > ds {
      assert (line + rest)[ds..end] == line[ds..end];
      assert P.LitSpec(line + rest, 0, ds, end) == P.LitSpec(line, 0, ds, end);
    }
  }

  /** The scan of the rest from where the line's scan arrives. */
  function Resumed(line: Bytes, rest: Bytes, s: F.Scan): Option<F.Scan> {
    match Scanned(line, s) case None => None case Some(s') => Scanned(rest, s')
  }

  lemma {:induction false} OpenedLine(line: Bytes, rest: Bytes, s: F.Scan)
    requires line != [] && F.OpensLine(line[0]) && NEWLINE !in line && (rest != [] ==> rest[0] == NEWLINE)
    ensures Scanned(line + rest, s) == match F.ScanLine(line, s) case Err(_) => None case Ok(s') => Scanned(rest, s')
  {
    var bs := line + rest;
    LineLengthWithin(line, rest);
    assert bs[..|line|] == line && bs[|line|..] == rest;
    assert bs[0] == line[0];
  }

  lemma TokenThen(bs: Bytes, s: F.Scan)
    requires bs != [] && !F.OpensLine(bs[0]) && !F.IsWs(bs[0]) && s.headed
    ensures Scanned(bs, s) ==
            match F.ScanToken(bs, s) case Err(_) => None case Ok(s') => Scanned(bs[F.TokenLength(bs)..], s')
  {}

  /** The scan of a file is the scan of its first line and then of the rest. */
  lemma {:induction false} ScanSplits(line: Bytes, rest: Bytes, s: F.Scan)
    requires NEWLINE !in line && (rest != [] ==> rest[0] == NEWLINE)
    ensures Scanned(line + rest, s) == Resumed(line, rest, s)
    decreases |line|, 1
  {
    var bs := line + rest;
    if line == [] {
      assert bs == rest;
    } else if F.OpensLine(line[0]) {
      OpenedLine(line, rest, s);
      OpenedLine(line, [], s);
      assert line + [] == line;
    } else if F.IsWs(line[0]) {
      F.SkipPart(bs, 1, s);
      F.SkipPart(line, 1, s);
      assert bs[1..] == line[1..] + rest;
      ScanSplits(line[1..], rest, s);
    } else if s.headed {
      ScanSplitsToken(line, rest, s);
    }
  }

  lemma {:induction false} ScanSplitsToken(line: Bytes, rest: Bytes, s: F.Scan)
    requires NEWLINE !in line && (rest != [] ==> rest[0] == NEWLINE)
    requires line != [] && !F.OpensLine(line[0]) && !F.IsWs(line[0]) && s.headed
    ensures Scanned(line + rest, s) == Resumed(line, rest, s)
    decreases |line|, 0
  {
    TokenOnLine(line, rest);
    SameToken(line, rest, s);
    TokenThen(line, s);
    TokenThen(line + rest, s);
    if F.ScanToken(line, s).Ok? {
      var n := F.TokenLength(line);
      assert (line + rest)[n..] == line[n..] + rest;
      ScanSplits(line[n..], rest, F.ScanToken(line, s).value);
    }
  }

  lemma {:induction false} AsciiThenText(bs: Bytes, n: nat)
    requires n <= |bs| && (forall k :: 0 <= k < n ==> bs[k] < 0x80) && Decode(bs[n..]).Some?
    ensures Decode(bs).Some?
  {
    if n == 0 {
      assert bs[0..] == bs;
    } else {
      assert bs[1..][n - 1..] == bs[n..];
      AsciiThenText(bs[1..], n - 1);
    }
  }

  lemma {:induction false} TokenBytes(line: Bytes, s: F.Scan)
    requires line != []
    ensures forall k :: 0 <= k < F.TokenLength(line) ==> line[k] < 0x80
  {
    var ds := F.SignLength(line);
    forall k | 0 <= k < F.TokenLength(line) ensures line[k] < 0x80 {
      if k >= ds {
        assert line[k] == line[ds..][k - ds];
        assert P.IsDigit(line[ds..][k - ds]);
      }
    }
  }

  /** A line the scanner accepts is text, though the scanner decodes only from a `c` or `p` on. */
  lemma {:induction false} ScannedIsText(line: Bytes, s: F.Scan)
    requires NEWLINE !in line && Scanned(line, s).Some?
    ensures Decode(line).Some?
    decreases |line|
  {
    if line == [] {
    } else if F.OpensLine(line[0]) {
      LineLengthWithin(line, []);
      assert line + [] == line && line[..|line|] == line;
    } else if F.IsWs(line[0]) {
      F.SkipPart(line, 1, s);
      ScannedIsText(line[1..], s);
      AsciiThenText(line, 1);
    } else {
      var n := F.TokenLength(line);
      SameToken(line, [], s);
      TokenBytes(line, s);
      ScannedIsText(line[n..], F.ScanToken(line, s).value);
      AsciiThenText(line, n);
    }
  }

  /* ---------- Along the text of a line ---------- */

  function ScannedText(text: string, s: F.Scan): Option<F.Scan> {
    Scanned(Encode(text), s)
  }

  /** The white space the scanner knows. */
  predicate AsciiSpace(c: char) {
    var x := c as int;
    x == 0x20 || x == 0x09 || x == 0x0A || x == 0x0C || x == 0x0D
  }

  lemma {:induction false} FirstByte(text: string)
    requires text != ""
    ensures Encode(text) != []
    ensures text[0] as int < 0x80 ==> Encode(text)[0] == text[0] as int && Encode(text)[1..] == Encode(text[1..])
    ensures text[0] as int >= 0x80 ==> Encode(text)[0] >= 0xC0
  {
    assert Encode(text)[0] == EncodeChar(text[0])[0];
  }

  lemma {:induction false} TextSpace(text: string, s: F.Scan)
    requires text != "" && AsciiSpace(text[0])
    ensures ScannedText(text, s) == ScannedText(text[1..], s)
  {
    FirstByte(text);
    F.SkipPart(Encode(text), 1, s);
  }

  lemma {:induction false} TextOpens(text: string, s: F.Scan)
    requires text != "" && (text[0] == 'c' || text[0] == 'p') && '\n' !in text
    ensures ScannedText(text, s) == match F.ScanLine(Encode(text), s) case Err(_) => None case Ok(s') => Some(s')
  {
    var bs := Encode(text);
    FirstByte(text);
    forall k | 0 <= k < |bs| ensures bs[k] != NEWLINE {
      if bs[k] == NEWLINE { LowBytesAreChars(text, k); }
    }
    OpenedLine(bs, [], s);
    assert bs + [] == bs;
  }

  /** Before the problem line only white space, comments and problem lines are accepted. */
  lemma {:induction false} TextUnheaded(text: string, s: F.Scan)
    requires text != "" && !AsciiSpace(text[0]) && text[0] != 'c' && text[0] != 'p' && !s.headed
    ensures ScannedText(text, s) == None
  {
    FirstByte(text);
  }

  /** Where neither white space nor a line nor a token begins, the scan fails. */
  lemma {:induction false} TextStuck(text: string, s: F.Scan)
    requires text != "" && !AsciiSpace(text[0]) && text[0] != 'c' && text[0] != 'p'
    requires !IsDigitChar(text[0])
    requires text[0] == '+' || text[0] == '-' ==> |text| == 1 || !IsDigitChar(text[1])
    ensures ScannedText(text, s) == None
  {
    var bs := Encode(text);
    FirstByte(text);
    if text[0] == '+' || text[0] == '-' {
      if |text| > 1 { FirstByte(text[1..]); }
      assert F.DigitRun(bs[1..]) == 0;
    } else {
      assert bs[0..] == bs;
      assert F.DigitRun(bs) == 0;
    }
  }

  lemma {:induction false} TextToken(tok: string, next: string, s: F.Scan)
    requires IsToken(tok) && (next != "" ==> !IsDigitChar(next[0])) && s.headed
    ensures ScannedText(tok + next, s) ==
            match ParseI32(tok)
            case None => None
            case Some(l) => match F.AddLiteral(l, s) case Err(_) => None case Ok(s') => ScannedText(next, s')
  {
    var rest := Encode(next);
    var bs := Encode(tok) + rest;
    if next != "" { FirstByte(next); }
    EncodeConcat(tok, next);
    TokenExtent(tok, rest);
    LitSpecIsStrParse(tok, rest);
    assert bs[|tok|..] == rest;
  }
}
