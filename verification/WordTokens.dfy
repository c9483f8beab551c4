/**
 * The words of a text and the tokens the flat scan finds in it: where the reader parses all words
 * the scan reads the same literals or stops at a space it does not know, and the other way round.
 */
module WordTokens {
  import opened Wrappers
  import opened Utf8
  import opened Text
  import opened Dimacs
  import opened FlatRoundTrip
  import opened LineScan
  import P = ParseLit
  import F = FlatScan

  function Zeros(xs: seq<int>): nat {
    if xs == [] then 0 else (if xs[0] == 0 then 1 else 0) + Zeros(xs[1..])
  }

  lemma {:induction false} ZerosConcat(xs: seq<int>, ys: seq<int>)
    ensures Zeros(xs + ys) == Zeros(xs) + Zeros(ys)
  {
    if xs == [] {
      assert xs + ys == ys;
    } else {
      assert (xs + ys)[1..] == xs[1..] + ys;
      ZerosConcat(xs[1..], ys);
    }
  }

  /** Every literal is within the number of variables. */
  predicate Within(xs: seq<int>, numVars: nat) {
    forall k :: 0 <= k < |xs| ==> Abs(xs[k]) <= numVars
  }

  /** The scan after the literals. */
  function After(xs: seq<int>, s: F.Scan): F.Scan {
    s.(lits := s.lits + xs, clauses := s.clauses + Zeros(xs))
  }

  /** All white space is white space to the scanner. */
  predicate AsciiSpaced(text: string) {
    forall k :: 0 <= k < |text| && IsSpace(text[k]) ==> AsciiSpace(text[k])
  }

  predicate IsSignChar(c: char) {
    c == '+' || c == '-'
  }

  /** No comment or problem line starts inside, and every sign starts a word. */
  predicate Separated(text: string) {
    && (forall k :: 0 <= k < |text| ==> text[k] != 'c' && text[k] != 'p')
    && (forall k :: 0 < k < |text| && IsSignChar(text[k]) ==> IsSpace(text[k - 1]))
  }

  /* ---------- Words and tokens ---------- */

  lemma {:induction false} SpaceSkipped(text: string)
    requires text != "" && IsSpace(text[0])
    ensures Words(text) == Words(text[1..])
    ensures AsciiSpaced(text) <==> AsciiSpace(text[0]) && AsciiSpaced(text[1..])
    ensures Separated(text) <==> Separated(text[1..])
  {
    var rest := text[1..];
    assert text[0] != 'c' && text[0] != 'p' && !IsSignChar(text[0]);
    if AsciiSpaced(text) {
      forall k | 0 <= k < |rest| && IsSpace(rest[k]) ensures AsciiSpace(rest[k]) { assert rest[k] == text[k + 1]; }
    }
    if Separated(rest) {
      forall k | 0 <= k < |text| ensures text[k] != 'c' && text[k] != 'p' { assert k > 0 ==> text[k] == rest[k - 1]; }
      forall k | 0 < k < |text| && IsSignChar(text[k]) ensures IsSpace(text[k - 1]) {
        assert text[k] == rest[k - 1];
        assert k > 1 ==> text[k - 1] == rest[k - 2];
      }
    }
    if Separated(text) {
      forall k | 0 <= k < |rest| ensures rest[k] != 'c' && rest[k] != 'p' { assert rest[k] == text[k + 1]; }
      forall k | 0 < k < |rest| && IsSignChar(rest[k]) ensures IsSpace(rest[k - 1]) {
        assert rest[k] == text[k + 1] && rest[k - 1] == text[k];
      }
    }
  }

  lemma ParsedIsToken(w: string)
    requires ParseI32(w).Some?
    ensures IsToken(w) && -I32_LIMIT <= ParseI32(w).value < I32_LIMIT
  {}

  lemma {:induction false} TokenChars(t: string, k: nat)
    requires IsToken(t) && k < |t|
    ensures !IsSpace(t[k]) && t[k] != 'c' && t[k] != 'p'
    ensures k > 0 ==> IsDigitChar(t[k])
    ensures k == 0 ==> IsDigitChar(t[k]) || (IsSignChar(t[k]) && |t| > 1 && IsDigitChar(t[1]))
  {
    var ds := SignOf(t);
    var digits := if t[0] == '+' || t[0] == '-' then t[1..] else t;
    assert IsDigitChar(digits[0]);
    if k >= ds {
      assert t[k] == digits[k - ds];
      assert IsDigitChar(digits[k - ds]);
    }
  }

  /** A line of words the reader parses: the scan reads it iff its spaces and literals suit. */
  lemma {:induction false} WordsScan(text: string, s: F.Scan)
    requires s.headed && ParseTokens(Words(text)).Ok?
    ensures var vs := ParseTokens(Words(text)).value;
      ScannedText(text, s) == if AsciiSpaced(text) && Within(vs, s.numVars) then Some(After(vs, s)) else None
    decreases |text|
  {
    if text == "" {
      assert s.lits + [] == s.lits;
    } else if IsSpace(text[0]) {
      SpaceSkipped(text);
      if AsciiSpace(text[0]) {
        TextSpace(text, s);
        WordsScan(text[1..], s);
      } else {
        TextStuck(text, s);
      }
    } else {
      FirstWordScan(text, s);
    }
  }

  lemma {:induction false} FirstWordScan(text: string, s: F.Scan)
    requires text != "" && !IsSpace(text[0])
    requires s.headed && ParseTokens(Words(text)).Ok?
    ensures var vs := ParseTokens(Words(text)).value;
      ScannedText(text, s) == if AsciiSpaced(text) && Within(vs, s.numVars) then Some(After(vs, s)) else None
    decreases |text|, 0
  {
    FirstWordOf(text);
    var n := WordLength(text);
    var w, rest := text[..n], text[n..];
    var l, vs := ParseI32(w).value, ParseTokens(Words(rest)).value;
    ParsedIsToken(w);
    TokenTaken(w, rest, l, s);
    SpacesAfterToken(w, rest);
    WithinCons(l, vs, s.numVars);
    if Abs(l) <= s.numVars {
      WordsScan(rest, After([l], s));
      AfterCons(l, vs, s);
    }
  }

  /** The text's first word, when none of its words is rejected. */
  lemma {:induction false} FirstWordOf(text: string)
    requires text != "" && !IsSpace(text[0])
    ensures var n := WordLength(text);
      && n > 0 && text == text[..n] + text[n..] && Words(text) == [text[..n]] + Words(text[n..])
      && (n < |text| ==> IsSpace(text[n]) && !IsDigitChar(text[n]))
      && (ParseTokens(Words(text)).Ok? <==> ParseI32(text[..n]).Some? && ParseTokens(Words(text[n..])).Ok?)
      && (ParseTokens(Words(text)).Ok? ==>
            ParseTokens(Words(text)).value == [ParseI32(text[..n]).value] + ParseTokens(Words(text[n..])).value)
  {
    var n := WordLength(text);
    WordEnds(text);
    assert ([text[..n]] + Words(text[n..]))[1..] == Words(text[n..]);
  }

  lemma {:induction false} TokenTaken(tok: string, next: string, l: int, s: F.Scan)
    requires ParseI32(tok) == Some(l) && (next != "" ==> !IsDigitChar(next[0])) && s.headed
    ensures ScannedText(tok + next, s) == if Abs(l) <= s.numVars then ScannedText(next, After([l], s)) else None
  {
    ParsedIsToken(tok);
    TextToken(tok, next, s);
    assert [l][1..] == [];
    assert Zeros([l]) == if l == 0 then 1 else 0;
    if l == 0 {
      assert After([l], s) == s.(lits := s.lits + [0], clauses := s.clauses + 1);
    } else {
      assert After([l], s) == s.(lits := s.lits + [l]);
    }
  }

  lemma {:induction false} AfterCons(l: int, vs: seq<int>, s: F.Scan)
    ensures After(vs, After([l], s)) == After([l] + vs, s)
  {
    ZerosConcat([l], vs);
    assert s.lits + [l] + vs == s.lits + ([l] + vs);
  }

  lemma {:induction false} WithinCons(l: int, vs: seq<int>, n: nat)
    ensures Within([l] + vs, n) <==> Abs(l) <= n && Within(vs, n)
  {
    if Within([l] + vs, n) {
      assert Abs(([l] + vs)[0]) <= n;
      forall k | 0 <= k < |vs| ensures Abs(vs[k]) <= n { assert vs[k] == ([l] + vs)[k + 1]; }
    }
  }

  /** A word ends at a space or the end of the text. */
  lemma {:induction false} WordEnds(text: string)
    ensures var n := WordLength(text);
      && (n < |text| ==> IsSpace(text[n]) && !IsDigitChar(text[n]))
      && forall k :: 0 <= k < n ==> !IsSpace(text[k])
  {
    if text != "" && !IsSpace(text[0]) {
      WordEnds(text[1..]);
      forall k | 0 <= k < WordLength(text) ensures !IsSpace(text[k]) {
        assert k > 0 ==> text[k] == text[1..][k - 1];
      }
    }
  }

  lemma {:induction false} SpacesAfterToken(w: string, rest: string)
    requires IsToken(w)
    ensures AsciiSpaced(w + rest) <==> AsciiSpaced(rest)
  {
    var text := w + rest;
    if AsciiSpaced(rest) {
      forall k | 0 <= k < |text| && IsSpace(text[k]) ensures AsciiSpace(text[k]) {
        if k < |w| { TokenChars(w, k); } else { assert text[k] == rest[k - |w|]; }
      }
    }
    if AsciiSpaced(text) {
      forall k | 0 <= k < |rest| && IsSpace(rest[k]) ensures AsciiSpace(rest[k]) { assert rest[k] == text[|w| + k]; }
    }
  }

  /** The token at the front of a text, as long as its digits go. */
  function Span(text: string): (n: nat)
    requires text != ""
    ensures n <= |text|
  {
    SignOf(text) + Digits(text[SignOf(text)..])
  }

  function Digits(s: string): (n: nat)
    ensures n <= |s|
    ensures forall k :: 0 <= k < n ==> IsDigitChar(s[k])
    ensures n < |s| ==> !IsDigitChar(s[n])
  {
    if s == "" || !IsDigitChar(s[0]) then 0 else 1 + Digits(s[1..])
  }

  lemma {:induction false} AcceptedSpan(text: string, s: F.Scan)
    requires text != "" && !IsSpace(text[0]) && text[0] != 'c' && text[0] != 'p' && ScannedText(text, s).Some?
    ensures s.headed && Span(text) > SignOf(text)
  {
    if !s.headed {
      TextUnheaded(text, s);
    } else if Span(text) == SignOf(text) {
      TextStuck(text, s);
    }
  }

  lemma {:induction false} AcceptedLiteral(tok: string, next: string, s: F.Scan)
    requires IsToken(tok) && (next != "" ==> !IsDigitChar(next[0])) && s.headed && ScannedText(tok + next, s).Some?
    ensures ParseI32(tok).Some? && ScannedText(next, After([ParseI32(tok).value], s)) == ScannedText(tok + next, s)
  {
    TextToken(tok, next, s);
    TokenTaken(tok, next, ParseI32(tok).value, s);
  }

  /** On a text the scan accepts, what is neither space nor a line's start is a literal in range. */
  lemma {:induction false} AcceptedToken(text: string, s: F.Scan) returns (tok: string, next: string)
    requires text != "" && !IsSpace(text[0]) && text[0] != 'c' && text[0] != 'p' && ScannedText(text, s).Some?
    ensures text == tok + next && IsToken(tok) && (next != "" ==> !IsDigitChar(next[0]))
    ensures s.headed && ParseI32(tok).Some?
    ensures ScannedText(next, After([ParseI32(tok).value], s)).Some?
  {
    AcceptedSpan(text, s);
    tok, next := SplitToken(text);
    AcceptedLiteral(tok, next, s);
  }

  lemma {:induction false} SplitToken(text: string) returns (tok: string, next: string)
    requires text != "" && Span(text) > SignOf(text)
    ensures text == tok + next && IsToken(tok) && (next != "" ==> !IsDigitChar(next[0]))
  {
    SpanIsToken(text);
    tok, next := text[..Span(text)], text[Span(text)..];
  }

  lemma {:induction false} SpanIsToken(text: string)
    requires text != "" && Span(text) > SignOf(text)
    ensures IsToken(text[..Span(text)]) && (Span(text) < |text| ==> !IsDigitChar(text[Span(text)]))
  {
    var ds, n := SignOf(text), Span(text);
    var tok := text[..n];
    assert text[ds..n] == text[ds..][..n - ds];
    assert (if tok[0] == '+' || tok[0] == '-' then tok[1..] else tok) == text[ds..n];
    assert n < |text| ==> text[n] == text[ds..][n - ds];
  }

  /** A word with a `c`, a `p` or an inner sign is no number. */
  lemma {:induction false} BadWord(w: string, k: nat)
    requires k < |w| && (w[k] == 'c' || w[k] == 'p' || (k > 0 && IsSignChar(w[k])))
    ensures ParseI32(w) == None
  {
    if ParseI32(w).Some? {
      ParsedIsToken(w);
      TokenChars(w, k);
    }
  }

  lemma {:induction false} WordReaches(text: string, k: nat)
    requires k < |text| && forall j :: 0 <= j <= k ==> !IsSpace(text[j])
    ensures k < WordLength(text)
  {
    if k > 0 { WordReaches(text[1..], k - 1); }
  }

  lemma {:induction false} SeparatedAfterToken(tok: string, next: string)
    requires IsToken(tok) && (next != "" ==> IsSpace(next[0]))
    ensures Separated(tok + next) <==> Separated(next)
  {
    var text := tok + next;
    if Separated(next) {
      forall k | 0 <= k < |text| ensures text[k] != 'c' && text[k] != 'p' {
        if k < |tok| { TokenChars(tok, k); } else { assert text[k] == next[k - |tok|]; }
      }
      forall k | 0 < k < |text| && IsSignChar(text[k]) ensures IsSpace(text[k - 1]) {
        if k < |tok| { TokenChars(tok, k); } else {
          assert text[k] == next[k - |tok|];
          assert k > |tok| ==> text[k - 1] == next[k - |tok| - 1];
        }
      }
    }
    if Separated(text) {
      forall k | 0 <= k < |next| ensures next[k] != 'c' && next[k] != 'p' { assert next[k] == text[|tok| + k]; }
      forall k | 0 < k < |next| && IsSignChar(next[k]) ensures IsSpace(next[k - 1]) {
        assert next[k] == text[|tok| + k] && next[k - 1] == text[|tok| + k - 1];
      }
    }
  }

  /** A text the scan accepts: the reader parses its words iff the tokens are separated. */
  lemma {:induction false} ScanWords(text: string, s: F.Scan)
    requires s.headed && ScannedText(text, s).Some?
    ensures ParseTokens(Words(text)).Ok? <==> Separated(text)
    decreases |text|
  {
    if text == "" {
    } else if IsSpace(text[0]) {
      if !AsciiSpace(text[0]) {
        TextStuck(text, s);
      } else {
        TextSpace(text, s);
        SpaceSkipped(text);
        ScanWords(text[1..], s);
      }
    } else if text[0] == 'c' || text[0] == 'p' {
      BadStart(text, 0);
    } else {
      ScanWordsToken(text, s);
    }
  }

  /** Something in the first word stops the reader. */
  lemma {:induction false} BadStart(text: string, k: nat)
    requires k < |text| && (forall j :: 0 <= j <= k ==> !IsSpace(text[j]))
    requires text[k] == 'c' || text[k] == 'p' || (k > 0 && IsSignChar(text[k]))
    ensures ParseTokens(Words(text)).Err? && !Separated(text)
  {
    assert k > 0 ==> !IsSpace(text[k - 1]);
    WordReaches(text, k);
    FirstWordOf(text);
    BadWord(text[..WordLength(text)], k);
  }

  lemma {:induction false} ScanWordsToken(text: string, s: F.Scan)
    requires text != "" && !IsSpace(text[0]) && text[0] != 'c' && text[0] != 'p' && ScannedText(text, s).Some?
    ensures ParseTokens(Words(text)).Ok? <==> Separated(text)
    decreases |text|, 0
  {
    var tok, next := AcceptedToken(text, s);
    var n := |tok|;
    var s' := After([ParseI32(tok).value], s);
    forall j | 0 <= j < n ensures !IsSpace(text[j]) { TokenChars(tok, j); }
    if next == "" || IsSpace(next[0]) {
      FirstWord(tok, next);
      SeparatedAfterToken(tok, next);
      assert ([tok] + Words(next))[1..] == Words(next);
      ScanWords(next, s');
    } else {
      if next[0] != 'c' && next[0] != 'p' {
        var more, _ := AcceptedToken(next, s');
        TokenChars(more, 0);
      }
      assert text[n] == next[0];
      BadStart(text, n);
    }
  }
}
