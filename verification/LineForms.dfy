/** What each kind of line may say, and how the quantified format extends the plain one. */
module LineForms {
  import opened Wrappers
  import opened Utf8
  import opened Text
  import opened Dimacs
  import opened DimacsRoundTrip

  /* ---------- Comments and problem lines ---------- */

  /** Whatever follows the letter is the comment, less the space around it. */
  lemma {:induction false} CommentExact(format: Format, text: string, spaces: string, r: Reader)
    requires Trimmed(text) && forall k :: 0 <= k < |spaces| ==> IsSpace(spaces[k])
    ensures ReadLine(format, "c" + (spaces + text), r) == Ok(r.(comments := r.comments + [text]))
  {
    var line := "c" + (spaces + text);
    assert line[1..] == spaces + text;
    TrimLeading(spaces, text);
    if text != "" {
      assert line[|line| - 1] == text[|text| - 1];
      TrimTrimmed(line);
    } else {
      assert text == "" && spaces + text == spaces && line == "c" + spaces;
      TrimTrailing("c", spaces);
      assert Trim(line) == "c" && "c"[1..] == "" && Trim("") == "";
    }
  }

  lemma {:induction false} TrimLeading(spaces: string, text: string)
    requires Trimmed(text) && forall k :: 0 <= k < |spaces| ==> IsSpace(spaces[k])
    ensures Trim(spaces + text) == text
  {
    if spaces == "" {
      assert spaces + text == text;
      TrimTrimmed(text);
    } else {
      assert (spaces + text)[1..] == spaces[1..] + text && IsSpace((spaces + text)[0]);
      TrimLeading(spaces[1..], text);
    }
  }

  lemma {:induction false} TrimTrailing(text: string, spaces: string)
    requires text != "" && Trimmed(text) && forall k :: 0 <= k < |spaces| ==> IsSpace(spaces[k])
    ensures Trim(text + spaces) == text
  {
    assert (text + spaces)[0] == text[0];
    assert TrimStart(text + spaces) == text + spaces;
    if spaces == "" {
      assert text + spaces == text;
    } else {
      var s := text + spaces;
      assert s[|s| - 1] == spaces[|spaces| - 1] && s[..|s| - 1] == text + spaces[..|spaces| - 1];
      TrimTrailing(text, spaces[..|spaces| - 1]);
      assert s[..|s| - 1][0] == text[0];
    }
  }

  /** A problem line has four words, the last two of them the counts; any other is rejected. */
  lemma {:induction false} HeaderExact(format: Format, words: seq<string>, r: Reader)
    requires (forall k :: 0 <= k < |words| ==> IsWord(words[k])) && PREFIX <= Join(words)
    ensures |words| == 4 && ParseUsize(words[2]).Some? && ParseUsize(words[3]).Some? ==>
      var counts := (ParseUsize(words[2]).value, ParseUsize(words[3]).value);
      ReadLine(format, Join(words), r) == Ok(r.(header := Some(counts)))
    ensures |words| != 4 || ParseUsize(words[2]).None? || ParseUsize(words[3]).None? ==>
      ReadLine(format, Join(words), r).Err?
  {
    var line := Join(words);
    assert line[0] == PREFIX[0];
    JoinTrimmed(words);
    TrimTrimmed(line);
    WordsJoin(words);
  }

  /* ---------- Quantifier lines ---------- */

  predicate IsQuantifierLine(text: string) {
    text != "" && (text[0] == 'a' || text[0] == 'e')
  }

  /** Word by word the variables, then nothing or one word that reads as zero. */
  predicate Spell(words: seq<string>, variables: seq<nat>) {
    && |variables| <= |words| <= |variables| + 1
    && (forall k :: 0 <= k < |variables| ==> ParseI32(words[k]) == Some(variables[k]))
    && (|variables| < |words| ==> ParseI32(words[|variables|]) == Some(0))
  }

  predicate InRange(variables: seq<nat>, numVars: nat) {
    forall k :: 0 <= k < |variables| ==> 0 < variables[k] <= numVars
  }

  lemma {:induction false} NumberWords(words: seq<string>)
    ensures ParseQuantifierWords(words).Some? <==> forall k :: 0 <= k < |words| ==> ParseI32(words[k]).Some?
    ensures ParseQuantifierWords(words).Some? ==>
      var xs := ParseQuantifierWords(words).value;
      |xs| == |words| && forall k :: 0 <= k < |words| ==> ParseI32(words[k]) == Some(xs[k])
  {
    if words != [] {
      NumberWords(words[1..]);
      assert forall k :: 1 <= k < |words| ==> words[k] == words[1..][k - 1];
    }
  }

  lemma {:induction false} CheckedVariables(xs: seq<int>, numVars: nat)
    ensures CheckVariables(xs, numVars).Ok? <==> forall k :: 0 <= k < |xs| ==> 0 < xs[k] <= numVars
    ensures CheckVariables(xs, numVars).Ok? ==> CheckVariables(xs, numVars).value == xs
  {
    if xs != [] {
      CheckedVariables(xs[1..], numVars);
      assert [xs[0]] + xs[1..] == xs;
      assert forall k :: 1 <= k < |xs| ==> xs[k] == xs[1..][k - 1];
    }
  }

  /** The block a line is read as: its letter's, over exactly the variables its words spell. */
  ghost predicate Says(text: string, numVars: nat, b: Block)
    requires text != ""
  {
    && b.quantifier == (if text[0] == 'a' then Universal else Existential)
    && Spell(Words(text[1..]), b.variables)
    && InRange(b.variables, numVars)
  }

  lemma {:induction false} BlockSays(text: string, numVars: nat)
    requires text != ""
    ensures ParseBlock(text, numVars).Ok? ==> Says(text, numVars, ParseBlock(text, numVars).value)
  {
    if ParseBlock(text, numVars).Ok? {
      var words := Words(text[1..]);
      NumberWords(words);
      var xs := ParseQuantifierWords(words).value;
      var zero := xs != [] && xs[|xs| - 1] == 0;
      var body := if zero then xs[..|xs| - 1] else xs;
      CheckedVariables(body, numVars);
      var vs := ParseBlock(text, numVars).value.variables;
      assert vs == body && InRange(vs, numVars);
      assert |words| == if zero then |vs| + 1 else |vs|;
      forall k | 0 <= k < |vs| ensures ParseI32(words[k]) == Some(vs[k]) {
        assert vs[k] == body[k] == xs[k];
      }
    }
  }

  lemma {:induction false} SaidIsRead(text: string, numVars: nat, b: Block)
    requires text != "" && Says(text, numVars, b)
    ensures ParseBlock(text, numVars) == Ok(b)
  {
    var words, vs := Words(text[1..]), b.variables;
    NumberWords(words);
    var xs := ParseQuantifierWords(words).value;
    assert xs[..|vs|] == vs;
    if |words| == |vs| {
      assert xs == vs;
    }
    ChecksVariables(vs, numVars);
  }

  /** A quantifier line adds a block if and only if it says one, and otherwise the read fails. */
  lemma {:induction false} QuantifierLineExact(line: string, r: Reader, b: Block)
    requires r.header.Some? && IsQuantifierLine(Trim(line))
    ensures ReadLine(Quantified, line, r) == Ok(r.(quantifiers := r.quantifiers + [b]))
       <==> Says(Trim(line), r.header.value.0, b)
    ensures ReadLine(Quantified, line, r).Err? <==> forall b' :: !Says(Trim(line), r.header.value.0, b')
  {
    var t, n := Trim(line), r.header.value.0;
    assert t[0] != 'p' && !(PREFIX <= t);
    BlockSays(t, n);
    forall b' | Says(t, n, b') ensures ParseBlock(t, n) == Ok(b') { SaidIsRead(t, n, b'); }
    if ParseBlock(t, n).Ok? {
      var c := ParseBlock(t, n).value;
      assert ReadLine(Quantified, line, r) == Ok(r.(quantifiers := r.quantifiers + [c]));
      assert (r.quantifiers + [c])[|r.quantifiers|] == c && (r.quantifiers + [b])[|r.quantifiers|] == b;
    }
  }

  /** One word that is no number, a negative, a too large variable or an early zero fails the read. */
  lemma {:induction false} BadWordFails(line: string, r: Reader, k: nat)
    requires r.header.Some? && IsQuantifierLine(Trim(line)) && k < |Words(Trim(line)[1..])|
    requires var x := ParseI32(Words(Trim(line)[1..])[k]);
      || x.None? || x.value < 0 || x.value > r.header.value.0
      || (x.value == 0 && k + 1 < |Words(Trim(line)[1..])|)
    ensures ReadLine(Quantified, line, r).Err?
  {
    forall b ensures !Says(Trim(line), r.header.value.0, b) {
    }
    QuantifierLineExact(line, r, Block(Universal, []));
  }

  /** The written line without its final zero. */
  function TerseWords(b: Block): seq<string> {
    [HeadOf(b)] + ShowInts(b.variables)
  }

  lemma {:induction false} LetterAlone(head: string)
    requires |head| == 1 && IsWord(head)
    ensures var line := Join([head] + []);
      line != "" && line[0] == head[0] && Trim(line) == line && Words(line[1..]) == []
  {
    assert [head] + [] == [head];
    TrimTrimmed(head);
  }

  lemma {:induction false} ShownSays(b: Block, words: seq<string>, numVars: nat)
    requires WritableBlock(b, numVars) && (words == ShowInts(b.variables) || words == ShowInts(b.variables) + ["0"])
    ensures var line := Join([HeadOf(b)] + words);
      IsQuantifierLine(line) && Trim(line) == line && '\n' !in line && Says(line, numVars, b)
  {
    var all: seq<int> := if words == ShowInts(b.variables) then b.variables else b.variables + [0];
    ZeroWord(b.variables);
    assert words == ShowInts(all);
    ShownIntsParse(all);
    WordsAfter(HeadOf(b), words);
    LineHasNoNewline([HeadOf(b)] + words);
    if words == [] { LetterAlone(HeadOf(b)); } else { BlockLine(HeadOf(b), words); }
    forall k | 0 <= k < |all| ensures ParseI32(words[k]) == Some(all[k]) { ParseShownInt(all[k]); }
  }

  /** A shown line reads as its block, with its final zero and without. */
  lemma {:induction false} ZeroOptional(b: Block, r: Reader)
    requires r.header.Some? && WritableBlock(b, r.header.value.0)
    ensures ReadLine(Quantified, Join(TerseWords(b)), r) == Ok(r.(quantifiers := r.quantifiers + [b]))
    ensures ReadLine(Quantified, Join(TerseWords(b) + ["0"]), r) == Ok(r.(quantifiers := r.quantifiers + [b]))
  {
    var n := r.header.value.0;
    ShownSays(b, ShowInts(b.variables), n);
    QuantifierLineExact(Join(TerseWords(b)), r, b);
    assert TerseWords(b) + ["0"] == [HeadOf(b)] + (ShowInts(b.variables) + ["0"]);
    ShownSays(b, ShowInts(b.variables) + ["0"], n);
    QuantifierLineExact(Join(TerseWords(b) + ["0"]), r, b);
  }

  /* ---------- Whole files ---------- */

  function TerseLines(blocks: seq<Block>): seq<string> {
    seq(|blocks|, k requires 0 <= k < |blocks| => Join(TerseWords(blocks[k])))
  }

  /** The written file, its quantifier lines without their zeros. */
  function TerseFile(c: Cnf): seq<string> {
    CommentLines(c.comments) + [Join(HeaderWords(c))] + TerseLines(c.quantifiers) + ClauseLines(c.clauses)
  }

  lemma {:induction false} ReadTerse(bs: seq<Block>, r: Reader)
    requires r.header.Some? && forall k :: 0 <= k < |bs| ==> WritableBlock(bs[k], r.header.value.0)
    ensures ReadTexts(StepOf(Quantified), TerseLines(bs), r) == Ok(r.(quantifiers := r.quantifiers + bs))
  {
    forall k, seen | 0 <= k < |bs|
      ensures StepOf(Quantified)(TerseLines(bs)[k], r.(quantifiers := seen)) == Ok(r.(quantifiers := seen + [bs[k]]))
    {
      ZeroOptional(bs[k], r.(quantifiers := seen));
    }
    BlocksAppend(StepOf(Quantified), TerseLines(bs), bs, r);
  }

  lemma {:induction false} TerseHasNoNewlines(c: Cnf)
    requires Writable(Quantified, c)
    ensures NoNewlines(TerseFile(c))
  {
    WrittenHasNoNewlines(Quantified, c);
    var written, n, m := WrittenLines(c), |c.comments|, |c.quantifiers|;
    forall k | 0 <= k < |TerseFile(c)| ensures '\n' !in TerseFile(c)[k] {
      if n + 1 <= k < n + 1 + m {
        var b := c.quantifiers[k - n - 1];
        ShownSays(b, ShowInts(b.variables), c.numVars);
      } else {
        assert TerseFile(c)[k] == written[k];
      }
    }
  }

  lemma {:induction false} ReadsTerseLines(c: Cnf)
    requires Writable(Quantified, c)
    ensures ReadTexts(StepOf(Quantified), TerseFile(c), FRESH)
         == Ok(Reader(Some((c.numVars, |c.clauses|)), c.comments, c.quantifiers, Flatten(c.clauses)))
  {
    var step := StepOf(Quantified);
    var comments, header, blocks, clauses :=
      CommentLines(c.comments), [Join(HeaderWords(c))], TerseLines(c.quantifiers), ClauseLines(c.clauses);
    var r1 := FRESH.(comments := [] + c.comments);
    var r2 := r1.(header := Some((c.numVars, |c.clauses|)));
    var r3 := r2.(quantifiers := [] + c.quantifiers);
    ReadTextsConcat(step, comments + header + blocks, clauses, FRESH);
    ReadTextsConcat(step, comments + header, blocks, FRESH);
    ReadTextsConcat(step, comments, header, FRESH);
    ReadComments(Quantified, c.comments, FRESH);
    ReadHeader(Quantified, c, r1);
    assert ReadTexts(step, header, r1) == Ok(r2) by { assert header[1..] == []; }
    ReadTerse(c.quantifiers, r2);
    ReadClauses(Quantified, c.clauses, r3);
    assert [] + c.comments == c.comments && [] + c.quantifiers == c.quantifiers;
    assert [] + Flatten(c.clauses) == Flatten(c.clauses);
  }

  /** A problem written without the zeros of its quantifier lines reads back all the same. */
  lemma {:induction false} ParseTerse(c: Cnf)
    requires Writable(Quantified, c)
    ensures ParseSpec(Quantified, Encode(Unlines(TerseFile(c)))) == Ok(c)
  {
    TerseHasNoNewlines(c);
    ReadsItsLines(Quantified, TerseFile(c), FRESH);
    ReadsTerseLines(c);
    SplitFlatten(c.clauses, c.numVars, []);
    assert [] + c.clauses == c.clauses;
  }

  const SAMPLE: Cnf := Cnf(12, [Block(Universal, [1, 12]), Block(Existential, [])], [[-12, 3], []], ["two words"])

  lemma {:induction false} JoinThree(a: string, b: string, c: string)
    ensures Join([a, b, c]) == a + " " + (b + " " + c)
  {
    assert [a, b, c][1..] == [b, c] && [b, c][1..] == [c];
    assert Join([b, c]) == b + " " + c;
  }

  lemma {:induction false} JoinFour(a: string, b: string, c: string, d: string)
    ensures Join([a, b, c, d]) == a + " " + (b + " " + (c + " " + d))
  {
    assert [a, b, c, d][1..] == [b, c, d];
    JoinThree(b, c, d);
  }

  lemma {:induction false} ShownSample()
    ensures ShowInt(12) == ShowNat(12) == "12" && ShowInt(-12) == "-12"
    ensures ShowInt(1) == "1"
    ensures ShowNat(2) == "2"
    ensures ShowInt(3) == "3"
  {
    assert ShowNat(1) == [DigitChar(1)] == "1";
    assert ShowInt(1) == ShowNat(1) && ShowInt(3) == ShowNat(3) && ShowInt(12) == ShowNat(12);
    assert ShowInt(-12) == "-" + ShowNat(12);
    assert ShowNat(12) == ShowNat(1) + [DigitChar(2)] == "1" + "2" == "12";
    var two, three: string := [DigitChar(2)], [DigitChar(3)];
    assert ShowNat(2) == two == "2";
    assert ShowNat(3) == three == "3";
    assert "-" + "12" == "-12";
  }

  lemma {:induction false} SampleLines()
    ensures WrittenLines(SAMPLE) == ["c two words", "p cnf 12 2", "a 1 12 0", "e 0", "-12 3 0", "0"]
  {
    ShownSample();
    var c := SAMPLE;
    assert CommentLines(c.comments)[0] == "c " + "two words" == "c two words";
    assert HeaderWords(c) == ["p", "cnf", "12", "2"];
    JoinFour("p", "cnf", "12", "2");
    assert "p" + " " + ("cnf" + " " + ("12" + " " + "2")) == "p cnf 12 2";
    assert BlockWords(c.quantifiers[0]) == ["a", "1", "12", "0"];
    JoinFour("a", "1", "12", "0");
    assert "a" + " " + ("1" + " " + ("12" + " " + "0")) == "a 1 12 0";
    assert BlockWords(c.quantifiers[1]) == ["e", "0"] && ["e", "0"][1..] == ["0"];
    assert "e" + " " + "0" == "e 0";
    assert ClauseWords(c.clauses[0]) == ["-12", "3", "0"];
    JoinThree("-12", "3", "0");
    assert "-12" + " " + ("3" + " " + "0") == "-12 3 0";
    assert ClauseWords(c.clauses[1]) == ["0"];
  }

  /** One written file, to the letter. */
  lemma {:induction false} SampleText()
    ensures Unlines(WrittenLines(SAMPLE))
         == "c two words\n" + "p cnf 12 2\n" + "a 1 12 0\n" + "e 0\n" + "-12 3 0\n" + "0\n"
  {
    SampleLines();
    UnlinesSix("c two words", "p cnf 12 2", "a 1 12 0", "e 0", "-12 3 0", "0");
  }

  lemma {:induction false} UnlinesSix(a: string, b: string, c: string, d: string, e: string, f: string)
    ensures Unlines([a, b, c, d, e, f]) == (a + "\n") + (b + "\n") + (c + "\n") + (d + "\n") + (e + "\n") + (f + "\n")
  {
    UnlinesThree(d, e, f);
    UnlinesThree(a, b, c);
    UnlinesConcat([a, b, c], [d, e, f]);
    assert [a, b, c] + [d, e, f] == [a, b, c, d, e, f];
  }

  lemma {:induction false} UnlinesThree(a: string, b: string, c: string)
    ensures Unlines([a, b, c]) == (a + "\n") + (b + "\n") + (c + "\n")
  {
    assert [a, b, c][1..] == [b, c] && [b, c][1..] == [c] && [c][1..] == [];
    assert Unlines([c]) == c + "\n" + "" == c + "\n";
    assert Unlines([b, c]) == b + "\n" + (c + "\n");
    assert Unlines([a, b, c]) == a + "\n" + (b + "\n" + (c + "\n"));
  }

  /* ---------- The two formats ---------- */

  lemma {:induction false} LetterIsNoNumber(text: string)
    requires IsQuantifierLine(text)
    ensures ParseTokens(Words(text)).Err?
  {
    var w := Words(text)[0];
    assert w[0] == text[0] && !IsDigitChar(w[0]);
    assert ParseI32(w).None?;
  }

  /** On one line: alike, or a quantifier line, which the plain format rejects. */
  lemma {:induction false} LineFormats(line: string, r: Reader)
    ensures ReadLine(Plain, line, r).Ok? ==>
      && ReadLine(Quantified, line, r) == ReadLine(Plain, line, r)
      && ReadLine(Plain, line, r).value.quantifiers == r.quantifiers
    ensures ReadLine(Quantified, line, r).Ok? ==>
      var r' := ReadLine(Quantified, line, r).value;
      && |r.quantifiers| <= |r'.quantifiers|
      && (|r'.quantifiers| == |r.quantifiers| ==> ReadLine(Plain, line, r) == ReadLine(Quantified, line, r))
  {
    if IsQuantifierLine(Trim(line)) {
      LetterIsNoNumber(Trim(line));
    }
  }

  lemma {:induction false} LinesFormats(bs: Bytes, r: Reader)
    ensures ReadLines(Plain, bs, r).Ok? ==>
      && ReadLines(Quantified, bs, r) == ReadLines(Plain, bs, r)
      && ReadLines(Plain, bs, r).value.quantifiers == r.quantifiers
    ensures ReadLines(Quantified, bs, r).Ok? ==>
      var r' := ReadLines(Quantified, bs, r).value;
      && |r.quantifiers| <= |r'.quantifiers|
      && (|r'.quantifiers| == |r.quantifiers| ==> ReadLines(Plain, bs, r) == ReadLines(Quantified, bs, r))
    decreases |bs|
  {
    if bs != [] {
      var n := LineLength(bs);
      var rest := if n < |bs| then bs[n + 1..] else [];
      var line := Decode(bs[..n]);
      if line.Some? {
        LineFormats(line.value, r);
        if ReadLine(Quantified, line.value, r).Ok? {
          LinesFormats(rest, ReadLine(Quantified, line.value, r).value);
        }
      }
    }
  }

  /** No line of the file is a quantifier line. */
  predicate Letterless(bs: Bytes)
    decreases |bs|
  {
    bs != [] ==>
      var n := LineLength(bs);
      && (Decode(bs[..n]).Some? ==> !IsQuantifierLine(Trim(Decode(bs[..n]).value)))
      && Letterless(if n < |bs| then bs[n + 1..] else [])
  }

  lemma {:induction false} LetterlessLines(bs: Bytes, r: Reader)
    requires Letterless(bs)
    ensures ReadLines(Plain, bs, r) == ReadLines(Quantified, bs, r)
    decreases |bs|
  {
    if bs != [] {
      var n := LineLength(bs);
      var rest := if n < |bs| then bs[n + 1..] else [];
      var line := Decode(bs[..n]);
      if line.Some? {
        OtherLine(line.value, r);
        if ReadLine(Quantified, line.value, r).Ok? {
          LetterlessLines(rest, ReadLine(Quantified, line.value, r).value);
        }
      }
    }
  }

  lemma OtherLine(line: string, r: Reader)
    requires !IsQuantifierLine(Trim(line))
    ensures ReadLine(Plain, line, r) == ReadLine(Quantified, line, r)
  {
  }

  /** The plain format reads exactly the quantified files without a block, and reads them alike. */
  lemma {:induction false} PlainIsBlockFree(bs: Bytes, c: Cnf)
    ensures ParseSpec(Plain, bs) == Ok(c) <==> ParseSpec(Quantified, bs) == Ok(c) && c.quantifiers == []
    ensures Letterless(bs) ==> ParseSpec(Plain, bs) == ParseSpec(Quantified, bs)
  {
    LinesFormats(bs, FRESH);
    if Letterless(bs) { LetterlessLines(bs, FRESH); }
  }
}
