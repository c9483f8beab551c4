/**
 * Reading back what was written, by the line reader for both formats: comments, the problem line,
 * quantifier blocks and clauses, line by line and then as a whole problem.
 */
module DimacsRoundTrip {
  import opened Wrappers
  import opened Utf8
  import opened Text
  import opened Dimacs
  import P = ParseLit
  import F = FlatScan

  predicate WritableComment(s: string) {
    Trimmed(s) && '\n' !in s
  }

  predicate WritableClause(c: Clause, numVars: nat) {
    forall k :: 0 <= k < |c| ==> c[k] != 0 && Abs(c[k]) <= numVars && -I32_LIMIT <= c[k] < I32_LIMIT
  }

  predicate WritableBlock(b: Block, numVars: nat) {
    forall k :: 0 <= k < |b.variables| ==> 0 < b.variables[k] <= numVars && b.variables[k] < I32_LIMIT
  }

  /** In-range nonzero literals, single-line trimmed comments, counts that fit a machine word. */
  predicate Writable(format: Format, c: Cnf) {
    && (format == Plain ==> c.quantifiers == [])
    && c.numVars < U64_LIMIT && |c.clauses| < U64_LIMIT
    && (forall k :: 0 <= k < |c.comments| ==> WritableComment(c.comments[k]))
    && (forall k :: 0 <= k < |c.quantifiers| ==> WritableBlock(c.quantifiers[k], c.numVars))
    && (forall k :: 0 <= k < |c.clauses| ==> WritableClause(c.clauses[k], c.numVars))
  }

  /* ---------- Lines ---------- */

  type Step = (string, Reader) -> Result<Reader, Error>

  function StepOf(format: Format): Step {
    (line, r) => ReadLine(format, line, r)
  }

  /** The reader on lines of text. */
  function ReadTexts(step: Step, lines: seq<string>, r: Reader): Result<Reader, Error> {
    if lines == [] then Ok(r)
    else match step(lines[0], r)
      case Err(e) => Err(e)
      case Ok(r') => ReadTexts(step, lines[1..], r')
  }

  predicate NoNewlines(lines: seq<string>) {
    forall k :: 0 <= k < |lines| ==> '\n' !in lines[k]
  }

  lemma {:induction false} NotNewline(line: string, k: nat)
    requires '\n' !in line && k < |Encode(line)|
    ensures Encode(line)[k] != NEWLINE
  {
    if Encode(line)[k] < 0x80 {
      LowBytesAreChars(line, k);
    }
  }

  /** The encoding of a line ends where its newline begins. */
  lemma {:induction false} EncodedLine(line: string, rest: Bytes)
    requires '\n' !in line
    ensures LineLength(Encode(line) + [NEWLINE] + rest) == |Encode(line)|
  {
    var bs := Encode(line) + [NEWLINE] + rest;
    var n := |Encode(line)|;
    forall k | 0 <= k < n ensures bs[k] != NEWLINE {
      NotNewline(line, k);
      assert bs[k] == Encode(line)[k];
    }
    LineLengthIs(bs, n);
  }

  lemma {:induction false} LineLengthIs(bs: Bytes, n: nat)
    requires n < |bs| && bs[n] == NEWLINE && forall k :: 0 <= k < n ==> bs[k] != NEWLINE
    ensures LineLength(bs) == n
  {
    if n > 0 { LineLengthIs(bs[1..], n - 1); }
  }

  lemma {:induction false} EncodeLines(line: string, lines: seq<string>)
    ensures Encode(Unlines([line] + lines)) == Encode(line) + [NEWLINE] + Encode(Unlines(lines))
  {
    assert ([line] + lines)[1..] == lines;
    EncodeConcat(line + "\n", Unlines(lines));
    EncodeConcat(line, "\n");
    assert Encode("\n") == [NEWLINE] by { assert "\n"[1..] == ""; }
  }

  lemma {:induction false} ReadsItsLines(format: Format, lines: seq<string>, r: Reader)
    requires NoNewlines(lines)
    ensures ReadLines(format, Encode(Unlines(lines)), r) == ReadTexts(StepOf(format), lines, r)
  {
    if lines != [] {
      var rest := Encode(Unlines(lines[1..]));
      var bs := Encode(lines[0]) + [NEWLINE] + rest;
      var n := |Encode(lines[0])|;
      assert lines == [lines[0]] + lines[1..];
      EncodeLines(lines[0], lines[1..]);
      EncodedLine(lines[0], rest);
      assert bs[..n] == Encode(lines[0]) && bs[n + 1..] == rest;
      DecodeEncode(lines[0]);
      if ReadLine(format, lines[0], r).Ok? {
        ReadsItsLines(format, lines[1..], ReadLine(format, lines[0], r).value);
      }
    }
  }

  lemma {:induction false} ReadTextsConcat(step: Step, a: seq<string>, b: seq<string>, r: Reader)
    ensures ReadTexts(step, a + b, r) ==
      match ReadTexts(step, a, r) case Err(e) => Err(e) case Ok(r') => ReadTexts(step, b, r')
  {
    if a == [] {
      assert a + b == b;
    } else {
      assert (a + b)[1..] == a[1..] + b;
      if step(a[0], r).Ok? {
        ReadTextsConcat(step, a[1..], b, step(a[0], r).value);
      }
    }
  }

  /* ---------- Each kind of line ---------- */

  lemma {:induction false} ReadComment(format: Format, c: string, r: Reader)
    requires WritableComment(c)
    ensures ReadLine(format, "c " + c, r) == Ok(r.(comments := r.comments + [c]))
  {
    var line := "c " + c;
    TrimTrimmed(c);
    if c == "" {
      assert line == "c ";
      assert line[..1] == "c";
      assert Trim(line) == "c" by { assert TrimEnd("c ") == TrimEnd("c"); }
      assert "c"[1..] == "";
    } else {
      assert line[|line| - 1] == c[|c| - 1];
      TrimTrimmed(line);
      assert line[1..] == " " + c && (" " + c)[1..] == c;
      assert TrimStart(" " + c) == TrimStart(c);
    }
  }

  /** Every line appends its comment to what was read. */
  ghost predicate AppendComments(step: Step, lines: seq<string>, cs: seq<string>, r: Reader) {
    && |lines| == |cs|
    && forall k, seen :: 0 <= k < |lines| ==> step(lines[k], r.(comments := seen)) == Ok(r.(comments := seen + [cs[k]]))
  }

  lemma {:induction false} CommentsAppend(step: Step, lines: seq<string>, cs: seq<string>, r: Reader)
    requires AppendComments(step, lines, cs, r)
    ensures ReadTexts(step, lines, r) == Ok(r.(comments := r.comments + cs))
  {
    if lines == [] {
      assert r.comments + cs == r.comments;
    } else {
      var r' := r.(comments := r.comments + [cs[0]]);
      assert r.(comments := r.comments) == r;
      assert step(lines[0], r) == Ok(r');
      CommentsAppend(step, lines[1..], cs[1..], r');
      assert r'.comments + cs[1..] == r.comments + cs;
    }
  }

  lemma {:induction false} ReadComments(format: Format, cs: seq<string>, r: Reader)
    requires forall k :: 0 <= k < |cs| ==> WritableComment(cs[k])
    ensures ReadTexts(StepOf(format), CommentLines(cs), r) == Ok(r.(comments := r.comments + cs))
  {
    forall k, seen | 0 <= k < |cs|
      ensures StepOf(format)(CommentLines(cs)[k], r.(comments := seen)) == Ok(r.(comments := seen + [cs[k]]))
    {
      ReadComment(format, cs[k], r.(comments := seen));
    }
    CommentsAppend(StepOf(format), CommentLines(cs), cs, r);
  }

  lemma {:induction false} HeaderParses(c: Cnf)
    requires c.numVars < U64_LIMIT && |c.clauses| < U64_LIMIT
    ensures Trim(Join(HeaderWords(c))) == Join(HeaderWords(c))
    ensures PREFIX <= Join(HeaderWords(c))
    ensures Join(HeaderWords(c)) != "" && Join(HeaderWords(c))[0] == 'p'
    ensures ParseHeader(Join(HeaderWords(c))) == Ok((c.numVars, |c.clauses|))
  {
    var ws := HeaderWords(c);
    ParseShownNat(c.numVars);
    ParseShownNat(|c.clauses|);
    assert IsWord("p") && IsWord("cnf");
    JoinTrimmed(ws);
    TrimTrimmed(Join(ws));
    WordsJoin(ws);
    HeaderPrefix(ws);
  }

  lemma {:induction false} HeaderPrefix(ws: seq<string>)
    requires |ws| == 4 && ws[0] == "p" && ws[1] == "cnf"
    ensures PREFIX <= Join(ws)
  {
    var rest := Join(ws[2..]);
    assert ws[1..][1..] == ws[2..];
    assert Join(ws[1..]) == "cnf" + " " + rest;
    assert Join(ws) == "p" + " " + ("cnf" + " " + rest) == "p cnf" + (" " + rest);
  }

  lemma {:induction false} ReadHeader(format: Format, c: Cnf, r: Reader)
    requires c.numVars < U64_LIMIT && |c.clauses| < U64_LIMIT
    ensures ReadLine(format, Join(HeaderWords(c)), r) == Ok(r.(header := Some((c.numVars, |c.clauses|))))
  {
    HeaderParses(c);
  }

  lemma {:induction false} ShownIntsParse(xs: seq<int>)
    requires forall k :: 0 <= k < |xs| ==> -I32_LIMIT <= xs[k] < I32_LIMIT
    ensures forall k :: 0 <= k < |xs| ==> IsWord(ShowInts(xs)[k])
    ensures ParseTokens(ShowInts(xs)) == Ok(xs)
    ensures ParseQuantifierWords(ShowInts(xs)) == Some(xs)
  {
    if xs != [] {
      ParseShownInt(xs[0]);
      assert ShowInts(xs)[1..] == ShowInts(xs[1..]);
      assert ShowInts(xs)[0] == ShowInt(xs[0]);
      assert [xs[0]] + xs[1..] == xs;
      ShownIntsParse(xs[1..]);
      forall k | 0 <= k < |xs| ensures IsWord(ShowInts(xs)[k]) {
        assert k > 0 ==> ShowInts(xs)[k] == ShowInts(xs[1..])[k - 1];
      }
    }
  }

  lemma {:induction false} ZeroWord(xs: seq<int>)
    ensures ShowInts(xs) + ["0"] == ShowInts(xs + [0])
  {
    assert ShowNat(0) == [DigitChar(0)] == "0";
  }

  lemma {:induction false} ChecksVariables(vars: seq<nat>, numVars: nat)
    requires forall k :: 0 <= k < |vars| ==> 0 < vars[k] <= numVars
    ensures CheckVariables(vars, numVars) == Ok(vars)
  {
    if vars != [] {
      ChecksVariables(vars[1..], numVars);
      assert [vars[0]] + vars[1..] == vars;
    }
  }

  function HeadOf(b: Block): string {
    if b.quantifier == Universal then "a" else "e"
  }

  lemma {:induction false} BlockWordsAreWords(b: Block, numVars: nat)
    requires WritableBlock(b, numVars)
    ensures BlockWords(b) == [HeadOf(b)] + ShowInts(b.variables + [0])
    ensures forall k :: 0 <= k < |BlockWords(b)| ==> IsWord(BlockWords(b)[k])
  {
    var all: seq<int> := b.variables + [0];
    ZeroWord(b.variables);
    assert BlockWords(b) == [HeadOf(b)] + ShowInts(all);
    ShownIntsParse(all);
    WordsAfter(HeadOf(b), ShowInts(all));
  }

  lemma {:induction false} WordsAfter(head: string, words: seq<string>)
    requires IsWord(head) && forall k :: 0 <= k < |words| ==> IsWord(words[k])
    ensures forall k :: 0 <= k < |[head] + words| ==> IsWord(([head] + words)[k])
  {
    forall k | 0 <= k < |[head] + words| ensures IsWord(([head] + words)[k]) {
      assert k > 0 ==> ([head] + words)[k] == words[k - 1];
    }
  }

  lemma {:induction false} BlockParses(b: Block, numVars: nat)
    requires WritableBlock(b, numVars)
    ensures var line := Join(BlockWords(b));
      && line != "" && line[0] == (if b.quantifier == Universal then 'a' else 'e')
      && Trim(line) == line && ParseBlock(line, numVars) == Ok(b)
  {
    var all := b.variables + [0];
    BlockWordsAreWords(b, numVars);
    ShownIntsParse(all);
    BlockLine(HeadOf(b), ShowInts(all));
    assert all[..|all| - 1] == b.variables;
    ChecksVariables(b.variables, numVars);
  }

  lemma {:induction false} BlockLine(head: string, words: seq<string>)
    requires |head| == 1 && IsWord(head) && words != [] && forall k :: 0 <= k < |words| ==> IsWord(words[k])
    ensures var line := Join([head] + words);
      line != "" && line[0] == head[0] && Trim(line) == line && Words(line[1..]) == words
  {
    var line := Join([head] + words);
    JoinTrimmed([head] + words);
    TrimTrimmed(line);
    assert ([head] + words)[1..] == words;
    assert line == head + " " + Join(words);
    assert line[1..] == " " + Join(words);
    assert (" " + Join(words))[1..] == Join(words);
    WordsJoin(words);
  }

  /** Every line appends its block to what was read. */
  ghost predicate AppendBlocks(step: Step, lines: seq<string>, bs: seq<Block>, r: Reader) {
    && |lines| == |bs|
    && forall k, seen :: 0 <= k < |lines| ==> step(lines[k], r.(quantifiers := seen)) == Ok(r.(quantifiers := seen + [bs[k]]))
  }

  lemma {:induction false} BlocksAppend(step: Step, lines: seq<string>, bs: seq<Block>, r: Reader)
    requires AppendBlocks(step, lines, bs, r)
    ensures ReadTexts(step, lines, r) == Ok(r.(quantifiers := r.quantifiers + bs))
  {
    if lines == [] {
      assert r.quantifiers + bs == r.quantifiers;
    } else {
      var r' := r.(quantifiers := r.quantifiers + [bs[0]]);
      assert r.(quantifiers := r.quantifiers) == r;
      assert step(lines[0], r) == Ok(r');
      BlocksAppend(step, lines[1..], bs[1..], r');
      assert r'.quantifiers + bs[1..] == r.quantifiers + bs;
    }
  }

  lemma {:induction false} ReadBlocks(bs: seq<Block>, r: Reader)
    requires r.header.Some? && forall k :: 0 <= k < |bs| ==> WritableBlock(bs[k], r.header.value.0)
    ensures ReadTexts(StepOf(Quantified), BlockLines(bs), r) == Ok(r.(quantifiers := r.quantifiers + bs))
  {
    forall k, seen | 0 <= k < |bs|
      ensures StepOf(Quantified)(BlockLines(bs)[k], r.(quantifiers := seen)) == Ok(r.(quantifiers := seen + [bs[k]]))
    {
      ReadBlock(bs[k], r.(quantifiers := seen));
    }
    BlocksAppend(StepOf(Quantified), BlockLines(bs), bs, r);
  }

  lemma {:induction false} ReadBlock(b: Block, r: Reader)
    requires r.header.Some? && WritableBlock(b, r.header.value.0)
    ensures ReadLine(Quantified, Join(BlockWords(b)), r) == Ok(r.(quantifiers := r.quantifiers + [b]))
  {
    BlockParses(b, r.header.value.0);
    var line := Join(BlockWords(b));
    assert line[0] != 'p' && !(PREFIX <= line);
  }

  lemma {:induction false} ClauseParses(c: Clause, numVars: nat)
    requires WritableClause(c, numVars)
    ensures var line := Join(ClauseWords(c));
      && line != "" && (IsDigitChar(line[0]) || line[0] == '-')
      && Trim(line) == line && ParseTokens(Words(line)) == Ok(c + [0])
  {
    var words := ShowInts(c + [0]);
    ZeroWord(c);
    ShownIntsParse(c + [0]);
    JoinTrimmed(words);
    TrimTrimmed(Join(words));
    WordsJoin(words);
    ParseShownInt((c + [0])[0]);
    assert words[0] == ShowInt((c + [0])[0]);
  }

  lemma {:induction false} ReadClause(format: Format, c: Clause, r: Reader)
    requires r.header.Some? && WritableClause(c, r.header.value.0)
    ensures ReadLine(format, Join(ClauseWords(c)), r) == Ok(r.(tokens := r.tokens + (c + [0])))
  {
    ClauseParses(c, r.header.value.0);
    var line := Join(ClauseWords(c));
    assert line[0] != 'c' && line[0] != 'p' && line[0] != 'a' && line[0] != 'e';
    assert !(PREFIX <= line);
  }

  /** The literal stream: every clause followed by its zero. */
  function Flatten(clauses: seq<Clause>): seq<int> {
    if clauses == [] then [] else clauses[0] + [0] + Flatten(clauses[1..])
  }

  /** Every line appends its literals and zero to what was read. */
  ghost predicate AppendClauses(step: Step, lines: seq<string>, cs: seq<Clause>, r: Reader) {
    && |lines| == |cs|
    && forall k, seen :: 0 <= k < |lines| ==> step(lines[k], r.(tokens := seen)) == Ok(r.(tokens := seen + (cs[k] + [0])))
  }

  lemma {:induction false} ClausesAppend(step: Step, lines: seq<string>, cs: seq<Clause>, r: Reader)
    requires AppendClauses(step, lines, cs, r)
    ensures ReadTexts(step, lines, r) == Ok(r.(tokens := r.tokens + Flatten(cs)))
  {
    if lines == [] {
      assert r.tokens + Flatten(cs) == r.tokens;
    } else {
      var r' := r.(tokens := r.tokens + (cs[0] + [0]));
      assert r.(tokens := r.tokens) == r;
      assert step(lines[0], r) == Ok(r');
      ClausesAppend(step, lines[1..], cs[1..], r');
      assert r'.tokens + Flatten(cs[1..]) == r.tokens + Flatten(cs);
    }
  }

  lemma {:induction false} ReadClauses(format: Format, cs: seq<Clause>, r: Reader)
    requires r.header.Some? && forall k :: 0 <= k < |cs| ==> WritableClause(cs[k], r.header.value.0)
    ensures ReadTexts(StepOf(format), ClauseLines(cs), r) == Ok(r.(tokens := r.tokens + Flatten(cs)))
  {
    forall k, seen | 0 <= k < |cs|
      ensures StepOf(format)(ClauseLines(cs)[k], r.(tokens := seen)) == Ok(r.(tokens := seen + (cs[k] + [0])))
    {
      ReadClause(format, cs[k], r.(tokens := seen));
    }
    ClausesAppend(StepOf(format), ClauseLines(cs), cs, r);
  }

  lemma {:induction false} SplitClause(c: Clause, rest: seq<int>, numVars: nat, done: seq<Clause>, current: Clause)
    requires WritableClause(c, numVars)
    ensures Split(c + [0] + rest, numVars, done, current) == Split(rest, numVars, done + [current + c], [])
  {
    var tokens := c + [0] + rest;
    if c == [] {
      assert tokens[1..] == rest && current + c == current;
    } else {
      assert tokens[1..] == c[1..] + [0] + rest;
      SplitClause(c[1..], rest, numVars, done, current + [c[0]]);
      assert current + [c[0]] + c[1..] == current + c;
    }
  }

  /** Cutting the stream at its zeros gives the clauses back, empty ones included. */
  lemma {:induction false} SplitFlatten(cs: seq<Clause>, numVars: nat, done: seq<Clause>)
    requires forall k :: 0 <= k < |cs| ==> WritableClause(cs[k], numVars)
    ensures Split(Flatten(cs), numVars, done, []) == Ok(done + cs)
  {
    if cs == [] {
      assert done + cs == done;
    } else {
      SplitClause(cs[0], Flatten(cs[1..]), numVars, done, []);
      assert [] + cs[0] == cs[0];
      SplitFlatten(cs[1..], numVars, done + [cs[0]]);
      assert done + [cs[0]] + cs[1..] == done + cs;
    }
  }

  /* ---------- The whole file ---------- */

  lemma {:induction false} LineHasNoNewline(ws: seq<string>)
    requires forall k :: 0 <= k < |ws| ==> IsWord(ws[k])
    ensures '\n' !in Join(ws)
  {
    if |ws| == 1 {
      WordHasNoNewline(ws[0]);
    } else if |ws| > 1 {
      WordHasNoNewline(ws[0]);
      LineHasNoNewline(ws[1..]);
    }
  }

  lemma {:induction false} WordHasNoNewline(w: string)
    requires IsWord(w)
    ensures '\n' !in w
  {
    assert IsSpace('\n');
  }

  lemma {:induction false} WrittenHasNoNewlines(format: Format, c: Cnf)
    requires Writable(format, c)
    ensures NoNewlines(WrittenLines(c))
  {
    assert NoNewlines(CommentLines(c.comments));
    forall k | 0 <= k < |c.quantifiers| ensures '\n' !in BlockLines(c.quantifiers)[k] {
      BlockHasNoNewline(c.quantifiers[k], c.numVars);
    }
    forall k | 0 <= k < |c.clauses| ensures '\n' !in ClauseLines(c.clauses)[k] {
      ClauseHasNoNewline(c.clauses[k], c.numVars);
    }
    HeaderHasNoNewline(c);
  }

  lemma {:induction false} BlockHasNoNewline(b: Block, numVars: nat)
    requires WritableBlock(b, numVars)
    ensures '\n' !in Join(BlockWords(b))
  {
    BlockWordsAreWords(b, numVars);
    LineHasNoNewline(BlockWords(b));
  }

  lemma {:induction false} ClauseHasNoNewline(c: Clause, numVars: nat)
    requires WritableClause(c, numVars)
    ensures '\n' !in Join(ClauseWords(c))
  {
    ZeroWord(c);
    ShownIntsParse(c + [0]);
    LineHasNoNewline(ClauseWords(c));
  }

  lemma {:induction false} HeaderHasNoNewline(c: Cnf)
    requires c.numVars < U64_LIMIT && |c.clauses| < U64_LIMIT
    ensures '\n' !in Join(HeaderWords(c))
  {
    ParseShownNat(c.numVars);
    ParseShownNat(|c.clauses|);
    LineHasNoNewline(HeaderWords(c));
  }

  lemma {:induction false} ReadsWrittenLines(format: Format, c: Cnf)
    requires Writable(format, c)
    ensures ReadTexts(StepOf(format), WrittenLines(c), FRESH)
         == Ok(Reader(Some((c.numVars, |c.clauses|)), c.comments, c.quantifiers, Flatten(c.clauses)))
  {
    var comments, header, blocks, clauses :=
      CommentLines(c.comments), [Join(HeaderWords(c))], BlockLines(c.quantifiers), ClauseLines(c.clauses);
    var r1 := FRESH.(comments := [] + c.comments);
    var r2 := r1.(header := Some((c.numVars, |c.clauses|)));
    var r3 := r2.(quantifiers := [] + c.quantifiers);
    ReadTextsConcat(StepOf(format), comments + header + blocks, clauses, FRESH);
    ReadTextsConcat(StepOf(format), comments + header, blocks, FRESH);
    ReadTextsConcat(StepOf(format), comments, header, FRESH);
    ReadComments(format, c.comments, FRESH);
    ReadHeader(format, c, r1);
    assert ReadTexts(StepOf(format), header, r1) == Ok(r2) by { assert header[1..] == []; }
    if format == Quantified {
      ReadBlocks(c.quantifiers, r2);
    } else {
      assert blocks == [] && [] + c.quantifiers == r2.quantifiers;
    }
    ReadClauses(format, c.clauses, r3);
    assert [] + c.comments == c.comments && [] + c.quantifiers == c.quantifiers;
    assert [] + Flatten(c.clauses) == Flatten(c.clauses);
  }

  /** Reading the written file gives the problem back, in both formats. */
  lemma {:induction false} ParseWrite(format: Format, c: Cnf)
    requires Writable(format, c)
    ensures ParseSpec(format, WrittenBytes(c)) == Ok(c)
  {
    WrittenHasNoNewlines(format, c);
    ReadsItsLines(format, WrittenLines(c), FRESH);
    ReadsWrittenLines(format, c);
    SplitFlatten(c.clauses, c.numVars, []);
    assert [] + c.clauses == c.clauses;
  }
}
