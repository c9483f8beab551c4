/** The line-oriented DIMACS and QDIMACS readers and the writers, over the bytes of a file. */
module Dimacs {
  import opened Wrappers
  import opened Utf8
  import opened Text

  /** The two formats; only the second has quantifier lines. */
  datatype Format = Plain | Quantified

  datatype Quantifier = Universal | Existential

  datatype Block = Block(quantifier: Quantifier, variables: seq<nat>)

  type Clause = seq<int>

  /** A problem; the plain format's has no quantifier blocks. */
  datatype Cnf = Cnf(numVars: nat, quantifiers: seq<Block>, clauses: seq<Clause>, comments: seq<string>)

  datatype Error =
    | ReadFailed
    | InvalidUtf8
    | InvalidProblemLine(line: string)
    | InvalidNumVars(word: string)
    | InvalidNumClauses(word: string)
    | BeforeProblemLine
    | NoProblemLine
    | InvalidLiteral(word: string)
    | InvalidToken(bytes: Bytes)
    | InvalidQuantifierWord
    | InvalidQuantifierVariable(value: int)
    | QuantifierVariableTooLarge(value: int, numVars: nat)
    | LiteralTooLarge(literal: int, numVars: nat)
    | Unterminated(literals: seq<int>)
    | UnterminatedTail
    | WrongClauseCount(expected: nat, found: nat)

  const NEWLINE: byte := 0x0A
  const PREFIX: string := "p cnf"

  /* ---------- Reading ---------- */

  /** How many bytes precede the first newline. */
  function LineLength(bs: Bytes): (n: nat)
    ensures n <= |bs|
    ensures forall k :: 0 <= k < n ==> bs[k] != NEWLINE
    ensures n < |bs| ==> bs[n] == NEWLINE
  {
    if bs == [] || bs[0] == NEWLINE then 0 else 1 + LineLength(bs[1..])
  }

  /** The `p cnf <vars> <clauses>` line. */
  function ParseHeader(line: string): Result<(nat, nat), Error> {
    var parts := Words(line);
    if |parts| != 4 then Err(InvalidProblemLine(line))
    else match ParseUsize(parts[2])
      case None => Err(InvalidNumVars(parts[2]))
      case Some(vars) =>
        match ParseUsize(parts[3])
        case None => Err(InvalidNumClauses(parts[3]))
        case Some(clauses) => Ok((vars, clauses))
  }

  /** What the reader has gathered; `header` is the last problem line seen. */
  datatype Reader = Reader(header: Option<(nat, nat)>, comments: seq<string>, quantifiers: seq<Block>, tokens: seq<int>)

  const FRESH := Reader(None, [], [], [])

  function ParseTokens(words: seq<string>): Result<seq<int>, Error> {
    if words == [] then Ok([])
    else match ParseI32(words[0])
      case None => Err(InvalidLiteral(words[0]))
      case Some(v) =>
        match ParseTokens(words[1..])
        case Err(e) => Err(e)
        case Ok(vs) => Ok([v] + vs)
  }

  /** All words are numbers, or the line is rejected. */
  function ParseQuantifierWords(words: seq<string>): Option<seq<int>> {
    if words == [] then Some([])
    else match (ParseI32(words[0]), ParseQuantifierWords(words[1..]))
      case (Some(v), Some(vs)) => Some([v] + vs)
      case (_, _) => None
  }

  function CheckVariables(vars: seq<int>, numVars: nat): Result<seq<nat>, Error> {
    if vars == [] then Ok([])
    else if vars[0] <= 0 then Err(InvalidQuantifierVariable(vars[0]))
    else if vars[0] > numVars then Err(QuantifierVariableTooLarge(vars[0], numVars))
    else match CheckVariables(vars[1..], numVars)
      case Err(e) => Err(e)
      case Ok(vs) => Ok([vars[0]] + vs)
  }

  /** An `a` or `e` line, the terminating zero optional. */
  function ParseBlock(line: string, numVars: nat): Result<Block, Error>
    requires line != ""
  {
    match ParseQuantifierWords(Words(line[1..]))
    case None => Err(InvalidQuantifierWord)
    case Some(vars) =>
      var body := if vars != [] && vars[|vars| - 1] == 0 then vars[..|vars| - 1] else vars;
      match CheckVariables(body, numVars)
      case Err(e) => Err(e)
      case Ok(vs) => Ok(Block(if line[0] == 'a' then Universal else Existential, vs))
  }

  function ReadLine(format: Format, line: string, r: Reader): Result<Reader, Error> {
    var t := Trim(line);
    if t == "" then Ok(r)
    else if t[0] == 'c' then Ok(r.(comments := r.comments + [Trim(t[1..])]))
    else if PREFIX <= t then
      match ParseHeader(t)
      case Err(e) => Err(e)
      case Ok(h) => Ok(r.(header := Some(h)))
    else if r.header.None? then Err(BeforeProblemLine)
    else if format == Quantified && (t[0] == 'a' || t[0] == 'e') then
      match ParseBlock(t, r.header.value.0)
      case Err(e) => Err(e)
      case Ok(b) => Ok(r.(quantifiers := r.quantifiers + [b]))
    else
      match ParseTokens(Words(t))
      case Err(e) => Err(e)
      case Ok(vs) => Ok(r.(tokens := r.tokens + vs))
  }

  /** The lines one by one; a trailing newline ends the last line. */
  function ReadLines(format: Format, bs: Bytes, r: Reader): Result<Reader, Error>
    decreases |bs|
  {
    if bs == [] then Ok(r)
    else
      var n := LineLength(bs);
      match Decode(bs[..n])
      case None => Err(ReadFailed)
      case Some(line) =>
        match ReadLine(format, line, r)
        case Err(e) => Err(e)
        case Ok(r') => ReadLines(format, if n < |bs| then bs[n + 1..] else [], r')
  }

  /** The literal stream cut at its zeros. */
  function Split(tokens: seq<int>, numVars: nat, clauses: seq<Clause>, current: Clause): Result<seq<Clause>, Error>
    decreases |tokens|
  {
    if tokens == [] then if current == [] then Ok(clauses) else Err(Unterminated(current))
    else if tokens[0] == 0 then Split(tokens[1..], numVars, clauses + [current], [])
    else if Abs(tokens[0]) > numVars then Err(LiteralTooLarge(tokens[0], numVars))
    else Split(tokens[1..], numVars, clauses, current + [tokens[0]])
  }

  function Abs(x: int): nat {
    if x < 0 then -x else x
  }

  function Finish(r: Reader): Result<Cnf, Error> {
    match r.header
    case None => Err(NoProblemLine)
    case Some((vars, expected)) =>
      match Split(r.tokens, vars, [], [])
      case Err(e) => Err(e)
      case Ok(clauses) =>
        if |clauses| != expected then Err(WrongClauseCount(expected, |clauses|))
        else Ok(Cnf(vars, r.quantifiers, clauses, r.comments))
  }

  function ParseSpec(format: Format, bs: Bytes): Result<Cnf, Error> {
    match ReadLines(format, bs, FRESH)
    case Err(e) => Err(e)
    case Ok(r) => Finish(r)
  }

  /** The reader's loops: over the lines, then over the literal stream. */
  method Parse(format: Format, bs: Bytes) returns (result: Result<Cnf, Error>)
    ensures result == ParseSpec(format, bs)
  {
    var r := FRESH;
    var rest := bs;
    while rest != []
      invariant ReadLines(format, bs, FRESH) == ReadLines(format, rest, r)
      decreases |rest|
    {
      var n := LineLength(rest);
      var line := Decode(rest[..n]);
      if line.None? {
        return Err(ReadFailed);
      }
      var step := ReadLine(format, line.value, r);
      if step.Err? {
        return Err(step.error);
      }
      r := step.value;
      rest := if n < |rest| then rest[n + 1..] else [];
    }
    if r.header.None? {
      return Err(NoProblemLine);
    }
    var numVars, expected := r.header.value.0, r.header.value.1;
    var clauses: seq<Clause>, current: Clause := [], [];
    for k := 0 to |r.tokens|
      invariant Split(r.tokens, numVars, [], []) == Split(r.tokens[k..], numVars, clauses, current)
    {
      assert r.tokens[k..][0] == r.tokens[k] && r.tokens[k..][1..] == r.tokens[k + 1..];
      if r.tokens[k] == 0 {
        clauses, current := clauses + [current], [];
      } else {
        if Abs(r.tokens[k]) > numVars {
          return Err(LiteralTooLarge(r.tokens[k], numVars));
        }
        current := current + [r.tokens[k]];
      }
    }
    if current != [] {
      return Err(Unterminated(current));
    }
    if |clauses| != expected {
      return Err(WrongClauseCount(expected, |clauses|));
    }
    result := Ok(Cnf(numVars, r.quantifiers, clauses, r.comments));
  }

  /* ---------- Writing ---------- */

  function ShowInts(xs: seq<int>): seq<string> {
    seq(|xs|, k requires 0 <= k < |xs| => ShowInt(xs[k]))
  }

  function HeaderWords(c: Cnf): seq<string> {
    ["p", "cnf", ShowNat(c.numVars), ShowNat(|c.clauses|)]
  }

  function BlockWords(b: Block): seq<string> {
    [if b.quantifier == Universal then "a" else "e"] + ShowInts(b.variables) + ["0"]
  }

  function ClauseWords(c: Clause): seq<string> {
    ShowInts(c) + ["0"]
  }

  function CommentLines(comments: seq<string>): seq<string> {
    seq(|comments|, k requires 0 <= k < |comments| => "c " + comments[k])
  }

  function BlockLines(blocks: seq<Block>): seq<string> {
    seq(|blocks|, k requires 0 <= k < |blocks| => Join(BlockWords(blocks[k])))
  }

  function ClauseLines(clauses: seq<Clause>): seq<string> {
    seq(|clauses|, k requires 0 <= k < |clauses| => Join(ClauseWords(clauses[k])))
  }

  /** The written lines, without their newlines. */
  function WrittenLines(c: Cnf): seq<string> {
    CommentLines(c.comments) + [Join(HeaderWords(c))] + BlockLines(c.quantifiers) + ClauseLines(c.clauses)
  }

  function Unlines(lines: seq<string>): string {
    if lines == [] then "" else lines[0] + "\n" + Unlines(lines[1..])
  }

  function WrittenBytes(c: Cnf): Bytes {
    Encode(Unlines(WrittenLines(c)))
  }

  method WriteBlock(b: Block) returns (line: string)
    ensures line == Join(BlockWords(b))
  {
    line := if b.quantifier == Universal then "a" else "e";
    for j := 0 to |b.variables|
      invariant line == Join(BlockWords(b)[..j + 1])
    {
      JoinSnoc(BlockWords(b), j + 1);
      line := line + " " + ShowNat(b.variables[j]);
    }
    JoinSnoc(BlockWords(b), |b.variables| + 1);
    assert BlockWords(b)[..|b.variables| + 2] == BlockWords(b);
    line := line + " 0";
  }

  lemma {:induction false} ClauseTail(c: Clause, j: nat)
    requires j < |c|
    ensures Join(ClauseWords(c)[j..]) == ShowInt(c[j]) + " " + Join(ClauseWords(c)[j + 1..])
  {
    var words := ClauseWords(c)[j..];
    assert |words| > 1 && words[0] == ShowInt(c[j]) && words[1..] == ClauseWords(c)[j + 1..];
  }

  lemma Regrouped(a: string, b: string, c: string, d: string)
    ensures a + (b + c + d) == a + b + c + d
  {}

  method WriteClause(c: Clause) returns (line: string)
    ensures line == Join(ClauseWords(c))
  {
    line := "";
    for j := 0 to |c|
      invariant line + Join(ClauseWords(c)[j..]) == Join(ClauseWords(c))
    {
      ClauseTail(c, j);
      Regrouped(line, ShowInt(c[j]), " ", Join(ClauseWords(c)[j + 1..]));
      line := line + ShowInt(c[j]) + " ";
    }
    assert ClauseWords(c)[|c|..] == ["0"];
    line := line + "0";
  }

  method WriteComments(comments: seq<string>) returns (text: string)
    ensures text == Unlines(CommentLines(comments))
  {
    text := "";
    for k := 0 to |comments|
      invariant text == Unlines(CommentLines(comments)[..k])
    {
      UnlinesSnoc(CommentLines(comments), k);
      text := text + ("c " + comments[k]) + "\n";
    }
    assert CommentLines(comments)[..|comments|] == CommentLines(comments);
  }

  method WriteBlocks(blocks: seq<Block>) returns (text: string)
    ensures text == Unlines(BlockLines(blocks))
  {
    text := "";
    for k := 0 to |blocks|
      invariant text == Unlines(BlockLines(blocks)[..k])
    {
      UnlinesSnoc(BlockLines(blocks), k);
      var line := WriteBlock(blocks[k]);
      text := text + line + "\n";
    }
    assert BlockLines(blocks)[..|blocks|] == BlockLines(blocks);
  }

  method WriteClauses(clauses: seq<Clause>) returns (text: string)
    ensures text == Unlines(ClauseLines(clauses))
  {
    text := "";
    for k := 0 to |clauses|
      invariant text == Unlines(ClauseLines(clauses)[..k])
    {
      UnlinesSnoc(ClauseLines(clauses), k);
      var line := WriteClause(clauses[k]);
      text := text + line + "\n";
    }
    assert ClauseLines(clauses)[..|clauses|] == ClauseLines(clauses);
  }

  /** The writer: comments, problem line, quantifier lines, clauses. */
  method Write(c: Cnf) returns (text: string)
    ensures text == Unlines(WrittenLines(c))
  {
    var comments := WriteComments(c.comments);
    var header := "p cnf " + ShowNat(c.numVars) + " " + ShowNat(|c.clauses|) + "\n";
    var blocks := WriteBlocks(c.quantifiers);
    var clauses := WriteClauses(c.clauses);
    HeaderText(c);
    UnlinesOfWritten(c);
    text := comments + header + blocks + clauses;
  }

  lemma {:induction false} UnlinesOfWritten(c: Cnf)
    ensures Unlines(WrittenLines(c))
         == Unlines(CommentLines(c.comments)) + (Join(HeaderWords(c)) + "\n")
            + Unlines(BlockLines(c.quantifiers)) + Unlines(ClauseLines(c.clauses))
  {
    var comments, header, blocks, clauses :=
      CommentLines(c.comments), [Join(HeaderWords(c))], BlockLines(c.quantifiers), ClauseLines(c.clauses);
    UnlinesConcat(comments + header + blocks, clauses);
    UnlinesConcat(comments + header, blocks);
    UnlinesConcat(comments, header);
    assert header[1..] == [];
    assert Unlines(header) == Join(HeaderWords(c)) + "\n";
  }

  lemma {:induction false} UnlinesConcat(a: seq<string>, b: seq<string>)
    ensures Unlines(a + b) == Unlines(a) + Unlines(b)
  {
    if a == [] {
      assert a + b == b;
    } else {
      assert (a + b)[1..] == a[1..] + b;
      UnlinesConcat(a[1..], b);
    }
  }

  lemma {:induction false} HeaderText(c: Cnf)
    ensures Join(HeaderWords(c)) + "\n" == "p cnf " + ShowNat(c.numVars) + " " + ShowNat(|c.clauses|) + "\n"
  {
    var v, n := ShowNat(c.numVars), ShowNat(|c.clauses|);
    assert HeaderWords(c)[1..] == ["cnf", v, n] && ["cnf", v, n][1..] == [v, n] && [v, n][1..] == [n];
    assert Join([v, n]) == v + " " + n;
    assert Join(["cnf", v, n]) == "cnf" + " " + (v + " " + n);
    assert Join(HeaderWords(c)) == "p" + " " + ("cnf" + " " + (v + " " + n));
  }

  lemma {:induction false} UnlinesSnoc(lines: seq<string>, k: nat)
    requires k < |lines|
    ensures Unlines(lines[..k + 1]) == Unlines(lines[..k]) + lines[k] + "\n"
    decreases |lines|
  {
    if k == 0 {
      assert lines[..1] == [lines[0]] && lines[..1][1..] == [];
      assert lines[0] + "\n" + "" == lines[0] + "\n";
    } else {
      UnlinesSnoc(lines[1..], k - 1);
      assert lines[..k + 1][1..] == lines[1..][..k] && lines[..k][1..] == lines[1..][..k - 1];
    }
  }

  lemma {:induction false} JoinSnoc(ws: seq<string>, k: nat)
    requires 0 < k < |ws|
    ensures Join(ws[..k + 1]) == Join(ws[..k]) + " " + ws[k]
    decreases |ws|
  {
    if k == 1 {
      assert ws[..2][1..] == [ws[1]] && ws[..1] == [ws[0]];
    } else {
      JoinSnoc(ws[1..], k - 1);
      assert ws[..k + 1][1..] == ws[1..][..k] && ws[..k][1..] == ws[1..][..k - 1];
    }
  }
}
