/**
 * Text as the line-oriented readers see it: trimming at white space, splitting into words, and
 * decimal numerals with the bounds of the machine integers they are read into. Reading undoes
 * printing for every integer in range, and splitting undoes joining.
 */
module Text {
  import opened Wrappers

  /** The Unicode White_Space characters. */
  predicate IsSpace(c: char) {
    var x := c as int;
    0x09 <= x <= 0x0D || x == 0x20 || x == 0x85 || x == 0xA0 || x == 0x1680 || 0x2000 <= x <= 0x200A
    || x == 0x2028 || x == 0x2029 || x == 0x202F || x == 0x205F || x == 0x3000
  }

  function TrimStart(s: string): string {
    if s != "" && IsSpace(s[0]) then TrimStart(s[1..]) else s
  }

  function TrimEnd(s: string): string {
    if s != "" && IsSpace(s[|s| - 1]) then TrimEnd(s[..|s| - 1]) else s
  }

  function Trim(s: string): string {
    TrimEnd(TrimStart(s))
  }

  /** No space at either end. */
  predicate Trimmed(s: string) {
    s != "" ==> !IsSpace(s[0]) && !IsSpace(s[|s| - 1])
  }

  lemma TrimTrimmed(s: string)
    requires Trimmed(s)
    ensures Trim(s) == s
  {
  }

  /** How many characters precede the first space. */
  function WordLength(s: string): (n: nat)
    ensures n <= |s|
    ensures s != "" && !IsSpace(s[0]) ==> n > 0
  {
    if s == "" || IsSpace(s[0]) then 0 else 1 + WordLength(s[1..])
  }

  /** The maximal runs of non-space characters, in order. */
  function Words(s: string): seq<string>
    decreases |s|
  {
    if s == "" then []
    else if IsSpace(s[0]) then Words(s[1..])
    else [s[..WordLength(s)]] + Words(s[WordLength(s)..])
  }

  predicate IsWord(s: string) {
    s != "" && forall k :: 0 <= k < |s| ==> !IsSpace(s[k])
  }

  /** The words separated by single spaces. */
  function Join(ws: seq<string>): string {
    if ws == [] then "" else if |ws| == 1 then ws[0] else ws[0] + " " + Join(ws[1..])
  }

  lemma {:induction false} WordLengthOf(w: string, rest: string)
    requires (forall k :: 0 <= k < |w| ==> !IsSpace(w[k])) && (rest != "" ==> IsSpace(rest[0]))
    ensures WordLength(w + rest) == |w|
  {
    if w == "" {
      assert w + rest == rest;
    } else {
      assert (w + rest)[1..] == w[1..] + rest;
      WordLengthOf(w[1..], rest);
    }
  }

  lemma {:induction false} FirstWord(w: string, rest: string)
    requires IsWord(w) && (rest != "" ==> IsSpace(rest[0]))
    ensures Words(w + rest) == [w] + Words(rest)
  {
    WordLengthOf(w, rest);
    assert (w + rest)[..|w|] == w && (w + rest)[|w|..] == rest;
  }

  /** Splitting what was joined gives the words back. */
  lemma {:induction false} WordsJoin(ws: seq<string>)
    requires forall k :: 0 <= k < |ws| ==> IsWord(ws[k])
    ensures Words(Join(ws)) == ws
  {
    if |ws| == 1 {
      FirstWord(ws[0], "");
      assert ws[0] + "" == ws[0];
    } else if |ws| > 1 {
      var rest := " " + Join(ws[1..]);
      assert ws[0] + " " + Join(ws[1..]) == ws[0] + rest;
      FirstWord(ws[0], rest);
      assert rest[1..] == Join(ws[1..]);
      WordsJoin(ws[1..]);
    }
  }

  /** A joined line begins and ends with a word's character, so trimming leaves it alone. */
  lemma {:induction false} JoinTrimmed(ws: seq<string>)
    requires forall k :: 0 <= k < |ws| ==> IsWord(ws[k])
    ensures ws != [] ==> ws[0] != "" && Join(ws) != "" && Join(ws)[0] == ws[0][0]
    ensures Trimmed(Join(ws))
  {
    if |ws| > 1 {
      JoinTrimmed(ws[1..]);
    }
  }

  /* ---------- Numerals ---------- */

  predicate IsDigitChar(c: char) {
    '0' <= c <= '9'
  }

  predicate IsNumeral(s: string) {
    s != "" && forall k :: 0 <= k < |s| ==> IsDigitChar(s[k])
  }

  function DigitValue(c: char): nat
    requires IsDigitChar(c)
  {
    c as int - '0' as int
  }

  function DigitsValue(s: string): nat
    requires forall k :: 0 <= k < |s| ==> IsDigitChar(s[k])
  {
    if s == "" then 0 else
      assert IsDigitChar(s[|s| - 1]);
      10 * DigitsValue(s[..|s| - 1]) + DigitValue(s[|s| - 1])
  }

  const U64_LIMIT: int := 0x1_0000_0000_0000_0000
  const I32_LIMIT: int := 0x8000_0000

  function ParseUsize(s: string): Option<nat> {
    var digits := if s != "" && s[0] == '+' then s[1..] else s;
    if IsNumeral(digits) && DigitsValue(digits) < U64_LIMIT then Some(DigitsValue(digits)) else None
  }

  function ParseI32(s: string): Option<int> {
    if s == "" then None
    else
      var digits := if s[0] == '+' || s[0] == '-' then s[1..] else s;
      if !IsNumeral(digits) then None
      else
        var value := if s[0] == '-' then -(DigitsValue(digits) as int) else DigitsValue(digits);
        if -I32_LIMIT <= value < I32_LIMIT then Some(value) else None
  }

  function DigitChar(d: nat): char
    requires d < 10
  {
    ('0' as int + d) as char
  }

  function ShowNat(n: nat): (s: string)
    ensures IsNumeral(s)
  {
    if n < 10 then [DigitChar(n)] else ShowNat(n / 10) + [DigitChar(n % 10)]
  }

  function ShowInt(i: int): string {
    if i < 0 then "-" + ShowNat(-i) else ShowNat(i)
  }

  lemma {:induction false} ShowNatValue(n: nat)
    ensures DigitsValue(ShowNat(n)) == n
  {
    if n >= 10 {
      ShowNatValue(n / 10);
      assert ShowNat(n)[..|ShowNat(n)| - 1] == ShowNat(n / 10);
    } else {
      assert ShowNat(n)[..0] == "";
    }
  }

  lemma {:induction false} ParseShownNat(n: nat)
    requires n < U64_LIMIT
    ensures ParseUsize(ShowNat(n)) == Some(n) && IsWord(ShowNat(n))
  {
    ShowNatValue(n);
    assert IsDigitChar(ShowNat(n)[0]);
  }

  lemma {:induction false} ParseShownInt(i: int)
    requires -I32_LIMIT <= i < I32_LIMIT
    ensures ParseI32(ShowInt(i)) == Some(i) && IsWord(ShowInt(i))
    ensures IsDigitChar(ShowInt(i)[0]) || ShowInt(i)[0] == '-'
  {
    if i < 0 {
      ShowNatValue(-i);
      assert ShowInt(i)[1..] == ShowNat(-i);
    } else {
      ShowNatValue(i);
      assert IsDigitChar(ShowNat(i)[0]);
    }
  }

  /** Read as a machine word: digits with a plus sign or none, below the bound. */
  lemma {:induction false} UsizeExact(s: string, n: nat)
    ensures ParseUsize(s) == Some(n)
       <==> n < U64_LIMIT && exists d :: IsNumeral(d) && DigitsValue(d) == n && (s == d || s == "+" + d)
  {
    if s != "" && s[0] == '+' {
      assert s == "+" + s[1..];
      forall d | IsNumeral(d) && (s == d || s == "+" + d) ensures d == s[1..] { assert d[0] != '+'; }
    } else {
      forall d | IsNumeral(d) && (s == d || s == "+" + d) ensures d == s { }
    }
  }

  /** The digits with a sign or none, and the value they then have. */
  predicate Signed(s: string, digits: string, i: int)
    requires IsNumeral(digits)
  {
    (i == DigitsValue(digits) && (s == digits || s == "+" + digits)) || (-i == DigitsValue(digits) && s == "-" + digits)
  }

  /** Read as a 32-bit integer: digits with a sign or none, the signed value in range. */
  lemma {:induction false} I32Exact(s: string, i: int)
    ensures ParseI32(s) == Some(i)
       <==> -I32_LIMIT <= i < I32_LIMIT && exists d :: IsNumeral(d) && Signed(s, d, i)
  {
    if s != "" && (s[0] == '+' || s[0] == '-') {
      var sign := [s[0]];
      assert s == sign + s[1..];
      forall d | IsNumeral(d) && (s == d || s == "+" + d || s == "-" + d) ensures d == s[1..] && s == sign + d {
        assert IsDigitChar(d[0]);
      }
    } else {
      forall d | IsNumeral(d) && (s == d || s == "+" + d || s == "-" + d) ensures d == s { }
    }
  }
}
