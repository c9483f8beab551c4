/** The flat DIMACS scanner, byte by byte and by blocks. */
module FlatScan {
  import opened Wrappers
  import opened Utf8
  import opened Text
  import opened ParseLit
  import D = Dimacs

  // Its meaning is a byte-at-a-time walk over the remaining input; the driver, with or without
  // the 32-byte block kernels, returns exactly what that walk returns.

  datatype FlatCnf = FlatCnf(numVars: nat, numClauses: nat, lits: seq<int>)

  /** The scan in progress. */
  datatype Scan = Scan(numVars: nat, expected: nat, headed: bool, lits: seq<int>, clauses: nat)

  const FRESH := Scan(0, 0, false, [], 0)

  const COMMENT: byte := 0x63
  const PROBLEM: byte := 0x70

  predicate IsWs(b: byte) {
    b == 0x20 || b == 0x09 || b == 0x0A || b == 0x0C || b == 0x0D
  }

  /** The bytes before the first that is not white space. */
  function WsRun(bs: Bytes): (n: nat)
    ensures n <= |bs|
    ensures forall k :: 0 <= k < n ==> IsWs(bs[k])
    ensures n < |bs| ==> !IsWs(bs[n])
  {
    if bs == [] || !IsWs(bs[0]) then 0 else 1 + WsRun(bs[1..])
  }

  /** The bytes before the first that is not a digit. */
  function DigitRun(bs: Bytes): (n: nat)
    ensures n <= |bs|
    ensures forall k :: 0 <= k < n ==> IsDigit(bs[k])
    ensures n < |bs| ==> !IsDigit(bs[n])
  {
    if bs == [] || !IsDigit(bs[0]) then 0 else 1 + DigitRun(bs[1..])
  }

  predicate IsSign(b: byte) {
    b == PLUS || b == MINUS
  }

  predicate OpensLine(b: byte) {
    b == COMMENT || b == PROBLEM
  }

  /** A `c` or `p` and the rest of its line. */
  function ScanLine(line: Bytes, s: Scan): Result<Scan, D.Error> {
    match Decode(line)
    case None => Err(D.InvalidUtf8)
    case Some(text) =>
      var t := Trim(text);
      if "c" <= t then Ok(s)
      else if D.PREFIX <= t then
        match D.ParseHeader(t)
        case Err(e) => Err(e)
        case Ok((vars, clauses)) => Ok(s.(numVars := vars, expected := clauses, headed := true))
      else Ok(s)
  }

  /** The bookkeeping for one literal. */
  function AddLiteral(lit: int, s: Scan): Result<Scan, D.Error> {
    if lit == 0 then Ok(s.(lits := s.lits + [0], clauses := s.clauses + 1))
    else if D.Abs(lit) > s.numVars then Err(D.LiteralTooLarge(lit, s.numVars))
    else Ok(s.(lits := s.lits + [lit]))
  }

  function SignLength(bs: Bytes): nat
    requires bs != []
  {
    if IsSign(bs[0]) then 1 else 0
  }

  function TokenLength(bs: Bytes): (n: nat)
    requires bs != []
    ensures n <= |bs|
  {
    SignLength(bs) + DigitRun(bs[SignLength(bs)..])
  }

  /** `[+-]?digits`, or the error that names what stands there instead. */
  function ScanToken(bs: Bytes, s: Scan): Result<Scan, D.Error>
    requires bs != []
  {
    var ds, end := SignLength(bs), TokenLength(bs);
    if end == ds then Err(D.InvalidToken(bs[..if |bs| < 16 then |bs| else 16]))
    else match LitSpec(bs, 0, ds, end)
      case None => Err(D.InvalidToken(bs[..end]))
      case Some(lit) => AddLiteral(lit, s)
  }

  function ScanRest(bs: Bytes, s: Scan): Result<Scan, D.Error>
    decreases |bs|
  {
    if bs == [] then Ok(s)
    else if OpensLine(bs[0]) then
      var n := D.LineLength(bs);
      match ScanLine(bs[..n], s)
      case Err(e) => Err(e)
      case Ok(s') => ScanRest(bs[n..], s')
    else if IsWs(bs[0]) then ScanRest(bs[WsRun(bs)..], s)
    else if !s.headed then Err(D.BeforeProblemLine)
    else
      match ScanToken(bs, s)
      case Err(e) => Err(e)
      case Ok(s') => ScanRest(bs[TokenLength(bs)..], s')
  }

  function FinishScan(s: Scan): Result<FlatCnf, D.Error> {
    if !s.headed then Err(D.NoProblemLine)
    else if s.lits != [] && s.lits[|s.lits| - 1] != 0 then Err(D.UnterminatedTail)
    else if s.clauses != s.expected then Err(D.WrongClauseCount(s.expected, s.clauses))
    else Ok(FlatCnf(s.numVars, s.clauses, s.lits))
  }

  /** What the scan of a buffer means. */
  function ScanSpec(raw: Bytes): Result<FlatCnf, D.Error> {
    match ScanRest(raw, FRESH)
    case Err(e) => Err(e)
    case Ok(s) => FinishScan(s)
  }

  /* ---------- Runs ---------- */

  lemma {:induction false} WsRunIs(bs: Bytes, n: nat)
    requires n <= |bs| && (forall k :: 0 <= k < n ==> IsWs(bs[k])) && (n < |bs| ==> !IsWs(bs[n]))
    ensures WsRun(bs) == n
  {
    if n > 0 { WsRunIs(bs[1..], n - 1); }
  }

  lemma {:induction false} WsRunAtLeast(bs: Bytes, n: nat)
    requires n <= |bs| && forall k :: 0 <= k < n ==> IsWs(bs[k])
    ensures WsRun(bs) >= n
  {
    if n > 0 { WsRunAtLeast(bs[1..], n - 1); }
  }

  lemma {:induction false} DigitRunIs(bs: Bytes, n: nat)
    requires n <= |bs| && (forall k :: 0 <= k < n ==> IsDigit(bs[k])) && (n < |bs| ==> !IsDigit(bs[n]))
    ensures DigitRun(bs) == n
  {
    if n > 0 { DigitRunIs(bs[1..], n - 1); }
  }

  /** White space may be skipped in any portions. */
  lemma {:induction false} SkipPart(bs: Bytes, n: nat, s: Scan)
    requires n <= |bs| && forall k :: 0 <= k < n ==> IsWs(bs[k])
    ensures ScanRest(bs, s) == ScanRest(bs[n..], s)
  {
    if n == 0 {
      assert bs[0..] == bs;
    } else {
      var m := WsRun(bs);
      WsRunAtLeast(bs, n);
      WsRunIs(bs[n..], m - n);
      assert bs[n..][m - n..] == bs[m..];
      assert !OpensLine(bs[0]);
      if m > n {
        assert IsWs(bs[n..][0]);
      }
    }
  }

  /* ---------- The boundary kernels ---------- */

  /** One bit a lane, lane 0 the lowest. */
  type Mask = m: seq<bool> | |m| == 32 witness seq(32, i => false)

  function Not(m: Mask): Mask {
    seq(32, k requires 0 <= k < 32 => !m[k])
  }

  function Or(m: Mask, n: Mask): Mask {
    seq(32, k requires 0 <= k < 32 => m[k] || n[k])
  }

  /** `m >> by`, zeros shifted in. */
  function Shr(m: Mask, amount: nat): Mask
    requires amount < 32
  {
    seq(32, k requires 0 <= k < 32 => k + amount < 32 && m[k + amount])
  }

  /** The lowest set lane, or 32. */
  function TrailingZeros(m: Mask): (n: nat)
    ensures n <= 32
    ensures forall k :: 0 <= k < n ==> !m[k]
    ensures n < 32 ==> m[n]
  {
    LowestSet(m, 0)
  }

  function LowestSet(m: Mask, lo: nat): (n: nat)
    requires lo <= 32
    ensures lo <= n <= 32
    ensures forall k :: lo <= k < n ==> !m[k]
    ensures n < 32 ==> m[n]
    decreases 32 - lo
  {
    if lo == 32 || m[lo] then lo else LowestSet(m, lo + 1)
  }

  predicate AnySet(m: Mask) {
    TrailingZeros(m) < 32
  }

  /** The lanes equal to one byte. */
  function CmpEq(raw: Bytes, i: nat, b: byte): Mask
    requires i + 32 <= |raw|
  {
    seq(32, k requires 0 <= k < 32 => raw[i + k] == b)
  }

  function WsMask(raw: Bytes, i: nat): (m: Mask)
    requires i + 32 <= |raw|
    ensures forall k :: 0 <= k < 32 ==> m[k] == IsWs(raw[i + k])
  {
    Or(Or(CmpEq(raw, i, 0x20), CmpEq(raw, i, 0x09)),
       Or(Or(CmpEq(raw, i, 0x0A), CmpEq(raw, i, 0x0C)), CmpEq(raw, i, 0x0D)))
  }

  /** The wrapping byte difference and unsigned minimum: a digit iff `b - '0' <= 9`. */
  predicate DigitLane(b: byte): (r: bool)
    ensures r == IsDigit(b)
  {
    var t := (b as int - 0x30) % 0x100;
    t == if t < 9 then t else 9
  }

  function DigitMask(raw: Bytes, i: nat): (m: Mask)
    requires i + 32 <= |raw|
    ensures forall k :: 0 <= k < 32 ==> m[k] == IsDigit(raw[i + k])
  {
    var lanes := seq(32, k requires 0 <= k < 32 => DigitLane(raw[i + k]));
    assert forall k :: 0 <= k < 32 ==> lanes[k] == DigitLane(raw[i + k]);
    lanes
  }

  method SkipWsScalar(raw: Bytes, start: nat) returns (i: nat)
    requires start <= |raw|
    ensures i == start + WsRun(raw[start..])
  {
    i := start;
    while i < |raw| && IsWs(raw[i])
      invariant start <= i <= |raw|
      invariant forall k :: start <= k < i ==> IsWs(raw[k])
    {
      i := i + 1;
    }
    WsRunIs(raw[start..], i - start);
  }

  /** The lanes below the first that is not white space. */
  lemma {:induction false} BlockWs(raw: Bytes, i: nat, n: nat)
    requires i + 32 <= |raw| && n == TrailingZeros(Not(WsMask(raw, i)))
    ensures forall k :: i <= k < i + n ==> IsWs(raw[k])
    ensures if AnySet(Not(WsMask(raw, i))) then n < 32 && !IsWs(raw[i + n]) else n == 32
  {
    var nonWs := Not(WsMask(raw, i));
    forall k | i <= k < i + n ensures IsWs(raw[k]) {
      assert !nonWs[k - i];
    }
  }

  method SkipWsBlocks(raw: Bytes, start: nat) returns (i: nat)
    requires start <= |raw|
    ensures i == start + WsRun(raw[start..])
  {
    i := start;
    while i + 32 <= |raw|
      invariant start <= i <= |raw|
      invariant forall k :: start <= k < i ==> IsWs(raw[k])
    {
      var nonWs := Not(WsMask(raw, i));
      var n := TrailingZeros(nonWs);
      BlockWs(raw, i, n);
      if AnySet(nonWs) {
        WsRunIs(raw[start..], i + n - start);
        return i + n;
      }
      i := i + 32;
    }
    ghost var j := i;
    i := SkipWsScalar(raw, i);
    forall k | j <= k < i ensures IsWs(raw[k]) {
      assert IsWs(raw[j..][k - j]);
    }
    assert i < |raw| ==> !IsWs(raw[j..][i - j]);
    WsRunIs(raw[start..], i - start);
  }

  method ScanDigitsScalar(raw: Bytes, start: nat) returns (i: nat)
    requires start <= |raw|
    ensures i == start + DigitRun(raw[start..])
  {
    i := start;
    while i < |raw| && IsDigit(raw[i])
      invariant start <= i <= |raw|
      invariant forall k :: start <= k < i ==> IsDigit(raw[k])
    {
      i := i + 1;
    }
    DigitRunIs(raw[start..], i - start);
  }

  method ScanDigitsBlocks(raw: Bytes, start: nat) returns (i: nat)
    requires start <= |raw|
    ensures i == start + DigitRun(raw[start..])
  {
    i := start;
    while i + 32 <= |raw|
      invariant start <= i <= |raw|
      invariant forall k :: start <= k < i ==> IsDigit(raw[k])
    {
      var nonDigits := Not(DigitMask(raw, i));
      if AnySet(nonDigits) {
        var n := TrailingZeros(nonDigits);
        assert !IsDigit(raw[i + n]);
        forall k | i <= k < i + n ensures IsDigit(raw[k]) {
          assert !nonDigits[k - i];
        }
        DigitRunIs(raw[start..], i + n - start);
        return i + n;
      }
      forall k | i <= k < i + 32 ensures IsDigit(raw[k]) {
        assert !nonDigits[k - i];
      }
      i := i + 32;
    }
    ghost var j := i;
    i := ScanDigitsScalar(raw, i);
    forall k | j <= k < i ensures IsDigit(raw[k]) {
      assert IsDigit(raw[j..][k - j]);
    }
    assert i < |raw| ==> !IsDigit(raw[j..][i - j]);
    DigitRunIs(raw[start..], i - start);
  }

  /* ---------- The fused block walk ---------- */

  /** The rest of the input from position i on, scanned in state s. */
  function From(raw: Bytes, i: nat, s: Scan): Result<Scan, D.Error>
    requires i <= |raw|
  {
    ScanRest(raw[i..], s)
  }

  /** The block's non-space and digit lanes after `off` lanes were consumed, zeros behind them. */
  ghost function WsFrame(raw: Bytes, i: nat, off: nat): Mask
    requires i + 32 <= |raw| && off <= 32
  {
    seq(32, k requires 0 <= k < 32 => k + off < 32 && !IsWs(raw[i + off + k]))
  }

  ghost function DigitFrame(raw: Bytes, i: nat, off: nat): Mask
    requires i + 32 <= |raw| && off <= 32
  {
    seq(32, k requires 0 <= k < 32 => k + off < 32 && IsDigit(raw[i + off + k]))
  }

  ghost predicate FrameAt(raw: Bytes, i: nat, off: nat, nonWs: Mask, digits: Mask) {
    && i + 32 <= |raw| && off <= 32
    && nonWs == WsFrame(raw, i, off)
    && digits == DigitFrame(raw, i, off)
  }

  lemma {:induction false} FrameShift(raw: Bytes, i: nat, off: nat, shift: nat)
    requires i + 32 <= |raw| && shift < 32 && off + shift <= 32
    ensures Shr(WsFrame(raw, i, off), shift) == WsFrame(raw, i, off + shift)
    ensures Shr(DigitFrame(raw, i, off), shift) == DigitFrame(raw, i, off + shift)
  {
    forall k | 0 <= k < 32
      ensures Shr(WsFrame(raw, i, off), shift)[k] == WsFrame(raw, i, off + shift)[k]
      ensures Shr(DigitFrame(raw, i, off), shift)[k] == DigitFrame(raw, i, off + shift)[k]
    {
      assert i + (off + shift) + k == i + off + (k + shift);
    }
  }

  predicate AllWs(raw: Bytes, lo: nat, hi: nat)
    requires hi <= |raw|
  {
    forall k :: lo <= k < hi ==> IsWs(raw[k])
  }

  lemma {:induction false} SkipAllWs(raw: Bytes, lo: nat, hi: nat, s: Scan)
    requires lo <= hi <= |raw| && AllWs(raw, lo, hi)
    ensures From(raw, lo, s) == From(raw, hi, s)
  {
    SkipPart(raw[lo..], hi - lo, s);
    assert raw[lo..][hi - lo..] == raw[hi..];
  }

  /** Lanes before the first set lane of `nonWs` are white space. */
  lemma {:induction false} LanesBefore(raw: Bytes, i: nat, off: nat, nonWs: Mask, digits: Mask)
    requires FrameAt(raw, i, off, nonWs, digits)
    ensures var pos := TrailingZeros(nonWs);
      && (pos < 32 ==> off + pos < 32 && !IsWs(raw[i + off + pos]) && AllWs(raw, i + off, i + off + pos))
      && (pos == 32 ==> AllWs(raw, i + off, i + 32))
  {
    var pos := TrailingZeros(nonWs);
    var n := if pos < 32 then pos else 32 - off;
    forall j | i + off <= j < i + off + n ensures IsWs(raw[j]) {
      assert !nonWs[j - i - off];
      assert i + off + (j - i - off) == j;
    }
  }

  lemma {:induction false} RestIsWs(raw: Bytes, i: nat, off: nat, nonWs: Mask, digits: Mask, lo: nat, hi: nat)
    requires FrameAt(raw, i, off, nonWs, digits) && !AnySet(nonWs) && lo == i + off && hi == i + 32
    ensures AllWs(raw, lo, hi)
  {
    LanesBefore(raw, i, off, nonWs, digits);
  }

  /** No lane left: the rest of the block is white space. */
  lemma {:induction false} RestOfBlock(raw: Bytes, i: nat, off: nat, nonWs: Mask, digits: Mask, s: Scan)
    requires FrameAt(raw, i, off, nonWs, digits) && !AnySet(nonWs)
    ensures From(raw, i + off, s) == From(raw, i + 32, s)
  {
    var lo, hi := i + off, i + 32;
    RestIsWs(raw, i, off, nonWs, digits, lo, hi);
    SkipAllWs(raw, lo, hi, s);
  }

  /** The digit run the masks see at lane `lane` of the frame. */
  function RunAt(digits: Mask, lane: nat): nat
    requires lane < 32
  {
    TrailingZeros(Not(Shr(digits, lane)))
  }

  /** A run that ends inside the block is the run of the remaining input; an empty one is empty. */
  lemma {:induction false} RunInBlock(raw: Bytes, i: nat, off: nat, nonWs: Mask, digits: Mask, lane: nat)
    requires FrameAt(raw, i, off, nonWs, digits) && lane < 32 && off + lane < 32
    ensures var run := RunAt(digits, lane);
      off + lane + run < 32 ==> DigitRun(raw[i + off + lane..]) == run
  {
    var stopped := Not(Shr(digits, lane));
    var run := RunAt(digits, lane);
    var rest := raw[i + off + lane..];
    if off + lane + run < 32 {
      forall k | 0 <= k < run ensures IsDigit(rest[k]) {
        assert !stopped[k];
        assert digits[k + lane];
        assert i + off + (k + lane) == i + off + lane + k;
      }
      assert stopped[run];
      assert !digits[run + lane];
      assert i + off + (run + lane) == i + off + lane + run;
      assert !IsDigit(rest[run]);
      DigitRunIs(rest, run);
    }
  }

  /** A literal token is expected at a; its digits would start at ds. */
  predicate TokenAt(raw: Bytes, a: nat, ds: nat, s: Scan) {
    && a < |raw| && s.headed && !OpensLine(raw[a]) && !IsWs(raw[a])
    && ds == a + (if IsSign(raw[a]) then 1 else 0) && ds <= |raw|
  }

  lemma {:induction false} TokenShape(raw: Bytes, a: nat, ds: nat, s: Scan)
    requires TokenAt(raw, a, ds, s)
    ensures SignLength(raw[a..]) == ds - a && TokenLength(raw[a..]) == ds - a + DigitRun(raw[ds..])
  {
    assert raw[a..][0] == raw[a];
    assert raw[a..][ds - a..] == raw[ds..];
  }

  function Window(raw: Bytes, a: nat): Bytes
    requires a <= |raw|
  {
    raw[a..if |raw| < a + 16 then |raw| else a + 16]
  }

  /** No digits where a token must be: the error shows the next sixteen bytes. */
  lemma {:induction false} NoDigitsFails(raw: Bytes, a: nat, ds: nat, s: Scan)
    requires TokenAt(raw, a, ds, s) && DigitRun(raw[ds..]) == 0
    ensures From(raw, a, s) == Err(D.InvalidToken(Window(raw, a)))
  {
    var bs := raw[a..];
    TokenShape(raw, a, ds, s);
    assert bs[..if |bs| < 16 then |bs| else 16] == Window(raw, a);
    assert bs[0] == raw[a];
    assert ScanToken(bs, s) == Err(D.InvalidToken(Window(raw, a)));
  }

  /** What the assembled literal does to the scan. */
  function Counted(raw: Bytes, a: nat, end: nat, lit: Option<int>, s: Scan): Result<Scan, D.Error>
    requires a <= end <= |raw|
  {
    match lit
    case None => Err(D.InvalidToken(raw[a..end]))
    case Some(n) => AddLiteral(n, s)
  }

  lemma {:induction false} DigitsAt(raw: Bytes, ds: nat, end: nat)
    requires ds <= end <= |raw| && end <= ds + DigitRun(raw[ds..])
    ensures AllDigits(raw[ds..end])
  {
    forall k | 0 <= k < |raw[ds..end]| ensures IsDigit(raw[ds..end][k]) {
      assert raw[ds..end][k] == raw[ds..][k];
    }
  }

  lemma {:induction false} TokenCounts(raw: Bytes, a: nat, ds: nat, end: nat, s: Scan)
    requires TokenAt(raw, a, ds, s) && ds < end && end == ds + DigitRun(raw[ds..])
    requires AllDigits(raw[ds..end])
    ensures ScanToken(raw[a..], s) == Counted(raw, a, end, LitSpec(raw, a, ds, end), s)
  {
    var bs := raw[a..];
    TokenShape(raw, a, ds, s);
    assert bs[0] == raw[a] && bs[ds - a..end - a] == raw[ds..end] && bs[..end - a] == raw[a..end];
  }

  /** A digit run to `end`: the literal is counted and the scan goes on behind it. */
  lemma {:induction false} TokenSteps(raw: Bytes, a: nat, ds: nat, end: nat, s: Scan)
    requires TokenAt(raw, a, ds, s) && ds < end && end == ds + DigitRun(raw[ds..])
    requires AllDigits(raw[ds..end])
    ensures var r := Counted(raw, a, end, LitSpec(raw, a, ds, end), s);
      From(raw, a, s) == if r.Err? then Err(r.error) else From(raw, end, r.value)
  {
    var bs := raw[a..];
    TokenShape(raw, a, ds, s);
    TokenCounts(raw, a, ds, end, s);
    assert bs[0] == raw[a] && bs[TokenLength(bs)..] == raw[end..];
  }

  /** Assemble the token at [a, end) and do its bookkeeping. */
  method TakeToken(raw: Bytes, a: nat, ds: nat, end: nat, s0: Scan) returns (r: Option<D.Error>, s: Scan)
    requires TokenAt(raw, a, ds, s0) && ds < end <= |raw| && end == ds + DigitRun(raw[ds..])
    ensures s.headed
    ensures r.Some? ==> From(raw, a, s0) == Err(r.value)
    ensures r.None? ==> From(raw, a, s0) == From(raw, end, s)
  {
    s := s0;
    DigitsAt(raw, ds, end);
    TokenSteps(raw, a, ds, end, s);
    var lit := ParseLit.Parse(raw, a, ds, end);
    if lit.None? {
      return Some(D.InvalidToken(raw[a..end])), s;
    }
    if lit.value == 0 {
      s := s.(clauses := s.clauses + 1);
    } else if D.Abs(lit.value) > s.numVars {
      return Some(D.LiteralTooLarge(lit.value, s.numVars)), s;
    }
    s := s.(lits := s.lits + [lit.value]);
    r := None;
  }

  /** What the masks show at the next token of a block. */
  datatype Sight =
    | HandBack(a: nat)
    | NoDigits(a: nat, ds: nat)
    | Digits(a: nat, ds: nat, end: nat)

  /** Find the next token by mask arithmetic alone. */
  method Locate(raw: Bytes, i: nat, off: nat, nonWs: Mask, digits: Mask) returns (v: Sight)
    requires FrameAt(raw, i, off, nonWs, digits) && AnySet(nonWs)
    ensures i + off <= v.a < i + 32 && AllWs(raw, i + off, v.a)
    ensures !v.HandBack? ==>
      && !OpensLine(raw[v.a]) && !IsWs(raw[v.a])
      && v.ds == v.a + (if IsSign(raw[v.a]) then 1 else 0) && v.ds < i + 32
    ensures v.NoDigits? ==> DigitRun(raw[v.ds..]) == 0
    ensures v.Digits? ==> v.ds < v.end < i + 32 && v.end == v.ds + DigitRun(raw[v.ds..])
  {
    LanesBefore(raw, i, off, nonWs, digits);
    var pos := TrailingZeros(nonWs);
    var a := i + off + pos;
    var b := raw[a];
    if OpensLine(b) {
      return HandBack(a);
    }
    var hasSign := if IsSign(b) then 1 else 0;
    var start := pos + hasSign;
    if off + start >= 32 {
      return HandBack(a);
    }
    var run := RunAt(digits, start);
    RunInBlock(raw, i, off, nonWs, digits, start);
    if run == 0 {
      return NoDigits(a, i + off + start);
    }
    if run == 32 || off + start + run >= 32 {
      return HandBack(a);
    }
    v := Digits(a, i + off + start, i + off + start + run);
  }

  /** How the walk goes on after one token of a block. */
  datatype Walk = Stop(at: nat) | Fail(error: D.Error) | Advance(next: nat)

  method WalkToken(raw: Bytes, i: nat, off: nat, at: nat, nonWs: Mask, digits: Mask, s0: Scan) returns (w: Walk, s: Scan)
    requires FrameAt(raw, i, off, nonWs, digits) && at == i + off && AnySet(nonWs) && s0.headed
    ensures s.headed
    ensures w.Fail? ==> From(raw, at, s0) == Err(w.error)
    ensures w.Stop? ==> i <= w.at <= |raw| && From(raw, at, s0) == From(raw, w.at, s)
    ensures w.Advance? ==> at < w.next < i + 32 && From(raw, at, s0) == From(raw, w.next, s)
  {
    s := s0;
    var v := Locate(raw, i, off, nonWs, digits);
    SkipAllWs(raw, at, v.a, s);
    match v {
      case HandBack(a) =>
        w := Stop(a);
      case NoDigits(a, ds) =>
        NoDigitsFails(raw, a, ds, s);
        w := Fail(D.InvalidToken(Window(raw, a)));
      case Digits(a, ds, end) =>
        var failure;
        failure, s := TakeToken(raw, a, ds, end, s);
        w := if failure.Some? then Fail(failure.value) else Advance(end);
    }
  }

  method StartFrame(raw: Bytes, i: nat) returns (nonWs: Mask, digits: Mask)
    requires i + 32 <= |raw|
    ensures FrameAt(raw, i, 0, nonWs, digits)
  {
    nonWs, digits := Not(WsMask(raw, i)), DigitMask(raw, i);
  }

  /** Both masks move past the token in lockstep. */
  method ShiftFrame(raw: Bytes, i: nat, off: nat, nonWs: Mask, digits: Mask, shift: nat) returns (n: Mask, d: Mask)
    requires FrameAt(raw, i, off, nonWs, digits) && shift < 32 && off + shift < 32
    ensures FrameAt(raw, i, off + shift, n, d)
  {
    FrameShift(raw, i, off, shift);
    n, d := Shr(nonWs, shift), Shr(digits, shift);
  }

  /** One block; a position is handed back to the byte-wise driver unless the whole block was consumed. */
  method WalkBlock(raw: Bytes, i: nat, s0: Scan) returns (r: Result<Option<nat>, D.Error>, s: Scan)
    requires i + 32 <= |raw| && s0.headed
    ensures s.headed
    ensures r.Err? ==> From(raw, i, s0) == Err(r.error)
    ensures r.Ok? && r.value.None? ==> From(raw, i, s0) == From(raw, i + 32, s)
    ensures r.Ok? && r.value.Some? ==> i <= r.value.value <= |raw| && From(raw, i, s0) == From(raw, r.value.value, s)
  {
    s := s0;
    var nonWs, digits := StartFrame(raw, i);
    var off, at := 0, i;
    while AnySet(nonWs)
      invariant off < 32 && at == i + off && FrameAt(raw, i, off, nonWs, digits)
      invariant s.headed && From(raw, i, s0) == From(raw, at, s)
      decreases 32 - off
    {
      var w;
      w, s := WalkToken(raw, i, off, at, nonWs, digits, s);
      if w.Stop? {
        return Ok(Some(w.at)), s;
      }
      if w.Fail? {
        return Err(w.error), s;
      }
      var shift := w.next - at;
      nonWs, digits := ShiftFrame(raw, i, off, nonWs, digits, shift);
      off, at := off + shift, w.next;
    }
    RestOfBlock(raw, i, off, nonWs, digits, s);
    r := Ok(None);
  }

  /** Whole blocks while they last; the position returned is the driver's to continue from. */
  method ScanTokensFused(raw: Bytes, start: nat, s0: Scan) returns (r: Result<nat, D.Error>, s: Scan)
    requires start <= |raw|
    ensures r.Err? ==> From(raw, start, s0) == Err(r.error)
    ensures r.Ok? ==> start <= r.value <= |raw| && From(raw, start, s0) == From(raw, r.value, s)
  {
    s := s0;
    if !s.headed {
      return Ok(start), s;
    }
    var i := start;
    while i + 32 <= |raw|
      invariant start <= i <= |raw| && s.headed
      invariant From(raw, start, s0) == From(raw, i, s)
    {
      var block;
      block, s := WalkBlock(raw, i, s);
      if block.Err? {
        return Err(block.error), s;
      }
      if block.value.Some? {
        return Ok(block.value.value), s;
      }
      i := i + 32;
    }
    r := Ok(i);
  }

  /** A comment or problem line. */
  method ScanOneLine(raw: Bytes, i: nat, s0: Scan) returns (r: Result<nat, D.Error>, s: Scan)
    requires i < |raw| && OpensLine(raw[i])
    ensures r.Err? ==> From(raw, i, s0) == Err(r.error)
    ensures r.Ok? ==> i < r.value <= |raw| && From(raw, i, s0) == From(raw, r.value, s)
  {
    var n := D.LineLength(raw[i..]);
    var step := ScanLine(raw[i..i + n], s0);
    assert raw[i..][0] == raw[i];
    assert raw[i..][..n] == raw[i..i + n] && raw[i..][n..] == raw[i + n..];
    s := if step.Ok? then step.value else s0;
    r := if step.Ok? then Ok(i + n) else Err(step.error);
  }

  /** A run of white space, by either kernel. */
  method ScanOneGap(raw: Bytes, i: nat, simd: bool, s: Scan) returns (next: nat)
    requires i < |raw| && IsWs(raw[i])
    ensures i < next <= |raw| && From(raw, i, s) == From(raw, next, s)
  {
    if simd {
      next := SkipWsBlocks(raw, i);
    } else {
      next := SkipWsScalar(raw, i);
    }
    WsRunAtLeast(raw[i..], 1);
    SkipPart(raw[i..], next - i, s);
    assert raw[i..][next - i..] == raw[next..];
  }

  /** A literal, by either kernel. */
  method ScanOneToken(raw: Bytes, i: nat, simd: bool, s0: Scan) returns (r: Result<nat, D.Error>, s: Scan)
    requires i < |raw| && s0.headed && !OpensLine(raw[i]) && !IsWs(raw[i])
    ensures r.Err? ==> From(raw, i, s0) == Err(r.error)
    ensures r.Ok? ==> i < r.value <= |raw| && From(raw, i, s0) == From(raw, r.value, s)
  {
    s := s0;
    var ds := if IsSign(raw[i]) then i + 1 else i;
    var end;
    if simd {
      end := ScanDigitsBlocks(raw, ds);
    } else {
      end := ScanDigitsScalar(raw, ds);
    }
    if end == ds {
      NoDigitsFails(raw, i, ds, s);
      return Err(D.InvalidToken(Window(raw, i))), s;
    }
    var failure;
    failure, s := TakeToken(raw, i, ds, end, s);
    r := if failure.Some? then Err(failure.value) else Ok(end);
  }

  /** The byte-wise driver's work at one position. */
  method ScanOne(raw: Bytes, i: nat, simd: bool, s0: Scan) returns (r: Result<nat, D.Error>, s: Scan)
    requires i < |raw|
    ensures r.Err? ==> From(raw, i, s0) == Err(r.error)
    ensures r.Ok? ==> i < r.value <= |raw| && From(raw, i, s0) == From(raw, r.value, s)
  {
    s := s0;
    if OpensLine(raw[i]) {
      r, s := ScanOneLine(raw, i, s);
    } else if IsWs(raw[i]) {
      var next := ScanOneGap(raw, i, simd, s);
      r := Ok(next);
    } else if !s.headed {
      assert raw[i..][0] == raw[i];
      r := Err(D.BeforeProblemLine);
    } else {
      r, s := ScanOneToken(raw, i, simd, s);
    }
  }

  /** The scan, with or without the block kernels: the same result, the same error, on every input. */
  method ScanBody(raw: Bytes, simd: bool) returns (r: Result<FlatCnf, D.Error>)
    ensures r == ScanSpec(raw)
  {
    var s := FRESH;
    var i := 0;
    assert raw[0..] == raw;
    while i < |raw|
      invariant i <= |raw|
      invariant ScanRest(raw, FRESH) == From(raw, i, s)
      decreases |raw| - i
    {
      var at := i;
      if simd && i + 32 <= |raw| {
        var fused;
        fused, s := ScanTokensFused(raw, i, s);
        if fused.Err? {
          return Err(fused.error);
        }
        at := fused.value;
      }
      if at < |raw| {
        var one;
        one, s := ScanOne(raw, at, simd, s);
        if one.Err? {
          return Err(one.error);
        }
        at := one.value;
      }
      i := at;
    }
    if !s.headed {
      return Err(D.NoProblemLine);
    }
    if s.lits != [] && s.lits[|s.lits| - 1] != 0 {
      return Err(D.UnterminatedTail);
    }
    if s.clauses != s.expected {
      return Err(D.WrongClauseCount(s.expected, s.clauses));
    }
    r := Ok(FlatCnf(s.numVars, s.clauses, s.lits));
  }

  /** The two kernels side by side on one buffer, as the differential harness pairs them. */
  method BothPathsAgree(raw: Bytes) returns (scalar: Result<FlatCnf, D.Error>, blocks: Result<FlatCnf, D.Error>)
    ensures scalar == blocks
  {
    scalar := ScanBody(raw, false);
    blocks := ScanBody(raw, true);
  }
}
