/** The literal assembler of the flat scanner: two accumulation paths, one specification. */
module ParseLit {
  import opened Wrappers
  import opened Utf8

  const MINUS: byte := 0x2D
  const PLUS: byte := 0x2B
  const ZERO: byte := 0x30

  const I32_MAX: int := 2147483647
  const I32_WIDE: int := 2147483648
  const LIT_ACC_LIMIT: int := 214748364
  const LIT_ACC_SENTINEL: int := 3000000000
  const U64_MAX: int := 0xFFFF_FFFF_FFFF_FFFF

  predicate IsDigit(b: byte) {
    ZERO <= b < ZERO + 10
  }

  predicate AllDigits(ds: Bytes) {
    forall k :: 0 <= k < |ds| ==> IsDigit(ds[k])
  }

  /** The number a run of digits spells, of any length. */
  function Magnitude(ds: Bytes): nat
    requires AllDigits(ds)
  {
    if ds == [] then 0 else 10 * Magnitude(ds[..|ds| - 1]) + (ds[|ds| - 1] - ZERO)
  }

  /** The value of the token if it is a 32-bit signed integer. */
  function InI32(magnitude: nat, negative: bool): Option<int> {
    if negative then if magnitude <= I32_WIDE then Some(-(magnitude as int)) else None
    else if magnitude <= I32_MAX then Some(magnitude) else None
  }

  function LitSpec(raw: Bytes, start: nat, ds: nat, end: nat): Option<int>
    requires start <= ds <= end <= |raw| && start < |raw| && AllDigits(raw[ds..end])
  {
    InI32(Magnitude(raw[ds..end]), raw[start] == MINUS)
  }

  method FinishLit(acc: nat, neg: bool) returns (lit: Option<int>)
    requires acc <= U64_MAX
    ensures lit == InI32(acc, neg)
    ensures lit.Some? ==> -I32_WIDE <= lit.value <= I32_MAX
  {
    if neg {
      if acc > I32_WIDE {
        return None;
      }
      if acc == I32_WIDE {
        return Some(-I32_WIDE);
      }
      return Some(-(acc as int));
    } else {
      if acc > I32_MAX {
        return None;
      }
      return Some(acc);
    }
  }

  /** The 64-bit word eight bytes form, lowest first. */
  function Word(bs: Bytes): nat {
    if bs == [] then 0 else bs[0] + 0x100 * Word(bs[1..])
  }

  lemma WordShift(bs: Bytes)
    requires bs != []
    ensures Word(bs) / 0x100 == Word(bs[1..])
    ensures Word(bs) % 0x10 == bs[0] % 0x10
  {
  }

  lemma {:induction false} MagnitudeSnoc(ds: Bytes, d: byte)
    requires AllDigits(ds) && IsDigit(d)
    ensures AllDigits(ds + [d]) && Magnitude(ds + [d]) == 10 * Magnitude(ds) + (d - ZERO)
  {
    assert (ds + [d])[..|ds|] == ds;
  }

  function Pow10(n: nat): nat {
    if n == 0 then 1 else 10 * Pow10(n - 1)
  }

  lemma {:induction false} Pow10Monotone(m: nat, n: nat)
    requires m <= n
    ensures Pow10(m) <= Pow10(n)
    decreases n
  {
    if m < n { Pow10Monotone(m, n - 1); }
  }

  lemma {:induction false} MagnitudeBound(ds: Bytes)
    requires AllDigits(ds)
    ensures Magnitude(ds) < Pow10(|ds|)
  {
    if ds != [] { MagnitudeBound(ds[..|ds| - 1]); }
  }

  method Parse(raw: Bytes, start: nat, ds: nat, end: nat) returns (lit: Option<int>)
    requires start <= ds <= end <= |raw| && start < |raw| && AllDigits(raw[ds..end])
    ensures lit == LitSpec(raw, start, ds, end)
  {
    var neg := raw[start] == MINUS;
    var len := end - ds;
    var digits := raw[ds..end];
    if len <= 8 && ds + 8 <= |raw| {
      assert raw[ds..ds + 8][..len] == digits;
      lit := ParseShort(raw[ds..ds + 8], len, neg);
    } else {
      lit := ParseLong(digits, neg);
    }
  }

  /** Eight readable bytes: mask and shift a register, whatever follows the digits. */
  method ParseShort(chunk: Bytes, len: nat, neg: bool) returns (lit: Option<int>)
    requires |chunk| == 8 && len <= 8 && AllDigits(chunk[..len])
    ensures lit == InI32(Magnitude(chunk[..len]), neg)
  {
    var acc: nat := 0;
    var word := Word(chunk);
    assert chunk[0..] == chunk;
    for k := 0 to len
      invariant AllDigits(chunk[..k])
      invariant acc == Magnitude(chunk[..k])
      invariant word == Word(chunk[k..])
    {
      WordShift(chunk[k..]);
      assert chunk[k..][1..] == chunk[k + 1..];
      assert IsDigit(chunk[..len][k]);
      MagnitudeSnoc(chunk[..k], chunk[k]);
      assert chunk[..k + 1] == chunk[..k] + [chunk[k]];
      acc := acc * 10 + word % 0x10;
      word := word / 0x100;
    }
    MagnitudeBound(chunk[..len]);
    Pow10Monotone(len, 8);
    assert Pow10(8) == 100000000;
    lit := FinishLit(acc, neg);
  }

  /** Any length: once the next digit would leave the range, the accumulator freezes above it. */
  method ParseLong(digits: Bytes, neg: bool) returns (lit: Option<int>)
    requires AllDigits(digits)
    ensures lit == InI32(Magnitude(digits), neg)
  {
    var acc: nat := 0;
    for k := 0 to |digits|
      invariant AllDigits(digits[..k])
      invariant acc <= LIT_ACC_LIMIT * 10 + 9 || acc == LIT_ACC_SENTINEL
      invariant acc == Magnitude(digits[..k]) || (acc == LIT_ACC_SENTINEL && Magnitude(digits[..k]) > I32_WIDE)
    {
      assert IsDigit(digits[k]);
      MagnitudeSnoc(digits[..k], digits[k]);
      assert digits[..k + 1] == digits[..k] + [digits[k]];
      if acc <= LIT_ACC_LIMIT {
        acc := acc * 10 + (digits[k] - ZERO);
      } else {
        acc := LIT_ACC_SENTINEL;
      }
    }
    assert digits[..|digits|] == digits;
    lit := FinishLit(acc, neg);
  }
}
