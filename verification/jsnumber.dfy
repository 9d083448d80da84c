/** The JavaScript number operations the components apply to integers:
    `Number.prototype.toString`, the global `parseInt`, the truncating
    remainder `%` and `Math.round`. Numbers are unbounded integers plus
    `NaN`. The one fraction the components form, `done / total * 100` in
    `Math.round`, is taken exactly here, not in binary floating point;
    values near 2^53 do not occur. */
module JsNumber {
  import opened Common

  /** A JavaScript number as the components use it. */
  datatype Num = Int(v: int) | NaN {
    /** `a + b`: `NaN` absorbs. */
    function Plus(k: int): (r: Num)
      ensures r.Int? <==> this.Int?
      ensures r.Int? ==> r.v == v + k
    {
      match this
      case Int(x) => Int(x + k)
      case NaN => NaN
    }

    /** `a > k`: every comparison with `NaN` is false. */
    predicate Exceeds(k: int) {
      Int? && v > k
    }

    /** `a >= k`. */
    predicate AtLeast(k: int) {
      Int? && v >= k
    }
  }

  // ---------------------------------------------------------------------
  // toString

  function DigitChar(d: nat): (c: char)
    requires d < 10
  {
    "0123456789"[d]
  }

  /** Decimal digits of `n`, without leading zeros. */
  function Digits(n: nat): (s: string)
    ensures |s| >= 1
    ensures forall i :: 0 <= i < |s| ==> '0' <= s[i] <= '9'
    decreases n
  {
    if n < 10 then [DigitChar(n)] else Digits(n / 10) + [DigitChar(n % 10)]
  }

  /** `n.toString()` for an integer. */
  function IntToString(n: int): string {
    if n < 0 then "-" + Digits(-n) else Digits(n)
  }

  /** `x.toString()`: `NaN`, or decimal digits after a minus sign exactly
      for a negative number. */
  function NumToString(x: Num): (r: string)
    ensures |r| >= 1
    ensures x.NaN? ==> r == "NaN"
    ensures x.Int? ==> (r[0] == '-' <==> x.v < 0)
    ensures x.Int? ==> forall i :: (if x.v < 0 then 1 else 0) <= i < |r| ==> '0' <= r[i] <= '9'
  {
    match x
    case Int(n) => IntToString(n)
    case NaN => "NaN"
  }

  /** Every number prints as a non-empty string, so a stored counter is
      never read as "nothing saved". */
  lemma NumToStringNonEmpty(x: Num)
    ensures NumToString(x) != ""
  {
    if x.Int? {
      assert |Digits(if x.v < 0 then -x.v else x.v)| >= 1;
    }
  }

  // ---------------------------------------------------------------------
  // parseInt

  /** Value of a digit character in radix 36 notation, or -1. */
  function DigitValue(c: char): (d: int)
    ensures -1 <= d < 16
    ensures '0' <= c <= '9' ==> d == c as int - '0' as int
  {
    if '0' <= c <= '9' then c as int - '0' as int
    else if 'a' <= c <= 'f' then c as int - 'a' as int + 10
    else if 'A' <= c <= 'F' then c as int - 'A' as int + 10
    else -1
  }

  predicate IsDigit(c: char, radix: nat) {
    0 <= DigitValue(c) < radix
  }

  /** Length of the longest prefix of `s` made of radix digits. */
  function DigitRun(s: string, radix: nat): (k: nat)
    ensures k <= |s|
    ensures forall i :: 0 <= i < k ==> IsDigit(s[i], radix)
    ensures k < |s| ==> !IsDigit(s[k], radix)
  {
    if s == [] || !IsDigit(s[0], radix) then 0 else 1 + DigitRun(s[1..], radix)
  }

  /** The value of a run of radix digits, most significant first. */
  function Value(s: string, radix: nat): (v: nat)
    requires forall i :: 0 <= i < |s| ==> IsDigit(s[i], radix)
  {
    if s == [] then 0
    else
      assert IsDigit(s[|s| - 1], radix);
      var high := Value(s[..|s| - 1], radix);
      MulMonotone(radix, 0, high);
      high * radix + DigitValue(s[|s| - 1])
  }

  /** The global `parseInt(s)` with no radix argument: leading whitespace
      is skipped, one sign is read, then the magnitude; no digit at all
      gives NaN. */
  function ParseInt(s: string): (r: Num)
    ensures Blank(s) ==> r == NaN
    ensures |s| > 0 && '1' <= s[0] <= '9' ==> r.Int? && r.v >= 0
    ensures |s| > 0 && !IsJsSpace(s[0]) && s[0] != '-' && s[0] != '+' && !('0' <= s[0] <= '9') ==> r == NaN
  {
    TrimStartOfBlank(s);
    PlainStart(s);
    MagnitudeLead(s);
    var t := TrimStart(s);
    var negative := |t| > 0 && t[0] == '-';
    match Magnitude(AfterSign(t))
    case None => NaN
    case Some(m) => Int(if negative then -(m as int) else m)
  }

  function AfterSign(t: string): (r: string)
    ensures |r| <= |t|
  {
    if |t| > 0 && (t[0] == '-' || t[0] == '+') then t[1..] else t
  }

  /** A text starting with neither whitespace nor a sign is read as is. */
  lemma PlainStart(s: string)
    ensures |s| > 0 && !IsJsSpace(s[0]) && s[0] != '-' && s[0] != '+' ==>
              TrimStart(s) == s && AfterSign(s) == s
  {
  }

  /** A leading non-zero digit always gives a magnitude; a leading
      non-digit never does. */
  lemma MagnitudeLead(rest: string)
    ensures |rest| > 0 && '1' <= rest[0] <= '9' ==> Magnitude(rest).Some?
    ensures |rest| > 0 && !('0' <= rest[0] <= '9') ==> Magnitude(rest).None?
  {
    if |rest| > 0 && !('0' <= rest[0] <= '9') {
      assert !IsDigit(rest[0], 10);
    }
  }

  /** A `0x`/`0X` prefix selects radix 16, otherwise radix 10; then the
      longest run of digits is read. */
  function Magnitude(rest: string): (r: Option<nat>)
  {
    var hex := |rest| >= 2 && rest[0] == '0' && (rest[1] == 'x' || rest[1] == 'X');
    var radix := if hex then 16 else 10;
    var body := if hex then rest[2..] else rest;
    var k := DigitRun(body, radix);
    if k == 0 then None else Some(Value(body[..k], radix))
  }

  lemma {:induction false} ValueOfDigits(n: nat)
    ensures forall i :: 0 <= i < |Digits(n)| ==> IsDigit(Digits(n)[i], 10)
    ensures Value(Digits(n), 10) == n
    decreases n
  {
    var s := Digits(n);
    if n >= 10 {
      ValueOfDigits(n / 10);
      assert s[..|s| - 1] == Digits(n / 10);
    }
  }

  /** `parseInt(String(n)) == n`: the mood-points counter that is written
      with `toString` and read back with `parseInt` keeps its value, and a
      stored `"NaN"` reads back as NaN. */
  lemma ParseIntRoundTrip(x: Num)
    ensures ParseInt(NumToString(x)) == x
  {
    match x
    case NaN => ParseNaN();
    case Int(n) => ParseIntOfInt(n);
  }

  lemma ParseIntOfInt(n: int)
    ensures ParseInt(IntToString(n)) == Int(n)
  {
    if n < 0 {
      var m: nat := -n;
      assert IntToString(n) == "-" + Digits(m);
      ParseNegative(m);
    } else {
      assert IntToString(n) == Digits(n);
      ParseNonNegative(n);
    }
  }

  lemma ParseNaN()
    ensures ParseInt("NaN") == NaN
  {
    assert TrimStart("NaN") == "NaN";
    assert AfterSign("NaN") == "NaN";
    assert DigitRun("NaN", 10) == 0;
  }

  lemma ParseNegative(m: nat)
    ensures ParseInt("-" + Digits(m)) == Int(-(m as int))
  {
    var d := Digits(m);
    var s := "-" + d;
    assert TrimStart(s) == s;
    assert AfterSign(s) == d;
    MagnitudeOfDigits(m);
  }

  lemma ParseNonNegative(m: nat)
    ensures ParseInt(Digits(m)) == Int(m)
  {
    var d := Digits(m);
    assert TrimStart(d) == d;
    assert AfterSign(d) == d;
    MagnitudeOfDigits(m);
  }

  lemma MagnitudeOfDigits(m: nat)
    ensures Magnitude(Digits(m)) == Some(m)
  {
    var d := Digits(m);
    ValueOfDigits(m);
    DigitRunAll(d, 10);
    assert !(|d| >= 2 && d[0] == '0' && (d[1] == 'x' || d[1] == 'X')) by {
      if |d| >= 2 {
        assert '0' <= d[1] <= '9';
      }
    }
    assert d[..|d|] == d;
  }

  lemma {:induction false} DigitRunAll(s: string, radix: nat)
    requires forall i :: 0 <= i < |s| ==> IsDigit(s[i], radix)
    ensures DigitRun(s, radix) == |s|
  {
    if s != [] {
      DigitRunAll(s[1..], radix);
    }
  }

  // ---------------------------------------------------------------------
  // % and Math.round

  /** JavaScript's `a % n`: the remainder takes the sign of the dividend
      (Dafny's `%` is Euclidean and never negative). */
  function JsRem(a: int, n: int): (r: int)
    requires n > 0
    ensures a >= 0 ==> r == a % n
    ensures -n < r < n
    ensures a < 0 ==> r <= 0
  {
    if a >= 0 then a % n else -((-a) % n)
  }

  /** `Math.round(p / q)` for a non-negative ratio: the nearest integer,
      halves rounded up. */
  function RoundRatio(p: nat, q: nat): (r: nat)
    requires q > 0
    ensures 2 * q * r <= 2 * p + q < 2 * q * (r + 1)
  {
    (2 * p + q) / (2 * q)
  }

  /** The rounded ratio never exceeds a bound the ratio itself respects. */
  lemma RoundRatioAtMost(p: nat, q: nat, k: nat)
    requires q > 0 && p <= k * q
    ensures RoundRatio(p, q) <= k
  {
    var r := RoundRatio(p, q);
    assert 2 * q * r < 2 * q * (k + 1);
    MulCancel(2 * q, r, k + 1);
  }

  /** A whole ratio rounds to itself. */
  lemma RoundRatioWhole(p: nat, q: nat, k: nat)
    requires q > 0 && p == k * q
    ensures RoundRatio(p, q) == k
  {
    var r := RoundRatio(p, q);
    RoundRatioAtMost(p, q, k);
    assert 2 * q * k < 2 * q * (r + 1);
    MulCancel(2 * q, k, r + 1);
  }

  lemma MulMonotone(q: nat, a: int, b: int)
    requires a <= b
    ensures q * a <= q * b
  {
    assert q * b - q * a == q * (b - a);
  }

  lemma MulCancel(q: nat, a: int, b: int)
    requires q * a < q * b
    ensures a < b
  {
    if a >= b {
      MulMonotone(q, b, a);
      assert false;
    }
  }
}
