/** The few PHP built-ins on strings and integers that the endpoints rely on,
    with PHP 8's behaviour. A PHP string is a byte string; here it is a
    `string` whose characters are read as bytes where it matters (see Base64). */
module Php {

  datatype Option<+T> = None | Some(value: T) {
    function GetOr(default: T): T
    {
      match this
      case Some(v) => v
      case None => default
    }
  }

  datatype Result<+T> = Ok(value: T) | Err(message: string)

  // ---------------------------------------------------------------- strtolower

  function LowerChar(c: char): char
  {
    if 'A' <= c <= 'Z' then (c as int + 32) as char else c
  }

  /** `strtolower`: ASCII letters only. PHP 8.2 ignores the locale; earlier
      versions follow LC_CTYPE, which stays the C locale since no script calls
      `setlocale`. */
  function Lower(s: string): (r: string)
    ensures |r| == |s|
  {
    seq(|s|, i requires 0 <= i < |s| => LowerChar(s[i]))
  }

  predicate IsLower(s: string)
  {
    forall i :: 0 <= i < |s| ==> !('A' <= s[i] <= 'Z')
  }

  /** strtolower leaves nothing to lower-case, so applying it twice is applying it once. */
  lemma LowerIsLower(s: string)
    ensures IsLower(Lower(s))
    ensures Lower(Lower(s)) == Lower(s)
  {
    assert forall i :: 0 <= i < |s| ==> Lower(s)[i] == LowerChar(s[i]);
  }

  /** Lower-casing distributes over concatenation. */
  lemma LowerAppend(a: string, b: string)
    ensures Lower(a + b) == Lower(a) + Lower(b)
  {
  }

  // ---------------------------------------------------------------- stripos

  predicate OccursAt(needle: string, hay: string, i: nat)
  {
    i + |needle| <= |hay| && hay[i..i + |needle|] == needle
  }

  /** `strpos($hay, $needle) !== false`: the scan for the needle from the
      start of the haystack finds it. */
  predicate Contains(hay: string, needle: string)
  {
    OccursFrom(needle, hay, 0)
  }

  /** The needle starts at `i` or at some later position. */
  predicate OccursFrom(needle: string, hay: string, i: nat)
    requires i <= |hay|
    decreases |hay| - i
  {
    OccursAt(needle, hay, i) || (i < |hay| && OccursFrom(needle, hay, i + 1))
  }

  /** The scan finds the needle iff it occurs at some position. */
  lemma {:induction false} OccursFromSomewhere(needle: string, hay: string, i: nat)
    requires i <= |hay|
    ensures OccursFrom(needle, hay, i) <==> exists k: nat | i <= k <= |hay| :: OccursAt(needle, hay, k)
    decreases |hay| - i
  {
    if i < |hay| {
      OccursFromSomewhere(needle, hay, i + 1);
      if OccursAt(needle, hay, i) {
        assert exists k: nat | i <= k <= |hay| :: OccursAt(needle, hay, k);
      }
    }
  }

  /** `stripos($hay, $needle) !== false`: substring after lower-casing both sides. */
  predicate ContainsIgnoringCase(hay: string, needle: string)
  {
    Contains(Lower(hay), Lower(needle))
  }

  /** The matching is insensitive to the case of both arguments. */
  lemma ContainsIgnoringCaseOfLower(hay: string, needle: string)
    ensures ContainsIgnoringCase(hay, needle) <==> ContainsIgnoringCase(Lower(hay), Lower(needle))
  {
    LowerIsLower(hay);
    LowerIsLower(needle);
  }

  // ---------------------------------------------------------------- integers as text

  function DigitChar(d: nat): char
    requires d < 10
  {
    "0123456789"[d]
  }

  predicate IsDigit(c: char)
  {
    '0' <= c <= '9'
  }

  /** Decimal text of a natural number, as PHP's string conversion writes it. */
  function NatToString(n: nat): (s: string)
    ensures |s| > 0
    decreases n
  {
    if n < 10 then [DigitChar(n)] else NatToString(n / 10) + [DigitChar(n % 10)]
  }

  function IntToString(i: int): string
  {
    if i < 0 then "-" + NatToString(-i) else NatToString(i)
  }

  predicate IsSpace(c: char)
  {
    c == ' ' || c == '\t' || c == '\n' || c == '\r' || c == '\U{000B}' || c == '\U{000C}'
  }

  function SkipSpaces(s: string): (r: string)
    ensures |r| <= |s|
  {
    if |s| > 0 && IsSpace(s[0]) then SkipSpaces(s[1..]) else s
  }

  /** The value of the leading run of digits of `s`, read after `acc`. */
  function LeadingDigits(s: string, acc: nat): nat
  {
    if |s| > 0 && IsDigit(s[0]) then LeadingDigits(s[1..], acc * 10 + (s[0] as int - '0' as int)) else acc
  }

  /** The length of the leading run of digits of `s`. */
  function DigitCount(s: string): (k: nat)
    ensures k <= |s|
  {
    if |s| > 0 && IsDigit(s[0]) then 1 + DigitCount(s[1..]) else 0
  }

  const MaxInt64: int := 0x7FFF_FFFF_FFFF_FFFF
  const MinInt64: int := -0x8000_0000_0000_0000

  /** The least magnitude that `strtod` rounds to infinity: 2^1024 - 2^970,
      half a unit in the last place above the largest finite double. */
  const DoubleOverflow: nat := 179769313486231580793728971405303415079934132710037826936173778980444968292764750946649017977587207096330286416692887910946555547851940402630657488671505820681908902000708383676273854845817711531764475730270069855571366959622842914819860834936475292719074168444365510704342711559699508093042880177904174497792

  /** A PHP integer on a 64-bit platform. */
  predicate IsInt64(i: int)
  {
    MinInt64 <= i <= MaxInt64
  }

  /** The saturating conversion PHP applies to a finite double read from a
      string: out-of-range values become the nearest bound. */
  function Clamp64(i: int): (r: int)
    ensures IsInt64(r)
    ensures IsInt64(i) ==> r == i
    ensures i > MaxInt64 ==> r == MaxInt64
    ensures i < MinInt64 ==> r == MinInt64
  {
    if i > MaxInt64 then MaxInt64 else if i < MinInt64 then MinInt64 else i
  }

  function Pow10(n: nat): (r: nat)
    ensures r >= 1
  {
    if n == 0 then 1 else 10 * Pow10(n - 1)
  }

  /** The number `mantissa * 10^exponent`. */
  datatype Decimal = Decimal(mantissa: nat, exponent: int)

  /** An exponent part: `e` or `E`, an optional sign and at least one digit;
      0 when there is none. */
  function ExponentPart(s: string): int
  {
    if |s| >= 2 && (s[0] == 'e' || s[0] == 'E') && IsDigit(s[1]) then LeadingDigits(s[1..], 0)
    else if |s| >= 3 && (s[0] == 'e' || s[0] == 'E') && (s[1] == '+' || s[1] == '-') && IsDigit(s[2]) then
      if s[1] == '-' then -(LeadingDigits(s[2..], 0) as int) else LeadingDigits(s[2..], 0)
    else 0
  }

  /** The unsigned number at the head of `u`, as `is_numeric_string` reads it
      when trailing data is allowed: digits, optionally a `.` and more digits
      (with at least one digit in all), then an optional exponent part. The
      fraction digits join the mantissa and lower the exponent. None when
      `u` does not start with a number. */
  function LeadingNumber(u: string): Option<Decimal>
  {
    var k := DigitCount(u);
    if k < |u| && u[k] == '.' then
      var f := DigitCount(u[k + 1..]);
      if k == 0 && f == 0 then None
      else Some(Decimal(LeadingDigits(u[k + 1..], LeadingDigits(u, 0)), ExponentPart(u[k + 1 + f..]) - f))
    else if k == 0 then None
    else Some(Decimal(LeadingDigits(u, 0), ExponentPart(u[k..])))
  }

  /** The magnitude of `d` truncated toward zero. */
  function Truncate(d: Decimal): int
  {
    if d.exponent >= 0 then d.mantissa * Pow10(d.exponent) else d.mantissa / Pow10(-d.exponent)
  }

  /** `strtod` reads `d` as infinity. */
  predicate Overflows(d: Decimal)
  {
    if d.exponent >= 0 then d.mantissa * Pow10(d.exponent) >= DoubleOverflow
    else d.mantissa >= DoubleOverflow * Pow10(-d.exponent)
  }

  /** `(int)$s` / `intval($s)` for a string: leading white space, an optional
      sign, then the number at the head (0 when there is none). The value is
      truncated toward zero and saturates at the 64-bit bounds; a value that
      overflows a double is infinite, and PHP converts that to 0. */
  function StringToInt(s: string): (r: int)
    ensures IsInt64(r)
  {
    var t := SkipSpaces(s);
    var negative := |t| > 0 && t[0] == '-';
    var u := if |t| > 0 && (t[0] == '-' || t[0] == '+') then t[1..] else t;
    match LeadingNumber(u)
    case None => 0
    case Some(d) =>
      if Overflows(d) then 0
      else Clamp64(if negative then -Truncate(d) else Truncate(d))
  }

  predicate AllDigits(s: string)
  {
    forall i :: 0 <= i < |s| ==> IsDigit(s[i])
  }

  lemma {:induction false} LeadingDigitsAppend(x: string, y: string, acc: nat)
    requires AllDigits(x)
    ensures LeadingDigits(x + y, acc) == LeadingDigits(y, LeadingDigits(x, acc))
    decreases |x|
  {
    if |x| == 0 {
      assert x + y == y;
    } else {
      assert (x + y)[0] == x[0] && (x + y)[1..] == x[1..] + y;
      assert IsDigit(x[0]) && AllDigits(x[1..]);
      LeadingDigitsAppend(x[1..], y, acc * 10 + (x[0] as int - '0' as int));
    }
  }

  lemma {:induction false} NatToStringDigits(n: nat)
    ensures AllDigits(NatToString(n))
    ensures LeadingDigits(NatToString(n), 0) == n
    ensures !(NatToString(n)[0] == '-' || NatToString(n)[0] == '+' || IsSpace(NatToString(n)[0]))
    decreases n
  {
    if n >= 10 {
      NatToStringDigits(n / 10);
      var d := [DigitChar(n % 10)];
      LeadingDigitsAppend(NatToString(n / 10), d, 0);
      assert LeadingDigits(d, n / 10) == LeadingDigits([], n / 10 * 10 + n % 10);
    }
  }

  lemma {:induction false} DigitCountAppend(x: string, y: string)
    requires AllDigits(x)
    ensures DigitCount(x + y) == |x| + DigitCount(y)
    decreases |x|
  {
    if |x| == 0 {
      assert x + y == y;
    } else {
      assert (x + y)[0] == x[0] && (x + y)[1..] == x[1..] + y;
      assert AllDigits(x[1..]);
      DigitCountAppend(x[1..], y);
    }
  }

  /** Digits read after `acc` lie between `acc` and `acc + 1`, scaled by
      the power of ten their count gives. */
  lemma {:induction false} LeadingDigitsBounds(f: string, acc: nat)
    requires AllDigits(f)
    ensures acc * Pow10(|f|) <= LeadingDigits(f, acc) < (acc + 1) * Pow10(|f|)
    decreases |f|
  {
    if |f| > 0 {
      var d: nat := f[0] as int - '0' as int;
      var p := Pow10(|f| - 1);
      assert Pow10(|f|) == 10 * p;
      assert AllDigits(f[1..]);
      LeadingDigitsBounds(f[1..], acc * 10 + d);
      MulMono(acc * 10, acc * 10 + d, p);
      MulMono(acc * 10 + d + 1, (acc + 1) * 10, p);
      MulAssoc(acc, 10, p);
      MulAssoc(acc + 1, 10, p);
    }
  }

  lemma MulMono(a: nat, b: nat, p: nat)
    requires a <= b
    ensures a * p <= b * p
  {
  }

  lemma MulAssoc(a: nat, b: nat, c: nat)
    ensures a * (b * c) == (a * b) * c
  {
  }

  lemma DivBetween(m: nat, p: nat, a: nat)
    requires p > 0 && a * p <= m < (a + 1) * p
    ensures m / p == a
  {
    var q := m / p;
    assert m == q * p + m % p;
    if q < a {
      MulMono(q + 1, a, p);
    } else if q > a {
      MulMono(a + 1, q, p);
    }
  }

  /** The decimal text of a natural number is read as that number. */
  lemma NatTextIsNumber(n: nat)
    ensures LeadingNumber(NatToString(n)) == Some(Decimal(n, 0))
  {
    var u := NatToString(n);
    NatToStringDigits(n);
    DigitCountAppend(u, []);
    assert u + [] == u;
    assert u[|u|..] == [];
  }

  /** The text of a number, signed or not, reaches `LeadingNumber` unchanged. */
  lemma {:induction false} SignedText(u: string)
    requires |u| > 0 && IsDigit(u[0])
    ensures StringToInt(u) == match LeadingNumber(u)
      case None => 0
      case Some(d) => if Overflows(d) then 0 else Clamp64(Truncate(d))
    ensures StringToInt("-" + u) == match LeadingNumber(u)
      case None => 0
      case Some(d) => if Overflows(d) then 0 else Clamp64(-Truncate(d))
  {
    assert ("-" + u)[1..] == u;
  }

  /** Reading back the decimal text of a 64-bit integer gives the integer. */
  lemma IntToStringRoundTrip(i: int)
    requires IsInt64(i)
    ensures StringToInt(IntToString(i)) == i
  {
    var n: nat := if i < 0 then -i else i;
    NatTextIsNumber(n);
    NatToStringDigits(n);
    SignedText(NatToString(n));
  }

  /** A run of digits too large for 64 bits saturates at the bound of its
      sign, until it overflows a double. */
  lemma DigitsSaturate(n: nat)
    requires MaxInt64 < n < DoubleOverflow
    ensures StringToInt(NatToString(n)) == MaxInt64
    ensures StringToInt("-" + NatToString(n)) == MinInt64
  {
    NatTextIsNumber(n);
    NatToStringDigits(n);
    SignedText(NatToString(n));
  }

  /** `m e x` is read as `m * 10^x`, saturated to 64 bits. */
  lemma ExponentNotation(m: nat, x: nat)
    requires m * Pow10(x) < DoubleOverflow
    ensures StringToInt(NatToString(m) + "e" + NatToString(x)) == Clamp64(m * Pow10(x))
  {
    var u := NatToString(m) + "e" + NatToString(x);
    ExponentNumber(m, x);
    NatToStringDigits(m);
    SignedText(u);
  }

  lemma {:induction false} ExponentNumber(m: nat, x: nat)
    ensures LeadingNumber(NatToString(m) + "e" + NatToString(x)) == Some(Decimal(m, x))
  {
    var a := NatToString(m);
    var b := NatToString(x);
    var u := a + "e" + b;
    NatToStringDigits(m);
    NatToStringDigits(x);
    assert u == a + ("e" + b);
    DigitCountAppend(a, "e" + b);
    LeadingDigitsAppend(a, "e" + b, 0);
    assert LeadingDigits("e" + b, m) == m;
    var k := DigitCount(u);
    assert k == |a| && u[k] == 'e';
    assert u[k..] == "e" + b;
    assert ExponentPart("e" + b) == x by { assert ("e" + b)[1..] == b; }
    WholeShape(u, k);
  }

  lemma WholeShape(u: string, k: nat)
    requires k == DigitCount(u) && k > 0 && (k == |u| || u[k] != '.')
    ensures LeadingNumber(u) == Some(Decimal(LeadingDigits(u, 0), ExponentPart(u[k..])))
  {
  }

  /** The text `a.f` is the number whose mantissa reads `f` after `a`. */
  lemma {:induction false} FractionNumber(a: nat, f: string)
    requires AllDigits(f)
    ensures LeadingNumber(NatToString(a) + "." + f) == Some(Decimal(LeadingDigits(f, a), -|f|))
  {
    NatToStringDigits(a);
    FractionText(NatToString(a), f);
  }

  lemma {:induction false} FractionText(x: string, f: string)
    requires |x| > 0 && AllDigits(x) && AllDigits(f)
    ensures LeadingNumber(x + "." + f) == Some(Decimal(LeadingDigits(f, LeadingDigits(x, 0)), -|f|))
  {
    var u := x + "." + f;
    var k := |x|;
    assert DigitCount(u) == k && u[k] == '.' by {
      assert u == x + ("." + f);
      DigitCountAppend(x, "." + f);
    }
    assert LeadingDigits(u, 0) == LeadingDigits(x, 0) by {
      assert u == x + ("." + f);
      LeadingDigitsAppend(x, "." + f, 0);
      assert LeadingDigits("." + f, LeadingDigits(x, 0)) == LeadingDigits(x, 0);
    }
    assert u[k + 1..] == f;
    assert DigitCount(f) == |f| by {
      DigitCountAppend(f, []);
      assert f + [] == f;
    }
    assert u[k + 1 + |f|..] == [];
    FractionShape(u, k, |f|);
  }

  lemma {:induction false} FractionShape(u: string, k: nat, n: nat)
    requires k == DigitCount(u) && k > 0 && k < |u| && u[k] == '.'
    requires n == DigitCount(u[k + 1..]) && u[k + 1 + n..] == []
    ensures LeadingNumber(u) == Some(Decimal(LeadingDigits(u[k + 1..], LeadingDigits(u, 0)), -(n as int)))
  {
    assert ExponentPart([]) == 0;
  }

  /** Dropping the fraction digits of such a number leaves `a`. */
  lemma FractionValue(a: nat, f: string)
    requires AllDigits(f) && a < DoubleOverflow
    ensures !Overflows(Decimal(LeadingDigits(f, a), -|f|))
    ensures Truncate(Decimal(LeadingDigits(f, a), -|f|)) == a
  {
    var m := LeadingDigits(f, a);
    LeadingDigitsBounds(f, a);
    if |f| > 0 {
      DivBetween(m, Pow10(|f|), a);
      MulMono(a + 1, DoubleOverflow, Pow10(|f|));
    } else {
      assert Pow10(0) == 1;
    }
  }

  /** A fraction is cut off: `a.f` is read as `a`, and `-a.f` as `-a`. */
  lemma {:induction false} FractionIsTruncated(a: nat, f: string)
    requires AllDigits(f) && a <= MaxInt64
    ensures StringToInt(NatToString(a) + "." + f) == a
    ensures StringToInt("-" + (NatToString(a) + "." + f)) == -(a as int)
  {
    var u := NatToString(a) + "." + f;
    NatToStringDigits(a);
    FractionNumber(a, f);
    FractionValue(a, f);
    SignedText(u);
  }

  /** Example: the exponent form is read as a power of ten. */
  lemma ExponentExample(e: string)
    requires e == "1e2"
    ensures StringToInt(e) == 100
  {
    assert NatToString(1) == "1" && NatToString(2) == "2";
    assert Pow10(2) == 100 by { assert Pow10(1) == 10; }
    ExponentNotation(1, 2);
    assert "1" + "e" + "2" == e;
    assert Clamp64(1 * 100) == 100;
  }

  /** Example: a fraction is truncated toward zero, whatever the sign. */
  lemma FractionExample(f: string, g: string)
    requires f == "2.5" && g == "-2.5"
    ensures StringToInt(f) == 2
    ensures StringToInt(g) == -2
  {
    var a := NatToString(2);
    assert a == "2";
    assert a + "." + "5" == f;
    assert "-" + f == g;
    FractionIsTruncated(2, "5");
  }
}
