/** generateSalary: the salary string "R$ <n>,00", where n is the integer part
    of a uniform draw in [0, 10000). The draw itself is an input here. */
module Salary {
  import opened Users

  /** A value Math.floor(Math.random() * 10000) can take. */
  type SalaryDraw = n: int | 0 <= n < 10000

  const Prefix: string := "R$ "
  const Suffix: string := ",00"

  predicate IsDigit(c: char) { '0' <= c <= '9' }

  predicate AllDigits(s: string) { forall i :: 0 <= i < |s| ==> IsDigit(s[i]) }

  function DigitChar(d: int): (c: char)
    requires 0 <= d < 10
    ensures IsDigit(c) && DigitValue(c) == d
  {
    ('0' as int + d) as char
  }

  function DigitValue(c: char): int
    requires IsDigit(c)
  {
    c as int - '0' as int
  }

  function Pow10(k: nat): (p: nat)
    ensures p >= 1
  {
    if k == 0 then 1 else 10 * Pow10(k - 1)
  }

  /** The decimal text of `n`, as a template literal renders a non-negative
      integer: digits only, and no leading zero except for 0 itself. */
  function Decimal(n: nat): (s: string)
    ensures |s| >= 1 && AllDigits(s)
    ensures s[0] == '0' ==> s == "0"
    decreases n
  {
    if n < 10 then [DigitChar(n)] else Decimal(n / 10) + [DigitChar(n % 10)]
  }

  /** The value of a string of decimal digits. */
  function ParseDecimal(s: string): nat
    requires AllDigits(s)
    decreases |s|
  {
    if s == [] then 0 else 10 * ParseDecimal(s[..|s| - 1]) + DigitValue(s[|s| - 1])
  }

  lemma {:induction false} DecimalRoundTrip(n: nat)
    ensures ParseDecimal(Decimal(n)) == n
    decreases n
  {
    if n >= 10 {
      DecimalRoundTrip(n / 10);
      var s := Decimal(n);
      assert s[..|s| - 1] == Decimal(n / 10);
    }
  }

  /** A number below 10^k has at most k digits. */
  lemma {:induction false} DecimalWidth(n: nat, k: nat)
    requires 1 <= k && n < Pow10(k)
    ensures |Decimal(n)| <= k
    decreases k
  {
    if n >= 10 {
      assert k >= 2;
      DecimalWidth(n / 10, k - 1);
    }
  }

  /** Reads back the integer of a salary string; None for any other shape. */
  function ParseSalary(s: string): Option<nat> {
    if |s| >= |Prefix| + 1 + |Suffix| && s[..|Prefix|] == Prefix
       && s[|s| - |Suffix|..] == Suffix && AllDigits(s[|Prefix|..|s| - |Suffix|])
    then Some(ParseDecimal(s[|Prefix|..|s| - |Suffix|]))
    else None
  }

  /** The salary string: prefix, one to four digits without a leading zero,
      suffix; and it reads back as the draw. */
  function GenerateSalary(n: SalaryDraw): (s: string)
    ensures 7 <= |s| <= 10
    ensures s[..3] == "R$ " && s[|s| - 3..] == ",00"
    ensures s[3] == '0' ==> s == "R$ 0,00"
    ensures ParseSalary(s) == Some(n)
  {
    var digits := Decimal(n);
    DecimalWidth(n, 4);
    DecimalRoundTrip(n);
    var s := Prefix + digits + Suffix;
    assert s[|Prefix|..|s| - |Suffix|] == digits;
    s
  }
}
