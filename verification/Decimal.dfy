/** Decimal numerals, as `str(n)` prints them and `Number(s)` reads them back. */
module Decimal {
  import opened Wrappers

  predicate IsDigit(c: char) {
    '0' <= c <= '9'
  }

  function Digit(d: nat): (c: char)
    requires d < 10
    ensures IsDigit(c)
  {
    ('0' as int + d) as char
  }

  function Str(n: nat): (s: string)
    ensures s != [] && forall c | c in s :: IsDigit(c)
  {
    if n < 10 then [Digit(n)] else Str(n / 10) + [Digit(n % 10)]
  }

  /** Reads a numeral; anything that is not all digits is `None`. */
  function Parse(s: string): Option<nat> {
    if s == [] || !IsDigit(s[|s| - 1]) then None
    else
      var d := s[|s| - 1] as int - '0' as int;
      if |s| == 1 then Some(d)
      else
        match Parse(s[..|s| - 1])
        case None => None
        case Some(high) => Some(10 * high + d)
  }

  lemma {:induction false} ParseStr(n: nat)
    ensures Parse(Str(n)) == Some(n)
  {
    if n >= 10 {
      ParseStr(n / 10);
      assert Str(n)[..|Str(n)| - 1] == Str(n / 10);
    }
  }

  function Pow10(d: nat): nat {
    if d == 0 then 1 else 10 * Pow10(d - 1)
  }

  lemma {:induction false} StrLength(n: nat, d: nat)
    requires d >= 1 && n < Pow10(d)
    ensures |Str(n)| <= d
  {
    if n >= 10 {
      StrLength(n / 10, d - 1);
    }
  }

  lemma StrInjective(m: nat, n: nat)
    requires Str(m) == Str(n)
    ensures m == n
  {
    ParseStr(m);
    ParseStr(n);
  }
}
