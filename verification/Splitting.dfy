/** Characters, machine words, `str::split`, and numbers in decimal. */
module Characters {

  const NUL: char := '\U{0}'

  function Lower(c: char): char {
    if 'A' <= c <= 'Z' then (c as int + 32) as char else c
  }
}

module Words {

  const U32_LIMIT := 0x1_0000_0000

  newtype u32 = x: int | 0 <= x < U32_LIMIT
}

module Splitting {

  /** Splits at every character that satisfies `at`, which is removed. */
  function SplitAt(s: string, at: char -> bool): (r: seq<string>)
    ensures r != []
  {
    if s == "" then [""]
    else
      var rest := SplitAt(s[1..], at);
      if at(s[0]) then [""] + rest else [[s[0]] + rest[0]] + rest[1..]
  }

  lemma SplitOne(c: char, at: char -> bool)
    ensures SplitAt([c], at) == if at(c) then ["", ""] else [[c]]
  {
    assert [c][1..] == "" && [c] + "" == [c] && [""][1..] == [];
  }

  lemma {:induction false} SplitConcat(a: string, d: char, b: string, at: char -> bool)
    requires at(d)
    ensures SplitAt(a + [d] + b, at) == SplitAt(a, at) + SplitAt(b, at)
    decreases a
  {
    if a == "" {
      assert a + [d] + b == [d] + b && ([d] + b)[1..] == b;
    } else {
      assert (a + [d] + b)[1..] == a[1..] + [d] + b;
      SplitConcat(a[1..], d, b, at);
    }
  }

  lemma {:induction false} SplitNone(s: string, at: char -> bool)
    requires forall i :: 0 <= i < |s| ==> !at(s[i])
    ensures SplitAt(s, at) == [s]
  {
    if s == "" {
    } else {
      SplitNone(s[1..], at);
      assert s == [s[0]] + s[1..];
    }
  }
}

module Decimals {

  function Digit(d: nat): char
    requires d < 10
  {
    ('0' as int + d) as char
  }

  predicate IsDigit(c: char) { '0' <= c <= '9' }

  function DigitValue(c: char): nat
    requires IsDigit(c)
  {
    c as int - '0' as int
  }

  function Decimal(n: nat): (s: string)
    ensures s != "" && forall i :: 0 <= i < |s| ==> IsDigit(s[i])
  {
    if n < 10 then [Digit(n)] else Decimal(n / 10) + [Digit(n % 10)]
  }

  function Value(s: string): nat
    requires forall i :: 0 <= i < |s| ==> IsDigit(s[i])
  {
    if s == "" then 0 else 10 * Value(s[..|s| - 1]) + DigitValue(s[|s| - 1])
  }

  lemma {:induction false} DecimalValue(n: nat)
    ensures Value(Decimal(n)) == n
  {
    if n < 10 {
      assert [Digit(n)][..0] == "";
    } else {
      DecimalValue(n / 10);
      assert (Decimal(n / 10) + [Digit(n % 10)])[..|Decimal(n / 10)|] == Decimal(n / 10);
    }
  }

  /** Different numbers are written differently. */
  lemma DecimalInjective(m: nat, n: nat)
    requires Decimal(m) == Decimal(n)
    ensures m == n
  {
    DecimalValue(m);
    DecimalValue(n);
  }
}
