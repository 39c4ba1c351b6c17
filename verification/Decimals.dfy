/** Decimal text of natural numbers and its reading. */
module Decimals {

  predicate IsDigit(c: char) { '0' <= c <= '9' }

  function Digit(d: nat): char
    requires d < 10
  {
    (d + '0' as int) as char
  }

  /** str(n) */
  function Decimal(n: nat): (s: string)
    ensures s != "" && forall i :: 0 <= i < |s| ==> IsDigit(s[i])
    ensures s[0] == '0' ==> s == "0" && n == 0
  {
    if n < 10 then [Digit(n)] else Decimal(n / 10) + [Digit(n % 10)]
  }

  /** The number a text spells, all characters but digits skipped. */
  function Read(s: string): nat {
    if s == "" then 0
    else
      var front, c := s[..|s| - 1], s[|s| - 1];
      if IsDigit(c) then 10 * Read(front) + (c as int - '0' as int) else Read(front)
  }

  lemma ReadSnoc(s: string, c: char)
    ensures Read(s + [c]) == if IsDigit(c) then 10 * Read(s) + (c as int - '0' as int) else Read(s)
  {}

  lemma {:induction false} ReadDecimal(n: nat)
    ensures Read(Decimal(n)) == n
  {
    if n < 10 {
      ReadSnoc("", Digit(n));
      assert "" + [Digit(n)] == [Digit(n)];
    } else {
      ReadDecimal(n / 10);
      ReadSnoc(Decimal(n / 10), Digit(n % 10));
    }
  }

  lemma {:induction false} ReadSkips(s: string, t: string)
    requires forall i :: 0 <= i < |t| ==> !IsDigit(t[i])
    ensures Read(s + t) == Read(s)
  {
    if t == "" {
      assert s + t == s;
    } else {
      ReadSkips(s, t[..|t| - 1]);
      ReadSnoc(s + t[..|t| - 1], t[|t| - 1]);
      assert s + t == (s + t[..|t| - 1]) + [t[|t| - 1]];
    }
  }

  function Zeros(n: nat): string { seq(n, i => '0') }

  /** str.zfill for text without a sign */
  function ZFill(s: string, width: nat): string {
    if |s| < width then Zeros(width - |s|) + s else s
  }

  lemma ThreeDigits(n: nat)
    requires n < 1000
    ensures ZFill(Decimal(n), 3) == [Digit(n / 100), Digit(n / 10 % 10), Digit(n % 10)]
    ensures |Decimal(n)| <= 3
  {
    if n >= 100 {
      assert Decimal(n / 10) == Decimal(n / 100) + [Digit(n / 10 % 10)];
    }
  }

  lemma TwoDigits(n: nat)
    requires n < 100
    ensures ZFill(Decimal(n), 2) == [Digit(n / 10), Digit(n % 10)]
  {}

  lemma ReadThree(s: string, a: nat, b: nat, c: nat)
    requires a < 10 && b < 10 && c < 10
    ensures Read(s + [Digit(a), Digit(b), Digit(c)]) == 1000 * Read(s) + 100 * a + 10 * b + c
  {
    ReadSnoc(s, Digit(a));
    ReadSnoc(s + [Digit(a)], Digit(b));
    ReadSnoc(s + [Digit(a)] + [Digit(b)], Digit(c));
    assert s + [Digit(a), Digit(b), Digit(c)] == s + [Digit(a)] + [Digit(b)] + [Digit(c)];
  }

  /** The digits of a number below a thousand. */
  lemma Split(n: nat) returns (a: nat, b: nat, c: nat)
    requires n < 1000
    ensures a < 10 && b < 10 && c < 10 && n == 100 * a + 10 * b + c
    ensures a == n / 100 && b == n / 10 % 10 && c == n % 10
  {
    a, b, c := n / 100, n / 10 % 10, n % 10;
  }

  lemma ReadTriple(s: string, n: nat)
    requires n < 1000
    ensures Read(s + ZFill(Decimal(n), 3)) == 1000 * Read(s) + n
  {
    var a, b, c := Split(n);
    SplitText(n, a, b, c);
    ReadThree(s, a, b, c);
  }

  lemma SplitText(n: nat, a: nat, b: nat, c: nat)
    requires n < 1000 && a == n / 100 && b == n / 10 % 10 && c == n % 10
    ensures ZFill(Decimal(n), 3) == [Digit(a), Digit(b), Digit(c)]
  {
    ThreeDigits(n);
  }

  lemma ReadPair(n: nat)
    requires n < 100
    ensures Read(ZFill(Decimal(n), 2)) == n
  {
    TwoDigits(n);
    ReadSnoc("", Digit(n / 10));
    ReadSnoc("" + [Digit(n / 10)], Digit(n % 10));
    assert ZFill(Decimal(n), 2) == "" + [Digit(n / 10)] + [Digit(n % 10)];
  }

  lemma DecimalInjective(m: nat, n: nat)
    requires Decimal(m) == Decimal(n)
    ensures m == n
  {
    ReadDecimal(m);
    ReadDecimal(n);
  }
}
