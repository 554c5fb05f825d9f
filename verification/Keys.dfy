/** Keys built as "<prefix><separator><decimal>": chunk ids and update identities. */
module Keys {
  function Digit(d: nat): char
    requires d < 10
  {
    "0123456789"[d]
  }

  function Decimal(n: nat): string {
    if n < 10 then [Digit(n)] else Decimal(n / 10) + [Digit(n % 10)]
  }

  predicate IsDigit(c: char) {
    '0' <= c <= '9'
  }

  lemma {:induction false} DecimalDigits(n: nat)
    ensures Decimal(n) != "" && forall i :: 0 <= i < |Decimal(n)| ==> IsDigit(Decimal(n)[i])
  {
    if n >= 10 { DecimalDigits(n / 10); }
  }

  /** The number that a decimal text stands for. */
  function Reads(s: string): int {
    if s == "" then 0 else 10 * Reads(s[..|s| - 1]) + (s[|s| - 1] as int - '0' as int)
  }

  lemma {:induction false} DecimalReads(n: nat)
    ensures Reads(Decimal(n)) == n && (n > 0 ==> Decimal(n)[0] != '0')
  {
    DecimalDigits(n);
    if n >= 10 {
      DecimalReads(n / 10);
      var front := Decimal(n / 10);
      assert Decimal(n)[..|front|] == front;
      DigitStands(n % 10);
    } else {
      DigitStands(n);
      assert [Digit(n)][..0] == "";
    }
  }

  lemma DigitStands(d: nat)
    requires d < 10
    ensures Digit(d) as int == '0' as int + d
  {
  }

  lemma DigitInjective(a: nat, b: nat)
    requires a < 10 && b < 10 && Digit(a) == Digit(b)
    ensures a == b
  {
  }

  lemma {:induction false} DecimalInjective(a: nat, b: nat)
    requires Decimal(a) == Decimal(b)
    ensures a == b
    decreases a
  {
    DecimalDigits(a / 10);
    DecimalDigits(b / 10);
    var s := Decimal(a);
    assert a >= 10 ==> |s| >= 2;
    assert b >= 10 ==> |s| >= 2;
    if a < 10 || b < 10 {
      DigitInjective(a, b);
    } else {
      assert s[..|s| - 1] == Decimal(a / 10) && s[..|s| - 1] == Decimal(b / 10);
      assert s[|s| - 1] == Digit(a % 10) && s[|s| - 1] == Digit(b % 10);
      DecimalInjective(a / 10, b / 10);
      DigitInjective(a % 10, b % 10);
    }
  }

  function Key(prefix: string, separator: char, n: nat): string {
    prefix + [separator] + Decimal(n)
  }

  lemma LastSeparator(prefix: string, separator: char, n: nat)
    requires !IsDigit(separator)
    ensures var s := Key(prefix, separator, n);
      && |prefix| < |s| && s[|prefix|] == separator && (forall i :: |prefix| < i < |s| ==> s[i] != separator)
      && s[..|prefix|] == prefix && s[|prefix| + 1..] == Decimal(n)
  {
    DecimalDigits(n);
    var s := Key(prefix, separator, n);
    forall i | |prefix| < i < |s|
      ensures s[i] != separator
    {
      assert s[i] == Decimal(n)[i - |prefix| - 1];
    }
  }

  /** The last separator splits the key, so prefix and number can be read back whatever the prefix contains. */
  lemma KeyInjective(p: string, a: nat, q: string, b: nat, separator: char)
    requires !IsDigit(separator) && Key(p, separator, a) == Key(q, separator, b)
    ensures p == q && a == b
  {
    LastSeparator(p, separator, a);
    LastSeparator(q, separator, b);
    assert |p| == |q|;
    DecimalInjective(a, b);
  }
}
