/** Decimal numbers, read and printed. */
module Numbers {

  predicate IsDigit(c: char) {
    '0' <= c <= '9'
  }

  // One `\d+` group.
  predicate IsNumber(s: string) {
    s != [] && forall c | c in s :: IsDigit(c)
  }

  function Digit(n: nat): char
    requires n < 10
  {
    '0' + n as char
  }

  // `%d`
  function PrintNat(n: nat): string {
    if n < 10 then [Digit(n)] else PrintNat(n / 10) + [Digit(n % 10)]
  }

  // `int(text)` on ASCII digits
  function ValueOf(s: string): nat
    requires forall c | c in s :: IsDigit(c)
  {
    if s == [] then 0
    else
      assert IsDigit(s[|s| - 1]);
      10 * ValueOf(s[..|s| - 1]) + (s[|s| - 1] as int - '0' as int)
  }

  // `str(n)`
  function PrintInt(n: int): string {
    if n < 0 then "-" + PrintNat(-n) else PrintNat(n)
  }

  lemma {:induction false} PrintNatValue(n: nat)
    ensures IsNumber(PrintNat(n)) && ValueOf(PrintNat(n)) == n
  {
    if n >= 10 {
      PrintNatValue(n / 10);
      var s := PrintNat(n);
      assert s[..|s| - 1] == PrintNat(n / 10);
    }
  }

  function Power10(n: nat): nat {
    if n == 0 then 1 else 10 * Power10(n - 1)
  }

  /** Digits count by their place. */
  lemma {:induction false} ValueOfConcat(a: string, b: string)
    requires (forall c | c in a :: IsDigit(c)) && forall c | c in b :: IsDigit(c)
    ensures ValueOf(a + b) == ValueOf(a) * Power10(|b|) + ValueOf(b)
  {
    var s := a + b;
    if b == [] {
      assert s == a;
    } else {
      var rest, n := b[..|b| - 1], |s| - 1;
      assert s[..n] == a + rest && s[n] == b[|b| - 1];
      assert forall c | c in rest :: c in b;
      ValueOfConcat(a, rest);
      assert ValueOf(a) * Power10(|b|) == 10 * (ValueOf(a) * Power10(|rest|));
    }
  }

  /** A number without leading zeros is what its value is printed as. */
  lemma {:induction false} PrintOfValue(s: string)
    requires IsNumber(s) && (s[0] != '0' || |s| == 1)
    ensures PrintNat(ValueOf(s)) == s
    ensures ValueOf(s) == 0 <==> s == "0"
  {
    var n := |s| - 1;
    var rest := s[..n];
    assert IsDigit(s[n]) && s == rest + [s[n]];
    if n > 0 {
      assert forall c | c in rest :: c in s;
      PrintOfValue(rest);
      assert ValueOf(s) / 10 == ValueOf(rest);
    } else {
      assert ValueOf(rest) == 0;
    }
  }
}
