/** GenerateStrFromStrInt: the textual outpoint keys of CalculateUtxos never collide. */
module Keys {
  function DigitsOf(n: nat): (s: string)
    ensures s != [] && forall c | c in s :: '0' <= c <= '9'
  {
    var d := ['0' + (n % 10) as char];
    if n < 10 then d else DigitsOf(n / 10) + d
  }

  /** fmt's %d */
  function Decimal(b: int): (s: string)
    ensures '_' !in s
  {
    if b < 0 then "-" + DigitsOf(-b) else DigitsOf(b)
  }

  /** fmt.Sprintf("%s_%d", a, b) */
  function GenerateStrFromStrInt(a: string, b: int): string {
    a + "_" + Decimal(b)
  }

  lemma DigitsShape(n: nat)
    ensures |DigitsOf(n)| == 1 <==> n < 10
    ensures DigitsOf(n)[|DigitsOf(n)| - 1] == '0' + (n % 10) as char
    ensures n >= 10 ==> DigitsOf(n)[..|DigitsOf(n)| - 1] == DigitsOf(n / 10)
  {
  }

  lemma {:induction false} DigitsInjective(m: nat, n: nat)
    requires DigitsOf(m) == DigitsOf(n)
    ensures m == n
  {
    DigitsShape(m);
    DigitsShape(n);
    assert m % 10 == n % 10;
    if m >= 10 && n >= 10 {
      DigitsInjective(m / 10, n / 10);
    }
  }

  /** The number a decimal text denotes. */
  function DecimalValue(s: string): int {
    if s == [] then 0 else 10 * DecimalValue(s[..|s| - 1]) + s[|s| - 1] as int - '0' as int
  }

  lemma {:induction false} DigitsDenote(n: nat)
    ensures DecimalValue(DigitsOf(n)) == n
  {
    DigitsShape(n);
    var s := DigitsOf(n);
    if n >= 10 {
      DigitsDenote(n / 10);
    } else {
      assert s[..|s| - 1] == [];
    }
  }

  lemma DecimalSign(b: int)
    ensures Decimal(b)[0] == '-' <==> b < 0
  {
    if b >= 0 {
      assert Decimal(b)[0] in DigitsOf(b);
    }
  }

  lemma DecimalInjective(m: int, n: int)
    requires Decimal(m) == Decimal(n)
    ensures m == n
  {
    DecimalSign(m);
    DecimalSign(n);
    if m < 0 {
      assert Decimal(m)[1..] == DigitsOf(-m) && Decimal(n)[1..] == DigitsOf(-n);
      DigitsInjective(-m, -n);
    } else {
      DigitsInjective(m, n);
    }
  }

  /** The last underscore of a key separates its parts, so parts of different lengths give different keys. */
  lemma SeparatorDiffers(a: string, d: string, a': string, d': string)
    requires '_' !in d' && |d| < |d'|
    ensures a + "_" + d != a' + "_" + d'
  {
    var s, t := a + "_" + d, a' + "_" + d';
    if |s| == |t| {
      assert s[|a|] == '_' && t[|a|] == d'[|a| - |a'| - 1];
      assert d'[|a| - |a'| - 1] in d';
    }
  }

  lemma KeyInjective(a: string, b: int, a': string, b': int)
    ensures GenerateStrFromStrInt(a, b) == GenerateStrFromStrInt(a', b') <==> a == a' && b == b'
  {
    if GenerateStrFromStrInt(a, b) == GenerateStrFromStrInt(a', b') {
      var s, d, d' := GenerateStrFromStrInt(a, b), Decimal(b), Decimal(b');
      assert |d| == |d'| by {
        if |d| < |d'| {
          SeparatorDiffers(a, d, a', d');
        } else if |d'| < |d| {
          SeparatorDiffers(a', d', a, d);
        }
      }
      assert s[..|a|] == a && s[..|a'|] == a';
      assert s[|a| + 1..] == d && s[|a'| + 1..] == d';
      DecimalInjective(b, b');
    }
  }
}
