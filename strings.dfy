/** String helpers the rest of the model needs: the order JavaScript's `<` and `>`
    use on strings, and the decimal form of an integer that a template literal
    such as `${port}` produces. */
module Strings {

  // ---------------------------------------------------------------------------
  // Lexicographic order on strings (JavaScript's relational operators on strings)
  // ---------------------------------------------------------------------------

  /** `a < b` on JavaScript strings: comparison character by character, and a
      proper prefix is smaller than the longer string. */
  predicate StrLess(a: string, b: string)
    ensures StrLess(a, b) ==> |b| > 0 && a != b
    decreases |a|
  {
    if |b| == 0 then false
    else if |a| == 0 then true
    else if a[0] != b[0] then a[0] < b[0]
    else StrLess(a[1..], b[1..])
  }

  /** The strings agree before index k and a is smaller at k. */
  ghost predicate LessAt(a: string, b: string, k: nat)
  {
    k < |a| && k < |b| && a[..k] == b[..k] && a[k] < b[k]
  }

  /** StrLess is the standard's definition: a is a proper prefix of b, or the first
      index where they differ holds the smaller character in a. */
  lemma {:induction false} StrLessMeaning(a: string, b: string)
    ensures StrLess(a, b) <==> (|a| < |b| && a == b[..|a|]) || (exists k :: LessAt(a, b, k))
    decreases |a|
  {
    if |a| == 0 || |b| == 0 {
      if |a| == 0 && |b| > 0 {
        assert a == b[..0];
      }
    } else if a[0] != b[0] {
      if a[0] < b[0] {
        assert LessAt(a, b, 0);
      } else {
        forall k: nat | LessAt(a, b, k) ensures false {
        }
      }
    } else {
      var a', b' := a[1..], b[1..];
      StrLessMeaning(a', b');
      if StrLess(a', b') {
        if |a'| < |b'| && a' == b'[..|a'|] {
          assert a == [a[0]] + a' && b[..|a|] == [b[0]] + b'[..|a'|];
        } else {
          var k: nat :| LessAt(a', b', k);
          assert a[..k + 1] == [a[0]] + a'[..k] && b[..k + 1] == [b[0]] + b'[..k];
          assert LessAt(a, b, k + 1);
        }
      } else {
        forall k: nat | LessAt(a, b, k) ensures false {
          if k > 0 {
            assert a'[..k - 1] == a[..k][1..] && b'[..k - 1] == b[..k][1..];
            assert LessAt(a', b', k - 1);
          }
        }
      }
    }
  }

  lemma {:induction false} StrLessIrreflexive(a: string)
    ensures !StrLess(a, a)
    decreases |a|
  {
    if |a| > 0 { StrLessIrreflexive(a[1..]); }
  }

  lemma {:induction false} StrLessAsymmetric(a: string, b: string)
    requires StrLess(a, b)
    ensures !StrLess(b, a)
    decreases |a|
  {
    if |a| > 0 && a[0] == b[0] { StrLessAsymmetric(a[1..], b[1..]); }
  }

  lemma {:induction false} StrLessTransitive(a: string, b: string, c: string)
    requires StrLess(a, b) && StrLess(b, c)
    ensures StrLess(a, c)
    decreases |a|
  {
    if |a| > 0 && a[0] == b[0] && b[0] == c[0] {
      StrLessTransitive(a[1..], b[1..], c[1..]);
    }
  }

  /** Two different strings are always ordered one way or the other. */
  lemma {:induction false} StrLessTotal(a: string, b: string)
    requires a != b
    ensures StrLess(a, b) || StrLess(b, a)
    decreases |a|
  {
    if |a| > 0 && |b| > 0 && a[0] == b[0] {
      assert a == [a[0]] + a[1..] && b == [b[0]] + b[1..];
      StrLessTotal(a[1..], b[1..]);
    }
  }

  /** `a >= b`: not smaller. */
  predicate StrAtLeast(a: string, b: string)
  {
    !StrLess(a, b)
  }

  lemma StrAtLeastTransitive(a: string, b: string, c: string)
    requires StrAtLeast(a, b) && StrAtLeast(b, c)
    ensures StrAtLeast(a, c)
  {
    if StrLess(a, c) {
      if a == b {
      } else if b == c {
      } else {
        StrLessTotal(a, b);
        StrLessTotal(b, c);
        StrLessTransitive(c, b, a);
        StrLessAsymmetric(a, c);
      }
    }
  }

  // ---------------------------------------------------------------------------
  // Decimal form of integers (`${n}` for an integral number n)
  // ---------------------------------------------------------------------------

  predicate IsDigit(c: char)
  {
    '0' <= c <= '9'
  }

  predicate AllDigits(s: string)
  {
    forall i :: 0 <= i < |s| ==> IsDigit(s[i])
  }

  /** No leading zero unless the number is zero itself. */
  predicate Canonical(s: string)
  {
    |s| >= 1 && AllDigits(s) && (|s| > 1 ==> s[0] != '0')
  }

  function DigitChar(d: nat): (c: char)
    requires d < 10
    ensures IsDigit(c) && c as int - '0' as int == d
  {
    (d + '0' as int) as char
  }

  /** The digit string's value, read from the most significant digit. */
  function DecimalValue(s: string): nat
    requires AllDigits(s)
  {
    if |s| == 0 then 0
    else 10 * DecimalValue(s[..|s| - 1]) + (s[|s| - 1] as int - '0' as int)
  }

  function NatToDecimal(n: nat): (r: string)
    ensures Canonical(r)
    ensures n < 10 <==> |r| == 1
    decreases n
  {
    if n < 10 then [DigitChar(n)] else NatToDecimal(n / 10) + [DigitChar(n % 10)]
  }

  /** Reading back a printed number gives the number. */
  lemma {:induction false} DecimalRoundTrip(n: nat)
    ensures DecimalValue(NatToDecimal(n)) == n
    decreases n
  {
    var r := NatToDecimal(n);
    if n >= 10 {
      DecimalRoundTrip(n / 10);
      assert r[..|r| - 1] == NatToDecimal(n / 10);
    }
  }

  lemma {:induction false} CanonicalValue(s: string)
    requires Canonical(s) && |s| > 1
    ensures DecimalValue(s) >= 10
    decreases |s|
  {
    var s' := s[..|s| - 1];
    assert s'[0] == s[0];
    if |s'| > 1 {
      CanonicalValue(s');
    }
  }

  /** The printed form is the only canonical digit string with that value. */
  lemma {:induction false} DecimalUnique(s: string)
    requires Canonical(s)
    ensures NatToDecimal(DecimalValue(s)) == s
    decreases |s|
  {
    if |s| > 1 {
      var s' := s[..|s| - 1];
      assert s'[0] == s[0];
      var v := DecimalValue(s);
      if |s'| > 1 { CanonicalValue(s'); }
      assert DecimalValue(s') >= 1;
      assert v / 10 == DecimalValue(s') && v % 10 == s[|s| - 1] as int - '0' as int;
      DecimalUnique(s');
      assert s == s' + [s[|s| - 1]];
    }
  }

  /** `${n}` for an integral number: a minus sign for negatives, then the digits. */
  function IntToDecimal(n: int): (r: string)
    ensures n >= 0 ==> Canonical(r) && DecimalValue(r) == n
    ensures n < 0 ==> |r| >= 2 && r[0] == '-' && Canonical(r[1..]) && DecimalValue(r[1..]) == -n
  {
    DecimalRoundTrip(if n < 0 then -n else n);
    if n < 0 then "-" + NatToDecimal(-n) else NatToDecimal(n)
  }
}
