/** String helpers the server relies on: JavaScript's default string order
    (the one `Array.prototype.sort` uses without a comparator) and the
    decimal rendering of a counter inside a template literal. */
module Text {

  /** `a` sorts strictly before `b`: the first differing character decides,
      and a proper prefix sorts first. */
  predicate Before(a: string, b: string)
    ensures Before(a, b) ==> a != b
    decreases |a|
  {
    if |a| == 0 then |b| > 0
    else if |b| == 0 then false
    else if a[0] != b[0] then a[0] < b[0]
    else Before(a[1..], b[1..])
  }

  lemma {:induction false} BeforeIrreflexive(a: string)
    ensures !Before(a, a)
    decreases |a|
  {
    if |a| > 0 {
      BeforeIrreflexive(a[1..]);
    }
  }

  lemma {:induction false} BeforeAsymmetric(a: string, b: string)
    ensures !(Before(a, b) && Before(b, a))
    decreases |a|
  {
    if |a| > 0 && |b| > 0 && a[0] == b[0] {
      BeforeAsymmetric(a[1..], b[1..]);
    }
  }

  /** The comparison the predicate makes, stated directly: a proper prefix
      sorts first, and otherwise the first differing character decides. */
  lemma {:induction false} BeforeFirstDifference(a: string, b: string)
    ensures Before(a, b) <==>
      (|a| < |b| && a == b[..|a|]) ||
      (exists i :: 0 <= i < |a| && i < |b| && a[..i] == b[..i] && a[i] < b[i])
    decreases |a|
  {
    if |a| > 0 && |b| > 0 {
      if a[0] == b[0] {
        var a', b' := a[1..], b[1..];
        BeforeFirstDifference(a', b');
        if |a'| < |b'| && a' == b'[..|a'|] {
          assert a == [a[0]] + a' && b[..|a|] == [b[0]] + b'[..|a'|];
        }
        if exists i :: 0 <= i < |a'| && i < |b'| && a'[..i] == b'[..i] && a'[i] < b'[i] {
          var i :| 0 <= i < |a'| && i < |b'| && a'[..i] == b'[..i] && a'[i] < b'[i];
          assert a[..i + 1] == [a[0]] + a'[..i] && b[..i + 1] == [b[0]] + b'[..i];
          assert a[i + 1] == a'[i] && b[i + 1] == b'[i];
        }
        if |a| < |b| && a == b[..|a|] {
          assert a' == b'[..|a'|];
        }
        if exists i :: 0 <= i < |a| && i < |b| && a[..i] == b[..i] && a[i] < b[i] {
          var i :| 0 <= i < |a| && i < |b| && a[..i] == b[..i] && a[i] < b[i];
          assert i > 0;
          assert a'[..i - 1] == a[1..i] && b'[..i - 1] == b[1..i];
          assert a'[i - 1] == a[i] && b'[i - 1] == b[i];
        }
      } else {
        assert |a| < |b| ==> b[..|a|][0] == b[0];
        forall i | 0 < i <= |a| && i <= |b|
          ensures a[..i][0] == a[0] && b[..i][0] == b[0]
        {
        }
        assert a[..0] == b[..0];
      }
    } else if |a| == 0 {
      assert a == b[..0];
    }
  }

  /** Two different strings are always ordered one way or the other. */
  lemma {:induction false} BeforeTotal(a: string, b: string)
    requires a != b
    ensures Before(a, b) || Before(b, a)
    decreases |a|
  {
    if |a| > 0 && |b| > 0 && a[0] == b[0] {
      assert a == [a[0]] + a[1..] && b == [b[0]] + b[1..];
      BeforeTotal(a[1..], b[1..]);
    }
  }

  /** The `length` of a JavaScript string: its UTF-16 code units, so a
      character outside the Basic Multilingual Plane counts twice. */
  function Utf16Length(s: string): (n: nat)
    ensures |s| <= n <= 2 * |s|
    ensures (forall i :: 0 <= i < |s| ==> s[i] as int < 0x1_0000) ==> n == |s|
    decreases |s|
  {
    if |s| == 0 then 0
    else Utf16Length(s[..|s| - 1]) + (if s[|s| - 1] as int < 0x1_0000 then 1 else 2)
  }

  /** A string is shorter than two code units exactly when it is empty or a
      single character of the Basic Multilingual Plane. */
  lemma Utf16LengthBelowTwo(s: string)
    ensures Utf16Length(s) < 2 <==> |s| == 0 || (|s| == 1 && s[0] as int < 0x1_0000)
  {
    if |s| == 1 {
      assert s[..0] == [];
    }
  }

  function Digit(d: nat): (c: char)
    requires d < 10
    ensures '0' <= c <= '9'
  {
    (48 + d) as char
  }

  /** The decimal numeral of `n`, without leading zeros. */
  function Decimal(n: nat): (s: string)
    ensures |s| >= 1
    ensures forall i :: 0 <= i < |s| ==> '0' <= s[i] <= '9'
    ensures n >= 10 <==> |s| >= 2
    ensures s[0] == '0' <==> n == 0
    decreases n
  {
    if n < 10 then [Digit(n)] else Decimal(n / 10) + [Digit(n % 10)]
  }

  /** The number a string of decimal digits denotes, most significant
      digit first. */
  function DigitsValue(s: string): (v: nat)
    requires forall i :: 0 <= i < |s| ==> '0' <= s[i] <= '9'
    ensures |s| == 1 ==> v == s[0] as int - '0' as int
    decreases |s|
  {
    if |s| == 0 then 0
    else DigitsValue(s[..|s| - 1]) * 10 + (s[|s| - 1] as int - '0' as int)
  }

  /** The numeral denotes the number: reading it back gives `n`. */
  lemma {:induction false} DecimalDenotes(n: nat)
    ensures DigitsValue(Decimal(n)) == n
    decreases n
  {
    if n >= 10 {
      var s, q, r := Decimal(n), n / 10, n % 10;
      assert s[..|s| - 1] == Decimal(q) && s[|s| - 1] == Digit(r);
      assert s[|s| - 1] as int - '0' as int == r;
      DecimalDenotes(q);
      assert DigitsValue(s) == q * 10 + r;
    }
  }

  /** Different numbers have different numerals. */
  lemma {:induction false} DecimalInjective(n: nat, m: nat)
    requires Decimal(n) == Decimal(m)
    ensures n == m
    decreases n
  {
    var s := Decimal(n);
    if n >= 10 {
      assert m >= 10;
      assert s[|s| - 1] == Digit(n % 10) && s[|s| - 1] == Digit(m % 10);
      assert s[..|s| - 1] == Decimal(n / 10) && s[..|s| - 1] == Decimal(m / 10);
      DecimalInjective(n / 10, m / 10);
    } else {
      assert m < 10;
      assert s[0] == Digit(n) && s[0] == Digit(m);
    }
  }
}
