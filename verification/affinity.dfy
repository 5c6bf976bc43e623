/**
 The `idx` column of the table is declared `string`, which gives it numeric affinity: text that is a numeral is
 stored, and compared, as the number. Here that is said of numerals made of digits alone.
 */
module Affinity {
  import opened Text
  import Store

  datatype Value = Number(n: nat) | Words(s: string)

  predicate Digits(s: string) {
    s != [] && forall k | 0 <= k < |s| :: '0' <= s[k] <= '9'
  }

  function Numeral(s: string): nat
    requires Digits(s)
  {
    var n := |s| - 1;
    if n == 0 then Digit(s[n]) else 10 * Numeral(s[..n]) + Digit(s[n])
  }

  function Digit(c: char): (d: nat)
    requires '0' <= c <= '9'
    ensures d < 10 && '0' + d as char == c
  {
    c as int - '0' as int
  }

  function Stored(s: string): Value {
    if Digits(s) then Number(Numeral(s)) else Words(s)
  }

  // Numbers come before text.
  predicate Precedes(a: Value, b: Value) {
    match (a, b)
    case (Number(m), Number(n)) => m < n
    case (Number(_), Words(_)) => true
    case (Words(_), Number(_)) => false
    case (Words(s), Words(t)) => Less(s, t)
  }

  // A numeral without leading zeros.
  function Strip(s: string): (r: string)
    ensures |r| <= |s|
  {
    if |s| > 1 && s[0] == '0' then Strip(s[1..]) else s
  }

  lemma {:induction false} StripSnoc(s: string, c: char)
    requires s != []
    ensures Strip(s + [c]) == if Strip(s) == "0" then [c] else Strip(s) + [c]
  {
    assert (s + [c])[1..] == s[1..] + [c];
    if s[0] == '0' {
      if |s| > 1 {
        StripSnoc(s[1..], c);
      } else {
        assert s == "0" && s[1..] + [c] == [c];
      }
    }
  }

  lemma {:induction false} NumeralIsDecimal(s: string)
    requires Digits(s)
    ensures Decimal(Numeral(s)) == Strip(s)
  {
    hide Decimal, Strip, Digit;
    var n := |s| - 1;
    if n > 0 {
      NumeralIsDecimal(s[..n]);
      StripSnoc(s[..n], s[n]);
      assert s == s[..n] + [s[n]];
      ZeroAlone(Numeral(s[..n]));
      DecimalSnoc(Numeral(s[..n]), s[n]);
    } else {
      assert s == [s[0]];
      DecimalSnoc(0, s[0]);
      OneIsStripped(s);
    }
  }

  lemma OneIsStripped(s: string)
    requires |s| == 1
    ensures Strip(s) == s
  {
  }

  lemma DecimalSnoc(n: nat, c: char)
    requires '0' <= c <= '9'
    ensures Decimal(10 * n + Digit(c)) == if n == 0 then [c] else Decimal(n) + [c]
  {
  }

  lemma ZeroAlone(n: nat)
    ensures Decimal(n) == "0" <==> n == 0
  {
    if n >= 10 {
      assert |Decimal(n)| >= 2;
    }
  }

  lemma {:induction false} DecimalsDiffer(m: nat, n: nat)
    requires Decimal(m) == Decimal(n)
    ensures m == n
  {
    if m >= 10 || n >= 10 {
      assert |Decimal(m)| >= 2 && |Decimal(n)| >= 2;
      var k := |Decimal(m)| - 1;
      assert Decimal(m)[..k] == Decimal(m / 10) && Decimal(n)[..k] == Decimal(n / 10);
      assert Decimal(m)[k] == '0' + (m % 10) as char && Decimal(n)[k] == '0' + (n % 10) as char;
      DecimalsDiffer(m / 10, n / 10);
    }
  }

  /** Two logins are one index exactly if they are the same, or are numerals that differ in leading zeros only. */
  lemma LoginsMergeExactly(a: string, b: string)
    ensures Stored(a) == Stored(b) <==> a == b || (Digits(a) && Digits(b) && Strip(a) == Strip(b))
  {
    if Digits(a) && Digits(b) {
      NumeralIsDecimal(a);
      NumeralIsDecimal(b);
      if Strip(a) == Strip(b) {
        DecimalsDiffer(Numeral(a), Numeral(b));
      }
    }
  }

  lemma {:induction false} LongerIsMore(m: nat, n: nat)
    requires |Decimal(m)| < |Decimal(n)|
    ensures m < n
  {
    if m >= 10 {
      LongerIsMore(m / 10, n / 10);
    }
  }

  /** Numerals are paged shorter first, leading zeros aside, and as text only among those of one length. */
  lemma NumeralsPageByLength(a: string, b: string)
    requires Digits(a) && Digits(b)
    ensures Precedes(Stored(a), Stored(b)) <==>
            |Strip(a)| < |Strip(b)| || (|Strip(a)| == |Strip(b)| && Less(Strip(a), Strip(b)))
  {
    var m, n := Numeral(a), Numeral(b);
    NumeralIsDecimal(a);
    NumeralIsDecimal(b);
    if |Strip(a)| < |Strip(b)| {
      LongerIsMore(m, n);
    } else if |Strip(b)| < |Strip(a)| {
      LongerIsMore(n, m);
    } else if m < n {
      Store.DecimalsInOrder(m, n);
    } else if n < m {
      Store.DecimalsInOrder(n, m);
      LessIsAsymmetric(Strip(b), Strip(a));
    } else {
      LessIsIrreflexive(Strip(a));
    }
  }

  /**
   So a page of text order can be out of order: 10 is before 9 as text, and after it in the table; 7 and 007 are
   one index.
   */
  lemma LoginsOutOfOrder()
    ensures Less("10", "9") && Precedes(Stored("9"), Stored("10"))
    ensures "7" != "007" && Stored("7") == Stored("007")
  {
    NumeralsPageByLength("9", "10");
    LoginsMergeExactly("7", "007");
    assert "007"[1..] == "07" && "07"[1..] == "7";
    assert Strip("007") == Strip("07") == "7";
  }

  /** Indexes of which at most one is a numeral compare as text, except that the numeral is first. */
  lemma OthersCompareAsText(a: string, b: string)
    requires !Digits(b)
    ensures Precedes(Stored(a), Stored(b)) <==> Digits(a) || Less(a, b)
    ensures Stored(a) == Stored(b) <==> a == b
  {
  }
}
