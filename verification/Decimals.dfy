/** Decimal strings: printing, parsing, and the order in which a database sorts them as strings. */
module Decimals {

  predicate IsDigit(c: char) { '0' <= c <= '9' }

  predicate Digits(s: string) {
    forall i :: 0 <= i < |s| ==> IsDigit(s[i])
  }

  /** As printed by a template literal: digits, and no leading zero but in "0" itself. */
  predicate Canonical(s: string) {
    s != "" && Digits(s) && (|s| > 1 ==> s[0] != '0')
  }

  function DigitValue(c: char): nat
    requires IsDigit(c)
  {
    (c - '0') as int
  }

  function Print(n: nat): string {
    if n < 10 then [('0' as int + n) as char]
    else Print(n / 10) + [('0' as int + n % 10) as char]
  }

  /** parseInt on a string of digits. */
  function Parse(s: string): nat
    requires Digits(s)
  {
    if s == "" then 0 else 10 * Parse(s[..|s| - 1]) + DigitValue(s[|s| - 1])
  }

  lemma {:induction false} ParseUndoesPrint(n: nat)
    ensures Canonical(Print(n)) && Parse(Print(n)) == n
    ensures n > 0 ==> Print(n)[0] != '0'
  {
    if n >= 10 {
      ParseUndoesPrint(n / 10);
      assert Print(n)[..|Print(n)| - 1] == Print(n / 10);
    } else {
      assert Print(n)[..0] == "";
    }
  }

  /** Lexicographic order by character code. */
  predicate StringLess(a: string, b: string) {
    b != "" && (a == "" || a[0] < b[0] || (a[0] == b[0] && StringLess(a[1..], b[1..])))
  }

  lemma {:induction false} StringLessTotal(a: string, b: string)
    ensures StringLess(a, b) || a == b || StringLess(b, a)
    ensures !(StringLess(a, b) && StringLess(b, a))
    ensures !StringLess(a, a)
  {
    if a != "" && b != "" {
      StringLessTotal(a[1..], b[1..]);
      if a[1..] == b[1..] && a[0] == b[0] {
        assert a == [a[0]] + a[1..] && b == [b[0]] + b[1..];
      }
    }
    if a != "" {
      StringLessTotal(a[1..], a[1..]);
    }
  }

  lemma {:induction false} StringLessTransitive(a: string, b: string, c: string)
    requires StringLess(a, b) && StringLess(b, c)
    ensures StringLess(a, c)
  {
    if a != "" && a[0] == b[0] == c[0] {
      StringLessTransitive(a[1..], b[1..], c[1..]);
    }
  }

  /** Appending a digit to each of two equally long strings breaks ties and nothing else. */
  lemma {:induction false} StringLessExtend(a: string, b: string, x: char, y: char)
    requires |a| == |b|
    ensures StringLess(a + [x], b + [y]) <==> StringLess(a, b) || (a == b && x < y)
  {
    if a == "" {
      assert a + [x] == [x] && b + [y] == [y];
      assert [x][1..] == "" && [y][1..] == "";
    } else {
      StringLessExtend(a[1..], b[1..], x, y);
      assert (a + [x])[1..] == a[1..] + [x] && (b + [y])[1..] == b[1..] + [y];
      assert a == b <==> a[0] == b[0] && a[1..] == b[1..];
    }
  }

  /** On equally long digit strings the string order is the numeric order. */
  lemma {:induction false} EqualLengthOrder(a: string, b: string)
    requires |a| == |b| && Digits(a) && Digits(b)
    ensures StringLess(a, b) <==> Parse(a) < Parse(b)
    ensures Parse(a) == Parse(b) ==> a == b
  {
    if a != "" {
      var i, j := a[..|a| - 1], b[..|b| - 1];
      var x, y := a[|a| - 1], b[|b| - 1];
      EqualLengthOrder(i, j);
      StringLessExtend(i, j, x, y);
      assert a == i + [x] && b == j + [y];
      StringLessTotal(i, j);
    }
  }

  /** A longer string that does not start with a zero is the larger number. */
  lemma {:induction false} LongerIsLarger(a: string, b: string)
    requires |a| < |b| && Digits(a) && Digits(b) && b[0] != '0'
    ensures Parse(a) < Parse(b)
  {
    var j := b[..|b| - 1];
    if |b| == 1 {
    } else if a == "" {
      LongerIsLarger("", j);
    } else {
      LongerIsLarger(a[..|a| - 1], j);
    }
  }

  /** Against a longer string, a shorter one is compared with the prefix of its length. */
  lemma {:induction false} PrefixDecides(a: string, b: string)
    requires |a| < |b|
    ensures StringLess(b, a) <==> StringLess(b[..|a|], a)
  {
    if a != "" {
      PrefixDecides(a[1..], b[1..]);
      assert b[..|a|][1..] == b[1..][..|a[1..]|];
    }
  }
}
