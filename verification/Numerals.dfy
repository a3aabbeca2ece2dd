/** Numbers and lists as text: printing in a base, and joining with a separator. */
module Numerals {
  type Octet = x: int | 0 <= x < 0x100

  predicate IsDigit(c: char) {
    '0' <= c <= '9' || 'a' <= c <= 'f'
  }

  function DigitValue(c: char): (d: nat)
    requires IsDigit(c)
    ensures d < 16
  {
    if c <= '9' then c as int - '0' as int else 10 + c as int - 'a' as int
  }

  function Digit(d: nat): (c: char)
    requires d < 16
    ensures IsDigit(c) && DigitValue(c) == d
  {
    if d < 10 then ('0' as int + d) as char else ('a' as int + d - 10) as char
  }

  predicate IsNumeral(base: nat, text: string) {
    text != [] && forall i :: 0 <= i < |text| ==> IsDigit(text[i]) && DigitValue(text[i]) < base
  }

  lemma {:induction false} QuotientIsSmaller(n: nat, base: nat)
    requires 2 <= base <= n
    ensures 0 < n / base < n && n == n / base * base + n % base
  {
  }

  /** The shortest text of `n`, without padding. */
  function Print(base: nat, n: nat): (text: string)
    requires 2 <= base <= 16
    ensures IsNumeral(base, text)
    decreases n
  {
    if n < base then [Digit(n)]
    else
      QuotientIsSmaller(n, base);
      Print(base, n / base) + [Digit(n % base)]
  }

  function Value(base: nat, text: string): nat
    requires forall i :: 0 <= i < |text| ==> IsDigit(text[i])
  {
    if text == [] then 0
    else Value(base, text[..|text| - 1]) * base + DigitValue(text[|text| - 1])
  }

  lemma {:induction false} ValueOfSnoc(base: nat, text: string, c: char)
    requires IsNumeral(base, text) && IsDigit(c)
    ensures Value(base, text + [c]) == Value(base, text) * base + DigitValue(c)
  {
    assert (text + [c])[..|text|] == text;
  }

  lemma {:induction false} ValueOfPrint(base: nat, n: nat)
    requires 2 <= base <= 16
    ensures Value(base, Print(base, n)) == n
    ensures Print(base, n)[0] == '0' <==> n == 0
    decreases n
  {
    if n < base {
      assert Print(base, n) == [Digit(n)] && [Digit(n)][..0] == [];
      assert DigitValue(Digit(n)) == n && DigitValue('0') == 0;
    } else {
      QuotientIsSmaller(n, base);
      ValueOfPrint(base, n / base);
      ValueOfSnoc(base, Print(base, n / base), Digit(n % base));
    }
  }

  lemma {:induction false} PrintIsInjective(base: nat, m: nat, n: nat)
    requires 2 <= base <= 16 && Print(base, m) == Print(base, n)
    ensures m == n
  {
    ValueOfPrint(base, m);
    ValueOfPrint(base, n);
  }

  function Join(parts: seq<string>, separator: char): string {
    if parts == [] then []
    else if |parts| == 1 then parts[0]
    else parts[0] + [separator] + Join(parts[1..], separator)
  }

  /** A separator that is in neither head splits a text in one way only. */
  lemma {:induction false} SplitsOnce(a: string, x: string, b: string, y: string, separator: char)
    requires separator !in a && separator !in b && a + [separator] + x == b + [separator] + y
    ensures a == b && x == y
  {
    var text := a + [separator] + x;
    assert text[|a|] == separator && text[|b|] == separator;
    assert a == text[..|a|] && b == text[..|b|];
    assert x == text[|a| + 1..] && y == text[|b| + 1..];
  }

  lemma {:induction false} JoinIsInjective(ps: seq<string>, qs: seq<string>, separator: char)
    requires |ps| == |qs| && Join(ps, separator) == Join(qs, separator)
    requires forall i :: 0 <= i < |ps| ==> separator !in ps[i] && separator !in qs[i]
    ensures ps == qs
  {
    if |ps| > 1 {
      SplitsOnce(ps[0], Join(ps[1..], separator), qs[0], Join(qs[1..], separator), separator);
      JoinIsInjective(ps[1..], qs[1..], separator);
      assert ps == [ps[0]] + ps[1..] && qs == [qs[0]] + qs[1..];
    }
  }

  lemma {:induction false} JoinHas(parts: seq<string>, separator: char, c: char)
    requires c != separator && forall i :: 0 <= i < |parts| ==> c !in parts[i]
    ensures c !in Join(parts, separator)
    ensures |parts| > 1 ==> separator in Join(parts, separator)
  {
    if |parts| > 1 {
      JoinHas(parts[1..], separator, c);
    }
  }
}
