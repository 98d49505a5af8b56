/** Decimal digits: how numbers are printed and read everywhere in the source. */
module Digits {

  function Digit(d: nat): char
    requires d < 10
  {
    ('0' as int + d) as char
  }

  predicate IsDigit(c: char) {
    '0' <= c <= '9'
  }

  function Decimal(n: nat): string {
    if n < 10 then [Digit(n)] else Decimal(n / 10) + [Digit(n % 10)]
  }

  function SpanDigits(t: string): (n: nat)
    ensures n <= |t|
    ensures forall i :: 0 <= i < n ==> IsDigit(t[i])
    ensures n < |t| ==> !IsDigit(t[n])
  {
    if t != "" && IsDigit(t[0]) then 1 + SpanDigits(t[1..]) else 0
  }

  function DigitValue(c: char): nat
    requires IsDigit(c)
  {
    c as int - '0' as int
  }

  function NumberOf(t: string): nat
    requires forall i :: 0 <= i < |t| ==> IsDigit(t[i])
  {
    if t == "" then 0 else NumberOf(t[..|t| - 1]) * 10 + DigitValue(t[|t| - 1])
  }

  function TenTo(k: nat): nat {
    if k == 0 then 1 else 10 * TenTo(k - 1)
  }

  lemma {:induction false} Associative(a: string, b: string, c: string)
    ensures (a + b) + c == a + (b + c)
  {
  }

  lemma {:induction false} DecimalRead(n: nat)
    ensures Decimal(n) != ""
    ensures forall i :: 0 <= i < |Decimal(n)| ==> IsDigit(Decimal(n)[i])
    ensures NumberOf(Decimal(n)) == n
    ensures n > 0 ==> Decimal(n)[0] != '0'
  {
    if n >= 10 {
      DecimalRead(n / 10);
      var head := Decimal(n / 10);
      assert Decimal(n)[..|Decimal(n)| - 1] == head;
    }
  }

  lemma {:induction false} SpanOf(a: string, rest: string)
    requires forall i :: 0 <= i < |a| ==> IsDigit(a[i])
    requires rest == "" || !IsDigit(rest[0])
    ensures SpanDigits(a + rest) == |a|
  {
    if a == "" {
      assert a + rest == rest;
    } else {
      assert (a + rest)[1..] == a[1..] + rest;
      SpanOf(a[1..], rest);
    }
  }

  lemma {:induction false} DecimalFirst(n: nat)
    ensures Decimal(n) != "" && IsDigit(Decimal(n)[0])
  {
    DecimalRead(n);
  }

  /** A numeral without a leading zero is the printed form of its number. */
  lemma {:induction false} DecimalOfNumber(t: string)
    requires t != "" && (forall i :: 0 <= i < |t| ==> IsDigit(t[i])) && (t[0] == '0' ==> t == "0")
    ensures Decimal(NumberOf(t)) == t
    ensures t != "0" ==> NumberOf(t) > 0
  {
    var front, last := t[..|t| - 1], t[|t| - 1];
    assert t == front + [last];
    if front != "" {
      DecimalOfNumber(front);
      assert NumberOf(t) / 10 == NumberOf(front) && NumberOf(t) % 10 == DigitValue(last);
    } else {
      assert NumberOf(front) == 0;
    }
  }
}
