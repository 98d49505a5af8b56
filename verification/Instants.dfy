/** `require_time` (linux_readiness.py): a UTC time with an optional fraction of one to six digits. */
module Instants {
  import opened Prelude
  import opened Digits
  import opened CivilTime

  /** Microseconds that a fraction of `t` stands for. */
  function Scaled(n: nat, width: nat): nat
    requires width <= 6
    decreases 6 - width
  {
    if width == 6 then n else Scaled(n * 10, width + 1)
  }

  /** Microseconds since the epoch; the year 0000 is outside `datetime`. */
  function RequireTime(t: string): Option<int> {
    if |t| < 20 || t[|t| - 1] != 'Z' then None
    else
      var whole, fraction := t[..19] + "Z", t[19..|t| - 1];
      match Fields(whole)
      case None => None
      case Some(m) =>
        if m.date.year < 1 then None
        else if fraction == "" then Some(SecondsOf(m) * 1000000)
        else if fraction[0] != '.' || !(2 <= |fraction| <= 7) || !AllDigits(fraction[1..]) then None
        else Some(SecondsOf(m) * 1000000 + Scaled(NumberOf(fraction[1..]), |fraction| - 1))
  }

  /** On whole seconds the two readers of times agree, from the year 0001 on. */
  lemma {:induction false} WholeTimesAgree(t: string)
    requires ParseUtc(t).Some? && Fields(t).value.date.year >= 1
    ensures RequireTime(t) == Some(ParseUtc(t).value * 1000000)
  {
    assert t[..19] + "Z" == t;
    assert t[19..19] == "";
  }

  lemma {:induction false} NumberBelow(t: string)
    requires AllDigits(t)
    ensures NumberOf(t) < TenTo(|t|)
  {
    if t != "" {
      NumberBelow(t[..|t| - 1]);
    }
  }

  lemma {:induction false} ScaledBelow(n: nat, width: nat)
    requires width <= 6 && n < TenTo(width)
    ensures Scaled(n, width) < 1000000
    decreases 6 - width
  {
    if width < 6 {
      ScaledBelow(n * 10, width + 1);
    } else {
      Million();
    }
  }

  lemma {:induction false} FractionBelow(digits: string)
    requires AllDigits(digits) && 1 <= |digits| <= 6
    ensures Scaled(NumberOf(digits), |digits|) < 1000000
  {
    NumberBelow(digits);
    ScaledBelow(NumberOf(digits), |digits|);
  }

  /** The whole part of a time, and the microseconds beyond it. */
  lemma {:induction false} WholeAndFraction(t: string)
    requires RequireTime(t).Some?
    ensures Fields(t[..19] + "Z").Some?
    ensures 0 <= RequireTime(t).value - SecondsOf(Fields(t[..19] + "Z").value) * 1000000 < 1000000
  {
    var fraction := t[19..|t| - 1];
    if fraction != "" {
      FractionBelow(fraction[1..]);
    }
  }

  /** A fraction stays inside its second: the whole part is itself an accepted time, less than a second earlier. */
  lemma {:induction false} FractionStaysInside(t: string)
    requires RequireTime(t).Some?
    ensures ParseUtc(t[..19] + "Z").Some?
    ensures var second := ParseUtc(t[..19] + "Z").value * 1000000; second <= RequireTime(t).value < second + 1000000
  {
    WholeAndFraction(t);
    FormatOfFields(t[..19] + "Z");
  }

  /** A fraction of `width` digits counts microseconds in units of ten to the power six less its width. */
  lemma {:induction false} ScaledValue(n: nat, width: nat)
    requires width <= 6
    ensures Scaled(n, width) * TenTo(width) == n * TenTo(6)
    decreases 6 - width
  {
    if width < 6 {
      ScaledValue(n * 10, width + 1);
      Regrouped(Scaled(n, width), TenTo(width), n, TenTo(6));
    }
  }

  lemma {:induction false} Regrouped(a: nat, b: nat, n: nat, m: nat)
    requires a * (10 * b) == (n * 10) * m
    ensures a * b == n * m
  {
    assert a * (10 * b) == 10 * (a * b) && (n * 10) * m == 10 * (n * m);
  }

  lemma {:induction false} Million()
    ensures TenTo(6) == 1000000
  {
    assert TenTo(0) == 1 && TenTo(1) == 10 && TenTo(2) == 100 && TenTo(3) == 1000 && TenTo(4) == 10000 && TenTo(5) == 100000;
  }

  lemma {:induction false} Pieces(whole: string, digits: string)
    requires |whole| == 20 && whole[19] == 'Z'
    ensures var t := whole[..19] + "." + digits + "Z";
            && |t| == 21 + |digits| && t[|t| - 1] == 'Z' && t[..19] + "Z" == whole && t[19..|t| - 1] == "." + digits && ("." + digits)[1..] == digits
  {
    var t := whole[..19] + "." + digits + "Z";
    assert t[..19] == whole[..19] && whole[..19] + "Z" == whole;
    assert t[19..|t| - 1] == "." + digits;
  }

  lemma {:induction false} ParsedFraction(whole: string, digits: string)
    requires |whole| == 20 && whole[19] == 'Z' && AllDigits(digits) && 1 <= |digits| <= 6
    ensures RequireTime(whole[..19] + "." + digits + "Z") ==
            if Fields(whole).None? || Fields(whole).value.date.year < 1 then None
            else Some(SecondsOf(Fields(whole).value) * 1000000 + Scaled(NumberOf(digits), |digits|))
  {
    Pieces(whole, digits);
  }

  lemma {:induction false} FieldsMeanParsed(whole: string)
    ensures ParseUtc(whole) == if Fields(whole).Some? then Some(SecondsOf(Fields(whole).value)) else None
  {
    if Fields(whole).Some? {
      FormatOfFields(whole);
    }
  }

  /**
    A time with one to six fraction digits is accepted exactly when its whole part is, from the year 0001 on; and then
    the fraction counts for what its digits say: 10^-width of a second each unit.
   */
  lemma {:induction false} FractionCounts(whole: string, digits: string)
    requires |whole| == 20 && whole[19] == 'Z' && AllDigits(digits) && 1 <= |digits| <= 6
    ensures var t := whole[..19] + "." + digits + "Z";
            && (RequireTime(t).Some? <==> ParseUtc(whole).Some? && Fields(whole).value.date.year >= 1)
            && (RequireTime(t).Some? ==>
                  (RequireTime(t).value - ParseUtc(whole).value * 1000000) * TenTo(|digits|) == NumberOf(digits) * 1000000)
  {
    Pieces(whole, digits);
    ParsedFraction(whole, digits);
    FieldsMeanParsed(whole);
    ScaledValue(NumberOf(digits), |digits|);
    Million();
    if Fields(whole).Some? {
      assert SecondsOf(Fields(whole).value) * 1000000 + Scaled(NumberOf(digits), |digits|) - SecondsOf(Fields(whole).value) * 1000000
             == Scaled(NumberOf(digits), |digits|);
    }
  }

  /** Nothing else is accepted. */
  lemma {:induction false} OnlyTheseTimes(t: string)
    requires RequireTime(t).Some?
    ensures |t| >= 20 && t[|t| - 1] == 'Z'
    ensures |t| > 20 ==> 22 <= |t| <= 27 && AllDigits(t[20..|t| - 1]) && t == t[..19] + "." + t[20..|t| - 1] + "Z"
  {
    if |t| > 20 {
      var fraction := t[19..|t| - 1];
      assert fraction[1..] == t[20..|t| - 1];
      assert t == t[..19] + [t[19]] + t[20..|t| - 1] + [t[|t| - 1]];
    }
  }
}
