/**
 * Python's format specifications on exact values: `:.0f`, `:,.0f` and `:.1f`.
 * A negative value keeps its sign even when it rounds to zero, as Python prints "-0.0".
 */
module Formatting {
  import opened Wrappers
  import opened Text
  import opened Cells

  function Sign(x: real): string { if x < 0.0 then "-" else "" }

  /** `f"{x:,.0f}"`: the rounded whole amount with comma grouping. */
  function GroupedWhole(x: real): string {
    Sign(x) + GroupThousands(NatToString(Abs(RoundHalfEven(x))))
  }

  /** `f"{x:.0f}"`. */
  function FixedWhole(x: real): string {
    Sign(x) + NatToString(Abs(RoundHalfEven(x)))
  }

  /** `f"{x:.1f}"`: one decimal place. */
  function Fixed1(x: real): string {
    var m := Abs(RoundHalfEven(x * 10.0));
    Sign(x) + (NatToString(m / 10) + "." + [DigitChar(m % 10)])
  }

  lemma RoundKeepsSign(x: real)
    ensures x < 0.0 ==> RoundHalfEven(x) <= 0
    ensures x >= 0.0 ==> RoundHalfEven(x) >= 0
  {
  }

  /** The digits of `:,.0f` without its commas and sign are those of the rounded amount. */
  lemma GroupedWholeDigits(x: real)
    ensures KeepDigits(GroupedWhole(x)) == NatToString(Abs(RoundHalfEven(x)))
  {
    var d := NatToString(Abs(RoundHalfEven(x)));
    GroupThousandsDigits(d);
    KeepDigitsAppend(Sign(x), GroupThousands(d));
    assert KeepDigits(Sign(x)) == [];
  }

  /** "a.d" reads back as a + d/10. */
  lemma OneDecimalReadsBack(a: nat, d: nat)
    requires d < 10
    ensures ParseUnsigned(NatToString(a) + "." + [DigitChar(d)]) == Some(a as real + d as real / 10.0)
  {
    var ip := NatToString(a);
    var fp := [DigitChar(d)];
    DecimalSplit(ip, fp);
    OneDigit(d);
    DecimalValue(ip, fp, a, d);
  }

  lemma OneDigit(d: nat)
    requires d < 10
    ensures AllDigits([DigitChar(d)]) && NatOf([DigitChar(d)]) == d
  {
    assert [DigitChar(d)][..0] == [];
  }

  /** "ip.fp" with one digit after the point reads back as ip + fp/10. */
  lemma DecimalValue(ip: string, fp: string, a: nat, d: nat)
    requires AllDigits(ip) && AllDigits(fp) && |fp| == 1 && NatOf(ip) == a && NatOf(fp) == d
    requires var u := ip + "." + fp; IndexOf(u, '.') == |ip| && u[..|ip|] == ip && |ip| < |u| && u[|ip| + 1..] == fp
    ensures ParseUnsigned(ip + "." + fp) == Some(a as real + d as real / 10.0)
  {
    var u := ip + "." + fp;
    UnsignedParts(u, |ip|, ip, fp);
    assert Pow10(|fp|) == 10;
    assert DecimalOf(ip, fp) == a as real + d as real / 10.0;
  }

  /** An unsigned decimal with a point at k reads as its whole part plus its scaled fraction. */
  lemma UnsignedParts(u: string, k: nat, ip: string, fp: string)
    requires IndexOf(u, '.') == k && k < |u| && u[..k] == ip && u[k + 1..] == fp
    requires AllDigits(ip) && AllDigits(fp) && |ip| + |fp| > 0
    ensures ParseUnsigned(u) == Some(DecimalOf(ip, fp))
  {
  }

  /** The text before the first '.' of "ip.fp" is ip, the text after it fp. */
  lemma DecimalSplit(ip: string, fp: string)
    requires AllDigits(ip)
    ensures var u := ip + "." + fp;
      && IndexOf(u, '.') == |ip| && u[..|ip|] == ip && |ip| < |u| && u[|ip| + 1..] == fp
  {
    var u := ip + "." + fp;
    forall j | 0 <= j < |ip| ensures u[j] != '.' { assert IsDigit(u[j]); }
    assert u[|ip|] == '.';
  }

  /** An optional minus sign in front of a numeral negates what the numeral reads as. */
  lemma SignedReadsBack(negative: bool, u: string, v: real)
    requires u != [] && IsDigit(u[0]) && ParseUnsigned(u) == Some(v)
    ensures ParseNumber((if negative then "-" else "") + u) == Some(if negative then -v else v)
  {
    if negative {
      NegatedReadsBack(u, v);
    } else {
      assert "" + u == u;
      assert u[0] != '-' && u[0] != '+';
    }
  }

  lemma NegatedReadsBack(u: string, v: real)
    requires ParseUnsigned(u) == Some(v)
    ensures ParseNumber("-" + u) == Some(-v)
  {
    assert ("-" + u)[1..] == u;
  }

  /** A signed count of tenths, printed as "[-]a.d", reads back as that many tenths. */
  lemma TenthsReadBack(negative: bool, m: nat, r: int)
    requires if negative then r == -(m as int) else r == m
    ensures ParseNumber((if negative then "-" else "") + (NatToString(m / 10) + "." + [DigitChar(m % 10)]))
         == Some(r as real / 10.0)
  {
    var a, d := m / 10, m % 10;
    assert a * 10 + d == m && d < 10;
    TenthsParts(negative, a, d, m, r);
  }

  lemma TenthsParts(negative: bool, a: nat, d: nat, m: nat, r: int)
    requires d < 10 && a * 10 + d == m
    requires if negative then r == -(m as int) else r == m
    ensures ParseNumber((if negative then "-" else "") + (NatToString(a) + "." + [DigitChar(d)])) == Some(r as real / 10.0)
  {
    var u := NatToString(a) + "." + [DigitChar(d)];
    var v := a as real + d as real / 10.0;
    OneDecimalReadsBack(a, d);
    assert u[0] == NatToString(a)[0];
    SignedReadsBack(negative, u, v);
    assert v == m as real / 10.0;
    SignedTenths(negative, m, r, v);
  }

  lemma SignedTenths(negative: bool, m: nat, r: int, v: real)
    requires if negative then r == -(m as int) else r == m
    requires v == m as real / 10.0
    ensures (if negative then -v else v) == r as real / 10.0
  {
  }

  /** `:.1f` text reads back, as a decimal, as the value rounded to one place. */
  lemma Fixed1ReadsBack(x: real)
    ensures ParseNumber(Fixed1(x)) == Some(RoundHalfEven(x * 10.0) as real / 10.0)
  {
    var r := RoundHalfEven(x * 10.0);
    RoundKeepsSign(x * 10.0);
    var m := Abs(r);
    assert Sign(x) == (if x < 0.0 then "-" else "");
    assert if x < 0.0 then r == -(m as int) else r == m;
    Fixed1Text(x < 0.0, m, r, Fixed1(x));
  }

  /** Fixed1 as a signed count of tenths. */
  lemma Fixed1Text(negative: bool, m: nat, r: int, f: string)
    requires if negative then r == -(m as int) else r == m
    requires f == (if negative then "-" else "") + (NatToString(m / 10) + "." + [DigitChar(m % 10)])
    ensures ParseNumber(f) == Some(r as real / 10.0)
  {
    TenthsReadBack(negative, m, r);
  }
}
