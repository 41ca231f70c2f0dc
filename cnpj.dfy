/**
 * Identifier (CNPJ) normalisation.
 *
 * The dashboard loader keeps identifiers as strings: it expands scientific
 * notation, strips non-digits, applies `fix_fund_cnpj` and makes the result
 * exactly 14 characters with `zfill(14)` and `[:14]`. The batch script strips
 * non-digits and compares identifiers as integers instead.
 */
module Cnpj {
  import opened Wrappers
  import opened Text
  import opened Cells

  const CnpjWidth: nat := 14

  /** A scientific text cut into its sign, integer digits, fraction digits and exponent digits. */
  datatype SciParts = SciParts(negative: bool, intDigits: string, fracDigits: string, expDigits: string)

  /** An optional sign, then the digits before and after the first '.'. */
  function SplitMantissa(mant: string): (bool, string, string) {
    var neg := |mant| > 0 && mant[0] == '-';
    var body := if |mant| > 0 && (mant[0] == '-' || mant[0] == '+') then mant[1..] else mant;
    var p := IndexOf(body, '.');
    (neg, body[..p], if p < |body| then body[p + 1..] else "")
  }

  /** The mantissa is what precedes the first "e+", the exponent what follows it. */
  function SplitScientific(s: string): SciParts {
    var k := FindExpMarker(s);
    var (neg, ip, fp) := SplitMantissa(s[..k]);
    SciParts(neg, ip, fp, if k + 2 <= |s| then s[k + 2..] else "")
  }

  /**
   * The exact value of the parts, rounded half to even to a whole number and
   * printed with `:.0f`; None when the parts are not a float literal.
   */
  function ExpandParts(q: SciParts): (r: Option<string>)
    ensures r.Some? ==> |r.value| > 0
    ensures r.Some? ==> AllDigits(r.value) || (r.value[0] == '-' && AllDigits(r.value[1..]))
  {
    if AllDigits(q.intDigits) && AllDigits(q.fracDigits) && |q.intDigits| + |q.fracDigits| > 0
       && q.expDigits != [] && AllDigits(q.expDigits) then
      var d := NatToString(ScaledWhole(NatOf(q.intDigits + q.fracDigits), NatOf(q.expDigits), |q.fracDigits|));
      Some(if q.negative then "-" + d else d)
    else None
  }

  /** m * 10^(e - f), the value of the digits m with f of them after the point, rounded half to even. */
  function ScaledWhole(m: nat, e: nat, f: nat): (r: nat)
    ensures e >= f ==> r == m * Pow10(e - f)
    ensures e < f ==> -0.5 <= r as real - m as real / Pow10(f - e) as real <= 0.5
  {
    if e >= f then m * Pow10(e - f)
    else RoundHalfEven(m as real / Pow10(f - e) as real)
  }

  /**
   * `f"{float(x):.0f}"` for a text holding "e+" (line 247): None when `float`
   * raises ValueError. A negative zero keeps its sign, as Python prints "-0".
   */
  function ExpandScientific(s: string): (r: Option<string>)
    ensures r.Some? ==> |r.value| > 0
  {
    ExpandParts(SplitScientific(s))
  }

  /** Lines 245-247: the expansion applies only when the text contains a lowercase "e+". */
  function ExpandIfScientific(s: string): (r: Option<string>)
    ensures !ContainsExpMarker(s) ==> r == Some(s)
  {
    if ContainsExpMarker(s) then ExpandScientific(s) else Some(s)
  }

  /** Lines 259-260: the text without a trailing ".0". */
  function WithoutPointZero(s: string): (t: string)
    ensures AllDigits(s) ==> t == s
  {
    assert AllDigits(s) ==> !EndsWith(s, ".0") by {
      if AllDigits(s) && |s| >= 2 { assert IsDigit(s[|s| - 2]); }
    }
    if EndsWith(s, ".0") then s[..|s| - 2] else s
  }

  /**
   * `fix_fund_cnpj` (lines 254-267): the digits of the text without its
   * trailing ".0", with a leading zero added to thirteen of them. The number
   * those digits denote is kept.
   */
  function FixFundCnpj(x: Option<string>): (r: Option<string>)
    ensures x.None? ==> r.None?
    ensures x == Some("") ==> r == Some("")
    ensures x.Some? ==> r.Some? && AllDigits(r.value)
    ensures x.Some? ==> var d := KeepDigits(WithoutPointZero(x.value));
      && NatOf(r.value) == NatOf(d)
      && (|d| == 13 ==> r.value == "0" + d)
      && (|d| != 13 ==> r.value == d)
    ensures x.Some? && AllDigits(x.value) && |x.value| == 13 ==> r == Some("0" + x.value)
    ensures x.Some? && AllDigits(x.value) && |x.value| != 13 ==> r == x
  {
    match x
    case None => None
    case Some(s) =>
      if s == "" then Some("")
      else
        var d := KeepDigits(WithoutPointZero(s));
        ZeroPrefixed(d);
        Some(if |d| == 13 then "0" + d else d)
  }

  /** A leading zero changes neither the digits' kind nor their number. */
  lemma ZeroPrefixed(d: string)
    requires AllDigits(d)
    ensures "0" + d == Zeros(1) + d && AllDigits("0" + d) && NatOf("0" + d) == NatOf(d)
  {
    assert Zeros(1) == "0";
    LeadingZerosIrrelevant(1, d);
  }

  /** Applying `fix_fund_cnpj` twice equals applying it once. */
  lemma FixFundCnpjIdempotent(x: Option<string>)
    ensures FixFundCnpj(FixFundCnpj(x)) == FixFundCnpj(x)
  {
    if x.Some? && x.value != "" {
      var r := FixFundCnpj(x).value;
      var d := KeepDigits(WithoutPointZero(x.value));
      assert r == (if |d| == 13 then "0" + d else d);
      assert |r| != 13;
    }
  }

  /** `.str.zfill(14).str[:14]` (lines 272-273). */
  function Pad14(s: string): (r: string)
    ensures |s| <= CnpjWidth && AllDigits(s) ==> r == Zeros(CnpjWidth - |s|) + s
    ensures |s| >= CnpjWidth ==> r == s[..CnpjWidth]
    ensures AllDigits(s) ==> |r| == CnpjWidth && AllDigits(r)
  {
    Prefix(ZFill(s, CnpjWidth), CnpjWidth)
  }

  /**
   * The fourteen-digit key a digit string stands for: its number written
   * with fourteen digits, or its first fourteen digits when it has more.
   */
  function CanonicalId(d: string): (k: string)
    requires AllDigits(d)
    ensures |k| == CnpjWidth && AllDigits(k)
    ensures |d| <= CnpjWidth ==> NatOf(k) == NatOf(d)
  {
    if |d| <= CnpjWidth then
      LeadingZerosIrrelevant(CnpjWidth - |d|, d);
      Pad14(d)
    else d[..CnpjWidth]
  }

  /** `zfill(14)[:14]` after `fix_fund_cnpj`'s leading zero is the canonical key of the digits. */
  lemma PaddedKey(d: string)
    requires AllDigits(d)
    ensures Pad14(if |d| == 13 then "0" + d else d) == CanonicalId(d)
  {
    if |d| == 13 {
      ZeroPrefixed(d);
    }
  }

  /**
   * The cleaned manager id of the dashboard loader, in the order the
   * comment at lines 252-253 describes: expand scientific notation, then
   * `fix_fund_cnpj` (which drops a trailing ".0" and keeps the digits), then
   * pad or cut to 14. None: `float` raised ValueError, which aborts the loader.
   * The key is that of the digits the (expanded) text holds before its ".0".
   */
  function GestorId(c: IdCell): (r: Option<string>)
    ensures r.Some? <==> ExpandIfScientific(PyStr(c)).Some?
    ensures !ContainsExpMarker(PyStr(c)) ==> r.Some?
    ensures r.Some? ==> |r.value| == CnpjWidth && AllDigits(r.value)
    ensures r.Some? ==> var d := KeepDigits(WithoutPointZero(ExpandIfScientific(PyStr(c)).value));
      && r.value == CanonicalId(d)
      && (|d| <= CnpjWidth ==> NatOf(r.value) == NatOf(d))
  {
    match ExpandIfScientific(PyStr(c))
    case None => None
    case Some(s) =>
      PaddedKey(KeepDigits(WithoutPointZero(s)));
      Some(Pad14(FixFundCnpj(Some(s)).value))
  }

  /** A missing gestor id prints as "nan", which has no digits: it becomes fourteen zeros. */
  lemma GestorIdOfMissing()
    ensures GestorId(IdNull) == Some(Zeros(CnpjWidth))
    ensures GestorIdAsWritten(IdNull) == Some(Zeros(CnpjWidth))
    ensures RegistryId(IdNull) == Zeros(CnpjWidth)
  {
    assert FindExpMarker("nan") == 3;
    assert KeepDigits("nan") == [];
    assert Zeros(CnpjWidth - 0) + "" == Zeros(CnpjWidth);
  }

  /**
   * Lines 245-248 and 269-272 as written: non-digits are stripped at line
   * 248, before `fix_fund_cnpj` can drop the ".0" of a float's text. The key
   * is that of every digit of the (expanded) text, the ".0"'s zero included.
   */
  function GestorIdAsWritten(c: IdCell): (r: Option<string>)
    ensures r.Some? <==> ExpandIfScientific(PyStr(c)).Some?
    ensures r.Some? ==> |r.value| == CnpjWidth && AllDigits(r.value)
    ensures r.Some? ==> var d := KeepDigits(ExpandIfScientific(PyStr(c)).value);
      && r.value == CanonicalId(d)
      && (|d| <= CnpjWidth ==> NatOf(r.value) == NatOf(d))
  {
    match ExpandIfScientific(PyStr(c))
    case None => None
    case Some(s) =>
      PaddedKey(KeepDigits(s));
      Some(Pad14(FixFundCnpj(Some(KeepDigits(s))).value))
  }

  /** Line 250 and 273: the manager registry's cleaned CNPJ, the key of its digits. */
  function RegistryId(c: IdCell): (r: string)
    ensures |r| == CnpjWidth && AllDigits(r)
    ensures r == CanonicalId(KeepDigits(PyStr(c)))
    ensures |KeepDigits(PyStr(c))| <= CnpjWidth ==> NatOf(r) == NatOf(KeepDigits(PyStr(c)))
  {
    Pad14(KeepDigits(PyStr(c)))
  }

  /** Two digit strings of at most fourteen digits get the same key exactly when they denote the same number. */
  lemma CanonicalIdsMatch(a: string, b: string)
    requires AllDigits(a) && AllDigits(b) && |a| <= CnpjWidth && |b| <= CnpjWidth
    ensures CanonicalId(a) == CanonicalId(b) <==> NatOf(a) == NatOf(b)
  {
    if NatOf(a) == NatOf(b) {
      NatOfInjective(CanonicalId(a), CanonicalId(b));
    }
  }

  /** Digit strings of one length that denote the same number are equal. */
  lemma {:induction false} NatOfInjective(a: string, b: string)
    requires AllDigits(a) && AllDigits(b) && |a| == |b| && NatOf(a) == NatOf(b)
    ensures a == b
  {
    if a != [] {
      var n := |a|;
      LastDigit(NatOf(a[..n - 1]), DigitValue(a[n - 1]), NatOf(b[..n - 1]), DigitValue(b[n - 1]));
      NatOfInjective(a[..n - 1], b[..n - 1]);
      assert a[n - 1] == DigitChar(DigitValue(a[n - 1])) == b[n - 1];
      assert a == a[..n - 1] + [a[n - 1]] && b == b[..n - 1] + [b[n - 1]];
    }
  }

  lemma LastDigit(x: nat, d: nat, y: nat, e: nat)
    requires d < 10 && e < 10 && x * 10 + d == y * 10 + e
    ensures x == y && d == e
  {
  }

  /**
   * The dashboard's and the batch script's registry keys agree: two
   * registry CNPJs of one to fourteen digits get the same fourteen-digit
   * key exactly when they get the same integer key.
   */
  lemma RegistryKeysAgree(a: IdCell, b: IdCell)
    requires 1 <= |KeepDigits(PyStr(a))| <= CnpjWidth && 1 <= |KeepDigits(PyStr(b))| <= CnpjWidth
    ensures NumericId(a) == Some(NatOf(RegistryId(a)))
    ensures RegistryId(a) == RegistryId(b) <==> NumericId(a) == NumericId(b)
  {
    CanonicalIdsMatch(KeepDigits(PyStr(a)), KeepDigits(PyStr(b)));
  }

  /**
   * A gestor id and a registry CNPJ of at most fourteen digits meet in the
   * match count of lines 284-286 exactly when their digits denote the same
   * number; the digits the code as written reads include the float's ".0".
   */
  lemma GestorMeetsRegistry(g: IdCell, m: IdCell)
    requires ExpandIfScientific(PyStr(g)).Some? && |KeepDigits(PyStr(m))| <= CnpjWidth
    ensures var d := KeepDigits(WithoutPointZero(ExpandIfScientific(PyStr(g)).value));
      |d| <= CnpjWidth ==> (GestorId(g) == Some(RegistryId(m)) <==> NatOf(d) == NatOf(KeepDigits(PyStr(m))))
    ensures var d := KeepDigits(ExpandIfScientific(PyStr(g)).value);
      |d| <= CnpjWidth ==> (GestorIdAsWritten(g) == Some(RegistryId(m)) <==> NatOf(d) == NatOf(KeepDigits(PyStr(m))))
  {
    var e := ExpandIfScientific(PyStr(g)).value;
    var dm := KeepDigits(PyStr(m));
    var d := KeepDigits(WithoutPointZero(e));
    if |d| <= CnpjWidth { CanonicalIdsMatch(d, dm); }
    var w := KeepDigits(e);
    if |w| <= CnpjWidth { CanonicalIdsMatch(w, dm); }
  }

  /** A float-typed gestor id of at most fourteen digits keys as its number; as written, as ten times it. */
  lemma GestorIdOfFloat(v: nat)
    requires v < Pow10(14)
    ensures NatOf(GestorId(IdFloat(v)).value) == v
    ensures v < Pow10(13) ==> NatOf(GestorIdAsWritten(IdFloat(v)).value) == 10 * v
    ensures Pow10(13) <= v ==> GestorIdAsWritten(IdFloat(v)) == Some(NatToString(v))
  {
    var d := NatToString(v);
    Pow10Monotone(14, 16);
    FloatDigits(v);
    FloatTextHasNoMarker(d, d + ".0");
    assert EndsWith(d + ".0", ".0") && (d + ".0")[..|d + ".0"| - 2] == d;
    DigitsBelow(v, 14);
    ZeroAppended(d);
    if v < Pow10(13) {
      DigitsBelow(v, 13);
    } else {
      NatToStringLength(v, 14);
      assert (d + "0")[..CnpjWidth] == d;
    }
  }

  /** An int64 gestor id of at most fourteen digits keys as its number in either order. */
  lemma GestorIdOfInt(v: nat)
    requires v < Pow10(14)
    ensures NatOf(GestorId(IdInt(v)).value) == v
    ensures NatOf(GestorIdAsWritten(IdInt(v)).value) == v
  {
    var d := NatToString(v);
    assert PyStr(IdInt(v)) == d;
    forall j | 0 <= j < |d| ensures d[j] != 'e' { assert IsDigit(d[j]); }
    DigitsBelow(v, 14);
  }

  /** A number below 10^k has at most k digits. */
  lemma DigitsBelow(v: nat, k: nat)
    requires k >= 1 && v < Pow10(k)
    ensures |NatToString(v)| <= k
  {
    var n := |NatToString(v)|;
    if n >= 2 {
      NatToStringLower(v);
      Pow10Below(n - 1, k);
    }
  }

  lemma Pow10Below(a: nat, b: nat)
    requires Pow10(a) < Pow10(b)
    ensures a < b
  {
    if a >= b {
      Pow10Monotone(b, a);
    }
  }

  /** A number of two or more digits is at least 10^(digits - 1). */
  lemma {:induction false} NatToStringLower(n: nat)
    requires |NatToString(n)| >= 2
    ensures n >= Pow10(|NatToString(n)| - 1)
  {
    var k := |NatToString(n)|;
    assert n >= 10;
    assert |NatToString(n / 10)| == k - 1;
    if k > 2 {
      NatToStringLower(n / 10);
    }
  }

  lemma {:induction false} NatToStringLength(n: nat, k: nat)
    requires k >= 1 && Pow10(k - 1) <= n < Pow10(k)
    ensures |NatToString(n)| == k
  {
    if k > 1 {
      assert n >= 10;
      NatToStringLength(n / 10, k - 1);
    } else {
      assert n < 10;
    }
  }

  /** If a text has no 'e' before position `|p|`, its first "e+" is the one at `|p|`. */
  lemma FirstMarkerAfter(p: string, rest: string)
    requires forall i :: 0 <= i < |p| ==> p[i] != 'e'
    ensures FindExpMarker(p + "e+" + rest) == |p|
  {
    var s := p + "e+" + rest;
    assert s[|p|] == 'e' && s[|p| + 1] == '+';
  }

  /** A mantissa without 'e', then "e+", then the exponent, splits back into the two. */
  lemma SplitAtMarker(mant: string, exps: string)
    requires forall i :: 0 <= i < |mant| ==> mant[i] != 'e'
    ensures var m := SplitMantissa(mant);
      SplitScientific(mant + "e+" + exps) == SciParts(m.0, m.1, m.2, exps)
  {
    var s := mant + "e+" + exps;
    FirstMarkerAfter(mant, exps);
    assert s[..|mant|] == mant;
    assert s[|mant| + 2..] == exps;
  }

  /** The parts of Python's scientific repr of a whole float of 1e16 or more. */
  lemma SplitSciRepr(v: int)
    requires Abs(v) >= Pow10(16)
    ensures var d := NatToString(Abs(v));
      SplitScientific(SciRepr(v))
      == SciParts(v < 0, [d[0]], DropTrailingZeros(d[1..]), NatToString(|d| - 1))
  {
    var d := NatToString(Abs(v));
    var tail := DropTrailingZeros(d[1..]);
    var mant := (if v < 0 then "-" else "") + [d[0]] + (if tail == [] then "" else "." + tail);
    var exps := NatToString(|d| - 1);
    SciReprIs(v, d, tail, mant, exps);
    TailDigits(d, tail);
    MantissaSplit(v < 0, d[0], tail, mant, exps, SciRepr(v));
  }

  /** The repr of a whole float is its mantissa, "e+" and its exponent. */
  lemma SciReprIs(v: int, d: string, tail: string, mant: string, exps: string)
    requires Abs(v) >= Pow10(16) && d == NatToString(Abs(v)) && tail == DropTrailingZeros(d[1..])
    requires mant == (if v < 0 then "-" else "") + [d[0]] + (if tail == [] then "" else "." + tail)
    requires exps == NatToString(|d| - 1)
    ensures SciRepr(v) == mant + "e+" + exps && |d| >= 1 && AllDigits(d)
  {
  }

  lemma TailDigits(d: string, tail: string)
    requires |d| >= 1 && AllDigits(d) && tail == DropTrailingZeros(d[1..])
    ensures AllDigits(tail) && IsDigit(d[0])
  {
    forall i | 0 <= i < |tail| ensures IsDigit(tail[i]) { assert tail[i] == d[1..][i]; }
  }

  /** "[-]d[.tail]e+exps" splits into its sign, digit, tail and exponent. */
  lemma MantissaSplit(neg: bool, d0: char, tail: string, mant: string, exps: string, s: string)
    requires IsDigit(d0) && AllDigits(tail)
    requires mant == (if neg then "-" else "") + [d0] + (if tail == [] then "" else "." + tail)
    requires s == mant + "e+" + exps
    ensures SplitScientific(s) == SciParts(neg, [d0], tail, exps)
  {
    MantissaHasNoMarker(neg, d0, tail, mant);
    SplitAtMarker(mant, exps);
    SplitMantissaOf(neg, d0, tail);
  }

  /** A sign, a digit and an optional fraction contain no 'e'. */
  lemma MantissaHasNoMarker(neg: bool, d0: char, tail: string, mant: string)
    requires IsDigit(d0) && AllDigits(tail)
    requires mant == (if neg then "-" else "") + [d0] + (if tail == [] then "" else "." + tail)
    ensures forall i :: 0 <= i < |mant| ==> mant[i] != 'e'
  {
    var sign := if neg then "-" else "";
    var dot := if tail == [] then "" else "." + tail;
    forall i | 0 <= i < |mant| ensures mant[i] != 'e' {
      if i < |sign| {
        assert mant[i] == '-';
      } else if i == |sign| {
        assert mant[i] == d0;
      } else {
        assert mant[i] == dot[i - |sign| - 1];
        if i > |sign| + 1 { assert dot[i - |sign| - 1] == tail[i - |sign| - 2]; }
      }
    }
  }

  lemma SplitMantissaOf(neg: bool, d0: char, tail: string)
    requires IsDigit(d0) && AllDigits(tail)
    ensures SplitMantissa((if neg then "-" else "") + [d0] + (if tail == [] then "" else "." + tail))
         == (neg, [d0], tail)
  {
    var sign := if neg then "-" else "";
    var body := [d0] + (if tail == [] then "" else "." + tail);
    assert sign + [d0] + (if tail == [] then "" else "." + tail) == sign + body;
    BodyParts(d0, tail, body);
    SignedBody(neg, sign, body);
  }

  /** The body of a mantissa: its digit, then "." and the tail when there is one. */
  lemma BodyParts(d0: char, tail: string, body: string)
    requires IsDigit(d0) && AllDigits(tail) && body == [d0] + (if tail == [] then "" else "." + tail)
    ensures IndexOf(body, '.') == 1 && body[..1] == [d0]
    ensures (if 1 < |body| then body[2..] else "") == tail
  {
    assert body[0] == d0;
    if tail != [] {
      assert body[1] == '.';
      assert body[2..] == tail;
    }
  }

  /** A leading "-" sets the sign; the body starts with a digit, so nothing else is taken for one. */
  lemma SignedBody(neg: bool, sign: string, body: string)
    requires sign == (if neg then "-" else "") && |body| >= 1 && IsDigit(body[0])
    ensures var m := sign + body;
      (|m| > 0 && m[0] == '-') == neg && (if |m| > 0 && (m[0] == '-' || m[0] == '+') then m[1..] else m) == body
  {
    var m := sign + body;
    if neg { assert m[0] == '-' && m[1..] == body; } else { assert m == body; }
  }

  /** A digit string is its leading digit and significant digits, followed by zeros. */
  lemma SignificantDigits(d: string, tail: string)
    requires |d| >= 1 && AllDigits(d) && tail == DropTrailingZeros(d[1..])
    ensures AllDigits(tail) && |tail| <= |d| - 1 && AllDigits([d[0]] + tail)
    ensures NatOf([d[0]] + tail) * Pow10(|d| - 1 - |tail|) == NatOf(d)
  {
    var z := |d[1..]| - |tail|;
    TailDigits(d, tail);
    LeadAndTail(d[0], tail);
    ZerosAfterTail(d, tail, z);
    ZerosScale([d[0]] + tail, z, d);
  }

  lemma LeadAndTail(d0: char, tail: string)
    requires IsDigit(d0) && AllDigits(tail)
    ensures AllDigits([d0] + tail)
  {
    var u := [d0] + tail;
    forall i | 0 <= i < |u| ensures IsDigit(u[i]) {
      if i > 0 { assert u[i] == tail[i - 1]; }
    }
  }

  /** The zeros DropTrailingZeros took off follow the significant digits. */
  lemma ZerosAfterTail(d: string, tail: string, z: nat)
    requires |d| >= 1 && tail == DropTrailingZeros(d[1..]) && z == |d[1..]| - |tail|
    ensures d == ([d[0]] + tail) + Zeros(z)
  {
    assert d[1..] == tail + Zeros(z) by {
      assert d[1..][..|tail|] == tail;
      forall i | |tail| <= i < |d[1..]| ensures d[1..][i] == '0' {}
    }
    assert d == [d[0]] + d[1..];
  }

  /** Digits followed by z zeros read as the digits times 10^z. */
  lemma ZerosScale(u: string, z: nat, d: string)
    requires AllDigits(u) && d == u + Zeros(z)
    ensures NatOf(u) * Pow10(z) == NatOf(d)
  {
    NatOfAppend(u, Zeros(z));
    NatOfZeros(z);
  }

  /** Scaling the significant digits by the number of digits after the first restores the number. */
  lemma ScaledDigits(d: string, tail: string)
    requires |d| >= 1 && AllDigits(d) && tail == DropTrailingZeros(d[1..])
    ensures AllDigits([d[0]] + tail)
    ensures ScaledWhole(NatOf([d[0]] + tail), |d| - 1, |tail|) == NatOf(d)
  {
    SignificantDigits(d, tail);
    ScaledIs(NatOf([d[0]] + tail), |d| - 1, |tail|, NatOf(d));
  }

  lemma ScaledIs(m: nat, e: nat, f: nat, n: nat)
    requires e >= f && m * Pow10(e - f) == n
    ensures ScaledWhole(m, e, f) == n
  {
  }

  /** The parts of a digit string's scientific form expand back to its number. */
  lemma ExpandDigits(neg: bool, d: string, tail: string, n: nat)
    requires |d| >= 1 && AllDigits(d) && tail == DropTrailingZeros(d[1..]) && n == NatOf(d)
    ensures var r := NatToString(n);
      ExpandParts(SciParts(neg, [d[0]], tail, NatToString(|d| - 1))) == Some(if neg then "-" + r else r)
  {
    ScaledDigits(d, tail);
    assert IsDigit(d[0]) && AllDigits(tail);
    assert NatOf(NatToString(|d| - 1)) == |d| - 1;
  }

  /** Shifting the significant digits by the exponent gives the whole float's digits back. */
  lemma ExpandWhole(v: int)
    requires Abs(v) >= Pow10(16)
    ensures var d := NatToString(Abs(v));
      ExpandParts(SciParts(v < 0, [d[0]], DropTrailingZeros(d[1..]), NatToString(|d| - 1)))
      == Some(IntToString(v))
  {
    var d := NatToString(Abs(v));
    var tail := DropTrailingZeros(d[1..]);
    ExpandDigits(v < 0, d, tail, Abs(v));
  }

  /**
   * The expansion undoes Python's scientific repr of a whole float: for
   * every float of 1e16 or more, `f"{float(str(x)):.0f}"` is `str(int(x))`.
   */
  lemma ExpandUndoesSciRepr(v: int)
    requires Abs(v) >= Pow10(16)
    ensures ExpandIfScientific(FloatRepr(v)) == Some(IntToString(v))
  {
    SplitSciRepr(v);
    ExpandWhole(v);
    var s := SciRepr(v);
    assert FloatRepr(v) == s;
    assert ContainsExpMarker(s);
  }

  lemma {:induction false} Pow10Monotone(a: nat, b: nat)
    requires a <= b
    ensures Pow10(a) <= Pow10(b)
  {
    if a < b {
      Pow10Monotone(a, b - 1);
    }
  }

  lemma {:induction false} NatToStringBound(n: nat, k: nat)
    requires |NatToString(n)| == k
    ensures n < Pow10(k)
  {
    if n >= 10 {
      NatToStringBound(n / 10, k - 1);
    }
  }

  /** The digits of a whole float followed by ".0" hold no "e+". */
  lemma FloatTextHasNoMarker(d: string, text: string)
    requires AllDigits(d) && text == d + ".0"
    ensures !ContainsExpMarker(text)
  {
    forall j | 0 <= j < |text| ensures text[j] != 'e' {
      if j < |d| { assert IsDigit(d[j]); }
    }
  }

  /**
   * The defect at line 248: a 13-digit id held in a float column prints as
   * "ddddddddddddd.0"; stripping the '.' first leaves 14 digits ending in the
   * float's "0", so `fix_fund_cnpj` neither drops ".0" nor adds the leading zero.
   * The intended order yields the zero-padded CNPJ.
   */
  lemma FloatGestorIdAsWritten(v: nat)
    requires Pow10(12) <= v < Pow10(13)
    ensures GestorIdAsWritten(IdFloat(v)) == Some(NatToString(v) + "0")
    ensures GestorId(IdFloat(v)) == Some("0" + NatToString(v))
    ensures GestorIdAsWritten(IdFloat(v)) != GestorId(IdFloat(v))
  {
    var d := NatToString(v);
    NatToStringLength(v, 13);
    assert Abs(v) < Pow10(16) by {
      assert Pow10(16) == Pow10(13) * 1000 by { Pow10Split(13, 3); }
    }
    FloatDigits(v);
    var text := d + ".0";
    assert PyStr(IdFloat(v)) == text;
    FloatTextHasNoMarker(d, text);
    // as written: the '.' goes first, and 14 digits stay as they are
    assert FixFundCnpj(Some(d + "0")) == Some(d + "0");
    assert Pad14(d + "0") == d + "0";
    // intended: ".0" is dropped, then the 13 digits get their leading zero
    assert EndsWith(text, ".0");
    assert text[..|text| - 2] == d;
    assert FixFundCnpj(Some(text)) == Some("0" + d);
    assert Pad14("0" + d) == "0" + d;
    assert (d + "0")[0] == d[0] && d[0] != '0';
  }

  lemma {:induction false} Pow10Split(a: nat, b: nat)
    ensures Pow10(a + b) == Pow10(a) * Pow10(b)
  {
    if b > 0 {
      Pow10Split(a, b - 1);
      assert Pow10(a + b) == 10 * Pow10(a + b - 1);
    }
  }

  /** `pd.to_numeric(str(x).replace('[^0-9]', ''), errors='coerce')`: the batch script's join key. */
  function NumericId(c: IdCell): (r: Option<nat>)
  {
    var d := KeepDigits(PyStr(c));
    if d == [] then None else Some(NatOf(d))
  }

  /** Leading zeros do not matter to the batch key, and punctuation is ignored. */
  lemma NumericIdIgnoresLeadingZeros(n: nat, s: string)
    requires KeepDigits(s) != []
    ensures NumericId(IdText(Zeros(n) + s)) == NumericId(IdText(s))
  {
    KeepDigitsAppend(Zeros(n), s);
    LeadingZerosIrrelevant(n, KeepDigits(s));
  }

  /** An id read as an integer keeps its value; a digitless text (or NaN) has no key. */
  lemma NumericIdOfInt(v: nat)
    ensures NumericId(IdInt(v)) == Some(v)
    ensures NumericId(IdNull) == None
  {
    assert KeepDigits("nan") == [];
  }

  /** A whole float below 1e16 prints as its digits followed by ".0". */
  lemma FloatDigits(v: nat)
    requires v < Pow10(16)
    ensures FloatRepr(v) == NatToString(v) + ".0"
    ensures KeepDigits(FloatRepr(v)) == NatToString(v) + "0"
  {
    var d := NatToString(v);
    assert FloatRepr(v) == d + ".0";
    PointZeroDigits(d);
  }

  /** Dropping the point from "d.0" leaves d and the zero. */
  lemma PointZeroDigits(d: string)
    requires AllDigits(d)
    ensures KeepDigits(d + ".0") == d + "0"
  {
    assert d + ".0" == (d + ['.']) + ['0'];
    KeepDigitsAppend(d + ['.'], ['0']);
    KeepDigitsAppend(d, ['.']);
    KeepOne('.');
    KeepOne('0');
  }

  lemma KeepOne(c: char)
    ensures KeepDigits([c]) == if IsDigit(c) then [c] else []
  {
    assert [c][1..] == [];
  }

  /** A float-typed id prints with ".0", so its batch key is ten times its value. */
  lemma NumericIdOfFloat(v: nat)
    requires v < Pow10(16)
    ensures NumericId(IdFloat(v)) == Some(10 * v)
  {
    FloatDigits(v);
    TrailingZeroId(IdFloat(v), NatToString(v));
  }

  /** Digits followed by the float's "0" read as ten times their number. */
  lemma TrailingZeroId(c: IdCell, d: string)
    requires AllDigits(d) && KeepDigits(PyStr(c)) == d + "0"
    ensures NumericId(c) == Some(10 * NatOf(d))
  {
    ZeroAppended(d);
    var s := KeepDigits(PyStr(c));
    assert s != [] && NatOf(s) == 10 * NatOf(d);
  }

  lemma ZeroAppended(d: string)
    requires AllDigits(d)
    ensures AllDigits(d + "0") && NatOf(d + "0") == 10 * NatOf(d)
  {
    assert "0"[..0] == [];
    assert NatOf("0") == 0;
    assert Pow10(1) == 10;
    NatOfAppend(d, "0");
  }
}
