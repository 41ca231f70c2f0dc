/**
 * Table cells as pandas holds them after `read_csv` and `merge`, with
 * Python's `str` of an identifier cell and `pd.to_numeric(..., errors='coerce')`
 * of an amount cell.
 */
module Cells {
  import opened Wrappers
  import opened Text

  /** A cell of an identifier column (CNPJ, CPF_CNPJ_Gestor, CNPJ_Administrador, ...). */
  datatype IdCell =
    | IdText(text: string)   // an object column holding text
    | IdInt(n: int)          // an int64 column
    | IdFloat(whole: int)    // a float64 column (one with NaN in it) holding a whole number
    | IdNull                 // NaN or None

  /** `pd.notna(c) & (c != 0)`: a text "0" is not equal to the number 0. */
  predicate IsPresentNonZero(c: IdCell) {
    match c
    case IdNull => false
    case IdInt(v) => v != 0
    case IdFloat(v) => v != 0
    case IdText(_) => true
  }

  /** Python's `str` of a cell (`astype(str)`); a missing value prints as "nan". */
  function PyStr(c: IdCell): string {
    match c
    case IdText(s) => s
    case IdInt(v) => IntToString(v)
    case IdFloat(v) => FloatRepr(v)
    case IdNull => "nan"
  }

  /**
   * Python's `repr` of a whole float: fixed notation with ".0" below 1e16,
   * scientific notation ("1.2345e+16") from there on.
   */
  function FloatRepr(v: int): string {
    if Abs(v) < Pow10(16) then IntToString(v) + ".0" else SciRepr(v)
  }

  function DropTrailingZeros(s: string): (r: string)
    ensures |r| <= |s| && r == s[..|r|]
    ensures r == [] || r[|r| - 1] != '0'
    ensures forall i :: |r| <= i < |s| ==> s[i] == '0'
  {
    if s != [] && s[|s| - 1] == '0' then DropTrailingZeros(s[..|s| - 1]) else s
  }

  /** Scientific notation with every significant digit of `v`. */
  function SciRepr(v: int): string {
    var d := NatToString(Abs(v));
    var tail := DropTrailingZeros(d[1..]);
    (if v < 0 then "-" else "") + [d[0]] + (if tail == [] then "" else "." + tail)
      + "e+" + NatToString(|d| - 1)
  }

  /** A cell of an amount column (VL_MERC_POS_FINAL, VL_CUSTO_POS_FINAL, ...). */
  datatype AmountCell =
    | Number(v: real)
    | Text(s: string)
    | Null

  /** The number in a cell; text and missing cells count as missing. */
  function AsReal(c: AmountCell): Option<real> {
    if c.Number? then Some(c.v) else None
  }

  /** `pd.to_numeric(c, errors='coerce')`: text that is not a number becomes missing. */
  function ToNumeric(c: AmountCell): (r: AmountCell)
    ensures !r.Text?
    ensures c.Number? ==> r == c
    ensures c.Null? ==> r.Null?
    ensures c.Text? ==> (r.Number? <==> ParseNumber(c.s).Some?)
    ensures c.Text? && r.Number? ==> Some(r.v) == ParseNumber(c.s)
  {
    match c
    case Number(_) => c
    case Text(s) => (match ParseNumber(s) case Some(v) => Number(v) case None => Null)
    case Null => Null
  }

  /** An unsigned decimal: digits with at most one '.', at least one digit. */
  function ParseUnsigned(s: string): Option<real> {
    var k := IndexOf(s, '.');
    var ip := s[..k];
    var fp := if k < |s| then s[k + 1..] else "";
    if AllDigits(ip) && AllDigits(fp) && |ip| + |fp| > 0 then
      Some(DecimalOf(ip, fp))
    else None
  }

  /** The value of the digits ip before a point and fp after it. */
  function DecimalOf(ip: string, fp: string): real
    requires AllDigits(ip) && AllDigits(fp)
  {
    NatOf(ip) as real + NatOf(fp) as real / Pow10(|fp|) as real
  }

  /** The text a numeric parse accepts: an optional sign, then an unsigned decimal. */
  function ParseNumber(s: string): Option<real> {
    if |s| > 0 && s[0] == '-' then
      (match ParseUnsigned(s[1..]) case Some(v) => Some(-v) case None => None)
    else if |s| > 0 && s[0] == '+' then ParseUnsigned(s[1..])
    else ParseUnsigned(s)
  }

  /** A digit string reads back as the number it spells. */
  lemma ParseDigits(s: string)
    requires AllDigits(s) && s != []
    ensures ParseNumber(s) == Some(NatOf(s) as real)
  {
    forall j | 0 <= j < |s| ensures s[j] != '.' {
      assert IsDigit(s[j]);
    }
    assert s[..|s|] == s;
  }

  /** `to_numeric(str(n))` gives n back. */
  lemma ParseIntToString(v: int)
    ensures ParseNumber(IntToString(v)) == Some(v as real)
  {
    if v < 0 {
      var d := NatToString(-v);
      assert ("-" + d)[1..] == d;
      ParseDigits(d);
    } else {
      ParseDigits(NatToString(v));
    }
  }
}
