/**
 * The string operations the pipeline applies to identifiers and names:
 * digit filtering (`re.sub('[^0-9]', '', s)`), the decimal value of a
 * digit string, `str.zfill`, slicing, `str.strip`, `str.upper`, and the
 * helpers behind Python's number formatting.
 */
module Text {

  predicate IsDigit(c: char) { '0' <= c <= '9' }

  predicate AllDigits(s: string) {
    forall i :: 0 <= i < |s| ==> IsDigit(s[i])
  }

  function DigitChar(d: nat): (c: char)
    requires d < 10
    ensures IsDigit(c)
  {
    ('0' as int + d) as char
  }

  function DigitValue(c: char): (d: nat)
    requires IsDigit(c)
    ensures d < 10 && DigitChar(d) == c
  {
    c as int - '0' as int
  }

  function Pow10(n: nat): (p: nat)
    ensures p >= 1
  {
    if n == 0 then 1 else 10 * Pow10(n - 1)
  }

  /** `n` zero characters. */
  function Zeros(n: nat): (z: string)
    ensures |z| == n && AllDigits(z)
    ensures forall i :: 0 <= i < n ==> z[i] == '0'
  {
    seq(n, _ => '0')
  }

  /** `n` space characters. */
  function Spaces(n: nat): (z: string)
    ensures |z| == n
    ensures forall i :: 0 <= i < n ==> z[i] == ' '
  {
    seq(n, _ => ' ')
  }

  /** `re.sub(r'[^0-9]', '', s)`: the ASCII digits of `s`, in order. */
  function KeepDigits(s: string): (r: string)
    ensures AllDigits(r)
    ensures |r| <= |s|
    ensures AllDigits(s) ==> r == s
  {
    if s == [] then [] else (if IsDigit(s[0]) then [s[0]] else []) + KeepDigits(s[1..])
  }

  lemma {:induction false} KeepDigitsAppend(a: string, b: string)
    ensures KeepDigits(a + b) == KeepDigits(a) + KeepDigits(b)
  {
    if a == [] {
      assert a + b == b;
    } else {
      assert (a + b)[1..] == a[1..] + b;
      KeepDigitsAppend(a[1..], b);
    }
  }

  /** The natural number a digit string denotes (leading zeros allowed). */
  function NatOf(s: string): nat
    requires AllDigits(s)
  {
    if s == [] then 0 else NatOf(s[..|s| - 1]) * 10 + DigitValue(s[|s| - 1])
  }

  lemma {:induction false} NatOfAppend(a: string, b: string)
    requires AllDigits(a) && AllDigits(b)
    ensures NatOf(a + b) == NatOf(a) * Pow10(|b|) + NatOf(b)
  {
    if b == [] {
      assert a + b == a;
    } else {
      var b' := b[..|b| - 1];
      assert (a + b)[..|a + b| - 1] == a + b';
      NatOfAppend(a, b');
      var x, y, p, d := NatOf(a), NatOf(b'), Pow10(|b'|), DigitValue(b[|b| - 1]);
      assert b[..|b| - 1] == b';
      assert NatOf(b) == y * 10 + d;
      assert Pow10(|b|) == p * 10;
      assert NatOf(a + b) == (x * p + y) * 10 + d;
      Distribute(x, p, y, d);
    }
  }

  lemma Distribute(x: int, p: int, y: int, d: int)
    ensures (x * p + y) * 10 + d == x * (p * 10) + (y * 10 + d)
  {
  }

  lemma {:induction false} NatOfZeros(n: nat)
    ensures NatOf(Zeros(n)) == 0
  {
    if n > 0 {
      assert Zeros(n)[..n - 1] == Zeros(n - 1);
      NatOfZeros(n - 1);
    }
  }

  /** Leading zeros do not change the number a digit string denotes. */
  lemma LeadingZerosIrrelevant(n: nat, s: string)
    requires AllDigits(s)
    ensures NatOf(Zeros(n) + s) == NatOf(s)
  {
    NatOfAppend(Zeros(n), s);
    NatOfZeros(n);
  }

  /** Python's `str(n)` for a natural number: no leading zeros. */
  function NatToString(n: nat): (r: string)
    ensures |r| > 0 && AllDigits(r)
    ensures NatOf(r) == n
    ensures r[0] == '0' ==> n == 0 && |r| == 1
  {
    if n < 10 then
      [DigitChar(n)]
    else
      var p := NatToString(n / 10);
      var r := p + [DigitChar(n % 10)];
      assert r[..|r| - 1] == p;
      r
  }

  /** Python's `str(v)` for an integer. */
  function IntToString(v: int): (r: string)
  {
    if v < 0 then "-" + NatToString(-v) else NatToString(v)
  }

  /** `s.endswith(suffix)`. */
  predicate EndsWith(s: string, suffix: string) {
    |suffix| <= |s| && s[|s| - |suffix|..] == suffix
  }

  /** The index of the first `"e+"` in `s`, or `|s|` when there is none. */
  function FindExpMarker(s: string): (k: nat)
    ensures k <= |s|
    ensures k < |s| ==> k + 1 < |s| && s[k] == 'e' && s[k + 1] == '+'
    ensures forall j :: 0 <= j < k && j + 1 < |s| ==> !(s[j] == 'e' && s[j + 1] == '+')
  {
    if |s| < 2 then |s|
    else if s[0] == 'e' && s[1] == '+' then 0
    else
      var k := FindExpMarker(s[1..]);
      if k == |s| - 1 then |s| else k + 1
  }

  /** Python's `'e+' in s`. */
  predicate ContainsExpMarker(s: string) {
    FindExpMarker(s) < |s|
  }

  /** The index of the first `c` in `s`, or `|s|`. */
  function IndexOf(s: string, c: char): (k: nat)
    ensures k <= |s|
    ensures k < |s| ==> s[k] == c
    ensures forall j :: 0 <= j < k ==> s[j] != c
  {
    if s == [] then 0 else if s[0] == c then 0 else 1 + IndexOf(s[1..], c)
  }

  /** Python's `s.zfill(width)`: left-pad with zeros, keeping a leading sign in front. */
  function ZFill(s: string, width: int): (r: string)
    ensures |r| == if |s| >= width then |s| else width
  {
    if |s| >= width then s
    else if |s| > 0 && (s[0] == '+' || s[0] == '-') then [s[0]] + Zeros(width - |s|) + s[1..]
    else Zeros(width - |s|) + s
  }

  /** Python's slice `s[:n]`. */
  function Prefix(s: string, n: nat): (r: string)
    ensures |r| == if n <= |s| then n else |s|
    ensures forall i :: 0 <= i < |r| ==> r[i] == s[i]
  {
    if n <= |s| then s[..n] else s
  }

  /** An f-string `{s:<width}`: left-aligned, padded with spaces, never cut. */
  function PadRight(s: string, width: int): (r: string)
    ensures |r| == if |s| >= width then |s| else width
    ensures r[..|s|] == s
    ensures forall i :: |s| <= i < |r| ==> r[i] == ' '
  {
    if |s| >= width then s else s + Spaces(width - |s|)
  }

  /** The characters Python's `str.isspace` accepts. */
  predicate IsSpace(c: char) {
    || c == ' ' || '\t' <= c <= '\r' || '\U{1C}' <= c <= '\U{1F}'
    || c == '\U{85}' || c == '\U{A0}' || c == '\U{1680}'
    || '\U{2000}' <= c <= '\U{200A}' || c == '\U{2028}' || c == '\U{2029}'
    || c == '\U{202F}' || c == '\U{205F}' || c == '\U{3000}'
  }

  function TrimLeft(s: string): (r: string)
    ensures |r| <= |s| && r == s[|s| - |r|..]
    ensures r == [] || !IsSpace(r[0])
    ensures forall i :: 0 <= i < |s| - |r| ==> IsSpace(s[i])
  {
    if s != [] && IsSpace(s[0]) then TrimLeft(s[1..]) else s
  }

  function TrimRight(s: string): (r: string)
    ensures |r| <= |s| && r == s[..|r|]
    ensures r == [] || !IsSpace(r[|r| - 1])
    ensures forall i :: |r| <= i < |s| ==> IsSpace(s[i])
  {
    if s != [] && IsSpace(s[|s| - 1]) then TrimRight(s[..|s| - 1]) else s
  }

  /** Python's `s.strip()`: drops leading and trailing whitespace. */
  function Strip(s: string): (r: string)
  {
    TrimRight(TrimLeft(s))
  }

  /** `strip` removes whitespace at both ends and nothing else: what remains is a slice of `s`. */
  lemma StripIsTrimmedSlice(s: string)
    ensures exists i, j :: 0 <= i <= j <= |s| && Strip(s) == s[i..j]
              && (forall k :: 0 <= k < i ==> IsSpace(s[k]))
              && (forall k :: j <= k < |s| ==> IsSpace(s[k]))
    ensures Strip(s) == [] || (!IsSpace(Strip(s)[0]) && !IsSpace(Strip(s)[|Strip(s)| - 1]))
  {
    var l := TrimLeft(s);
    var i := |s| - |l|;
    var r := TrimRight(l);
    var j := i + |r|;
    assert r == s[i..j];
    forall k | j <= k < |s| ensures IsSpace(s[k]) {
      assert s[k] == l[k - i];
    }
  }

  lemma {:induction false} StripIdempotent(s: string)
    ensures Strip(Strip(s)) == Strip(s)
  {
    var r := Strip(s);
    StripIsTrimmedSlice(s);
    assert TrimLeft(r) == r;
    if r != [] {
      assert TrimRight(r) == r;
    }
  }

  /**
   * Python's `str.upper` on one character of Latin-1 text, the encoding the
   * registries are read in: the ASCII and Latin-1 small letters become their
   * capitals, 'ÿ' becomes U+0178, 'µ' the Greek capital mu, and 'ß' the two
   * letters "SS".
   */
  function UpperChar(c: char): (u: string)
    ensures |u| >= 1
    ensures !IsSpace(c) ==> forall k :: 0 <= k < |u| ==> !IsSpace(u[k])
    ensures IsSpace(c) ==> u == [c]
  {
    if 'a' <= c <= 'z' || ('\U{E0}' <= c <= '\U{FE}' && c != '\U{F7}') then [(c as int - 32) as char]
    else if c == '\U{DF}' then "SS"
    else if c == '\U{FF}' then ['\U{178}']
    else if c == '\U{B5}' then ['\U{39C}']
    else [c]
  }

  /** Every character `UpperChar` produces is its own capital. */
  lemma UpperCharFixed(c: char, k: nat)
    requires k < |UpperChar(c)|
    ensures UpperChar(UpperChar(c)[k]) == [UpperChar(c)[k]]
  {
  }

  /** Python's `s.upper()`: each character replaced by its capital letters. */
  function Upper(s: string): (r: string)
    ensures |r| >= |s|
    ensures s == [] <==> r == []
  {
    if s == [] then [] else UpperChar(s[0]) + Upper(s[1..])
  }

  lemma {:induction false} UpperAppend(a: string, b: string)
    ensures Upper(a + b) == Upper(a) + Upper(b)
  {
    if a == [] {
      assert a + b == b;
    } else {
      assert (a + b)[0] == a[0] && (a + b)[1..] == a[1..] + b;
      UpperAppend(a[1..], b);
    }
  }

  /** Text that is all capitals is left as it is. */
  lemma {:induction false} UpperOfCapitals(s: string)
    requires forall k :: 0 <= k < |s| ==> UpperChar(s[k]) == [s[k]]
    ensures Upper(s) == s
  {
    if s != [] {
      UpperOfCapitals(s[1..]);
    }
  }

  /** What `Upper` produces is all capitals. */
  lemma {:induction false} UpperIsCapitals(s: string)
    ensures forall k :: 0 <= k < |Upper(s)| ==> UpperChar(Upper(s)[k]) == [Upper(s)[k]]
  {
    if s != [] {
      UpperIsCapitals(s[1..]);
      var u, rest := UpperChar(s[0]), Upper(s[1..]);
      forall k | 0 <= k < |u + rest| ensures UpperChar((u + rest)[k]) == [(u + rest)[k]] {
        if k < |u| {
          UpperCharFixed(s[0], k);
        } else {
          assert (u + rest)[k] == rest[k - |u|];
        }
      }
    }
  }

  /** Upper-casing twice equals upper-casing once. */
  lemma UpperIdempotent(s: string)
    ensures Upper(Upper(s)) == Upper(s)
  {
    UpperIsCapitals(s);
    UpperOfCapitals(Upper(s));
  }

  /** The first and last characters of an upper-cased text are spaces only where the text's are. */
  lemma {:induction false} UpperEnds(s: string)
    requires s != []
    ensures !IsSpace(s[0]) ==> !IsSpace(Upper(s)[0])
    ensures !IsSpace(s[|s| - 1]) ==> !IsSpace(Upper(s)[|Upper(s)| - 1])
  {
    var init, last := s[..|s| - 1], s[|s| - 1];
    assert s == init + [last];
    UpperAppend(init, [last]);
    assert Upper([last]) == UpperChar(last) + Upper([]);
    assert Upper(s)[|Upper(s)| - 1] == UpperChar(last)[|UpperChar(last)| - 1];
  }

  /** Python's `,` grouping of a digit string: a comma before every group of three digits from the right. */
  function GroupThousands(s: string): (r: string)
    decreases |s|
  {
    if |s| <= 3 then s else GroupThousands(s[..|s| - 3]) + "," + s[|s| - 3..]
  }

  /** Removing the commas gives the digits back. */
  lemma {:induction false} GroupThousandsDigits(s: string)
    requires AllDigits(s)
    ensures KeepDigits(GroupThousands(s)) == s
    decreases |s|
  {
    if |s| > 3 {
      var a, b := s[..|s| - 3], s[|s| - 3..];
      var g := GroupThousands(a);
      assert GroupThousands(s) == g + "," + b;
      GroupThousandsDigits(a);
      KeepDigitsAppend(g + ",", b);
      KeepDigitsAppend(g, ",");
      assert KeepDigits(",") == "";
      assert KeepDigits(g + ",") == a;
      assert a + b == s;
    }
  }

  /**
   * Round to the nearest integer, ties to the even one: the rule Python's
   * format specifications and NumPy's `round` apply to the exact value.
   */
  function RoundHalfEven(x: real): (r: int)
    ensures -0.5 <= r as real - x <= 0.5
    ensures (r as real - x == 0.5 || x - r as real == 0.5) ==> r % 2 == 0
  {
    var n := x.Floor;
    var d := x - n as real;
    if d > 0.5 then n + 1 else if d < 0.5 then n else if n % 2 == 0 then n else n + 1
  }

  function Abs(n: int): nat { if n < 0 then -n else n }
}
