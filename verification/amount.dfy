/** The amount cleaner `_clean_monto`: turns a currency-like cell into a
    number, or into "no amount" (NaN) when the text does not parse.

    The cleaner runs four steps on `str(val)`:
      1. `re.sub(r"S\.?/?\s*", "", s)`, which removes a Peruvian-sol prefix;
      2. `re.sub(r"[^0-9,\.-]", "", s)`, which keeps digits, `,`, `.` and `-`;
      3. the separator rule: when both `,` and `.` occur, every comma is
         a thousands separator and is dropped; when only commas occur,
         every comma is a decimal point;
      4. Python `float()`, where every failure becomes NaN.
    Amounts are exact reals here, so binary rounding is not modelled. */
module Amount {
  import opened Wrappers
  import opened Text
  import opened Records

  predicate IsDigit(c: char) {
    '0' <= c <= '9'
  }

  predicate AllDigits(s: string) {
    forall i :: 0 <= i < |s| ==> IsDigit(s[i])
  }

  /** Value of a string of decimal digits. */
  function DigitsValue(s: string): nat
    requires AllDigits(s)
  {
    if |s| == 0 then 0
    else DigitsValue(s[..|s| - 1]) * 10 + ((s[|s| - 1] as int) - ('0' as int))
  }

  function Pow10(n: nat): (p: nat)
    ensures p >= 1
  {
    if n == 0 then 1 else 10 * Pow10(n - 1)
  }

  /** Value of the unsigned literal `w.f`: integer digits `w`, fraction digits `f`. */
  function DecimalValue(w: string, f: string): real
    requires AllDigits(w) && AllDigits(f)
  {
    DigitsValue(w) as real + DigitsValue(f) as real / Pow10(|f|) as real
  }

  function Sign(negative: bool): string {
    if negative then "-" else ""
  }

  function Signed(negative: bool, v: real): real {
    if negative then -v else v
  }

  /** Position of the first `c` in `s`, or `|s|` when `c` does not occur. */
  function IndexOf(s: string, c: char): (k: nat)
    ensures k <= |s|
    ensures forall i :: 0 <= i < k ==> s[i] != c
    ensures k < |s| ==> s[k] == c
  {
    if |s| == 0 then 0
    else if s[0] == c then 0
    else 1 + IndexOf(s[1..], c)
  }

  /** Python `float()` of an unsigned literal over digits and `.`: digits,
      optionally a point and more digits, with at least one digit in all
      (`"5"`, `"5."`, `".5"` and `"5.25"` parse; `"."`, `""`, `"1.2.3"` do not). */
  function ParseUnsigned(t: string): (r: Option<real>)
    ensures r.Some? ==> '-' !in t
    ensures r.Some? ==> exists i :: 0 <= i < |t| && IsDigit(t[i])
  {
    var k := IndexOf(t, '.');
    var w := t[..k];
    var f := if k < |t| then t[k + 1..] else "";
    if AllDigits(w) && AllDigits(f) && |w| + |f| > 0 then
      assert forall i :: 0 <= i < |t| ==> t[i] != '-' by {
        forall i | 0 <= i < |t| ensures t[i] != '-' {
          if i < k { assert t[i] == w[i]; }
          else if i > k { assert t[i] == f[i - k - 1]; }
        }
      }
      assert |w| > 0 ==> t[0] == w[0];
      assert |w| == 0 ==> t[k + 1] == f[0];
      Some(DecimalValue(w, f))
    else None
  }

  /** Python `float()` on the strings that survive the cleaning steps (over
      `[0-9.-]`): an optional leading minus and an unsigned literal. Other
      float syntax (exponents, `inf`, `nan`, `+`, underscores, surrounding
      blanks) cannot occur in such strings. */
  function ParseFloat(t: string): (r: Option<real>)
    ensures r.Some? ==> exists i :: 0 <= i < |t| && IsDigit(t[i])
    ensures r.Some? ==> forall i :: 0 < i < |t| ==> t[i] != '-'
  {
    if |t| > 0 && t[0] == '-' then
      match ParseUnsigned(t[1..])
      case Some(v) =>
        assert forall i :: 0 < i < |t| ==> t[i] == t[1..][i - 1];
        Some(-v)
      case None => None
    else
      ParseUnsigned(t)
  }

  lemma ParseFloatPoint(negative: bool, w: string, f: string)
    requires AllDigits(w) && AllDigits(f) && |w| + |f| > 0
    ensures ParseFloat(Sign(negative) + w + "." + f) == Some(Signed(negative, DecimalValue(w, f)))
  {
    ParseUnsignedPoint(w, f);
    ParseFloatSigned(negative, w + "." + f);
    assert Sign(negative) + w + "." + f == Sign(negative) + (w + "." + f);
  }

  /** A minus in front of an unsigned literal negates it. */
  lemma ParseFloatSigned(negative: bool, u: string)
    requires ParseUnsigned(u).Some?
    ensures ParseFloat(Sign(negative) + u) == Some(Signed(negative, ParseUnsigned(u).value))
  {
    var t := Sign(negative) + u;
    if negative {
      assert t[1..] == u;
    } else {
      assert t == u;
      assert '-' !in u;
      assert |u| > 0 ==> u[0] in u;
    }
  }

  lemma ParseUnsignedPoint(w: string, f: string)
    requires AllDigits(w) && AllDigits(f) && |w| + |f| > 0
    ensures ParseUnsigned(w + "." + f) == Some(DecimalValue(w, f))
  {
    var u := w + "." + f;
    assert IndexOf(u, '.') == |w| by {
      assert forall i :: 0 <= i < |w| ==> u[i] == w[i] && u[i] != '.';
      assert u[|w|] == '.';
    }
    assert u[..|w|] == w && u[|w| + 1..] == f;
  }

  lemma ParseFloatInteger(negative: bool, w: string)
    requires AllDigits(w) && |w| > 0
    ensures ParseFloat(Sign(negative) + w) == Some(Signed(negative, DecimalValue(w, "")))
  {
    var t := Sign(negative) + w;
    assert negative ==> t[1..] == w;
    assert IndexOf(w, '.') == |w| by {
      assert forall i :: 0 <= i < |w| ==> w[i] != '.';
    }
    assert w[..|w|] == w;
    assert !negative ==> t == w;
  }

  /** A literal with two points is rejected, whatever surrounds them. */
  lemma ParseFloatTwoPoints(t: string, i: nat, j: nat)
    requires i < j < |t| && t[i] == '.' && t[j] == '.'
    ensures ParseFloat(t) == None
  {
    var neg := |t| > 0 && t[0] == '-';
    var u := if neg then t[1..] else t;
    var k := IndexOf(u, '.');
    var o := if neg then 1 else 0;
    assert u[j - o] == '.';
    assert k <= i - o;
    assert u[k + 1..][j - o - k - 1] == '.';
  }

  // ---- step 1: the sol prefix -------------------------------------------

  /** Length of the match of `S<first>?<second>?\s*` at the start of `s`
      (the regex is deterministic: greedy choices never need backtracking). */
  function SolMatch(s: string, first: char, second: char): (n: nat)
    requires |s| > 0 && s[0] == 'S'
    requires first != 'S' && second != 'S'
    ensures 1 <= n <= |s|
    ensures forall i :: 0 <= i < n ==> (s[i] == 'S' <==> i == 0)
  {
    var i := if 1 < |s| && s[1] == first then 2 else 1;
    var j := if i < |s| && s[i] == second then i + 1 else i;
    var n := j + SpaceRun(s[j..]);
    assert forall k :: j <= k < n ==> s[k] == s[j..][..n - j][k - j];
    n
  }

  /** `re.sub(r"S<first>?<second>?\s*", "", s)`: every `S` starts a match,
      and a match removes the `S`, the optional characters after it and the
      whitespace run that follows. */
  function StripSol(s: string, first: char, second: char): (r: string)
    requires first != 'S' && second != 'S'
    ensures 'S' !in r
    ensures 'S' !in s ==> r == s
    ensures forall c :: c in r ==> c in s
    decreases |s|
  {
    if |s| == 0 then ""
    else if s[0] == 'S' then
      var n := SolMatch(s, first, second);
      var r := StripSol(s[n..], first, second);
      assert forall c :: c in s[n..] ==> c in s;
      assert 'S' in s;
      r
    else
      var r := [s[0]] + StripSol(s[1..], first, second);
      assert forall c :: c in s[1..] ==> c in s;
      assert 'S' !in s ==> 'S' !in s[1..];
      r
  }

  // ---- step 2: keep digits and separators --------------------------------

  predicate IsNumericChar(c: char) {
    IsDigit(c) || c == ',' || c == '.' || c == '-'
  }

  predicate AllNumeric(s: string) {
    forall i :: 0 <= i < |s| ==> IsNumericChar(s[i])
  }

  /** `re.sub(r"[^0-9,\.-]", "", s)`. */
  function KeepNumeric(s: string): (r: string)
    ensures AllNumeric(r)
    ensures AllNumeric(s) ==> r == s
    ensures forall c :: IsNumericChar(c) ==> (c in r <==> c in s)
  {
    if |s| == 0 then ""
    else
      var rest := KeepNumeric(s[1..]);
      assert forall c :: c in s <==> c == s[0] || c in s[1..];
      if IsNumericChar(s[0]) then [s[0]] + rest else rest
  }

  // ---- step 3: separators -------------------------------------------------

  /** `s.replace(c, "")`. */
  function RemoveChar(s: string, c: char): (r: string)
    ensures c !in r
    ensures c !in s ==> r == s
    ensures forall d :: d != c ==> (d in r <==> d in s)
    ensures AllNumeric(s) ==> AllNumeric(r)
  {
    if |s| == 0 then ""
    else
      var rest := RemoveChar(s[1..], c);
      assert forall d :: d in s <==> d == s[0] || d in s[1..];
      if s[0] == c then rest else [s[0]] + rest
  }

  lemma {:induction false} RemoveCharAppend(a: string, b: string, c: char)
    ensures RemoveChar(a + b, c) == RemoveChar(a, c) + RemoveChar(b, c)
  {
    if |a| > 0 {
      assert (a + b)[1..] == a[1..] + b;
      RemoveCharAppend(a[1..], b, c);
    } else {
      assert a + b == b;
    }
  }

  /** `s.replace(c, d)`. */
  function ReplaceChar(s: string, c: char, d: char): (r: string)
    ensures |r| == |s|
    ensures forall i :: 0 <= i < |s| ==> r[i] == (if s[i] == c then d else s[i])
  {
    seq(|s|, i requires 0 <= i < |s| => if s[i] == c then d else s[i])
  }

  /** The comma rule: both separators means commas group thousands; commas
      alone mean a decimal comma. */
  function NormalizeSeparators(t: string): (r: string)
    ensures ',' !in r
    ensures '.' in t ==> r == RemoveChar(t, ',')
    ensures '.' !in t ==> |r| == |t|
    ensures '.' !in t ==> forall i :: 0 <= i < |t| ==> r[i] == (if t[i] == ',' then '.' else t[i])
  {
    if ',' in t && '.' in t then RemoveChar(t, ',')
    else if ',' in t then
      var r := ReplaceChar(t, ',', '.');
      assert forall i :: 0 <= i < |r| ==> r[i] != ',';
      r
    else t
  }

  // ---- the cleaner --------------------------------------------------------

  /** What steps 1 and 2 leave of `s`, for a prefix pattern `S<first>?<second>?\s*`. */
  function Numeric(s: string, first: char, second: char): string
    requires first != 'S' && second != 'S'
  {
    KeepNumeric(StripSol(s, first, second))
  }

  function CleanWith(s: string, first: char, second: char): Option<real>
    requires first != 'S' && second != 'S'
  {
    var t := Numeric(s, first, second);
    if t == "" then None else ParseFloat(NormalizeSeparators(t))
  }

  /** `_clean_monto` on text, as written: the prefix pattern is `S\.?/?\s*`. */
  function CleanMonto(s: string): (r: Option<real>)
    ensures Numeric(s, '.', '/') == "" ==> r == None
    ensures var t := Numeric(s, '.', '/');
            ',' in t && '.' in t ==> r == ParseFloat(RemoveChar(t, ','))
    ensures var t := Numeric(s, '.', '/');
            ',' in t && '.' !in t ==> r == ParseFloat(ReplaceChar(t, ',', '.'))
    ensures var t := Numeric(s, '.', '/');
            ',' !in t ==> r == (if t == "" then None else ParseFloat(t))
  {
    CleanWith(s, '.', '/')
  }

  /** `_clean_monto` with the prefix pattern its comment describes, `S/?\.?\s*`,
      which removes the `S/.` the dashboard itself prints before amounts. */
  function CleanMontoIntended(s: string): (r: Option<real>)
    ensures Numeric(s, '/', '.') == "" ==> r == None
    ensures 'S' !in s ==> r == CleanMonto(s)
  {
    CleanWith(s, '/', '.')
  }

  function Abs(x: real): real {
    if x < 0.0 then -x else x
  }

  /** Python's `str()` of a float is in plain decimal notation exactly when
      the float is 0 or its magnitude lies in [1e-4, 1e16); otherwise it
      has an exponent (`1e-05`, `1.5e+16`). */
  predicate PlainRepr(x: real) {
    x == 0.0 || (0.0001 <= Abs(x) < 10000000000000000.0)
  }

  /** `_clean_monto` on a cell: missing gives NaN, text is cleaned, and a
      timestamp's text (`2025-11-03 00:00:00`) keeps a `-` after its first
      digits, which `float()` rejects. A number in plain notation reads back
      as itself. Below 1e-4 its text has a negative exponent whose `-` is
      left after the first position, so it is NaN (`SciNegativeExponentNaN`).
      From 1e16 up the exponent's digits are glued to the mantissa
      (`SciPositiveExponent`); the result keeps the number's sign, which is
      all the model promises there, and the model returns the number itself. */
  function CleanCell(c: Cell): (r: Option<real>)
    ensures c.Blank? || c.Day? ==> r == None
    ensures c.Num? && PlainRepr(c.x) ==> r == Some(c.x)
    ensures c.Num? && c.x != 0.0 && Abs(c.x) < 0.0001 ==> r == None
    ensures c.Num? && Abs(c.x) >= 10000000000000000.0 ==> r.Some? && (r.value > 0.0 <==> c.x > 0.0)
    ensures c.Text? ==> r == CleanMonto(c.s)
  {
    match c
    case Blank => None
    case Num(x) => if x != 0.0 && Abs(x) < 0.0001 then None else Some(x)
    case Text(s) => CleanMonto(s)
    case Day(_) => None
  }

  // ---- numbers in exponent notation --------------------------------------------

  /** `str()` of a float outside the plain range: a sign, a digit 1-9,
      optionally a point and more digits, `e`, the exponent's sign and at
      least two exponent digits. */
  datatype SciText = SciText(negative: bool, lead: char, frac: string, expNegative: bool, exp: string)
  {
    predicate Valid() {
      '1' <= lead <= '9' && AllDigits(frac) && AllDigits(exp) && |exp| >= 2
    }

    /** `d` or `d.ddd`. */
    function Mantissa(): string {
      [lead] + (if frac == "" then "" else "." + frac)
    }

    function Text(): string {
      Sign(negative) + Mantissa() + "e" + (if expNegative then "-" else "+") + exp
    }
  }

  lemma {:induction false} KeepNumericAppend(a: string, b: string)
    ensures KeepNumeric(a + b) == KeepNumeric(a) + KeepNumeric(b)
  {
    if |a| > 0 {
      var h := if IsNumericChar(a[0]) then [a[0]] else [];
      assert (a + b)[0] == a[0];
      assert (a + b)[1..] == a[1..] + b;
      assert KeepNumeric(a + b) == h + KeepNumeric(a[1..] + b);
      assert KeepNumeric(a) == h + KeepNumeric(a[1..]);
      KeepNumericAppend(a[1..], b);
      assert h + (KeepNumeric(a[1..]) + KeepNumeric(b)) == (h + KeepNumeric(a[1..])) + KeepNumeric(b);
    } else {
      assert a + b == b;
    }
  }

  lemma DigitsNumeric(s: string)
    requires AllDigits(s)
    ensures AllNumeric(s) && 'S' !in s && ',' !in s && '-' !in s && '.' !in s
  {
    assert forall i :: 0 <= i < |s| ==> IsDigit(s[i]);
  }

  lemma SciMantissa(t: SciText)
    requires t.Valid()
    ensures AllNumeric(t.Mantissa()) && 'S' !in t.Mantissa()
  {
    var m := t.Mantissa();
    assert IsDigit(t.lead);
    assert t.frac != "" ==> m == [t.lead] + "." + t.frac;
    forall i | 0 <= i < |m| ensures IsNumericChar(m[i]) && m[i] != 'S' {
      if i >= 2 { assert m[i] == t.frac[i - 2]; }
    }
  }

  /** Step 2 on `<sign><mantissa>e<exponent sign><digits>`. */
  lemma KeepNumericExponent(s: string, m: string, es: string, e: string)
    requires AllNumeric(s) && AllNumeric(m) && AllNumeric(e)
    requires es == "-" || es == "+"
    ensures KeepNumeric(s + m + "e" + es + e) == s + m + (if es == "-" then "-" else "") + e
  {
    assert KeepNumeric(s) == s;
    assert KeepNumeric(m) == m;
    assert KeepNumeric(e) == e;
    assert KeepNumeric("e") == "";
    assert KeepNumeric(es) == (if es == "-" then "-" else "") by {
      assert es[1..] == "";
    }
    calc {
      KeepNumeric(s + m + "e" + es + e);
      { KeepNumericAppend(s + m + "e" + es, e); }
      KeepNumeric(s + m + "e" + es) + e;
      { KeepNumericAppend(s + m + "e", es); }
      KeepNumeric(s + m + "e") + (if es == "-" then "-" else "") + e;
      { KeepNumericAppend(s + m, "e");
        assert KeepNumeric(s + m) + "" == KeepNumeric(s + m); }
      KeepNumeric(s + m) + (if es == "-" then "-" else "") + e;
      { KeepNumericAppend(s, m); }
      s + m + (if es == "-" then "-" else "") + e;
    }
  }

  /** Steps 1 and 2 drop the `e` and a `+`, and keep a `-`. */
  lemma SciNumeric(t: SciText)
    requires t.Valid()
    ensures Numeric(t.Text(), '.', '/')
            == Sign(t.negative) + t.Mantissa() + (if t.expNegative then "-" else "") + t.exp
  {
    var m := t.Mantissa();
    var s := Sign(t.negative);
    var es := if t.expNegative then "-" else "+";
    DigitsNumeric(t.exp);
    SciMantissa(t);
    assert AllNumeric(s);
    var text := t.Text();
    assert text == s + m + "e" + es + t.exp;
    assert 'S' !in text;
    assert StripSol(text, '.', '/') == text;
    KeepNumericExponent(s, m, es, t.exp);
  }

  /** A number below 1e-4 is lost: its exponent's `-` survives the cleaning
      after the first position, and `float()` rejects it. */
  lemma SciNegativeExponentNaN(t: SciText)
    requires t.Valid() && t.expNegative
    ensures CleanMonto(t.Text()) == None
  {
    var n := Sign(t.negative) + t.Mantissa() + "-" + t.exp;
    SciNumeric(t);
    DigitsNumeric(t.frac);
    DigitsNumeric(t.exp);
    assert ',' !in n;
    var k := |Sign(t.negative) + t.Mantissa()|;
    assert 0 < k < |n| && n[k] == '-';
  }

  /** From 1e16 up, the exponent's digits are read as further digits of the
      mantissa: `"1e+16"` as 116 and `"1.5e+16"` as 1.516. */
  lemma SciPositiveExponent(t: SciText)
    requires t.Valid() && !t.expNegative
    ensures t.frac == "" ==> CleanMonto(t.Text()) == Some(Signed(t.negative, DecimalValue([t.lead] + t.exp, "")))
    ensures t.frac != "" ==> CleanMonto(t.Text()) == Some(Signed(t.negative, DecimalValue([t.lead], t.frac + t.exp)))
  {
    var s := Sign(t.negative);
    var n := s + t.Mantissa() + "" + t.exp;
    SciNumeric(t);
    DigitsNumeric(t.frac);
    DigitsNumeric(t.exp);
    assert AllDigits([t.lead]);
    if t.frac == "" {
      var w := [t.lead] + t.exp;
      assert AllDigits(w);
      GlueInteger(s, [t.lead], t.exp);
      DigitsNumeric(w);
      assert ',' !in s + w;
      ParseFloatInteger(t.negative, w);
    } else {
      var f := t.frac + t.exp;
      assert AllDigits(f);
      GluePoint(s, [t.lead], t.frac, t.exp);
      DigitsNumeric(f);
      assert ',' !in s + [t.lead] + "." + f;
      ParseFloatPoint(t.negative, [t.lead], f);
    }
  }

  lemma GlueInteger(s: string, l: string, e: string)
    ensures s + (l + "") + "" + e == s + (l + e)
  {
  }

  lemma GluePoint(s: string, l: string, f: string, e: string)
    ensures s + (l + ("." + f)) + "" + e == s + l + "." + (f + e)
  {
  }

  /** A leading digit other than 0 makes a digit string worth at least 1. */
  lemma {:induction false} DigitsAtLeastOne(s: string)
    requires AllDigits(s) && |s| > 0 && s[0] != '0'
    ensures DigitsValue(s) >= 1
    decreases |s|
  {
    if |s| > 1 {
      DigitsAtLeastOne(s[..|s| - 1]);
    }
  }

  /** A literal with a whole part worth at least 1 is worth at least 1. */
  lemma DecimalAtLeastOne(w: string, f: string)
    requires AllDigits(w) && AllDigits(f) && DigitsValue(w) >= 1
    ensures DecimalValue(w, f) >= 1.0
  {
    var p := Pow10(|f|) as real;
    assert DigitsValue(f) as real / p >= 0.0;
  }

  /** The misreading from 1e16 up still keeps the number's sign, so the keep
      rule of the payment ledger decides as it would on the number. */
  lemma SciPositiveExponentSign(t: SciText)
    requires t.Valid() && !t.expNegative
    ensures CleanMonto(t.Text()).Some?
    ensures CleanMonto(t.Text()).value > 0.0 <==> !t.negative
  {
    SciPositiveExponent(t);
    DigitsNumeric(t.exp);
    DigitsNumeric(t.frac);
    var v: real;
    if t.frac == "" {
      var w := [t.lead] + t.exp;
      assert AllDigits(w);
      DigitsAtLeastOne(w);
      DecimalAtLeastOne(w, "");
      v := DecimalValue(w, "");
    } else {
      var f := t.frac + t.exp;
      assert AllDigits(f) && AllDigits([t.lead]);
      DigitsAtLeastOne([t.lead]);
      DecimalAtLeastOne([t.lead], f);
      v := DecimalValue([t.lead], f);
    }
    assert CleanMonto(t.Text()) == Some(Signed(t.negative, v));
  }

  lemma Value116()
    ensures DecimalValue("116", "") == 116.0
  {
    assert "116"[..2] == "11" && "11"[..1] == "1" && "1"[..0] == "";
    assert DigitsValue("116") == 116;
    assert DigitsValue("") == 0 && Pow10(0) == 1;
  }

  lemma Value1516()
    ensures DecimalValue("1", "516") == 1.516
  {
    assert "1"[..0] == "";
    assert DigitsValue("1") == 1;
    assert "516"[..2] == "51" && "51"[..1] == "5" && "5"[..0] == "";
    assert DigitsValue("516") == 516;
    assert |"516"| == 3;
    assert Pow10(3) == 1000;
    assert 516.0 / 1000.0 == 0.516;
  }

  /** `str(1e16)` is read as 116. */
  lemma SciExampleWhole()
    ensures CleanMonto("1e+16") == Some(116.0)
  {
    var big := SciText(false, '1', "", false, "16");
    assert big.Valid();
    assert big.Text() == "1e+16";
    SciPositiveExponent(big);
    assert [big.lead] + big.exp == "116";
    Value116();
  }

  /** `str(1.5e16)` is read as 1.516. */
  lemma SciExamplePoint()
    ensures CleanMonto("1.5e+16") == Some(1.516)
  {
    var mid := SciText(false, '1', "5", false, "16");
    assert mid.Valid();
    assert mid.Text() == "1.5e+16";
    SciPositiveExponent(mid);
    assert [mid.lead] == "1" && mid.frac + mid.exp == "516";
    Value1516();
  }

  /** `str(0.00001)` is lost. */
  lemma SciExampleSmall()
    ensures CleanMonto("1e-05") == None
  {
    var small := SciText(false, '1', "", true, "05");
    assert small.Valid();
    assert small.Text() == "1e-05";
    SciNegativeExponentNaN(small);
  }

  // ---- round trips ------------------------------------------------------------

  /** Python's thousands grouping of a digit string (`f"{x:,}"`). */
  function GroupThousands(w: string): (r: string)
    requires AllDigits(w)
    ensures AllNumeric(r) && '.' !in r && '-' !in r && 'S' !in r
    ensures |w| > 0 ==> |r| > 0 && IsDigit(r[0])
    decreases |w|
  {
    if |w| <= 3 then
      assert forall i :: 0 <= i < |w| ==> IsDigit(w[i]);
      w
    else
      var r := GroupThousands(w[..|w| - 3]) + "," + w[|w| - 3..];
      assert forall i :: 0 <= i < |w| - 3 ==> w[..|w| - 3][i] == w[i];
      assert forall i :: |w| - 3 <= i < |w| ==> w[|w| - 3..][i - (|w| - 3)] == w[i];
      r
  }

  lemma {:induction false} GroupThousandsUngroups(w: string)
    requires AllDigits(w)
    ensures RemoveChar(GroupThousands(w), ',') == w
    decreases |w|
  {
    if |w| > 3 {
      var a, b := w[..|w| - 3], w[|w| - 3..];
      assert AllDigits(a) by { assert forall i :: 0 <= i < |a| ==> a[i] == w[i]; }
      assert ',' !in b by {
        assert forall i :: 0 <= i < |b| ==> b[i] == w[|w| - 3 + i];
      }
      GroupThousandsUngroups(a);
      UngroupStep(GroupThousands(a), b);
      assert w == a + b;
    } else {
      assert ',' !in w by { assert forall i :: 0 <= i < |w| ==> IsDigit(w[i]); }
    }
  }

  /** Dropping the commas of `g,b` when `b` has none. */
  lemma UngroupStep(g: string, b: string)
    requires ',' !in b
    ensures RemoveChar(g + "," + b, ',') == RemoveChar(g, ',') + b
  {
    var x := g + ",";
    LoneCommaRemoved();
    assert RemoveChar(x, ',') == RemoveChar(g, ',') by { RemoveCharAppend(g, ",", ','); }
    RemoveCharAppend(x, b, ',');
  }

  lemma LoneCommaRemoved()
    ensures RemoveChar(",", ',') == ""
  {
  }

  /** A money amount as the dashboard prints it with `f"{x:,.2f}"`: sign,
      grouped integer digits, a point, fraction digits. */
  datatype Money = Money(negative: bool, whole: string, cents: string) {
    predicate Valid() {
      AllDigits(whole) && |whole| > 0 && AllDigits(cents)
    }

    function Value(): real
      requires Valid()
    {
      Signed(negative, DecimalValue(whole, cents))
    }

    function Text(): (r: string)
      requires Valid()
      ensures AllNumeric(r) && 'S' !in r && '.' in r
      ensures |r| > 0 && (IsDigit(r[0]) || r[0] == '-')
    {
      var g := GroupThousands(whole);
      var r := Sign(negative) + g + "." + cents;
      assert r[|Sign(negative)| + |g|] == '.';
      assert forall i :: 0 <= i < |r| ==> IsNumericChar(r[i]) by {
        forall i | 0 <= i < |r| ensures IsNumericChar(r[i]) {
          if i < |Sign(negative)| { }
          else if i < |Sign(negative)| + |g| { assert r[i] == g[i - |Sign(negative)|]; }
          else if i > |Sign(negative)| + |g| { assert r[i] == cents[i - |Sign(negative)| - |g| - 1]; }
        }
      }
      assert 'S' !in r by {
        forall i | 0 <= i < |r| ensures r[i] != 'S' { assert IsNumericChar(r[i]); }
      }
      assert negative ==> r[0] == '-';
      assert !negative ==> r[0] == g[0];
      r
    }

    /** The text with the grouping commas dropped. */
    lemma Ungrouped()
      requires Valid()
      ensures RemoveChar(Text(), ',') == Sign(negative) + whole + "." + cents
    {
      var g := GroupThousands(whole);
      RemoveCharAppend(Sign(negative) + g + ".", cents, ',');
      RemoveCharAppend(Sign(negative) + g, ".", ',');
      RemoveCharAppend(Sign(negative), g, ',');
      GroupThousandsUngroups(whole);
      assert ',' !in cents by { assert forall i :: 0 <= i < |cents| ==> IsDigit(cents[i]); }
    }
  }

  /** The cleaner reads back every amount printed with thousands separators. */
  lemma CleanMoneyText(m: Money)
    requires m.Valid()
    ensures CleanMonto(m.Text()) == Some(m.Value())
  {
    var t := m.Text();
    assert Numeric(t, '.', '/') == t;
    m.Ungrouped();
    ParseFloatPoint(m.negative, m.whole, m.cents);
  }

  /** A decimal comma without thousands separators, `"1234,50"`, reads as `1234.50`. */
  lemma CleanDecimalComma(negative: bool, w: string, f: string)
    requires AllDigits(w) && AllDigits(f) && |w| + |f| > 0
    ensures CleanMonto(Sign(negative) + w + "," + f) == Some(Signed(negative, DecimalValue(w, f)))
  {
    var t := Sign(negative) + w + "," + f;
    DecimalCommaText(negative, w, f);
    assert t[|Sign(negative)| + |w|] == ',';
    DecimalCommaReplaced(negative, w, f);
    ParseFloatPoint(negative, w, f);
  }

  /** `-w,f` passes steps 1 and 2 unchanged and has no point. */
  lemma DecimalCommaText(negative: bool, w: string, f: string)
    requires AllDigits(w) && AllDigits(f)
    ensures var t := Sign(negative) + w + "," + f;
            Numeric(t, '.', '/') == t && '.' !in t
  {
    var t := Sign(negative) + w + "," + f;
    var n := |Sign(negative)|;
    assert forall i :: 0 <= i < |t| ==> IsNumericChar(t[i]) && t[i] != '.' by {
      forall i | 0 <= i < |t| ensures IsNumericChar(t[i]) && t[i] != '.' {
        if n <= i < n + |w| { assert t[i] == w[i - n]; }
        else if i > n + |w| { assert t[i] == f[i - n - |w| - 1]; }
      }
    }
    assert 'S' !in t by {
      forall i | 0 <= i < |t| ensures t[i] != 'S' { assert IsNumericChar(t[i]); }
    }
  }

  lemma DecimalCommaReplaced(negative: bool, w: string, f: string)
    requires AllDigits(w) && AllDigits(f)
    ensures ReplaceChar(Sign(negative) + w + "," + f, ',', '.') == Sign(negative) + w + "." + f
  {
    var t := Sign(negative) + w + "," + f;
    var p := Sign(negative) + w + "." + f;
    var n := |Sign(negative)|;
    forall i | 0 <= i < |t| ensures ReplaceChar(t, ',', '.')[i] == p[i] {
      if n <= i < n + |w| { assert t[i] == w[i - n]; }
      else if i > n + |w| { assert t[i] == f[i - n - |w| - 1]; }
    }
  }

  // ---- the sol prefix the dashboard prints -------------------------------------

  lemma StripSolAsWritten(t: string)
    requires 'S' !in t
    ensures StripSol("S/. " + t, '.', '/') == ". " + t
  {
    var s := "S/. " + t;
    assert s[2..] == ". " + t;
    assert s[2..][0] == '.';
    assert SolMatch(s, '.', '/') == 2;
    assert 'S' !in ". " + t by {
      forall i | 0 <= i < |". " + t| ensures (". " + t)[i] != 'S' {
        if i >= 2 { assert (". " + t)[i] == t[i - 2]; }
      }
    }
  }

  lemma KeepNumericDotSpace(t: string)
    requires AllNumeric(t)
    ensures KeepNumeric(". " + t) == "." + t
  {
    assert (". " + t)[1..] == " " + t;
    assert (" " + t)[1..] == t;
  }

  /** Steps 1 and 2 as written leave the point of `S/. ` in front. */
  lemma NumericAsWritten(t: string)
    requires AllNumeric(t) && 'S' !in t
    ensures Numeric("S/. " + t, '.', '/') == "." + t
  {
    StripSolAsWritten(t);
    KeepNumericDotSpace(t);
  }

  /** With a point in front, the separator rule drops the commas after it. */
  lemma NormalizeLeadingPoint(t: string)
    ensures NormalizeSeparators("." + t) == "." + RemoveChar(t, ',')
  {
    assert ("." + t)[0] == '.';
    RemoveCharAppend(".", t, ',');
    assert RemoveChar(".", ',') == ".";
  }

  /** As written, the pattern `S\.?/?` removes only `S/` from the `S/. ` the
      dashboard prints, so the point after it stays and the amount is lost. */
  lemma SolPrefixDefeatsCleanMonto(m: Money)
    requires m.Valid()
    ensures CleanMonto("S/. " + m.Text()) == None
  {
    var t := m.Text();
    var q := Sign(m.negative) + m.whole + "." + m.cents;
    var n := Numeric("S/. " + t, '.', '/');
    assert n == "." + t by { NumericAsWritten(t); }
    assert NormalizeSeparators(n) == "." + q by {
      NormalizeLeadingPoint(t);
      m.Ungrouped();
    }
    LeadingPointUnparsed(Sign(m.negative) + m.whole, m.cents);
    assert CleanWith("S/. " + t, '.', '/') == ParseFloat("." + q);
  }

  /** A second point after a leading one makes the text unreadable. */
  lemma LeadingPointUnparsed(w: string, f: string)
    ensures ParseFloat("." + (w + "." + f)) == None
  {
    var u := "." + (w + "." + f);
    assert u[1 + |w|] == '.';
    ParseFloatTwoPoints(u, 0, 1 + |w|);
  }

  /** With the intended pattern `S/?\.?\s*` every printed amount reads back. */
  lemma SolPrefixIntended(m: Money)
    requires m.Valid()
    ensures CleanMontoIntended("S/. " + m.Text()) == Some(m.Value())
  {
    var t := m.Text();
    var s := "S/. " + t;
    assert s[3..] == " " + t;
    assert SpaceRun(" " + t) == 1 by {
      assert (" " + t)[1..] == t;
      assert !IsSpace(t[0]);
    }
    assert SolMatch(s, '/', '.') == 4;
    assert s[4..] == t;
    assert Numeric(s, '/', '.') == t;
    m.Ungrouped();
    ParseFloatPoint(m.negative, m.whole, m.cents);
  }

  lemma ExampleAmount()
    ensures Money(false, "1234", "50").Valid()
    ensures Money(false, "1234", "50").Text() == "1,234.50"
    ensures Money(false, "1234", "50").Value() == 1234.5
  {
    var m := Money(false, "1234", "50");
    assert m.Valid();
    ExampleGrouping();
    ExampleDigits();
  }

  lemma ExampleGrouping()
    ensures GroupThousands("1234") == "1,234"
  {
    assert "1234"[..1] == "1" && "1234"[1..] == "234";
    assert GroupThousands("1") == "1";
  }

  lemma ExampleDigits()
    ensures DigitsValue("1234") == 1234 && DigitsValue("50") == 50 && Pow10(2) == 100
  {
    assert "1234"[..3] == "123" && "123"[..2] == "12" && "12"[..1] == "1" && "1"[..0] == "";
    assert "50"[..1] == "5" && "5"[..0] == "";
  }

  /** `"S/. 1,234.50"`, the way the dashboard prints 1234.5, is lost as
      written and read back by the intended pattern. */
  lemma SolPrefixExample()
    ensures CleanMonto("S/. 1,234.50") == None
    ensures CleanMontoIntended("S/. 1,234.50") == Some(1234.5)
  {
    var m := Money(false, "1234", "50");
    ExampleAmount();
    var t := m.Text();
    assert "S/. " + t == "S/. 1,234.50";
    SolPrefixDefeatsCleanMonto(m);
    SolPrefixIntended(m);
  }
}
