/**
 * Spreadsheet cell values as the import reads them, JavaScript truthiness of
 * those values, and the coercion `Number(x) || 0` (electron/main.js).
 */
module Cells {

  /** A cell value: an empty cell, a number, or text. */
  datatype Cell = Blank | Num(n: real) | Text(s: string)

  /** JavaScript truthiness: an empty cell, 0 and "" are falsy. */
  predicate Truthy(c: Cell)
  {
    match c
    case Blank => false
    case Num(n) => n != 0.0
    case Text(s) => s != ""
  }

  /** The result of JavaScript's `Number(x)`: a number or NaN. */
  datatype JsNumber = NaN | Finite(value: real)

  /** The white space `Number` trims: tab, line feed, vertical tab, form
      feed, carriage return, the Unicode space separators (Zs), the line and
      paragraph separators and the byte order mark. */
  predicate IsSpace(ch: char)
  {
    || ch == '\t' || ch == '\n' || ch == '\U{B}' || ch == '\U{C}' || ch == '\r'
    || ch == ' ' || ch == '\U{A0}' || ch == '\U{1680}' || '\U{2000}' <= ch <= '\U{200A}'
    || ch == '\U{2028}' || ch == '\U{2029}' || ch == '\U{202F}' || ch == '\U{205F}'
    || ch == '\U{3000}' || ch == '\U{FEFF}'
  }

  function TrimStart(s: string): (t: string)
    ensures |t| <= |s| && t == s[|s| - |t|..]
    ensures t != [] ==> !IsSpace(t[0])
  {
    if s != [] && IsSpace(s[0]) then TrimStart(s[1..]) else s
  }

  function TrimEnd(s: string): (t: string)
    ensures |t| <= |s| && t == s[..|t|]
    ensures t != [] ==> !IsSpace(t[|t| - 1])
  {
    if s != [] && IsSpace(s[|s| - 1]) then TrimEnd(s[..|s| - 1]) else s
  }

  /** Drops surrounding white space, as `Number` does before reading a numeral. */
  function Trim(s: string): string
  {
    TrimEnd(TrimStart(s))
  }

  predicate IsDigit(ch: char)
  {
    '0' <= ch <= '9'
  }

  predicate AllDigits(s: string)
  {
    forall i :: 0 <= i < |s| ==> IsDigit(s[i])
  }

  /** The value of a string of decimal digits, most significant first. */
  function DigitsValue(s: string): nat
    requires AllDigits(s)
  {
    if s == [] then 0 else DigitsValue(s[..|s| - 1]) * 10 + (s[|s| - 1] as int - '0' as int)
  }

  function Pow10(k: nat): (p: nat)
    ensures p >= 1
  {
    if k == 0 then 1 else 10 * Pow10(k - 1)
  }

  /** The index of the first '.', or |s| when there is none. */
  function DotIndex(s: string): (p: nat)
    ensures p <= |s|
    ensures p < |s| ==> s[p] == '.'
    ensures forall i :: 0 <= i < p ==> s[i] != '.'
  {
    if s == [] then 0 else if s[0] == '.' then 0 else 1 + DotIndex(s[1..])
  }

  /** The value of the numeral `whole.fraction`. */
  function DecimalValue(whole: string, fraction: string): real
    requires AllDigits(whole) && AllDigits(fraction)
  {
    DigitsValue(whole) as real + DigitsValue(fraction) as real / Pow10(|fraction|) as real
  }

  /** An unsigned decimal numeral `digits`, `digits.digits`, `digits.` or `.digits`. */
  function ParseUnsigned(s: string): JsNumber
  {
    var p := DotIndex(s);
    var whole := s[..p];
    var fraction := if p < |s| then s[p + 1..] else "";
    if AllDigits(whole) && AllDigits(fraction) && |whole| + |fraction| > 0 then
      Finite(DecimalValue(whole, fraction))
    else
      NaN
  }

  function Negate(x: JsNumber): JsNumber
  {
    match x
    case NaN => NaN
    case Finite(v) => Finite(-v)
  }

  /** `Number(s)` for a string: white space alone reads as 0, a signed
      decimal numeral as its value, anything else as NaN. */
  function ParseNumber(s: string): JsNumber
  {
    var t := Trim(s);
    if t == "" then Finite(0.0)
    else if t[0] == '-' then Negate(ParseUnsigned(t[1..]))
    else if t[0] == '+' then ParseUnsigned(t[1..])
    else ParseUnsigned(t)
  }

  /** `Number(x)` for a cell; an empty cell is `undefined`, which reads as NaN. */
  function ToNumber(c: Cell): JsNumber
  {
    match c
    case Blank => NaN
    case Num(n) => Finite(n)
    case Text(s) => ParseNumber(s)
  }

  /** `Number(x) || 0`: the number when it is truthy, otherwise 0. It never fails. */
  function Coerce(c: Cell): (r: real)
    ensures c.Num? ==> r == c.n
    ensures c.Blank? ==> r == 0.0
    ensures ToNumber(c).NaN? ==> r == 0.0
    ensures ToNumber(c).Finite? ==> r == ToNumber(c).value
  {
    match ToNumber(c)
    case NaN => 0.0
    case Finite(v) => if v != 0.0 then v else 0.0
  }

  /** The decimal numeral of a natural number, as JavaScript prints it. */
  function Numeral(n: nat): (s: string)
    ensures |s| > 0 && AllDigits(s)
  {
    var d := ['0' + (n % 10) as char];
    if n < 10 then d else Numeral(n / 10) + d
  }

  lemma {:induction false} NumeralValue(n: nat)
    ensures DigitsValue(Numeral(n)) == n
  {
    var s := Numeral(n);
    if n >= 10 {
      assert s[..|s| - 1] == Numeral(n / 10);
      NumeralValue(n / 10);
    }
  }

  lemma NoSpaceIn(s: string)
    requires |s| > 0 && !IsSpace(s[0]) && !IsSpace(s[|s| - 1])
    ensures Trim(s) == s
  {
    assert TrimStart(s) == s;
  }

  lemma NoDotIn(s: string)
    requires AllDigits(s)
    ensures DotIndex(s) == |s|
  {
    if s != [] {
      assert AllDigits(s[1..]);
      NoDotIn(s[1..]);
    }
  }

  lemma ParseDigits(s: string)
    requires AllDigits(s) && |s| > 0
    ensures ParseUnsigned(s) == Finite(DigitsValue(s) as real)
  {
    NoDotIn(s);
    assert s[..|s|] == s;
    assert DecimalValue(s, "") == DigitsValue(s) as real;
  }

  /** Reading back a printed natural number, or its negation, gives the number. */
  lemma ParseNumeral(n: nat)
    ensures ParseNumber(Numeral(n)) == Finite(n as real)
    ensures ParseNumber("-" + Numeral(n)) == Finite(-(n as real))
  {
    var s := Numeral(n);
    NoSpaceIn(s);
    ParseDigits(s);
    NumeralValue(n);
    var m := "-" + s;
    assert m[|m| - 1] == s[|s| - 1];
    NoSpaceIn(m);
    assert m[1..] == s;
  }

  predicate AllSpace(w: string)
  {
    forall i :: 0 <= i < |w| ==> IsSpace(w[i])
  }

  lemma {:induction false} TrimStartSpaces(w: string, s: string)
    requires AllSpace(w) && |s| > 0 && !IsSpace(s[0])
    ensures TrimStart(w + s) == s
  {
    if w != [] {
      assert (w + s)[0] == w[0];
      assert (w + s)[1..] == w[1..] + s;
      TrimStartSpaces(w[1..], s);
    } else {
      assert w + s == s;
    }
  }

  lemma {:induction false} TrimEndSpaces(s: string, w: string)
    requires AllSpace(w) && |s| > 0 && !IsSpace(s[|s| - 1])
    ensures TrimEnd(s + w) == s
  {
    if w != [] {
      var u := s + w;
      assert u[|u| - 1] == w[|w| - 1];
      assert u[..|u| - 1] == s + w[..|w| - 1];
      TrimEndSpaces(s, w[..|w| - 1]);
    } else {
      assert s + w == s;
    }
  }

  lemma TrimPadded(before: string, s: string, after: string)
    requires AllSpace(before) && AllSpace(after)
    requires |s| > 0 && !IsSpace(s[0]) && !IsSpace(s[|s| - 1])
    ensures Trim(before + s + after) == s
  {
    assert before + s + after == before + (s + after);
    assert (s + after)[0] == s[0];
    TrimStartSpaces(before, s + after);
    TrimEndSpaces(s, after);
  }

  /** White space before and after a printed natural number is ignored. */
  lemma PaddedNumeral(n: nat, before: string, after: string)
    requires AllSpace(before) && AllSpace(after)
    ensures ParseNumber(before + Numeral(n) + after) == Finite(n as real)
  {
    var s := Numeral(n);
    TrimPadded(before, s, after);
    ParseDigits(s);
    NumeralValue(n);
  }

  /** Trimming the end never removes a leading character that is not white space. */
  lemma {:induction false} TrimEndKeepsFirst(s: string)
    requires |s| > 0 && !IsSpace(s[0])
    ensures |TrimEnd(s)| > 0
  {
    if IsSpace(s[|s| - 1]) {
      var init := s[..|s| - 1];
      assert init[0] == s[0];
      TrimEndKeepsFirst(init);
    }
  }

  /** Text that starts with a character no numeral or white space starts with
      is not a numeral, whatever follows. */
  lemma NotNumeral(s: string)
    requires |s| > 0 && !IsSpace(s[0]) && !IsDigit(s[0]) && s[0] !in ['.', '-', '+']
    ensures ParseNumber(s) == NaN
  {
    assert TrimStart(s) == s;
    TrimEndKeepsFirst(s);
    var t := Trim(s);
    assert t[0] == s[0];
    var p := DotIndex(t);
    assert p > 0;
    assert !AllDigits(t[..p]) by { assert t[..p][0] == t[0]; }
  }

  /** A quantity cell holding "abc" is not a numeral and imports as 0. */
  lemma NonNumericIsZero()
    ensures ParseNumber("abc") == NaN
    ensures Coerce(Text("abc")) == 0.0
  {
    NotNumeral("abc");
  }
}
