/** Python's `float()` applied to a field captured by `[\d.-]+`, with the
    value kept exact. Within that character class `float()` accepts an
    optional leading minus, decimal digits and at most one point, with at
    least one digit; every other string (`"1.2.3"`, `"--"`, `"."`, `"1-2"`)
    raises ValueError, which is `None` here. */
module Decimal {
  import opened Wrappers
  import opened Text

  /** The character class `[\d.-]` of the field patterns. */
  predicate NumChar(c: char) {
    IsDigit(c) || c == '.' || c == '-'
  }

  predicate AllDigits(s: string) {
    forall i :: 0 <= i < |s| ==> IsDigit(s[i])
  }

  function Pow10(n: nat): (p: nat)
    ensures p >= 1
  {
    if n == 0 then 1 else 10 * Pow10(n - 1)
  }

  /** Value of a string of decimal digits. */
  function DigitsValue(ds: string): nat
    requires AllDigits(ds)
  {
    if ds == [] then 0
    else 10 * DigitsValue(ds[..|ds| - 1]) + (ds[|ds| - 1] as int - '0' as int)
  }

  /** Index of the first '.', or the length when there is none. */
  function DotIndex(s: string): (k: nat)
    ensures k <= |s| && (k < |s| ==> s[k] == '.')
  {
    if s == [] || s[0] == '.' then 0 else 1 + DotIndex(s[1..])
  }

  /** A numeral split into its sign, whole digits, point and fraction digits. */
  datatype Parts = Parts(neg: bool, whole: string, dot: bool, frac: string)

  /** A numeral `float()` accepts: sign, digits, optional point and digits. */
  predicate WellFormed(p: Parts) {
    AllDigits(p.whole) && AllDigits(p.frac) && |p.whole| + |p.frac| > 0 && (!p.dot ==> p.frac == [])
  }

  function Sign(neg: bool): string {
    if neg then "-" else ""
  }

  /** The point and the fraction digits, if there is a point. */
  function Tail(p: Parts): string {
    if p.dot then "." + p.frac else ""
  }

  function Numeral(p: Parts): string {
    Sign(p.neg) + (p.whole + Tail(p))
  }

  /** The number a well-formed numeral denotes. */
  function NumeralValue(p: Parts): real
    requires WellFormed(p)
  {
    var mag := DigitsValue(p.whole) as real + DigitsValue(p.frac) as real / Pow10(|p.frac|) as real;
    if p.neg then -mag else mag
  }

  function IsNegative(s: string): bool {
    s != [] && s[0] == '-'
  }

  /** What follows the optional leading minus. */
  function Body(s: string): string {
    if IsNegative(s) then s[1..] else s
  }

  /** How `float()` reads the field: a leading minus, then up to the first
      point, then the rest. */
  function Split(s: string): Parts {
    var body := Body(s);
    var k := DotIndex(body);
    Parts(IsNegative(s), body[..k], k < |body|, if k < |body| then body[k + 1..] else "")
  }

  function ParseDecimal(s: string): (r: Option<real>)
    ensures r.Some? ==> s != [] && forall i :: 0 <= i < |s| ==> NumChar(s[i])
  {
    var p := Split(s);
    if WellFormed(p) then
      ParsedIsNumeral(s);
      NumeralChars(p);
      Some(NumeralValue(p))
    else
      None
  }

  /** A well-formed numeral is a non-empty run of `[\d.-]`. */
  lemma NumeralChars(p: Parts)
    requires WellFormed(p)
    ensures var s := Numeral(p); s != [] && forall i :: 0 <= i < |s| ==> NumChar(s[i])
  {
    var t := Tail(p);
    assert forall i :: 0 <= i < |t| ==> NumChar(t[i]) by {
      if p.dot {
        forall i | 0 <= i < |t| ensures NumChar(t[i]) {
          if i > 0 { assert t[i] == p.frac[i - 1]; }
        }
      }
    }
    var s := Numeral(p);
    var sg := Sign(p.neg);
    forall i | 0 <= i < |s| ensures NumChar(s[i]) {
      if i < |sg| {
      } else if i < |sg| + |p.whole| {
        assert s[i] == p.whole[i - |sg|];
      } else {
        assert s[i] == t[i - |sg| - |p.whole|];
      }
    }
  }

  lemma {:induction false} DotIndexOf(whole: string, rest: string)
    requires AllDigits(whole) && (rest == [] || rest[0] == '.')
    ensures DotIndex(whole + rest) == |whole|
  {
    if whole != [] {
      assert (whole + rest)[1..] == whole[1..] + rest;
      DotIndexOf(whole[1..], rest);
    } else {
      assert whole + rest == rest;
    }
  }

  /** The sign of a well-formed numeral is read back, and what follows it
      is its digits and tail. */
  lemma SignOf(p: Parts)
    requires WellFormed(p)
    ensures IsNegative(Numeral(p)) == p.neg && Body(Numeral(p)) == p.whole + Tail(p)
  {
    var s := Numeral(p);
    var body := p.whole + Tail(p);
    if p.neg {
      assert s == "-" + body;
      assert s[1..] == body;
    } else {
      assert s == body;
      if p.whole != [] { assert s[0] == p.whole[0]; } else { assert s[0] == Tail(p)[0]; }
    }
  }

  /** The digits and tail of a well-formed numeral split back at its point. */
  lemma PointOf(p: Parts)
    requires WellFormed(p)
    ensures var body := p.whole + Tail(p); var k := DotIndex(body);
      k == |p.whole| && body[..k] == p.whole && (k < |body| <==> p.dot)
      && (k < |body| ==> body[k + 1..] == p.frac)
  {
    var body := p.whole + Tail(p);
    DotIndexOf(p.whole, Tail(p));
    assert body[..|p.whole|] == p.whole;
    if p.dot {
      assert body[|p.whole| + 1..] == p.frac;
    }
  }

  /** Every well-formed numeral parses to the number it denotes. */
  lemma ParseNumeral(p: Parts)
    requires WellFormed(p)
    ensures ParseDecimal(Numeral(p)) == Some(NumeralValue(p))
  {
    SignOf(p);
    PointOf(p);
    assert Split(Numeral(p)) == p;
  }

  /** Conversely, whatever `float()` accepts is the numeral of its own
      split: the parser accepts exactly the well-formed numerals. */
  lemma ParsedIsNumeral(s: string)
    requires WellFormed(Split(s))
    ensures s == Numeral(Split(s))
  {
    var p := Split(s);
    var body := Body(s);
    assert body == p.whole + Tail(p) by {
      SplitBody(body);
    }
    assert s == Sign(p.neg) + body by {
      if p.neg { assert s == [s[0]] + s[1..]; }
    }
  }

  lemma SplitBody(body: string)
    ensures var k := DotIndex(body);
      body == body[..k] + (if k < |body| then "." + body[k + 1..] else "")
  {
    var k := DotIndex(body);
    if k < |body| {
      SplitAt(body, k);
    } else {
      assert body[..k] == body;
    }
  }

  lemma SplitAt(s: string, k: nat)
    requires k < |s| && s[k] == '.'
    ensures s == s[..k] + ("." + s[k + 1..])
  {
    assert s[k..] == [s[k]] + s[k + 1..];
    assert s == s[..k] + s[k..];
  }

  /** `float()` accepts a field exactly when it is a well-formed numeral,
      and then yields that numeral's value. */
  lemma AcceptedAreNumerals(s: string)
    requires ParseDecimal(s).Some?
    ensures exists p :: WellFormed(p) && s == Numeral(p) && ParseDecimal(s) == Some(NumeralValue(p))
  {
    ParsedIsNumeral(s);
    var p := Split(s);
    assert WellFormed(p) && s == Numeral(p) && ParseDecimal(s) == Some(NumeralValue(p));
  }

  /** Strings the field pattern captures but `float()` rejects: two points,
      two signs, no digit, a minus after a digit. */
  lemma RejectsTwoPoints()
    ensures ParseDecimal("1.2.3") == None
  {
    assert DotIndex("1.2.3") == 1;
    assert "1.2.3"[2..] == "2.3" && !IsDigit("2.3"[1]);
  }

  lemma RejectsTwoSigns()
    ensures ParseDecimal("--") == None
  {
    assert "--"[1..] == "-" && DotIndex("-") == 1 && !IsDigit("-"[0]);
  }

  lemma RejectsNoDigit()
    ensures ParseDecimal(".") == None
    ensures ParseDecimal("-") == None
  {
    assert DotIndex(".") == 0;
    assert "-"[1..] == [];
  }

  lemma RejectsInnerMinus()
    ensures ParseDecimal("1-2") == None
  {
    assert DotIndex("1-2") == 3 && !IsDigit("1-2"[1]);
  }

  /** Two accepted fields and their values. */
  lemma AcceptsNegativeFraction()
    ensures ParseDecimal("-0.5") == Some(-0.5)
  {
    var p := Parts(true, "0", true, "5");
    assert WellFormed(p);
    assert Numeral(p) == "-0.5" by {
      assert Tail(p) == ".5";
    }
    assert NumeralValue(p) == -0.5 by {
      assert DigitsValue("0") == 0 && DigitsValue("5") == 5 && Pow10(1) == 10;
    }
    ParseNumeral(p);
  }

  lemma AcceptsWholeNumber()
    ensures ParseDecimal("12") == Some(12.0)
  {
    var q := Parts(false, "12", false, "");
    assert Numeral(q) == "12";
    ParseNumeral(q);
    assert DigitsValue("12") == 12 by {
      assert "12"[..1] == "1";
    }
  }
}
