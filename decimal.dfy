/** Decimal digits and a stand-in for JavaScript's `parseFloat`, which the
    handler applies to the raw `preco` text before the schema sees it. */
module Decimal {
  import opened Wrappers

  predicate IsDigit(ch: char) { '0' <= ch <= '9' }

  predicate AllDigits(s: string) { forall i :: 0 <= i < |s| ==> IsDigit(s[i]) }

  function DigitValue(ch: char): (v: nat)
    requires IsDigit(ch)
    ensures v < 10
  {
    ch as int - '0' as int
  }

  function DigitChar(v: nat): (ch: char)
    requires v < 10
    ensures IsDigit(ch) && DigitValue(ch) == v
  {
    ('0' as int + v) as char
  }

  function Pow10(n: nat): (p: nat)
    ensures p >= 1
  {
    if n == 0 then 1 else 10 * Pow10(n - 1)
  }

  /** The number a string of decimal digits denotes, most significant digit first. */
  function DigitsValue(ds: string): (v: nat)
    requires AllDigits(ds)
    ensures v < Pow10(|ds|)
  {
    if ds == [] then 0
    else
      var init := ds[..|ds| - 1];
      var prev := DigitsValue(init);
      assert prev <= Pow10(|init|) - 1;
      prev * 10 + DigitValue(ds[|ds| - 1])
  }

  /** `n` written with exactly `width` digits, zero-padded on the left. */
  function Digits(n: nat, width: nat): (s: string)
    ensures |s| == width && AllDigits(s)
  {
    if width == 0 then [] else Digits(n / 10, width - 1) + [DigitChar(n % 10)]
  }

  lemma {:induction false} DigitsRoundTrip(n: nat, width: nat)
    requires n < Pow10(width)
    ensures DigitsValue(Digits(n, width)) == n
  {
    if width > 0 {
      var s := Digits(n, width);
      assert s[..width - 1] == Digits(n / 10, width - 1);
      DigitsRoundTrip(n / 10, width - 1);
    }
  }

  /** Appending a digit to a number appends it to its rendering. */
  lemma DigitsStep(a: nat, d: nat, width: nat)
    requires d < 10
    ensures Digits(a * 10 + d, width + 1) == Digits(a, width) + [DigitChar(d)]
  {
    assert (a * 10 + d) / 10 == a && (a * 10 + d) % 10 == d;
  }

  lemma {:induction false} ValueRoundTrip(ds: string)
    requires AllDigits(ds)
    ensures Digits(DigitsValue(ds), |ds|) == ds
  {
    if ds != [] {
      var init := ds[..|ds| - 1];
      var last := ds[|ds| - 1];
      assert DigitsValue(ds) == DigitsValue(init) * 10 + DigitValue(last);
      DigitsStep(DigitsValue(init), DigitValue(last), |init|);
      ValueRoundTrip(init);
      assert ds == init + [last];
    }
  }

  /** Length of the longest prefix of `s` made of decimal digits. */
  function DigitRun(s: string): (n: nat)
    ensures n <= |s| && AllDigits(s[..n])
    ensures n < |s| ==> !IsDigit(s[n])
  {
    if s == [] || !IsDigit(s[0]) then 0
    else
      var rest := DigitRun(s[1..]);
      assert s[..1 + rest] == [s[0]] + s[1..][..rest];
      1 + rest
  }

  lemma DigitRunOfDigits(ds: string, t: string)
    requires AllDigits(ds)
    requires t == [] || !IsDigit(t[0])
    ensures DigitRun(ds + t) == |ds|
  {
    var s := ds + t;
    assert forall i :: 0 <= i < |ds| ==> s[i] == ds[i];
    assert |ds| < |s| ==> s[|ds|] == t[0];
  }

  /** The white space `parseFloat` skips before the number: ASCII white space,
      the line and paragraph separators, the byte order mark and every space
      separator (the no-break space, the Ogham space mark, the en quad up to the
      hair space, the narrow no-break space, the medium mathematical space and
      the ideographic space). */
  predicate IsJsSpace(ch: char)
  {
    ch == ' ' || ch == '\t' || ch == '\n' || ch == '\r' || ch == '\U{B}' ||
    ch == '\U{C}' || ch == '\U{A0}' || ch == '\U{1680}' || ('\U{2000}' <= ch <= '\U{200A}') ||
    ch == '\U{2028}' || ch == '\U{2029}' || ch == '\U{202F}' || ch == '\U{205F}' ||
    ch == '\U{3000}' || ch == '\U{FEFF}'
  }

  function TrimStart(s: string): (t: string)
    ensures |t| <= |s| && t == s[|s| - |t|..]
    ensures t != [] ==> !IsJsSpace(t[0])
  {
    if s != [] && IsJsSpace(s[0]) then TrimStart(s[1..]) else s
  }

  /** `m` with its decimal point moved `n` places to the right. */
  function ShiftLeft(m: real, n: nat): (r: real)
    ensures m >= 0.0 ==> r >= 0.0
    decreases n
  {
    if n == 0 then m else ShiftLeft(m * 10.0, n - 1)
  }

  /** `m` with its decimal point moved `n` places to the left. */
  function ShiftRight(m: real, n: nat): (r: real)
    ensures m >= 0.0 ==> r >= 0.0
    decreases n
  {
    if n == 0 then m else ShiftRight(m / 10.0, n - 1)
  }

  /** `m` scaled by the optional exponent part (`e5`, `E-3`) at the start of
      `rest`; without digits after `e` and its sign the exponent is not part
      of the number and `m` is returned as it is. */
  function ApplyExponent(m: real, rest: string): (r: real)
    ensures m >= 0.0 ==> r >= 0.0
    ensures (rest == [] || !(rest[0] == 'e' || rest[0] == 'E')) ==> r == m
  {
    if rest != [] && (rest[0] == 'e' || rest[0] == 'E') then
      var signed := rest[1..];
      var negative := signed != [] && signed[0] == '-';
      var ds := if signed != [] && (signed[0] == '-' || signed[0] == '+') then signed[1..] else signed;
      var n := DigitRun(ds);
      if n == 0 then m
      else if negative then ShiftRight(m, DigitsValue(ds[..n]))
      else ShiftLeft(m, DigitsValue(ds[..n]))
    else m
  }

  /** Predicate: `u` begins with a digit, or with `.` followed by a digit, so
      that `parseFloat` finds a number there. */
  predicate StartsNumeric(u: string)
  {
    (u != [] && IsDigit(u[0])) || (|u| >= 2 && u[0] == '.' && IsDigit(u[1]))
  }

  /** The value of the digits after the decimal point: `.fs` as a number. */
  function FractionValue(fs: string): (v: real)
    requires AllDigits(fs)
    ensures 0.0 <= v < 1.0
  {
    if fs == [] then 0.0
    else (DigitValue(fs[0]) as real + FractionValue(fs[1..])) / 10.0
  }

  /** The number made of integer digits, fraction digits and what follows
      them; with no digit on either side of the point there is no number. */
  function Mantissa(intDigits: string, fracDigits: string, rest: string): (r: Option<real>)
    requires AllDigits(intDigits) && AllDigits(fracDigits)
    ensures r.Some? <==> intDigits != [] || fracDigits != []
    ensures r.Some? ==> r.value >= 0.0
  {
    if intDigits == [] && fracDigits == [] then None
    else Some(ApplyExponent(DigitsValue(intDigits) as real + FractionValue(fracDigits), rest))
  }

  /** Reads the optional `.` and fraction digits that follow the integer digits. */
  function ReadFraction(intDigits: string, afterInt: string): (r: Option<real>)
    requires AllDigits(intDigits)
    ensures r.Some? <==> intDigits != [] || (|afterInt| >= 2 && afterInt[0] == '.' && IsDigit(afterInt[1]))
    ensures r.Some? ==> r.value >= 0.0
  {
    if afterInt != [] && afterInt[0] == '.' then
      var digits := afterInt[1..];
      var f := DigitRun(digits);
      Mantissa(intDigits, digits[..f], digits[f..])
    else Mantissa(intDigits, [], afterInt)
  }

  /** The longest unsigned decimal literal at the start of `u`:
      digits, an optional `.` and digits, an optional exponent. */
  function ParseUnsigned(u: string): (r: Option<real>)
    ensures r.Some? <==> StartsNumeric(u)
    ensures r.Some? ==> r.value >= 0.0
  {
    var i := DigitRun(u);
    ReadFraction(u[..i], u[i..])
  }

  function Negate(r: Option<real>): Option<real>
  {
    match r
    case None => None
    case Some(x) => Some(-x)
  }

  /** An optional sign, then the unsigned literal. */
  function ParseSigned(t: string): (r: Option<real>)
    ensures r.Some? && r.value < 0.0 ==> t != [] && t[0] == '-'
  {
    if t != [] && t[0] == '-' then Negate(ParseUnsigned(t[1..]))
    else if t != [] && t[0] == '+' then ParseUnsigned(t[1..])
    else ParseUnsigned(t)
  }

  /** JavaScript's `parseFloat`: skip leading white space, read an optional
      sign and the longest decimal literal; `None` is `NaN`. */
  function ParseFloat(s: string): (r: Option<real>)
    ensures r.Some? && r.value < 0.0 ==> TrimStart(s) != [] && TrimStart(s)[0] == '-'
  {
    ParseSigned(TrimStart(s))
  }

  /** Text with no decimal digit in it is `NaN`, the empty string included. */
  lemma NoDigitIsNaN(s: string)
    requires forall i :: 0 <= i < |s| ==> !IsDigit(s[i])
    ensures ParseFloat(s) == None
  {
    var t := TrimStart(s);
    assert forall i :: 0 <= i < |t| ==> !IsDigit(t[i]) by {
      forall i | 0 <= i < |t| ensures t[i] == s[|s| - |t| + i] { }
    }
    assert !StartsNumeric(t);
    if t != [] {
      assert !StartsNumeric(t[1..]) by {
        assert forall i :: 0 <= i < |t| - 1 ==> t[1..][i] == t[i + 1];
      }
    }
  }

  /** The integer digits end where the first non-digit begins. */
  lemma ParseUnsignedSplit(ds: string, t: string)
    requires AllDigits(ds)
    requires t == [] || !IsDigit(t[0])
    ensures ParseUnsigned(ds + t) == ReadFraction(ds, t)
  {
    var u := ds + t;
    DigitRunOfDigits(ds, t);
    assert u[..|ds|] == ds;
    assert u[|ds|..] == t;
  }

  lemma ParseUnsignedOfDigits(ds: string, t: string)
    requires ds != [] && AllDigits(ds)
    requires t == [] || !(IsDigit(t[0]) || t[0] == '.' || t[0] == 'e' || t[0] == 'E')
    ensures ParseUnsigned(ds + t) == Some(DigitsValue(ds) as real)
  {
    ParseUnsignedSplit(ds, t);
    assert ReadFraction(ds, t) == Mantissa(ds, [], t);
    assert FractionValue([]) == 0.0;
  }

  /** A run of digits followed by text that cannot continue the number reads
      as exactly the digits' value, with or without a leading minus sign. */
  lemma {:induction false} ParseFloatOfDigits(ds: string, t: string)
    requires ds != [] && AllDigits(ds)
    requires t == [] || !(IsDigit(t[0]) || t[0] == '.' || t[0] == 'e' || t[0] == 'E')
    ensures ParseFloat(ds + t) == Some(DigitsValue(ds) as real)
    ensures ParseFloat("-" + ds + t) == Some(-(DigitsValue(ds) as real))
  {
    var u := ds + t;
    ParseUnsignedOfDigits(ds, t);
    assert u[0] == ds[0];
    TrimStartNoSpace(u);
    ParseFloatNegated(u);
    assert "-" + ds + t == "-" + u;
  }

  /** A leading minus sign negates whatever the rest reads as. */
  lemma ParseFloatNegated(u: string)
    ensures ParseFloat("-" + u) == Negate(ParseUnsigned(u))
  {
    var v := "-" + u;
    assert TrimStart(v) == v by { TrimStartNoSpace(v); }
    assert v[0] == '-' && v[1..] == u;
  }

  lemma TrimStartNoSpace(s: string)
    requires s == [] || !IsJsSpace(s[0])
    ensures TrimStart(s) == s
  {
  }

  lemma ReadFractionOf(ds: string, fs: string)
    requires AllDigits(ds) && AllDigits(fs)
    ensures ReadFraction(ds, "." + fs) == Mantissa(ds, fs, [])
  {
    var after := "." + fs;
    assert after[1..] == fs;
    DigitRunOfDigits(fs, []);
    assert fs + [] == fs;
    assert fs[..|fs|] == fs && fs[|fs|..] == [];
  }

  lemma MantissaWithoutExponent(ds: string, fs: string)
    requires AllDigits(ds) && AllDigits(fs) && fs != []
    ensures Mantissa(ds, fs, []) == Some(DigitsValue(ds) as real + FractionValue(fs))
  {
  }

  lemma ParseUnsignedOfFraction(ds: string, fs: string)
    requires AllDigits(ds) && AllDigits(fs) && fs != []
    ensures ParseUnsigned(ds + ("." + fs)) == Some(DigitsValue(ds) as real + FractionValue(fs))
  {
    ParseUnsignedSplit(ds, "." + fs);
    ReadFractionOf(ds, fs);
    MantissaWithoutExponent(ds, fs);
  }

  /** `ds.fs` reads as the decimal fraction it denotes. */
  lemma {:induction false} ParseFloatOfFraction(ds: string, fs: string)
    requires AllDigits(ds) && AllDigits(fs) && fs != []
    ensures ParseFloat(ds + "." + fs) == Some(DigitsValue(ds) as real + FractionValue(fs))
  {
    var u := ds + "." + fs;
    assert u == ds + ("." + fs);
    ParseUnsignedOfFraction(ds, fs);
    assert u[0] == if ds != [] then ds[0] else '.';
    TrimStartNoSpace(u);
  }
  /** Leading white space does not change what `parseFloat` reads. */
  lemma {:induction false} ParseFloatSkipsSpace(ch: char, s: string)
    requires IsJsSpace(ch)
    ensures ParseFloat([ch] + s) == ParseFloat(s)
  {
    var v := [ch] + s;
    assert v[0] == ch && v[1..] == s;
  }

  /** The exponent `e` digits (or `e-` digits) scales the value by a power of ten. */
  lemma ApplyExponentOf(m: real, es: string)
    requires es != [] && AllDigits(es)
    ensures ApplyExponent(m, "e" + es) == ShiftLeft(m, DigitsValue(es))
    ensures ApplyExponent(m, "e-" + es) == ShiftRight(m, DigitsValue(es))
  {
    DigitRunOfDigits(es, []);
    assert es + [] == es && es[..|es|] == es;
    var up := "e" + es;
    assert up[1..] == es;
    var down := "e-" + es;
    assert down[1..] == "-" + es && ("-" + es)[1..] == es;
  }

  /** Digits followed by an exponent part read as the digits' value scaled by it. */
  lemma ParseUnsignedOfExponent(ds: string, rest: string)
    requires ds != [] && AllDigits(ds)
    requires rest != [] && rest[0] == 'e'
    ensures ParseUnsigned(ds + rest) == Some(ApplyExponent(DigitsValue(ds) as real, rest))
  {
    ParseUnsignedSplit(ds, rest);
    assert ReadFraction(ds, rest) == Mantissa(ds, [], rest);
    assert FractionValue([]) == 0.0;
  }

  lemma ParseFloatOfUnsigned(u: string)
    requires u != [] && IsDigit(u[0])
    ensures ParseFloat(u) == ParseUnsigned(u)
  {
    TrimStartNoSpace(u);
  }

  lemma ParseFloatOfExponentPart(ds: string, rest: string)
    requires ds != [] && AllDigits(ds)
    requires rest != [] && rest[0] == 'e'
    ensures ParseFloat(ds + rest) == Some(ApplyExponent(DigitsValue(ds) as real, rest))
  {
    var u := ds + rest;
    assert u[0] == ds[0];
    ParseUnsignedOfExponent(ds, rest);
    ParseFloatOfUnsigned(u);
  }

  /** Digits, `e` and exponent digits read as the digits' value with the
      decimal point moved right (or, after `e-`, left) by the exponent. */
  lemma {:induction false} ParseFloatOfExponent(ds: string, es: string)
    requires ds != [] && AllDigits(ds)
    requires es != [] && AllDigits(es)
    ensures ParseFloat(ds + "e" + es) == Some(ShiftLeft(DigitsValue(ds) as real, DigitsValue(es)))
    ensures ParseFloat(ds + "e-" + es) == Some(ShiftRight(DigitsValue(ds) as real, DigitsValue(es)))
  {
    ApplyExponentOf(DigitsValue(ds) as real, es);
    assert ds + "e" + es == ds + ("e" + es);
    ParseFloatOfExponentPart(ds, "e" + es);
    assert ds + "e-" + es == ds + ("e-" + es);
    ParseFloatOfExponentPart(ds, "e-" + es);
  }
}
