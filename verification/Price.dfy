/** Conversion of a store price to zatoshis, rounding up, without floating point. */
module Price {
  import opened Common
  import opened Decimals
  import opened Text
  import opened Amounts

  /** The number `digits / 10^scale`. */
  datatype Decimal = Decimal(digits: nat, scale: nat)

  /** Digits, or digits, a point and digits. */
  predicate IsPlain(s: string) {
    && Before(s, '.') != "" && AllDigits(Before(s, '.')) && AllDigits(Behind(s, '.'))
    && ('.' in s ==> Behind(s, '.') != "")
  }

  function ParseDecimal(text: string): Option<Decimal> {
    var s := Trim(text, JavaScript);
    if !IsPlain(s) then None
    else
      Some(Decimal(Value(Before(s, '.') + Behind(s, '.')), |Behind(s, '.')|))
  }

  /** `rate` is how many ZEC one unit of the store currency buys. */
  function AmountToZat(amount: string, isZec: bool, rate: Option<string>): Option<nat> {
    if isZec then
      var zat := ZecToZat(amount);
      if zat.Some? && zat.value > 0 then zat else None
    else
      var a := ParseDecimal(amount);
      var r := if rate.None? then None else ParseDecimal(rate.value);
      if a.None? || r.None? || r.value.digits == 0 then None
      else
        var product := a.value.digits * r.value.digits * ZAT_PER_ZEC;
        var divisor := Pow10(a.value.scale + r.value.scale);
        var zat := (product + divisor - 1) / divisor;
        if zat > 0 then Some(zat) else None
  }

  /** `zat` zatoshis are at least the amount at the rate. */
  predicate Covers(zat: nat, amount: Decimal, rate: Decimal) {
    zat * Pow10(amount.scale + rate.scale) >= amount.digits * rate.digits * ZAT_PER_ZEC
  }

  lemma CeilingIsLeast(product: nat, divisor: nat)
    requires divisor >= 1
    ensures var z := (product + divisor - 1) / divisor;
      z * divisor >= product && (z > 0 ==> (z - 1) * divisor < product) && (z > 0 <==> product > 0)
  {
    var z, rest := (product + divisor - 1) / divisor, (product + divisor - 1) % divisor;
    assert product + divisor - 1 == z * divisor + rest;
    assert z > 0 ==> (z - 1) * divisor == z * divisor - divisor;
    assert z == 0 ==> z * divisor == 0;
  }

  lemma PositiveProduct(a: nat, b: nat)
    ensures a * b * ZAT_PER_ZEC > 0 <==> a > 0 && b > 0
  {
    if a > 0 && b > 0 { AtLeast(a, b); }
  }

  /** The price is the exact ceiling: the least zatoshi count that does not leave the merchant short. */
  lemma ExactCeiling(amount: string, rate: string)
    ensures var zat, a, r := AmountToZat(amount, false, Some(rate)), ParseDecimal(amount), ParseDecimal(rate);
      && (zat.Some? <==> a.Some? && r.Some? && a.value.digits > 0 && r.value.digits > 0)
      && (zat.Some? ==> zat.value > 0 && Covers(zat.value, a.value, r.value) && !Covers(zat.value - 1, a.value, r.value))
  {
    var a, r := ParseDecimal(amount), ParseDecimal(rate);
    if a.Some? && r.Some? {
      PositiveProduct(a.value.digits, r.value.digits);
      CeilingIsLeast(a.value.digits * r.value.digits * ZAT_PER_ZEC, Pow10(a.value.scale + r.value.scale));
    }
  }

  /** An amount in ZEC is taken as it is, if it is positive and below 10^18 zatoshis. */
  lemma ZecIsTaken(amount: string, rate: Option<string>)
    ensures var z := Amount(amount);
      AmountToZat(amount, true, rate) == if z.Some? && 0 < z.value < Pow10(18) && NEXT_LINE !in amount then z else None
  {
    hide ZecToZat, Amount, Pow10;
    ScriptReads(amount);
  }

  /** A store currency without a rate has no price. */
  lemma NoRateNoPrice(amount: string)
    ensures AmountToZat(amount, false, None) == None
  {
  }

  /** Covering is a matter of the number, not of its text. */
  predicate SameNumber(d: Decimal, e: Decimal) {
    d.digits * Pow10(e.scale) == e.digits * Pow10(d.scale)
  }

  lemma Cancel(x: nat, y: nat, p: nat)
    requires p >= 1
    ensures x * p >= y * p <==> x >= y
  {
    if x < y { Apart(x, y, p); }
  }

  lemma Apart(x: nat, y: nat, p: nat)
    requires x < y && p >= 1
    ensures x * p < y * p
  {
  }

  lemma Regroup(z: nat, a: nat, b: nat, c: nat)
    ensures z * (a * b) * c == z * (c * b) * a
  {
    assert (a * b) * c == (c * b) * a;
    assert z * (a * b) * c == z * ((a * b) * c);
    assert z * (c * b) * a == z * ((c * b) * a);
  }

  lemma Swap(a: nat, b: nat, c: nat, d: nat, r: nat)
    requires a * b == c * d
    ensures a * r * ZAT_PER_ZEC * b == c * r * ZAT_PER_ZEC * d
  {
    assert a * r * ZAT_PER_ZEC * b == (a * b) * (r * ZAT_PER_ZEC);
    assert c * r * ZAT_PER_ZEC * d == (c * d) * (r * ZAT_PER_ZEC);
  }

  lemma CrossMultiply(z: nat, d: nat, e: nat, r: nat, pd: nat, pe: nat, pr: nat)
    requires pd >= 1 && pe >= 1 && d * pe == e * pd
    ensures z * (pd * pr) >= d * r * ZAT_PER_ZEC <==> z * (pe * pr) >= e * r * ZAT_PER_ZEC
  {
    Cancel(z * (pd * pr), d * r * ZAT_PER_ZEC, pe);
    Cancel(z * (pe * pr), e * r * ZAT_PER_ZEC, pd);
    Regroup(z, pd, pr, pe);
    Swap(d, pe, e, pd, r);
  }

  lemma SameNumberCovers(zat: nat, d: Decimal, e: Decimal, rate: Decimal)
    requires SameNumber(d, e)
    ensures Covers(zat, d, rate) <==> Covers(zat, e, rate)
  {
    hide Pow10;
    Pow10Sum(d.scale, rate.scale);
    Pow10Sum(e.scale, rate.scale);
    CrossMultiply(zat, d.digits, e.digits, rate.digits, Pow10(d.scale), Pow10(e.scale), Pow10(rate.scale));
  }

  lemma MoreCovers(z: nat, y: nat, d: Decimal, rate: Decimal)
    requires Covers(z, d, rate) && z <= y
    ensures Covers(y, d, rate)
  {
    if z < y { Apart(z, y, Pow10(d.scale + rate.scale)); }
  }

  /** The price depends on the number alone: texts of the same amount give the same zatoshis. */
  lemma SameNumberSamePrice(s: string, t: string, rate: string)
    requires ParseDecimal(s).Some? && ParseDecimal(t).Some?
    requires SameNumber(ParseDecimal(s).value, ParseDecimal(t).value)
    ensures AmountToZat(s, false, Some(rate)) == AmountToZat(t, false, Some(rate))
  {
    hide AmountToZat, ParseDecimal, Covers;
    var d, e, r := ParseDecimal(s).value, ParseDecimal(t).value, ParseDecimal(rate);
    ExactCeiling(s, rate);
    ExactCeiling(t, rate);
    SameZero(d, e);
    var y, z := AmountToZat(s, false, Some(rate)), AmountToZat(t, false, Some(rate));
    if y.Some? && z.Some? {
      SameNumberCovers(y.value, d, e, r.value);
      SameNumberCovers(z.value, d, e, r.value);
      if y.value < z.value {
        MoreCovers(y.value, z.value - 1, e, r.value);
      } else if z.value < y.value {
        MoreCovers(z.value, y.value - 1, d, r.value);
      }
    }
  }

  lemma SameZero(d: Decimal, e: Decimal)
    requires SameNumber(d, e)
    ensures d.digits > 0 <==> e.digits > 0
  {
    if d.digits > 0 { AtLeast(d.digits, Pow10(e.scale)); }
    if e.digits > 0 { AtLeast(e.digits, Pow10(d.scale)); }
  }

  // ------------------------------------------------------------------ money in minor units

  const MAX_SAFE_INTEGER: nat := 0x1F_FFFF_FFFF_FFFF

  /** An amount in cents, say, as a decimal string. */
  function MinorUnitsToString(amount: int, precision: int): Option<string> {
    if amount < 0 || amount > MAX_SAFE_INTEGER || precision < 0 || precision > 18 then None
    else if precision == 0 then Some(Digits(amount))
    else
      var digits := PadLeft(Digits(amount), precision + 1);
      Some(digits[..|digits| - precision] + "." + digits[|digits| - precision..])
  }

  lemma PlainWhole(w: string)
    requires w != "" && AllDigits(w)
    ensures IsPlain(w) && ParseDecimal(w) == Some(Decimal(Value(w), 0))
  {
    hide IsSpace;
    DigitsHaveNoPoint(w, '.');
    IndexOfFirst(w, "", '.');
    TrimNothing(w, JavaScript);
    assert w[..|w|] == w && w + "" == w;
  }

  lemma PlainFraction(w: string, f: string)
    requires w != "" && f != "" && AllDigits(w) && AllDigits(f)
    ensures IsPlain(w + "." + f) && ParseDecimal(w + "." + f) == Some(Decimal(Value(w + f), |f|))
  {
    hide IsSpace;
    var s := w + "." + f;
    DigitsHaveNoPoint(w, '.');
    IndexOfFirst(w, f, '.');
    assert s[0] == w[0] && s[|s| - 1] == f[|f| - 1];
    TrimNothing(s, JavaScript);
    assert s[..|w|] == w && s[|w| + 1..] == f;
  }

  /** The text denotes exactly the amount it was given. */
  lemma MinorUnitsExact(amount: int, precision: int)
    ensures var text := MinorUnitsToString(amount, precision);
      && (text.Some? <==> 0 <= amount <= 9_007_199_254_740_991 && 0 <= precision <= 18)
      && (text.Some? ==> ParseDecimal(text.value) == Some(Decimal(amount, precision)))
  {
    hide ParseDecimal, IsPlain, Value, Digits;
    if 0 <= amount <= MAX_SAFE_INTEGER && 0 <= precision <= 18 {
      var n: nat := amount;
      DigitsValue(n);
      if precision == 0 {
        PlainWhole(Digits(n));
      } else {
        var digits := PadLeft(Digits(n), precision + 1);
        PadLeftValue(Digits(n), precision + 1);
        var w, f := digits[..|digits| - precision], digits[|digits| - precision..];
        PlainFraction(w, f);
        assert w + f == digits;
      }
    }
  }

  /** A Vendure order is priced at the exact ceiling of its minor units at the rate. */
  lemma VendurePrice(amount: int, precision: int, rate: string)
    requires MinorUnitsToString(amount, precision).Some?
    ensures var zat, r := AmountToZat(MinorUnitsToString(amount, precision).value, false, Some(rate)), ParseDecimal(rate);
      && (zat.Some? <==> r.Some? && r.value.digits > 0 && amount > 0)
      && (zat.Some? ==> 0 < zat.value && 0 <= precision && 0 <= amount)
      && (zat.Some? ==> Covers(zat.value, Decimal(amount, precision), r.value))
      && (zat.Some? ==> !Covers(zat.value - 1, Decimal(amount, precision), r.value))
  {
    hide AmountToZat, ParseDecimal, MinorUnitsToString, Covers;
    MinorUnitsExact(amount, precision);
    ExactCeiling(MinorUnitsToString(amount, precision).value, rate);
  }

  // ------------------------------------------------------------------ numbers with an exponent

  /** A JavaScript number text: digits, optionally a point and digits, `e` and a signed exponent. */
  datatype Scientific = Scientific(whole: string, fraction: string, exponent: int)

  predicate IsScientific(x: Scientific) {
    x.whole != "" && AllDigits(x.whole) && AllDigits(x.fraction)
  }

  predicate IsE(c: char) { c == 'e' || c == 'E' }

  function IndexOfE(s: string): (i: nat)
    ensures i <= |s| && (i < |s| ==> IsE(s[i]))
  {
    if s == "" || IsE(s[0]) then 0 else IndexOfE(s[1..]) + 1
  }

  /** The parts of an exponent text, or nothing if the text has another form. */
  function ReadScientific(s: string): (x: Option<Scientific>)
    ensures x.Some? ==> IsScientific(x.value)
  {
    var i := IndexOfE(s);
    if i == |s| || i + 2 >= |s| then None
    else
      var mantissa, sign, digits := s[..i], s[i + 1], s[i + 2..];
      if !IsPlain(mantissa) || (sign != '+' && sign != '-') || !AllDigits(digits) then None
      else
        var size: int := Value(digits);
        Some(Scientific(Before(mantissa, '.'), Behind(mantissa, '.'), if sign == '-' then -size else size))
  }

  function Signed(negative: bool, n: int): int { if negative then -n else n }

  /** The mantissa as a number text shows it. */
  function Mantissa(whole: string, fraction: string): string {
    if fraction == "" then whole else whole + "." + fraction
  }

  lemma {:induction false} FirstE(s: string, e: char, t: string)
    requires (forall i :: 0 <= i < |s| ==> !IsE(s[i])) && IsE(e)
    ensures IndexOfE(s + [e] + t) == |s|
  {
    if s != "" {
      FirstE(s[1..], e, t);
      assert (s + [e] + t)[1..] == s[1..] + [e] + t;
    }
  }

  lemma MantissaParts(whole: string, fraction: string)
    requires whole != "" && AllDigits(whole) && AllDigits(fraction)
    ensures var m := Mantissa(whole, fraction);
      IsPlain(m) && Before(m, '.') == whole && Behind(m, '.') == fraction && forall i :: 0 <= i < |m| ==> !IsE(m[i])
  {
    var m := Mantissa(whole, fraction);
    DigitsHaveNoPoint(whole, '.');
    IndexOfFirst(whole, fraction, '.');
    assert fraction != "" ==> m[..|whole|] == whole && m[|whole| + 1..] == fraction;
    assert fraction == "" ==> m[..|whole|] == whole;
  }

  /** Every text of that form is read as the number it shows: sign, digits and place of the point. */
  lemma ScientificRead(whole: string, fraction: string, e: char, negative: bool, digits: string)
    requires whole != "" && AllDigits(whole) && AllDigits(fraction) && digits != "" && AllDigits(digits) && IsE(e)
    ensures ReadScientific(Mantissa(whole, fraction) + [e] + [if negative then '-' else '+'] + digits)
         == Some(Scientific(whole, fraction, Signed(negative, Value(digits))))
  {
    hide IsPlain, Value, Mantissa, AllDigits, Before, Behind, IsE, IndexOfE;
    var m, sign := Mantissa(whole, fraction), if negative then '-' else '+';
    var s := m + [e] + [sign] + digits;
    MantissaParts(whole, fraction);
    assert s == m + [e] + ([sign] + digits);
    FirstE(m, e, [sign] + digits);
    assert s[..|m|] == m && s[|m| + 1] == sign && s[|m| + 2..] == digits;
  }

  /** And no other text is read. */
  lemma ScientificOnly(s: string) returns (e: char, negative: bool, digits: string)
    requires ReadScientific(s).Some?
    ensures IsE(e) && digits != "" && AllDigits(digits)
    ensures var x := ReadScientific(s).value;
      && s == Mantissa(x.whole, x.fraction) + [e] + [if negative then '-' else '+'] + digits
      && x.exponent == Signed(negative, Value(digits))
  {
    hide Value;
    var i := IndexOfE(s);
    e, negative, digits := s[i], s[i + 1] == '-', s[i + 2..];
    var m := s[..i];
    var k := IndexOf(m, '.');
    assert m == Mantissa(Before(m, '.'), Behind(m, '.')) by {
      if k < |m| {
        assert '.' in m;
        assert m == m[..k] + "." + m[k + 1..];
      } else {
        assert m[..k] == m;
      }
    }
    assert s == m + [s[i]] + [s[i + 1]] + s[i + 2..];
  }

  function DropZeros(s: string): string {
    if s != "" && s[|s| - 1] == '0' then DropZeros(s[..|s| - 1]) else s
  }

  /** Removes the trailing zeros of a text with a point, and then a trailing point. */
  function Stripped(s: string): string {
    var t := DropZeros(s);
    if t != s && t != "" && t[|t| - 1] == '.' then t[..|t| - 1] else t
  }

  function Expanded(x: Scientific): string {
    var digits := x.whole + x.fraction;
    var point := |x.whole| + x.exponent;
    if point <= 0 then Stripped("0." + Zeros(-point) + digits)
    else if point >= |digits| then digits + Zeros(point - |digits|)
    else Stripped(digits[..point] + "." + digits[point..])
  }

  function ExpandExponent(s: string): string {
    var x := ReadScientific(s);
    if x.None? then s else Expanded(x.value)
  }

  /** `amountToString`: only the text of a number may have an exponent. */
  function AmountToString(s: string, isNumber: bool): Option<string> {
    var t := if isNumber then ExpandExponent(s) else Trim(s, JavaScript);
    if IsPlain(t) then Some(t) else None
  }

  lemma {:induction false} DropZerosShape(f: string)
    requires AllDigits(f)
    ensures |DropZeros(f)| <= |f| && AllDigits(DropZeros(f))
    ensures f == DropZeros(f) + Zeros(|f| - |DropZeros(f)|)
  {
    if f != "" && f[|f| - 1] == '0' {
      var init := f[..|f| - 1];
      DropZerosShape(init);
      var t := DropZeros(init);
      assert Zeros(|f| - |t|) == Zeros(|init| - |t|) + "0";
      assert f == init + "0";
    }
  }

  lemma {:induction false} DropBehindPoint(w: string, f: string)
    requires AllDigits(f)
    ensures DropZeros(w + "." + f) == w + "." + DropZeros(f)
  {
    var s := w + "." + f;
    if f != "" {
      assert s[|s| - 1] == f[|f| - 1];
      assert s[..|s| - 1] == w + "." + f[..|f| - 1];
      if f[|f| - 1] == '0' { DropBehindPoint(w, f[..|f| - 1]); }
    }
  }

  lemma Reassociate(a: nat, p: nat, q: nat)
    ensures a * p * q == a * (q * p)
  {
  }

  lemma StrippedText(w: string, f: string)
    requires w != "" && f != "" && AllDigits(w) && AllDigits(f)
    ensures var t := DropZeros(f); Stripped(w + "." + f) == if t == "" then w else w + "." + t
  {
    hide DropZeros, AllDigits;
    var t := DropZeros(f);
    DropZerosShape(f);
    DropBehindPoint(w, f);
    if t == "" {
      assert w + "." + t == w + ".";
      assert |w + "." + f| > |w + "."|;
      assert (w + ".")[..|w|] == w;
    } else {
      LastOf(w, t);
    }
  }

  lemma ZerosBehind(s: string, k: nat)
    requires AllDigits(s)
    ensures AllDigits(s + Zeros(k)) && Value(s + Zeros(k)) == Value(s) * Pow10(k)
  {
    ValueConcat(s, Zeros(k));
    ZerosValue(k);
  }

  lemma ZerosBefore(k: nat, s: string)
    requires AllDigits(s)
    ensures AllDigits(Zeros(k) + s) && Value(Zeros(k) + s) == Value(s)
  {
    ValueConcat(Zeros(k), s);
    ZerosValue(k);
  }

  /** Dropping the trailing zeros of the fraction keeps the number. */
  lemma StripKeepsNumber(w: string, f: string)
    requires w != "" && f != "" && AllDigits(w) && AllDigits(f)
    ensures IsPlain(Stripped(w + "." + f)) && ParseDecimal(Stripped(w + "." + f)).Some?
    ensures SameNumber(ParseDecimal(Stripped(w + "." + f)).value, Decimal(Value(w + f), |f|))
  {
    hide ParseDecimal, IsPlain, Stripped, DropZeros, Value, Pow10;
    var t := DropZeros(f);
    var k := |f| - |t|;
    DropZerosShape(f);
    StrippedText(w, f);
    ZerosBehind(w + t, k);
    assert w + f == (w + t) + Zeros(k);
    Pow10Sum(|t|, k);
    Reassociate(Value(w + t), Pow10(k), Pow10(|t|));
    if t == "" {
      assert w + t == w;
      PlainWhole(w);
    } else {
      PlainFraction(w, t);
    }
  }

  lemma LastOf(w: string, t: string)
    requires t != "" && AllDigits(t)
    ensures (w + "." + t)[|w + "." + t| - 1] != '.'
  {
  }

  /** A plain decimal denotes the mantissa times the power of ten of the exponent. */
  predicate Denotes(d: Decimal, x: Scientific)
    requires IsScientific(x)
  {
    var e := x.exponent - |x.fraction|;
    d.digits * Pow10(Max(-e, 0)) == Value(x.whole + x.fraction) * Pow10(Max(e, 0)) * Pow10(d.scale)
  }

  lemma Shifted(d: Decimal, n: nat, k: nat)
    requires SameNumber(d, Decimal(n, k))
    ensures d.digits * Pow10(k) == n * Pow10(0) * Pow10(d.scale)
  {
    assert Pow10(0) == 1;
  }

  lemma SmallExact(x: Scientific)
    requires IsScientific(x) && |x.whole| + x.exponent <= 0
    ensures IsPlain(Expanded(x)) && ParseDecimal(Expanded(x)).Some? && Denotes(ParseDecimal(Expanded(x)).value, x)
  {
    hide ParseDecimal, IsPlain, Stripped, Value, Pow10, SameNumber;
    var digits, point := x.whole + x.fraction, |x.whole| + x.exponent;
    var f := Zeros(-point) + digits;
    ZerosBefore(-point, digits);
    ZerosBefore(1, f);
    assert Zeros(1) + f == "0" + f;
    assert "0." + Zeros(-point) + digits == "0" + "." + f;
    StripKeepsNumber("0", f);
    Shifted(ParseDecimal(Expanded(x)).value, Value(digits), |f|);
  }

  lemma MiddleExact(x: Scientific)
    requires IsScientific(x) && 0 < |x.whole| + x.exponent < |x.whole + x.fraction|
    ensures IsPlain(Expanded(x)) && ParseDecimal(Expanded(x)).Some? && Denotes(ParseDecimal(Expanded(x)).value, x)
  {
    hide ParseDecimal, IsPlain, Stripped, Value, Pow10, SameNumber;
    var digits, point := x.whole + x.fraction, |x.whole| + x.exponent;
    StripKeepsNumber(digits[..point], digits[point..]);
    assert digits[..point] + digits[point..] == digits;
    Shifted(ParseDecimal(Expanded(x)).value, Value(digits), |digits| - point);
  }

  lemma LargeExact(x: Scientific)
    requires IsScientific(x) && |x.whole| + x.exponent >= |x.whole + x.fraction|
    ensures IsPlain(Expanded(x)) && ParseDecimal(Expanded(x)).Some? && Denotes(ParseDecimal(Expanded(x)).value, x)
  {
    hide ParseDecimal, IsPlain, Value;
    var digits, point := x.whole + x.fraction, |x.whole| + x.exponent;
    PlainWhole(digits + Zeros(point - |digits|));
    ZerosBehind(digits, point - |digits|);
    assert Pow10(0) == 1;
  }

  /** Expanding an exponent never rounds: the plain text denotes exactly the number it was given. */
  lemma ExpandedExact(x: Scientific)
    requires IsScientific(x)
    ensures IsPlain(Expanded(x)) && ParseDecimal(Expanded(x)).Some? && Denotes(ParseDecimal(Expanded(x)).value, x)
  {
    hide ParseDecimal, IsPlain, Expanded, Denotes;
    if |x.whole| + x.exponent <= 0 {
      SmallExact(x);
    } else if |x.whole| + x.exponent < |x.whole + x.fraction| {
      MiddleExact(x);
    } else {
      LargeExact(x);
    }
  }

  /**
   * Every Medusa amount that is accepted is priced at the exact ceiling of the number it stands for:
   * mantissa times power of ten if the text of a number has an exponent, and otherwise the plain
   * decimal as it is written. A number with an exponent is always accepted.
   */
  lemma MedusaPrice(s: string, isNumber: bool, rate: string)
    ensures AmountToString(s, isNumber).Some?
       <==> (isNumber && ReadScientific(s).Some?) || IsPlain(if isNumber then s else Trim(s, JavaScript))
    ensures AmountToString(s, isNumber).Some? ==>
      var text := AmountToString(s, isNumber).value;
      var amount, zat, r := ParseDecimal(text), AmountToZat(text, false, Some(rate)), ParseDecimal(rate);
      && amount.Some?
      && (isNumber && ReadScientific(s).Some? ==> Denotes(amount.value, ReadScientific(s).value))
      && (!(isNumber && ReadScientific(s).Some?) ==> amount == ParseDecimal(s))
      && (zat.Some? <==> r.Some? && r.value.digits > 0 && amount.value.digits > 0)
      && (zat.Some? ==> zat.value > 0 && Covers(zat.value, amount.value, r.value))
      && (zat.Some? ==> !Covers(zat.value - 1, amount.value, r.value))
  {
    hide ReadScientific, AmountToZat, ParseDecimal, IsPlain, Denotes, Covers, Expanded, Trim;
    if AmountToString(s, isNumber).Some? {
      ExactCeiling(AmountToString(s, isNumber).value, rate);
    }
    if isNumber && ReadScientific(s).Some? {
      ExpandedExact(ReadScientific(s).value);
    } else {
      PlainIsTrimmed(s);
      PlainIsTrimmed(Trim(s, JavaScript));
      TrimTwice(s);
    }
  }

  /** Trimming leaves a plain decimal alone, and any text that is trimmed already. */
  lemma PlainIsTrimmed(s: string)
    ensures IsPlain(s) ==> Trim(s, JavaScript) == s && ParseDecimal(s).Some?
  {
    hide IsSpace;
    if IsPlain(s) {
      var i := IndexOf(s, '.');
      assert s[0] == Before(s, '.')[0];
      assert i < |s| ==> Behind(s, '.') != "" && s[|s| - 1] == Behind(s, '.')[|Behind(s, '.')| - 1];
      assert i == |s| ==> Before(s, '.') == s;
      TrimNothing(s, JavaScript);
    }
  }

  lemma TrimTwice(s: string)
    ensures IsPlain(Trim(s, JavaScript)) ==> ParseDecimal(Trim(s, JavaScript)) == ParseDecimal(s)
  {
    PlainIsTrimmed(Trim(s, JavaScript));
  }
}
