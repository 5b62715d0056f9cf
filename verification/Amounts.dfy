/** ZEC amounts as text: the service's own format and parser, and the parser of the shop plugins. */
module Amounts {
  import opened Common
  import opened Decimals
  import opened Text

  const ZAT_PER_ZEC: nat := 100_000_000
  const I64_MAX: int := 0x7FFF_FFFF_FFFF_FFFF

  function Abs(n: int): nat { if n < 0 then -n else n }

  /** `format_zat_as_zec`, and `zatToZec` of the plugins. */
  function FormatZat(zat: int): string {
    (if zat < 0 then "-" else "")
    + Digits(Abs(zat) / ZAT_PER_ZEC) + "." + PadLeft(Digits(Abs(zat) % ZAT_PER_ZEC), 8)
  }

  function Before(s: string, c: char): string { s[..IndexOf(s, c)] }

  function Behind(s: string, c: char): string {
    var i := IndexOf(s, c);
    if i < |s| then s[i + 1..] else ""
  }

  /** Digits with an optional point and at most eight decimals, and at least one of either. */
  predicate IsZecText(s: string) {
    var whole, fraction := Before(s, '.'), Behind(s, '.');
    (whole != "" || fraction != "") && |fraction| <= 8 && AllDigits(whole) && AllDigits(fraction)
  }

  function ZatOf(whole: string, fraction: string): nat
    requires AllDigits(whole) && AllDigits(fraction) && |fraction| <= 8
  {
    PadRightValue(fraction, 8);
    Value(whole) * ZAT_PER_ZEC + Value(PadRight(fraction, 8))
  }

  /** `parse_zec_amount`: every step that overflows an i64 makes the text unusable. */
  function ParseZec(text: string): Option<nat> {
    var s := Trim(text, Rust);
    if !IsZecText(s) then None
    else
      var whole := Value(Before(s, '.'));
      if whole > I64_MAX then None
      else if whole * ZAT_PER_ZEC > I64_MAX then None
      else
        var zat := ZatOf(Before(s, '.'), Behind(s, '.'));
        if zat > I64_MAX then None else Some(zat)
  }

  /** `zecToZat` of the plugins: at most ten significant digits before the point. */
  function ZecToZat(text: string): Option<nat> {
    var s := Trim(text, JavaScript);
    if !IsZecText(s) then None
    else
      var whole := if Before(s, '.') == "" then "0" else Before(s, '.');
      if |Significant(whole)| > 10 then None
      else
        Some(ZatOf(whole, Behind(s, '.')))
  }

  // ------------------------------------------------------------------ round trips

  lemma FormatShape(n: nat)
    ensures var whole, fraction := Digits(n / ZAT_PER_ZEC), PadLeft(Digits(n % ZAT_PER_ZEC), 8);
      && FormatZat(n) == whole + "." + fraction
      && AllDigits(fraction) && |fraction| == 8 && ZatOf(whole, fraction) == n
  {
    var whole, fraction := n / ZAT_PER_ZEC, n % ZAT_PER_ZEC;
    assert Pow10(8) == ZAT_PER_ZEC;
    DigitsLength(fraction, 8);
    PadLeftValue(Digits(fraction), 8);
    DigitsValue(whole);
    DigitsValue(fraction);
  }

  lemma DigitsHaveNoPoint(s: string, c: char)
    requires AllDigits(s) && !IsDigit(c)
    ensures c !in s
  {
  }

  /** A formatted amount is read back part by part. */
  lemma FormatReads(n: nat, w: Spaces)
    ensures var s, whole, fraction := FormatZat(n), Digits(n / ZAT_PER_ZEC), PadLeft(Digits(n % ZAT_PER_ZEC), 8);
      && Trim(s, w) == s && IsZecText(s)
      && Before(s, '.') == whole && Behind(s, '.') == fraction && |fraction| == 8
      && ZatOf(whole, fraction) == n
  {
    hide Trim, IsSpace, IndexOf, Digits, PadLeft, ZatOf;
    var s, whole, fraction := FormatZat(n), Digits(n / ZAT_PER_ZEC), PadLeft(Digits(n % ZAT_PER_ZEC), 8);
    FormatShape(n);
    DigitsHaveNoPoint(whole, '.');
    IndexOfFirst(whole, fraction, '.');
    assert s[..|whole|] == whole && s[|whole| + 1..] == fraction;
    assert s[0] == whole[0] && s[|s| - 1] == fraction[7];
    TrimNothing(s, w);
  }

  /** The service reads its own text back exactly for every amount that is not negative. */
  lemma FormatRoundTrip(n: int)
    requires -I64_MAX - 1 <= n <= I64_MAX
    ensures ParseZec(FormatZat(n)) == (if n >= 0 then Some(n) else None)
  {
    if n >= 0 {
      FormatReads(n, Rust);
      DigitsValue(n / ZAT_PER_ZEC);
    } else {
      NegativeIsNoText(n, Rust);
    }
  }

  lemma NegativeIsNoText(n: int, w: Spaces)
    requires n < 0
    ensures Trim(FormatZat(n), w) == FormatZat(n) && !IsZecText(FormatZat(n))
  {
    hide Digits, PadLeft, ZatOf, IndexOf, Trim, IsSpace;
    var s, m := FormatZat(n), Abs(n);
    FormatReads(m, w);
    assert s == "-" + FormatZat(m);
    assert s[|s| - 1] == FormatZat(m)[|FormatZat(m)| - 1];
    TrimNothing(s, w);
    var i := IndexOf(s, '.');
    assert s[0] == '-';
    assert i > 0 ==> Before(s, '.')[0] == '-';
  }

  /** Formatting an accepted text again keeps its value. */
  lemma ReformatKeepsValue(text: string)
    requires ParseZec(text).Some?
    ensures ParseZec(FormatZat(ParseZec(text).value)) == ParseZec(text)
  {
    FormatRoundTrip(ParseZec(text).value);
  }

  // ------------------------------------------------------------------ the two parsers

  /** The amount a text stands for if the white space of either language around it is ignored. */
  function Amount(text: string): Option<nat> {
    var s := Trim(text, Either);
    if IsZecText(s) then Some(ZatOf(Before(s, '.'), Behind(s, '.'))) else None
  }

  lemma TextIsClean(s: string, c: char)
    requires IsZecText(s) && !IsDigit(c) && c != '.'
    ensures c !in s
  {
    var i := IndexOf(s, '.');
    DigitsHaveNoPoint(Before(s, '.'), c);
    DigitsHaveNoPoint(Behind(s, '.'), c);
    assert i < |s| ==> s == Before(s, '.') + "." + Behind(s, '.');
  }

  /** A language takes a text for an amount exactly if the text is one without its foreign character. */
  lemma ReadsAmount(text: string, w: Spaces)
    requires !w.Either?
    ensures IsZecText(Trim(text, w)) <==> Amount(text).Some? && Foreign(w) !in text
    ensures Foreign(w) !in text ==> Trim(text, w) == Trim(text, Either)
  {
    hide IsZecText, Trim, IsSpace;
    TrimLike(text, w);
    if IsZecText(Trim(text, w)) { TextIsClean(Trim(text, w), Foreign(w)); }
  }

  /** The service reads every amount up to the largest i64, unless the text holds a byte order mark. */
  lemma ServiceReads(text: string)
    ensures var z := Amount(text);
      ParseZec(text) == if z.Some? && z.value <= 9_223_372_036_854_775_807 && BYTE_ORDER_MARK !in text then z else None
  {
    hide Trim, IsZecText, IsSpace;
    ReadsAmount(text, Rust);
    var s := Trim(text, Rust);
    if IsZecText(s) {
      ZatIsMore(s);
    }
  }

  lemma ZatIsMore(s: string)
    requires IsZecText(s)
    ensures ZatOf(Before(s, '.'), Behind(s, '.')) >= Value(Before(s, '.')) * ZAT_PER_ZEC >= Value(Before(s, '.'))
  {
    PadRightValue(Behind(s, '.'), 8);
  }

  /** The plugins read every amount below 10^18 zatoshis, unless the text holds a next-line character. */
  lemma ScriptReads(text: string)
    ensures var z := Amount(text);
      ZecToZat(text) == if z.Some? && z.value < Pow10(18) && NEXT_LINE !in text then z else None
  {
    hide Trim, IsSpace;
    ReadsAmount(text, JavaScript);
    var s := Trim(text, JavaScript);
    if IsZecText(s) {
      var whole, fraction := Before(s, '.'), Behind(s, '.');
      var filled := if whole == "" then "0" else whole;
      assert Value("0") == 0 && Value("") == 0;
      assert Value(filled) == Value(whole);
      SignificantLength(filled, 10);
      PadRightValue(fraction, 8);
      ValueBelow(PadRight(fraction, 8));
      Powers();
    }
  }

  /**
   * Up to the ten digits the plugins accept, plugins and service read the same amount or nothing at
   * all from a text, except exactly when the text stands for such an amount and holds one of the two
   * characters that only one of their languages takes for white space.
   */
  lemma ReceiversAgree(text: string)
    ensures var z := Amount(text);
      ZecToZat(text) == (if ParseZec(text).Some? && ParseZec(text).value < Pow10(18) then ParseZec(text) else None)
      <==> !(z.Some? && z.value < Pow10(18) && (NEXT_LINE in text <==> BYTE_ORDER_MARK !in text))
  {
    hide Amount, ZecToZat, ParseZec, Pow10;
    ServiceReads(text);
    ScriptReads(text);
    Powers();
  }

  /** Two texts that only the service, and only the plugins, read as one ZEC. */
  lemma ReceiversDiffer()
    ensures ParseZec([NEXT_LINE] + "1") == Some(ZAT_PER_ZEC) && ZecToZat([NEXT_LINE] + "1") == None
    ensures ParseZec([BYTE_ORDER_MARK] + "1") == None && ZecToZat([BYTE_ORDER_MARK] + "1") == Some(ZAT_PER_ZEC)
  {
    hide Amount, ZecToZat, ParseZec, Pow10;
    var s, t := [NEXT_LINE] + "1", [BYTE_ORDER_MARK] + "1";
    assert NEXT_LINE == s[0] && BYTE_ORDER_MARK == t[0];
    OneZec(NEXT_LINE);
    OneZec(BYTE_ORDER_MARK);
    ServiceReads(s);
    ServiceReads(t);
    ScriptReads(s);
    ScriptReads(t);
    Powers();
  }

  lemma OneZec(c: char)
    requires IsSpace(c, Either)
    ensures Amount([c] + "1") == Some(ZAT_PER_ZEC)
  {
    var s := [c] + "1";
    assert s[1..] == "1";
    TrimNothing("1", Either);
    assert Trim(s, Either) == "1";
    assert Before("1", '.') == "1" && Behind("1", '.') == "";
    DigitsValue(1);
    assert Digits(1) == "1" && Value("") == 0;
    PadRightValue("", 8);
  }

  lemma Powers()
    ensures Pow10(8) == ZAT_PER_ZEC && Pow10(10) == 10_000_000_000 && Pow10(18) == 1_000_000_000_000_000_000
  {
    assert Pow10(8) == ZAT_PER_ZEC;
    Pow10Sum(8, 2);
    Pow10Sum(8, 10);
  }

  /** Plugins read a formatted amount exactly below 10^18 zatoshis; the money supply is far below. */
  lemma ReceiversReadFormat(n: int)
    ensures ZecToZat(FormatZat(n)) == if 0 <= n < Pow10(18) then Some(n) else None
  {
    hide FormatZat, Trim, IsZecText, Pow10, ZecToZat;
    ScriptReads(FormatZat(n));
    if n >= 0 {
      FormatReads(n, Either);
      TextIsClean(FormatZat(n), NEXT_LINE);
    } else {
      NegativeIsNoText(n, Either);
    }
  }

  // ------------------------------------------------------------------ what is still owed

  datatype PaymentStatus = AwaitingPayment | PartiallyPaid | Received | PaidInFull

  function Requested(amount: Option<string>): Option<nat> {
    if amount.None? then None else ParseZec(amount.value)
  }

  function StatusFor(amount: Option<string>, total: int): PaymentStatus {
    var requested := Requested(amount);
    if requested.Some? && total >= requested.value then PaidInFull
    else if total <= 0 then AwaitingPayment
    else if requested.Some? then PartiallyPaid
    else Received
  }

  function RemainingAmount(requested: Option<string>, received: int): Option<string> {
    if requested.None? then None
    else
      var zat := ParseZec(requested.value);
      if zat.Some? && received > 0 && received < zat.value then Some(FormatZat(zat.value - received)) else requested
  }

  /** Which status a payment has; a request that cannot be read counts as none. */
  lemma StatusExactly(amount: Option<string>, total: int)
    ensures var requested := if amount.Some? then ParseZec(amount.value) else None;
      && (StatusFor(amount, total).PaidInFull? <==> requested.Some? && total >= requested.value)
      && (StatusFor(amount, total).AwaitingPayment? <==> total <= 0 && (requested.None? || total < requested.value))
      && (StatusFor(amount, total).PartiallyPaid? <==> requested.Some? && 0 < total < requested.value)
      && (StatusFor(amount, total).Received? <==> requested.None? && total > 0)
    ensures !StatusFor(amount, total).PartiallyPaid? ==> RemainingAmount(amount, total) == amount
  {
  }

  /** After a partial payment, what is asked for and what was received add up to what was requested. */
  lemma RemainderAddsUp(amount: string, received: int)
    requires StatusFor(Some(amount), received).PartiallyPaid?
    ensures RemainingAmount(Some(amount), received).Some?
    ensures var rest := ParseZec(RemainingAmount(Some(amount), received).value);
      rest.Some? && ParseZec(amount).Some? && rest.value + received == ParseZec(amount).value
  {
    hide ParseZec, FormatZat;
    ParsedFits(amount);
    FormatRoundTrip(ParseZec(amount).value - received);
  }

  lemma ParsedFits(text: string)
    ensures ParseZec(text).Some? ==> 0 <= ParseZec(text).value <= I64_MAX
  {
  }

  /** Paying the remaining amount, and nothing less, completes a partial payment. */
  lemma RemainderCompletes(amount: string, received: int, more: int)
    requires StatusFor(Some(amount), received).PartiallyPaid?
    ensures RemainingAmount(Some(amount), received).Some?
    ensures var rest := ParseZec(RemainingAmount(Some(amount), received).value);
      rest.Some? && (StatusFor(Some(amount), received + more).PaidInFull? <==> more >= rest.value)
  {
    hide ParseZec, FormatZat, RemainingAmount;
    RemainderAddsUp(amount, received);
  }

  // ------------------------------------------------------------------ the confirmed amount

  const MAX_DEPTHS: nat := 101

  /** What the plugins take for confirmed: the last element of a well-formed array, or the total. */
  function Confirmed(depths: Option<seq<string>>, total: nat): Option<nat> {
    if depths.None? then Some(total)
    else if depths.value == [] || |depths.value| > MAX_DEPTHS then None
    else if exists i :: 0 <= i < |depths.value| && ZecToZat(depths.value[i]).None? then None
    else ZecToZat(depths.value[|depths.value| - 1])
  }

  /** Without an array the total counts; an empty, too long or unreadable array counts for nothing. */
  lemma ConfirmedExactly(depths: Option<seq<string>>, total: nat)
    ensures depths.None? ==> Confirmed(depths, total) == Some(total)
    ensures depths.Some? ==>
      (Confirmed(depths, total).Some?
       <==> 0 < |depths.value| <= 101 && forall i :: 0 <= i < |depths.value| ==> ZecToZat(depths.value[i]).Some?)
    ensures depths.Some? && Confirmed(depths, total).Some? ==>
      Confirmed(depths, total) == ZecToZat(depths.value[|depths.value| - 1])
  {
    hide ZecToZat;
  }

  method SettledZat(depths: Option<seq<string>>, total: nat) returns (settled: Option<nat>)
    ensures settled == Confirmed(depths, total)
  {
    hide ZecToZat;
    if depths.None? {
      return Some(total);
    }
    var texts := depths.value;
    if |texts| == 0 || |texts| > MAX_DEPTHS {
      return None;
    }
    settled := None;
    for i := 0 to |texts|
      invariant forall j :: 0 <= j < i ==> ZecToZat(texts[j]).Some?
      invariant i > 0 ==> settled == ZecToZat(texts[i - 1])
    {
      settled := ZecToZat(texts[i]);
      if settled.None? {
        return None;
      }
    }
  }

  function Formatted(amounts: seq<nat>): seq<string> {
    seq(|amounts|, i requires 0 <= i < |amounts| => FormatZat(amounts[i]))
  }

  /**
   * A plugin takes exactly the service's last depth for confirmed, for every array the service
   * sends (its elements never increase), as long as the array has at most 101 elements and the
   * total is below 10^18 zatoshis; otherwise it rejects the array.
   */
  lemma ConfirmedIsLastDepth(amounts: seq<nat>, total: nat)
    requires amounts != [] && amounts[0] <= I64_MAX
    requires forall i :: 0 <= i < |amounts| ==> amounts[i] <= amounts[0]
    ensures Confirmed(Some(Formatted(amounts)), total)
         == (if |amounts| <= MAX_DEPTHS && amounts[0] < Pow10(18) then Some(amounts[|amounts| - 1]) else None)
  {
    hide ZecToZat, ParseZec, FormatZat, Pow10;
    var texts := Formatted(amounts);
    forall i | 0 <= i < |amounts|
      ensures ZecToZat(texts[i]) == (if amounts[i] < Pow10(18) then Some(amounts[i]) else None)
    {
      ReceiversReadFormat(amounts[i]);
    }
    if amounts[0] >= Pow10(18) {
      assert ZecToZat(texts[0]).None?;
    }
  }
}
