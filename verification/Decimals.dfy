/** Decimal digit strings and the numbers they denote. */
module Decimals {

  predicate IsDigit(c: char) { '0' <= c <= '9' }

  function DigitValue(c: char): nat
    requires IsDigit(c)
  {
    c as int - '0' as int
  }

  function DigitChar(d: nat): (c: char)
    requires d < 10
    ensures IsDigit(c) && DigitValue(c) == d
  {
    ('0' as int + d) as char
  }

  predicate AllDigits(s: string) {
    forall i :: 0 <= i < |s| ==> IsDigit(s[i])
  }

  function Pow10(k: nat): (p: nat)
    ensures p >= 1
  {
    if k == 0 then 1 else 10 * Pow10(k - 1)
  }

  function Value(s: string): nat
    requires AllDigits(s)
  {
    if s == "" then 0 else 10 * Value(s[..|s| - 1]) + DigitValue(s[|s| - 1])
  }

  /** The shortest digit string of `n`. */
  function Digits(n: nat): (s: string)
    ensures s != "" && AllDigits(s)
  {
    if n < 10 then [DigitChar(n)] else Digits(n / 10) + [DigitChar(n % 10)]
  }

  function Zeros(k: nat): (s: string)
    ensures |s| == k && AllDigits(s)
  {
    seq(k, _ => '0')
  }

  function PadLeft(s: string, width: nat): string {
    if |s| >= width then s else Zeros(width - |s|) + s
  }

  function PadRight(s: string, width: nat): string {
    if |s| >= width then s else s + Zeros(width - |s|)
  }

  lemma {:induction false} Pow10Sum(j: nat, k: nat)
    ensures Pow10(j + k) == Pow10(j) * Pow10(k)
  {
    if j > 0 { Pow10Sum(j - 1, k); }
  }

  lemma {:induction false} Pow10Grows(j: nat, k: nat)
    requires j <= k
    ensures Pow10(j) <= Pow10(k)
  {
    if j < k { Pow10Grows(j, k - 1); }
  }

  lemma {:induction false} DigitsValue(n: nat)
    ensures Value(Digits(n)) == n
  {
    if n >= 10 {
      DigitsValue(n / 10);
      assert Digits(n)[..|Digits(n)| - 1] == Digits(n / 10);
    }
  }

  lemma {:induction false} ValueConcat(s: string, t: string)
    requires AllDigits(s) && AllDigits(t)
    ensures AllDigits(s + t) && Value(s + t) == Value(s) * Pow10(|t|) + Value(t)
  {
    if t == "" {
      assert s + t == s;
    } else {
      var init := t[..|t| - 1];
      ValueConcat(s, init);
      assert (s + t)[..|s + t| - 1] == s + init;
      Scale(Value(s), Pow10(|init|), Value(init));
    }
  }

  lemma Scale(a: nat, p: nat, b: nat)
    ensures 10 * (a * p + b) == a * (10 * p) + 10 * b
  {
  }

  lemma {:induction false} ZerosValue(k: nat)
    ensures Value(Zeros(k)) == 0
  {
    if k > 0 {
      ZerosValue(k - 1);
      assert Zeros(k)[..k - 1] == Zeros(k - 1);
    }
  }

  lemma PadLeftValue(s: string, width: nat)
    requires AllDigits(s)
    ensures AllDigits(PadLeft(s, width)) && Value(PadLeft(s, width)) == Value(s)
  {
    if |s| < width {
      ZerosValue(width - |s|);
      ValueConcat(Zeros(width - |s|), s);
    }
  }

  lemma PadRightValue(s: string, width: nat)
    requires AllDigits(s) && |s| <= width
    ensures AllDigits(PadRight(s, width)) && Value(PadRight(s, width)) == Value(s) * Pow10(width - |s|)
  {
    if |s| < width {
      ZerosValue(width - |s|);
      ValueConcat(s, Zeros(width - |s|));
    }
  }

  /** A number has at most `k` digits exactly when it is below the power of ten. */
  lemma {:induction false} DigitsLength(n: nat, k: nat)
    requires k >= 1
    ensures |Digits(n)| <= k <==> n < Pow10(k)
  {
    assert Pow10(1) == 10;
    if n < 10 {
      Pow10Grows(1, k);
    } else if k > 1 {
      DigitsLength(n / 10, k - 1);
    }
  }

  lemma {:induction false} ValueBelow(s: string)
    requires AllDigits(s)
    ensures Value(s) < Pow10(|s|)
  {
    if s != "" { ValueBelow(s[..|s| - 1]); }
  }

  /** The digits without leading zeros. */
  function Significant(s: string): string {
    if s != "" && s[0] == '0' then Significant(s[1..]) else s
  }

  lemma {:induction false} SignificantValue(s: string)
    requires AllDigits(s)
    ensures AllDigits(Significant(s)) && Value(Significant(s)) == Value(s)
  {
    if s != "" && s[0] == '0' {
      SignificantValue(s[1..]);
      assert s == "0" + s[1..];
      assert Value("0") == 0;
      ValueConcat("0", s[1..]);
    }
  }

  /** The number of significant digits bounds the value from both sides. */
  lemma SignificantLength(s: string, k: nat)
    requires AllDigits(s)
    ensures |Significant(s)| <= k <==> Value(s) < Pow10(k)
  {
    hide Significant;
    var t := Significant(s);
    SignificantValue(s);
    ValueBelow(t);
    if |t| <= k {
      Pow10Grows(|t|, k);
    } else {
      NoLeadingZero(s);
      assert t == t[..1] + t[1..];
      ValueConcat(t[..1], t[1..]);
      assert t[..1][..0] == "" && Value(t[..1]) >= 1;
      Pow10Grows(k, |t| - 1);
      AtLeast(Value(t[..1]), Pow10(|t| - 1));
    }
  }

  lemma AtLeast(a: nat, p: nat)
    requires a >= 1
    ensures a * p >= p
  {
  }

  lemma {:induction false} NoLeadingZero(s: string)
    ensures Significant(s) != "" ==> Significant(s)[0] != '0'
  {
    if s != "" && s[0] == '0' { NoLeadingZero(s[1..]); }
  }
}

/** Searching and trimming text. */
module Text {
  const NEXT_LINE: char := '\U{85}'
  const BYTE_ORDER_MARK: char := '\U{FEFF}'

  /** What `trim` takes for white space: that of Rust, that of JavaScript, or either. */
  datatype Spaces = Rust | JavaScript | Either

  predicate IsSpace(c: char, w: Spaces) {
    || c == ' ' || '\t' <= c <= '\r' || c == '\U{A0}' || c == '\U{1680}' || '\U{2000}' <= c <= '\U{200A}'
    || c == '\U{2028}' || c == '\U{2029}' || c == '\U{202F}' || c == '\U{205F}' || c == '\U{3000}'
    || (c == NEXT_LINE && !w.JavaScript?) || (c == BYTE_ORDER_MARK && !w.Rust?)
  }

  function TrimLeft(s: string, w: Spaces): string {
    if s != "" && IsSpace(s[0], w) then TrimLeft(s[1..], w) else s
  }

  function TrimRight(s: string, w: Spaces): string {
    if s != "" && IsSpace(s[|s| - 1], w) then TrimRight(s[..|s| - 1], w) else s
  }

  function Trim(s: string, w: Spaces): string {
    TrimRight(TrimLeft(s, w), w)
  }

  /** A text that begins and ends with a printable character of ASCII is trimmed. */
  lemma TrimNothing(s: string, w: Spaces)
    requires s != "" ==> '!' <= s[0] <= '~' && '!' <= s[|s| - 1] <= '~'
    ensures Trim(s, w) == s
  {
  }

  /** The character that is white space to one of the two languages but not to `w`. */
  function Foreign(w: Spaces): (c: char)
    requires !w.Either?
    ensures !IsSpace(c, w) && IsSpace(c, Either)
  {
    if w.Rust? then BYTE_ORDER_MARK else NEXT_LINE
  }

  lemma OneForeign(c: char, w: Spaces)
    requires !w.Either? && c != Foreign(w)
    ensures IsSpace(c, w) <==> IsSpace(c, Either)
  {
  }

  lemma {:induction false} TrimLeftLike(s: string, w: Spaces)
    requires !w.Either? && Foreign(w) !in s
    ensures TrimLeft(s, w) == TrimLeft(s, Either) && Foreign(w) !in TrimLeft(s, w)
  {
    hide IsSpace;
    if s != "" {
      OneForeign(s[0], w);
      TrimLeftLike(s[1..], w);
    }
  }

  lemma {:induction false} TrimRightLike(s: string, w: Spaces)
    requires !w.Either? && Foreign(w) !in s
    ensures TrimRight(s, w) == TrimRight(s, Either)
  {
    hide IsSpace;
    if s != "" {
      OneForeign(s[|s| - 1], w);
      TrimRightLike(s[..|s| - 1], w);
    }
  }

  lemma {:induction false} LeftKeeps(s: string, w: Spaces, c: char)
    requires c in s && !IsSpace(c, w)
    ensures c in TrimLeft(s, w)
  {
    hide IsSpace;
    if IsSpace(s[0], w) {
      assert s == [s[0]] + s[1..];
      LeftKeeps(s[1..], w, c);
    }
  }

  lemma {:induction false} RightKeeps(s: string, w: Spaces, c: char)
    requires c in s && !IsSpace(c, w)
    ensures c in TrimRight(s, w)
  {
    hide IsSpace;
    var init := s[..|s| - 1];
    if IsSpace(s[|s| - 1], w) {
      assert s == init + [s[|s| - 1]];
      RightKeeps(init, w, c);
    }
  }

  /** Trimming removes the white space of either language, unless the text holds the foreign character. */
  lemma TrimLike(s: string, w: Spaces)
    requires !w.Either?
    ensures if Foreign(w) in s then Foreign(w) in Trim(s, w) else Trim(s, w) == Trim(s, Either)
  {
    hide IsSpace;
    if Foreign(w) in s {
      LeftKeeps(s, w, Foreign(w));
      RightKeeps(TrimLeft(s, w), w, Foreign(w));
    } else {
      TrimLeftLike(s, w);
      TrimRightLike(TrimLeft(s, w), w);
    }
  }

  /** The first position of `c`, or the length of the text. */
  function IndexOf(s: string, c: char): (i: nat)
    ensures i <= |s|
    ensures i < |s| ==> s[i] == c
    ensures c !in s[..i]
  {
    if s == "" then 0
    else if s[0] == c then 0
    else
      var rest := IndexOf(s[1..], c);
      assert s[..rest + 1] == [s[0]] + s[1..][..rest];
      rest + 1
  }

  lemma {:induction false} IndexOfFirst(s: string, t: string, c: char)
    requires c !in s
    ensures IndexOf(s + [c] + t, c) == |s|
    ensures IndexOf(s, c) == |s|
  {
    if s != "" {
      assert c != s[0];
      IndexOfFirst(s[1..], t, c);
      assert (s + [c] + t)[1..] == s[1..] + [c] + t;
    }
  }
}
