/**
 * Payment request URIs: the unpadded base64url and percent-encodings, and a reader that recovers
 * every field. Text is its UTF-8 bytes.
 */
module PaymentUri {
  import opened Common
  import opened Text

  newtype Byte = b: int | 0 <= b < 0x100

  type Bytes = seq<Byte>

  // ------------------------------------------------------------------ base64url without padding

  const UPPER: string := "ABCDEFGHIJKLMNOPQRSTUVWXYZ"
  const LOWER: string := "abcdefghijklmnopqrstuvwxyz"
  const DECIMALS: string := "0123456789"
  const ALPHABET: string := UPPER + LOWER + DECIMALS + "-_"

  /** The bytes of a chunk as one 24-bit number; missing bytes are zero. */
  function ChunkNumber(chunk: Bytes): (n: nat)
    requires 1 <= |chunk| <= 3
    ensures n < 0x100_0000
  {
    chunk[0] as int * 0x1_0000
    + (if |chunk| > 1 then chunk[1] as int else 0) * 0x100
    + (if |chunk| > 2 then chunk[2] as int else 0)
  }

  /** Six bits of a chunk, counted from the top. */
  function Sextet(n: nat, index: nat): (d: nat)
    requires n < 0x100_0000 && index <= 3
    ensures d < 64
  {
    if index == 0 then n / 0x4_0000
    else if index == 1 then n / 0x1000 % 64
    else if index == 2 then n / 0x40 % 64
    else n % 64
  }

  function EncodedChunk(chunk: Bytes): (s: string)
    requires 1 <= |chunk| <= 3
    ensures |s| == |chunk| + 1
  {
    seq(|chunk| + 1, i requires 0 <= i <= |chunk| => ALPHABET[Sextet(ChunkNumber(chunk), i)])
  }

  function Encoded(bytes: Bytes): string {
    if bytes == [] then ""
    else if |bytes| <= 3 then EncodedChunk(bytes)
    else EncodedChunk(bytes[..3]) + Encoded(bytes[3..])
  }

  lemma NextChunk(bytes: Bytes, at: nat, end: nat)
    requires at < |bytes| && end == if at + 3 <= |bytes| then at + 3 else |bytes|
    ensures Encoded(bytes[at..]) == EncodedChunk(bytes[at..end]) + Encoded(bytes[end..])
  {
    hide EncodedChunk;
    var rest, chunk := bytes[at..], bytes[at..end];
    if |rest| <= 3 {
      assert rest == chunk && bytes[end..] == [];
    } else {
      assert rest[..3] == chunk && rest[3..] == bytes[end..];
    }
  }

  lemma NothingEncodes()
    ensures Encoded([]) == "" && PercentEncoded([]) == ""
  {
  }

  method Base64UrlUnpadded(bytes: Bytes) returns (out: string)
    ensures out == Encoded(bytes)
  {
    hide Encoded, ChunkNumber, Sextet;
    out := "";
    var at := 0;
    assert bytes[0..] == bytes;
    while at < |bytes|
      invariant 0 <= at <= |bytes|
      invariant out + Encoded(bytes[at..]) == Encoded(bytes)
    {
      var end := if at + 3 <= |bytes| then at + 3 else |bytes|;
      var chunk := bytes[at..end];
      var n, before := ChunkNumber(chunk), out;
      for index := 0 to |chunk| + 1
        invariant out == before + EncodedChunk(chunk)[..index]
      {
        out := out + [ALPHABET[Sextet(n, index)]];
      }
      assert EncodedChunk(chunk)[..|chunk| + 1] == EncodedChunk(chunk);
      NextChunk(bytes, at, end);
      assert before + (EncodedChunk(chunk) + Encoded(bytes[end..])) == out + Encoded(bytes[end..]);
      at := end;
    }
    assert bytes[|bytes|..] == [] && Encoded([]) == "" by { NothingEncodes(); }
  }

  /** The value of a character of the alphabet. */
  function SextetOf(c: char): (d: Option<nat>)
    ensures d.Some? ==> d.value < 64
  {
    if 'A' <= c <= 'Z' then Some(c as int - 'A' as int)
    else if 'a' <= c <= 'z' then Some(c as int - 'a' as int + 26)
    else if '0' <= c <= '9' then Some(c as int - '0' as int + 52)
    else if c == '-' then Some(62)
    else if c == '_' then Some(63)
    else None
  }

  lemma UpperRead(i: nat)
    requires i < 26
    ensures UPPER[i] as int == 'A' as int + i && SextetOf(UPPER[i]) == Some(i)
  {
  }

  lemma LowerRead(i: nat)
    requires i < 26
    ensures LOWER[i] as int == 'a' as int + i && SextetOf(LOWER[i]) == Some(i + 26)
  {
  }

  lemma DecimalRead(i: nat)
    requires i < 10
    ensures DECIMALS[i] as int == '0' as int + i && SextetOf(DECIMALS[i]) == Some(i + 52)
  {
  }

  lemma AlphabetAt(d: nat)
    requires d < 64
    ensures ALPHABET[d] == if d < 26 then UPPER[d] else if d < 52 then LOWER[d - 26]
                           else if d < 62 then DECIMALS[d - 52] else if d == 62 then '-' else '_'
  {
  }

  lemma AlphabetRead(d: nat)
    requires d < 64
    ensures SextetOf(ALPHABET[d]) == Some(d)
  {
    AlphabetAt(d);
    if d < 26 {
      UpperRead(d);
    } else if d < 52 {
      LowerRead(d - 26);
    } else if d < 62 {
      DecimalRead(d - 52);
    }
  }

  /** The 24-bit number of a quantum; missing characters are zero. */
  function QuantumNumber(s: string): (n: Option<nat>)
    requires 2 <= |s| <= 4
    ensures n.Some? ==> n.value < 0x100_0000
  {
    var a, b := SextetOf(s[0]), SextetOf(s[1]);
    var c := if |s| > 2 then SextetOf(s[2]) else Some(0);
    var d := if |s| > 3 then SextetOf(s[3]) else Some(0);
    if a.None? || b.None? || c.None? || d.None? then None
    else Some(a.value * 0x4_0000 + b.value * 0x1000 + c.value * 0x40 + d.value)
  }

  /** The first `count` bytes of a 24-bit number; left-over bits must be zero. */
  function BytesOf(n: nat, count: nat): Option<Bytes>
    requires n < 0x100_0000 && 1 <= count <= 3
  {
    var all := [(n / 0x1_0000) as Byte, (n / 0x100 % 0x100) as Byte, (n % 0x100) as Byte];
    if (forall i :: count <= i < 3 ==> all[i] == 0) then Some(all[..count]) else None
  }

  /** The decoder of section 5 of RFC 4648 for one quantum. */
  function DecodedChunk(s: string): Option<Bytes>
    requires 2 <= |s| <= 4
  {
    var n := QuantumNumber(s);
    if n.None? then None else BytesOf(n.value, |s| - 1)
  }

  function Decoded(s: string): Option<Bytes> {
    if s == "" then Some([])
    else if |s| == 1 then None
    else if |s| <= 4 then DecodedChunk(s)
    else
      var first, rest := DecodedChunk(s[..4]), Decoded(s[4..]);
      if first.None? || rest.None? then None else Some(first.value + rest.value)
  }

  lemma SextetsRebuild(n: nat)
    requires n < 0x100_0000
    ensures Sextet(n, 0) * 0x4_0000 + Sextet(n, 1) * 0x1000 + Sextet(n, 2) * 0x40 + Sextet(n, 3) == n
  {
    var p := n / 0x40;
    DivideTwice(n, 0x40);
    DivideTwice(n, 0x1000);
    assert n == p * 0x40 + n % 0x40;
    assert p == n / 0x1000 * 0x40 + p % 0x40;
    assert n / 0x1000 == n / 0x4_0000 * 0x40 + n / 0x1000 % 0x40;
  }

  /** Dividing twice divides by the product. */
  lemma DivideTwice(n: nat, d: nat)
    requires d == 0x40 || d == 0x1000
    ensures n / d / 0x40 == n / (d * 0x40)
  {
  }

  lemma Quotients(a: nat, b: nat, c: nat)
    requires a < 0x100 && b < 0x100 && c < 0x100
    ensures var n := a * 0x1_0000 + b * 0x100 + c;
      n / 0x1_0000 == a && n / 0x100 == a * 0x100 + b && n / 0x40 == a * 0x400 + b * 4 + c / 0x40 && n % 0x100 == c
  {
  }

  lemma Remainders(a: nat, b: nat, c: nat)
    requires a < 0x100 && b < 0x100 && c < 0x100
    ensures (a * 0x100 + b) % 0x100 == b
    ensures b == 0 && c == 0 ==> (a * 0x400 + b * 4 + c / 0x40) % 64 == 0
    ensures c == 0 ==> (a * 0x1_0000 + b * 0x100 + c) % 64 == 0
  {
  }

  lemma BytesRebuild(chunk: Bytes)
    requires 1 <= |chunk| <= 3
    ensures var n := ChunkNumber(chunk);
      && n / 0x1_0000 == chunk[0] as int
      && n / 0x100 % 0x100 == (if |chunk| > 1 then chunk[1] as int else 0)
      && n % 0x100 == (if |chunk| > 2 then chunk[2] as int else 0)
      && (|chunk| <= 1 ==> Sextet(n, 2) == 0) && (|chunk| <= 2 ==> Sextet(n, 3) == 0)
  {
    var a := chunk[0] as int;
    var b := if |chunk| > 1 then chunk[1] as int else 0;
    var c := if |chunk| > 2 then chunk[2] as int else 0;
    Quotients(a, b, c);
    Remainders(a, b, c);
  }

  lemma NumberRoundTrip(chunk: Bytes)
    requires 1 <= |chunk| <= 3
    ensures QuantumNumber(EncodedChunk(chunk)) == Some(ChunkNumber(chunk))
  {
    hide SextetOf, ChunkNumber, Sextet;
    var n, s := ChunkNumber(chunk), EncodedChunk(chunk);
    forall i | 0 <= i < |s| ensures SextetOf(s[i]) == Some(Sextet(n, i)) {
      AlphabetRead(Sextet(n, i));
    }
    SextetsRebuild(n);
    BytesRebuild(chunk);
  }

  lemma ChunkBytes(chunk: Bytes)
    requires 1 <= |chunk| <= 3
    ensures BytesOf(ChunkNumber(chunk), |chunk|) == Some(chunk)
  {
    hide ChunkNumber, Sextet;
    var n := ChunkNumber(chunk);
    BytesRebuild(chunk);
    var all := [(n / 0x1_0000) as Byte, (n / 0x100 % 0x100) as Byte, (n % 0x100) as Byte];
    assert all[..|chunk|] == chunk;
  }

  lemma ChunkRoundTrip(chunk: Bytes)
    requires 1 <= |chunk| <= 3
    ensures DecodedChunk(EncodedChunk(chunk)) == Some(chunk)
  {
    hide EncodedChunk, QuantumNumber, BytesOf, ChunkNumber;
    NumberRoundTrip(chunk);
    ChunkBytes(chunk);
  }

  /** The decoder inverts the encoder on every byte string. */
  lemma {:induction false} Base64RoundTrip(bytes: Bytes)
    ensures Decoded(Encoded(bytes)) == Some(bytes)
  {
    if bytes != [] {
      if |bytes| <= 3 {
        ChunkRoundTrip(bytes);
      } else {
        var first, rest := bytes[..3], bytes[3..];
        ChunkRoundTrip(first);
        Base64RoundTrip(rest);
        EncodedNotEmpty(rest);
        var s := Encoded(bytes);
        assert s[..4] == EncodedChunk(first) && s[4..] == Encoded(rest);
        assert first + rest == bytes;
      }
    }
  }

  lemma EncodedNotEmpty(bytes: Bytes)
    requires bytes != []
    ensures |Encoded(bytes)| >= 2
  {
  }

  // ------------------------------------------------------------------ percent-encoding

  predicate IsUnreserved(b: Byte) {
    var c := b as char;
    'A' <= c <= 'Z' || 'a' <= c <= 'z' || '0' <= c <= '9' || c == '-' || c == '_' || c == '.' || c == '~'
  }

  function HexDigit(d: nat): char
    requires d < 16
  {
    if d < 10 then ('0' as int + d) as char else ('A' as int + d - 10) as char
  }

  function EncodedByte(b: Byte): string {
    if IsUnreserved(b) then [b as char] else ['%', HexDigit(b as int / 16), HexDigit(b as int % 16)]
  }

  function PercentEncoded(bytes: Bytes): string {
    if bytes == [] then "" else EncodedByte(bytes[0]) + PercentEncoded(bytes[1..])
  }

  lemma NextByte(value: Bytes, i: nat)
    requires i < |value|
    ensures PercentEncoded(value[i..]) == EncodedByte(value[i]) + PercentEncoded(value[i + 1..])
  {
    assert value[i..][1..] == value[i + 1..];
  }

  method EncodeUriComponent(value: Bytes) returns (encoded: string)
    ensures encoded == PercentEncoded(value)
  {
    hide IsUnreserved, HexDigit, PercentEncoded;
    encoded := "";
    assert value[0..] == value;
    for i := 0 to |value|
      invariant encoded + PercentEncoded(value[i..]) == PercentEncoded(value)
    {
      var byte, before := value[i], encoded;
      if IsUnreserved(byte) {
        encoded := encoded + [byte as char];
      } else {
        encoded := encoded + ['%', HexDigit(byte as int / 16), HexDigit(byte as int % 16)];
      }
      NextByte(value, i);
      assert before + (EncodedByte(byte) + PercentEncoded(value[i + 1..])) == encoded + PercentEncoded(value[i + 1..]);
    }
    assert value[|value|..] == [] && PercentEncoded([]) == "" by { NothingEncodes(); }
  }

  /** Exactly the unreserved characters of section 2.3 of RFC 3986 stay; all others become upper-case escapes. */
  lemma EncodedByteExactly(b: Byte)
    ensures var n := b as int;
      EncodedByte(b) ==
        if 65 <= n <= 90 || 97 <= n <= 122 || 48 <= n <= 57 || n == 45 || n == 46 || n == 95 || n == 126
        then [n as char] else ['%', "0123456789ABCDEF"[n / 16], "0123456789ABCDEF"[n % 16]]
  {
    HexDigitExactly(b as int / 16);
    HexDigitExactly(b as int % 16);
  }

  lemma HexDigitExactly(d: nat)
    requires d < 16
    ensures HexDigit(d) == "0123456789ABCDEF"[d]
  {
  }

  function HexValue(c: char): (d: Option<nat>)
    ensures d.Some? ==> d.value < 16
  {
    if '0' <= c <= '9' then Some(c as int - '0' as int)
    else if 'A' <= c <= 'F' then Some(c as int - 'A' as int + 10)
    else if 'a' <= c <= 'f' then Some(c as int - 'a' as int + 10)
    else None
  }

  function HexByte(c: char, d: char): Option<Byte> {
    if HexValue(c).None? || HexValue(d).None? then None
    else Some((HexValue(c).value * 16 + HexValue(d).value) as Byte)
  }

  /** The decoding of section 2.1 of RFC 3986. */
  function PercentDecoded(s: string): Option<Bytes> {
    if s == "" then Some([])
    else if s[0] == '%' then
      if |s| < 3 || HexByte(s[1], s[2]).None? then None
      else
        var rest := PercentDecoded(s[3..]);
        if rest.None? then None else Some([HexByte(s[1], s[2]).value] + rest.value)
    else if s[0] as int >= 0x80 then None
    else
      var rest := PercentDecoded(s[1..]);
      if rest.None? then None else Some([s[0] as int as Byte] + rest.value)
  }

  lemma PlainByte(b: Byte, rest: string)
    requires IsUnreserved(b)
    ensures PercentDecoded([b as char] + rest)
         == if PercentDecoded(rest).None? then None else Some([b] + PercentDecoded(rest).value)
  {
    var s := [b as char] + rest;
    assert s[0] == b as char && s[0] != '%' && s[1..] == rest;
  }

  lemma EscapedByte(b: Byte, rest: string)
    ensures PercentDecoded(['%', HexDigit(b as int / 16), HexDigit(b as int % 16)] + rest)
         == if PercentDecoded(rest).None? then None else Some([b] + PercentDecoded(rest).value)
  {
    hide HexDigit, HexByte;
    var n := b as int;
    var s := ['%', HexDigit(n / 16), HexDigit(n % 16)] + rest;
    HexByteRead(b);
    assert s[0] == '%' && s[1] == HexDigit(b as int / 16) && s[2] == HexDigit(b as int % 16) && s[3..] == rest;
  }

  lemma HexByteRead(b: Byte)
    ensures HexByte(HexDigit(b as int / 16), HexDigit(b as int % 16)) == Some(b)
  {
    hide HexDigit, HexValue;
    HexRead(b as int / 16);
    HexRead(b as int % 16);
  }

  lemma {:induction false} PercentRoundTrip(bytes: Bytes)
    ensures PercentDecoded(PercentEncoded(bytes)) == Some(bytes)
  {
    hide IsUnreserved, HexDigit, PercentDecoded;
    if bytes == [] {
      assert PercentDecoded("") == Some([]) by { NothingDecodes(); }
    } else {
      PercentRoundTrip(bytes[1..]);
      PlainOrEscaped(bytes[0], PercentEncoded(bytes[1..]));
      assert [bytes[0]] + bytes[1..] == bytes;
    }
  }

  lemma NothingDecodes()
    ensures PercentDecoded("") == Some([])
  {
  }

  lemma PlainOrEscaped(b: Byte, rest: string)
    ensures PercentDecoded(EncodedByte(b) + rest)
         == if PercentDecoded(rest).None? then None else Some([b] + PercentDecoded(rest).value)
  {
    hide IsUnreserved, HexDigit, PercentDecoded;
    if IsUnreserved(b) { PlainByte(b, rest); } else { EscapedByte(b, rest); }
  }

  lemma HexRead(d: nat)
    requires d < 16
    ensures HexValue(HexDigit(d)) == Some(d)
  {
  }

  // ------------------------------------------------------------------ the request

  /** What a payer is asked for; a field is absent when it is missing or blank. */
  datatype Request = Request(address: string, amount: Option<Bytes>, memo: Option<Bytes>, message: Option<Bytes>)

  predicate IsSpaceCode(n: nat) {
    n < 0xD800 && IsSpace(n as char, Rust)
  }

  /** The length of the white-space character a UTF-8 text begins with, or 0; none takes four bytes. */
  function SpaceLength(text: Bytes): (k: nat)
    ensures k <= |text|
  {
    if text == [] then 0
    else
      var lead := text[0] as int;
      if lead < 0x80 then
        if IsSpaceCode(lead) then 1 else 0
      else if 0xC0 <= lead < 0xE0 && |text| >= 2 then
        if IsSpaceCode(lead % 0x20 * 0x40 + text[1] as int % 0x40) then 2 else 0
      else if 0xE0 <= lead < 0xF0 && |text| >= 3 then
        if IsSpaceCode((lead % 0x10 * 0x40 + text[1] as int % 0x40) * 0x40 + text[2] as int % 0x40) then 3 else 0
      else 0
  }

  predicate IsBlank(text: Bytes) {
    text == [] || (SpaceLength(text) > 0 && IsBlank(text[SpaceLength(text)..]))
  }

  /** One character in UTF-8, section 3 of RFC 3629. */
  function Utf8(c: char): (bytes: Bytes)
    ensures bytes != []
  {
    var n := c as int;
    if n < 0x80 then [n as Byte]
    else if n < 0x800 then [(0xC0 + n / 0x40) as Byte, (0x80 + n % 0x40) as Byte]
    else if n < 0x1_0000 then [(0xE0 + n / 0x1000) as Byte, (0x80 + n / 0x40 % 0x40) as Byte, (0x80 + n % 0x40) as Byte]
    else
      [(0xF0 + n / 0x4_0000) as Byte, (0x80 + n / 0x1000 % 0x40) as Byte, (0x80 + n / 0x40 % 0x40) as Byte, (0x80 + n % 0x40) as Byte]
  }

  function Utf8Text(s: string): Bytes {
    if s == "" then [] else Utf8(s[0]) + Utf8Text(s[1..])
  }

  lemma TwoBytes(n: nat)
    requires 0x80 <= n < 0x800
    ensures 0xC0 <= 0xC0 + n / 0x40 < 0xE0
    ensures (0xC0 + n / 0x40) % 0x20 * 0x40 + (0x80 + n % 0x40) % 0x40 == n
  {
    var high, low := n / 0x40, n % 0x40;
    assert (0xC0 + high) % 0x20 == high;
    assert (0x80 + low) % 0x40 == low;
  }

  lemma ThreeBytes(n: nat)
    requires 0x800 <= n < 0x1_0000
    ensures 0xE0 <= 0xE0 + n / 0x1000 < 0xF0
    ensures ((0xE0 + n / 0x1000) % 0x10 * 0x40 + (0x80 + n / 0x40 % 0x40) % 0x40) * 0x40 + (0x80 + n % 0x40) % 0x40 == n
  {
    var high, middle, low := n / 0x1000, n / 0x40 % 0x40, n % 0x40;
    assert n / 0x40 == high * 0x40 + middle;
    assert (0xE0 + high) % 0x10 == high;
    assert (0x80 + middle) % 0x40 == middle;
    assert (0x80 + low) % 0x40 == low;
  }

  lemma LeadingSpace(c: char, rest: Bytes)
    ensures SpaceLength(Utf8(c) + rest) == if IsSpace(c, Rust) then |Utf8(c)| else 0
  {
    hide IsSpace, IsSpaceCode;
    var n, text := c as int, Utf8(c) + rest;
    SpaceCode(c);
    if n < 0x80 {
    } else if n < 0x800 {
      TwoBytes(n);
      assert text[0] as int == 0xC0 + n / 0x40 && text[1] as int == 0x80 + n % 0x40;
    } else if n < 0x1_0000 {
      ThreeBytes(n);
      assert text[0] as int == 0xE0 + n / 0x1000;
      assert text[1] as int == 0x80 + n / 0x40 % 0x40 && text[2] as int == 0x80 + n % 0x40;
    } else {
      assert text[0] as int >= 0xF0;
    }
  }

  lemma SpaceCode(c: char)
    ensures IsSpaceCode(c as int) <==> IsSpace(c, Rust)
    ensures IsSpace(c, Rust) ==> c as int <= 0x3000
  {
  }

  /** A text is blank exactly if all its characters are white space. */
  lemma {:induction false} BlankIsWhite(s: string)
    ensures IsBlank(Utf8Text(s)) <==> forall i :: 0 <= i < |s| ==> IsSpace(s[i], Rust)
  {
    hide IsSpace, SpaceLength, Utf8;
    if s != "" {
      var rest := Utf8Text(s[1..]);
      LeadingSpace(s[0], rest);
      BlankIsWhite(s[1..]);
      assert (Utf8(s[0]) + rest)[|Utf8(s[0])|..] == rest;
      assert forall i :: 1 <= i < |s| ==> s[i] == s[1..][i - 1];
    }
  }

  function Present(text: Option<Bytes>): Option<Bytes> {
    if text.Some? && !IsBlank(text.value) then text else None
  }

  function Param(key: string, value: Option<string>): seq<string> {
    if value.None? then [] else [key + "=" + value.value]
  }

  function Percent(text: Option<Bytes>): Option<string> {
    if text.None? then None else Some(PercentEncoded(text.value))
  }

  function Base64(text: Option<Bytes>): Option<string> {
    if text.None? then None else Some(Encoded(text.value))
  }

  function Params(q: Request): seq<string> {
    Param("amount", Percent(q.amount)) + Param("memo", Base64(q.memo)) + Param("message", Percent(q.message))
  }

  function Joined(parts: seq<string>): string {
    if parts == [] then ""
    else if |parts| == 1 then parts[0]
    else parts[0] + "&" + Joined(parts[1..])
  }

  const SCHEME: string := "zcash:"

  function Uri(q: Request): string {
    SCHEME + q.address + if Params(q) == [] then "" else "?" + Joined(Params(q))
  }

  /** A parameter of the request: absent when the text is blank, otherwise encoded. */
  lemma ParamOf(key: string, text: Option<Bytes>)
    ensures Present(text).None? ==> Param(key, Percent(Present(text))) == [] && Param(key, Base64(Present(text))) == []
    ensures Present(text).Some? ==> text.Some?
    ensures Present(text).Some? ==> Param(key, Percent(Present(text))) == [key + "=" + PercentEncoded(text.value)]
    ensures Present(text).Some? ==> Param(key, Base64(Present(text))) == [key + "=" + Encoded(text.value)]
  {
    hide PercentEncoded, Encoded, IsBlank;
  }

  /** The fields appear in this order, each under its own name and in its own encoding. */
  lemma UriText(address: string, amount: Bytes, memo: Bytes, message: Bytes)
    ensures Uri(Request(address, Some(amount), Some(memo), Some(message)))
         == "zcash:" + address + "?" + (("amount=" + PercentEncoded(amount)) + "&"
            + (("memo=" + Encoded(memo)) + "&" + ("message=" + PercentEncoded(message))))
    ensures Uri(Request(address, None, None, None)) == "zcash:" + address
  {
    hide PercentEncoded, Encoded, Joined;
    var q := Request(address, Some(amount), Some(memo), Some(message));
    var a, b, c := "amount=" + PercentEncoded(amount), "memo=" + Encoded(memo), "message=" + PercentEncoded(message);
    assert "amount" + "=" == "amount=" && "memo" + "=" == "memo=" && "message" + "=" == "message=";
    assert Params(q) == [a, b, c];
    JoinedThree(a, b, c);
    assert "zcash:" + address + ("?" + (a + "&" + (b + "&" + c))) == "zcash:" + address + "?" + (a + "&" + (b + "&" + c));
  }

  lemma JoinedThree(a: string, b: string, c: string)
    ensures Joined([a, b, c]) == a + "&" + (b + "&" + c)
  {
    assert [a, b, c][1..] == [b, c] && [b, c][1..] == [c];
    assert Joined([b, c]) == b + "&" + c;
  }

  method BuildQrText(address: string, amount: Option<Bytes>, memo: Option<Bytes>, message: Option<Bytes>)
    returns (uri: string)
    ensures uri == Uri(Request(address, Present(amount), Present(memo), Present(message)))
  {
    hide PercentEncoded, Encoded, IsBlank, Joined, Param, Percent, Base64;
    ParamOf("amount", amount);
    ParamOf("memo", memo);
    ParamOf("message", message);
    var query: seq<string> := [];
    if amount.Some? && !IsBlank(amount.value) {
      var text := EncodeUriComponent(amount.value);
      query := query + ["amount" + "=" + text];
    }
    assert query == Param("amount", Percent(Present(amount)));
    if memo.Some? && !IsBlank(memo.value) {
      var text := Base64UrlUnpadded(memo.value);
      query := query + ["memo" + "=" + text];
    }
    assert query == Param("amount", Percent(Present(amount))) + Param("memo", Base64(Present(memo)));
    if message.Some? && !IsBlank(message.value) {
      var text := EncodeUriComponent(message.value);
      query := query + ["message" + "=" + text];
    }
    assert query == Params(Request(address, Present(amount), Present(memo), Present(message)));
    uri := if query == [] then SCHEME + address else SCHEME + address + "?" + Joined(query);
  }

  // ------------------------------------------------------------------ a reader

  function Split(s: string): (parts: seq<string>)
    decreases |s|
  {
    var i := IndexOf(s, '&');
    if i == |s| then [s] else [s[..i]] + Split(s[i + 1..])
  }

  function KeyOf(part: string): string { part[..IndexOf(part, '=')] }

  function ValueOf(part: string): string {
    var i := IndexOf(part, '=');
    if i == |part| then "" else part[i + 1..]
  }

  /** The value of the first parameter called `key`. */
  function Field(parts: seq<string>, key: string): Option<string> {
    if parts == [] then None
    else if KeyOf(parts[0]) == key then Some(ValueOf(parts[0]))
    else Field(parts[1..], key)
  }

  /** A field is absent, or decoded, or malformed. */
  function Read(field: Option<string>, decode: string -> Option<Bytes>): Option<Option<Bytes>> {
    if field.None? then Some(None)
    else if decode(field.value).None? then None
    else Some(Some(decode(field.value).value))
  }

  function ReadUri(uri: string): Option<Request> {
    if !(SCHEME <= uri) then None
    else
      var rest := uri[|SCHEME|..];
      var i := IndexOf(rest, '?');
      var parts := if i == |rest| then [] else Split(rest[i + 1..]);
      var amount := Read(Field(parts, "amount"), PercentDecoded);
      var memo := Read(Field(parts, "memo"), Decoded);
      var message := Read(Field(parts, "message"), PercentDecoded);
      if amount.None? || memo.None? || message.None? then None
      else Some(Request(rest[..i], amount.value, memo.value, message.value))
  }

  predicate IsDelimiter(c: char) { c == '&' || c == '=' || c == '?' }

  lemma AlphabetIsClean(d: nat)
    requires d < 64
    ensures !IsDelimiter(ALPHABET[d])
  {
    AlphabetRead(d);
  }

  lemma ChunkIsClean(chunk: Bytes)
    requires 1 <= |chunk| <= 3
    ensures forall c :: c in EncodedChunk(chunk) ==> !IsDelimiter(c)
  {
    forall c | c in EncodedChunk(chunk) ensures !IsDelimiter(c) {
      var i :| 0 <= i <= |chunk| && EncodedChunk(chunk)[i] == c;
      AlphabetIsClean(Sextet(ChunkNumber(chunk), i));
    }
  }

  lemma {:induction false} Base64IsClean(bytes: Bytes)
    ensures forall c :: c in Encoded(bytes) ==> !IsDelimiter(c)
  {
    if 0 < |bytes| <= 3 {
      ChunkIsClean(bytes);
    } else if |bytes| > 3 {
      ChunkIsClean(bytes[..3]);
      Base64IsClean(bytes[3..]);
    }
  }

  lemma {:induction false} PercentIsClean(bytes: Bytes)
    ensures forall c :: c in PercentEncoded(bytes) ==> !IsDelimiter(c)
  {
    if bytes != [] {
      PercentIsClean(bytes[1..]);
      HexRead(bytes[0] as int / 16);
      HexRead(bytes[0] as int % 16);
    }
  }

  predicate Clean(s: string) { '&' !in s }

  lemma {:induction false} SplitJoined(parts: seq<string>)
    requires parts != [] && forall i :: 0 <= i < |parts| ==> Clean(parts[i])
    ensures Split(Joined(parts)) == parts
  {
    var first := parts[0];
    if |parts| == 1 {
      IndexOfFirst(first, "", '&');
    } else {
      var rest := Joined(parts[1..]);
      SplitJoined(parts[1..]);
      IndexOfFirst(first, rest, '&');
      var s := first + ['&'] + rest;
      assert Joined(parts) == s;
      assert s[..|first|] == first && s[|first| + 1..] == rest;
    }
  }

  lemma ParamParts(key: string, value: string)
    requires '=' !in key
    ensures KeyOf(key + "=" + value) == key && ValueOf(key + "=" + value) == value
  {
    var s := key + ['='] + value;
    IndexOfFirst(key, value, '=');
    assert s[..|key|] == key && s[|key| + 1..] == value;
  }

  lemma {:induction false} FieldOfSum(p: seq<string>, q: seq<string>, key: string)
    ensures Field(p + q, key) == if Field(p, key).Some? then Field(p, key) else Field(q, key)
  {
    if p == [] {
      assert p + q == q;
    } else {
      FieldOfSum(p[1..], q, key);
      assert (p + q)[1..] == p[1..] + q;
    }
  }

  lemma FieldOfParam(key: string, value: Option<string>, wanted: string)
    requires '=' !in key
    ensures Field(Param(key, value), wanted) == if key == wanted then value else None
  {
    if value.Some? { ParamParts(key, value.value); }
  }

  /** Every field of the request is found under its own name. */
  lemma FieldsFound(q: Request)
    ensures Field(Params(q), "amount") == Percent(q.amount)
    ensures Field(Params(q), "memo") == Base64(q.memo)
    ensures Field(Params(q), "message") == Percent(q.message)
  {
    var a, m, t := Param("amount", Percent(q.amount)), Param("memo", Base64(q.memo)), Param("message", Percent(q.message));
    assert "amount" != "memo" && "memo" != "message" && "amount"[1] != "message"[1];
    FieldFound(a, m, t, q, "amount");
    FieldFound(a, m, t, q, "memo");
    FieldFound(a, m, t, q, "message");
  }

  lemma FieldFound(a: seq<string>, m: seq<string>, t: seq<string>, q: Request, key: string)
    requires a == Param("amount", Percent(q.amount)) && m == Param("memo", Base64(q.memo))
    requires t == Param("message", Percent(q.message))
    ensures Field(Params(q), key) ==
      (if Field(a, key).Some? then Field(a, key) else if Field(m, key).Some? then Field(m, key) else Field(t, key))
    ensures Field(a, key) == (if "amount" == key then Percent(q.amount) else None)
    ensures Field(m, key) == (if "memo" == key then Base64(q.memo) else None)
    ensures Field(t, key) == (if "message" == key then Percent(q.message) else None)
  {
    hide Field, Param, Percent, Base64;
    FieldOfSum(a + m, t, key);
    FieldOfSum(a, m, key);
    FieldOfParam("amount", Percent(q.amount), key);
    FieldOfParam("memo", Base64(q.memo), key);
    FieldOfParam("message", Percent(q.message), key);
  }

  lemma ParamsAreClean(q: Request)
    ensures forall i :: 0 <= i < |Params(q)| ==> Clean(Params(q)[i])
  {
    if q.amount.Some? { PercentIsClean(q.amount.value); }
    if q.memo.Some? { Base64IsClean(q.memo.value); }
    if q.message.Some? { PercentIsClean(q.message.value); }
    forall part | part in Params(q) ensures Clean(part) {
      if part in Param("amount", Percent(q.amount)) {
      } else if part in Param("memo", Base64(q.memo)) {
      } else {
        assert part in Param("message", Percent(q.message));
      }
    }
  }

  lemma UriSplits(q: Request)
    requires '?' !in q.address
    ensures var rest := Uri(q)[|SCHEME|..];
      && SCHEME <= Uri(q) && IndexOf(rest, '?') == |q.address| && rest[..|q.address|] == q.address
      && (Params(q) == [] <==> |rest| == |q.address|)
      && (Params(q) != [] ==> rest[|q.address| + 1..] == Joined(Params(q)))
  {
    hide Params, Joined, IndexOf;
    var rest := Uri(q)[|SCHEME|..];
    if Params(q) == [] {
      assert rest == q.address;
      IndexOfFirst(q.address, "", '?');
    } else {
      assert rest == q.address + ['?'] + Joined(Params(q));
      IndexOfFirst(q.address, Joined(Params(q)), '?');
    }
  }

  /**
   * A reader of payment URIs recovers the amount, the memo's bytes and the message exactly, for
   * every address that does not itself contain the character that starts the query.
   */
  lemma UriRoundTrip(q: Request)
    ensures ReadUri(Uri(q)) == Some(q) <==> '?' !in q.address
  {
    if '?' !in q.address {
      CleanAddressRoundTrip(q);
    }
  }

  lemma CleanAddressRoundTrip(q: Request)
    requires '?' !in q.address
    ensures ReadUri(Uri(q)) == Some(q)
  {
    hide Params, Joined, Split, Field, Uri, PercentDecoded, PercentEncoded, Decoded, Encoded, IndexOf;
    UriSplits(q);
    ParamsAreClean(q);
    FieldsFound(q);
    if Params(q) != [] {
      SplitJoined(Params(q));
    }
    if q.amount.Some? { PercentRoundTrip(q.amount.value); }
    if q.memo.Some? { Base64RoundTrip(q.memo.value); }
    if q.message.Some? { PercentRoundTrip(q.message.value); }
  }
}
