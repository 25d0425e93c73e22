/** Opaque cursors: parts joined by a separator, as UTF-8, in unpadded base64url. */
module Cursor {
  import opened Outcomes
  import opened Slices

  type Byte = x: int | 0 <= x < 256

  // ------------------------------------------------------------------ joining and splitting

  const SEPARATOR: char := 0x1F as char

  function Join(parts: seq<string>): string {
    if parts == [] then []
    else if |parts| == 1 then parts[0]
    else parts[0] + [SEPARATOR] + Join(parts[1..])
  }

  /** Python's `split`: always at least one part. */
  function Split(text: string): (parts: seq<string>)
    ensures parts != []
  {
    if text == [] then [[]]
    else
      var rest := Split(text[1..]);
      if text[0] == SEPARATOR then [[]] + rest else [[text[0]] + rest[0]] + rest[1..]
  }

  predicate Clean(part: string) {
    SEPARATOR !in part
  }

  predicate AllClean(parts: seq<string>) {
    forall i | 0 <= i < |parts| :: Clean(parts[i])
  }

  lemma {:induction false} SplitOne(part: string, rest: string)
    requires Clean(part)
    ensures Split(part) == [part]
    ensures Split(part + [SEPARATOR] + rest) == [part] + Split(rest)
  {
    var text := part + [SEPARATOR] + rest;
    if part == [] {
      assert text[1..] == rest;
    } else {
      SplitOne(part[1..], rest);
      assert text[1..] == part[1..] + [SEPARATOR] + rest;
      assert part == [part[0]] + part[1..];
    }
  }

  lemma {:induction false} SplitJoin(parts: seq<string>)
    requires parts != [] && AllClean(parts)
    ensures Split(Join(parts)) == parts
  {
    assert Clean(parts[0]);
    if |parts| == 1 {
      SplitOne(parts[0], []);
      assert parts == [parts[0]];
    } else {
      SplitJoin(parts[1..]);
      SplitOne(parts[0], Join(parts[1..]));
      assert parts == [parts[0]] + parts[1..];
    }
  }

  lemma {:induction false} SplitsAreClean(text: string)
    ensures AllClean(Split(text))
  {
    if text != [] {
      SplitsAreClean(text[1..]);
      var rest := Split(text[1..]);
      assert Clean(rest[0]);
      forall i | 0 <= i < |Split(text)| ensures Clean(Split(text)[i]) {
        if text[0] == SEPARATOR { if i > 0 { assert Clean(rest[i - 1]); } } else if i > 0 { assert Clean(rest[i]); }
      }
    }
  }

  // ------------------------------------------------------------------ UTF-8

  /** The bytes of one code point: a head that says how many follow, then six bits at a time. */
  function EncodeChar(c: char): (bytes: seq<Byte>)
    ensures 1 <= |bytes| <= 4
  {
    var n := c as int;
    if n < 0x80 then [n]
    else if n < 0x800 then [0xC0 + n / 64, 0x80 + n % 64]
    else if n < 0x10000 then [0xE0 + n / 4096, 0x80 + n / 64 % 64, 0x80 + n % 64]
    else [0xF0 + n / 262144, 0x80 + n / 4096 % 64, 0x80 + n / 64 % 64, 0x80 + n % 64]
  }

  function EncodeText(text: string): seq<Byte> {
    if text == [] then [] else EncodeChar(text[0]) + EncodeText(text[1..])
  }

  predicate Continues(bytes: seq<Byte>, n: nat) {
    n < |bytes| && forall i | 1 <= i <= n :: 0x80 <= bytes[i] < 0xC0
  }

  /** A number written with a head and six-bit digits. */
  function Number(head: int, digits: seq<Byte>): int {
    if digits == [] then head else Number(head, digits[..|digits| - 1]) * 64 + digits[|digits| - 1] - 0x80
  }

  function AsChar(n: int, size: nat): Option<(char, nat)> {
    if 0 <= n < 0xD800 || 0xE000 <= n <= 0x10FFFF then Some((n as char, size)) else None
  }

  /** The code point at the front of some bytes and how many it takes. Refused: a stray or missing
      continuation, a longer form than needed, a surrogate, anything above 0x10FFFF. */
  function DecodeChar(bytes: seq<Byte>): (first: Option<(char, nat)>)
    requires bytes != []
    ensures first.Some? ==> 1 <= first.value.1 <= |bytes|
  {
    var b: int := bytes[0];
    if b < 0x80 then AsChar(b, 1)
    else if 0xC2 <= b < 0xE0 && Continues(bytes, 1) then AsChar(Number(b - 0xC0, bytes[1..2]), 2)
    else if 0xE0 <= b < 0xF0 && Continues(bytes, 2) then
      var n := Number(b - 0xE0, bytes[1..3]);
      if n < 0x800 then None else AsChar(n, 3)
    else if 0xF0 <= b < 0xF5 && Continues(bytes, 3) then
      var n := Number(b - 0xF0, bytes[1..4]);
      if n < 0x10000 then None else AsChar(n, 4)
    else None
  }

  function DecodeText(bytes: seq<Byte>): Option<string>
    decreases |bytes|
  {
    if bytes == [] then Some([])
    else
      match DecodeChar(bytes)
      case None => None
      case Some((c, n)) =>
        match DecodeText(bytes[n..])
        case None => None
        case Some(rest) => Some([c] + rest)
  }

  lemma Numbers(head: int, a: Byte, b: Byte, c: Byte)
    ensures Number(head, [a]) == head * 64 + a - 0x80
    ensures Number(head, [a, b]) == (head * 64 + a - 0x80) * 64 + b - 0x80
    ensures Number(head, [a, b, c]) == ((head * 64 + a - 0x80) * 64 + b - 0x80) * 64 + c - 0x80
  {
    assert [a][..0] == [] && [a, b][..1] == [a] && [a, b, c][..2] == [a, b];
  }

  lemma SixBits(n: nat)
    ensures n == n / 64 * 64 + n % 64
    ensures n / 4096 == n / 64 / 64 && n / 262144 == n / 64 / 64 / 64
  {
  }

  lemma CharRoundTrip(c: char, rest: seq<Byte>)
    ensures DecodeChar(EncodeChar(c) + rest) == Some((c, |EncodeChar(c)|))
  {
    hide Number;
    var n := c as int;
    var bytes := EncodeChar(c) + rest;
    SixBits(n);
    SixBits(n / 64);
    SixBits(n / 4096);
    if n < 0x80 {
    } else if n < 0x800 {
      assert Continues(bytes, 1) && bytes[1..2] == [bytes[1]];
      Numbers(n / 64, bytes[1], 0, 0);
    } else if n < 0x10000 {
      assert Continues(bytes, 2) && bytes[1..3] == [bytes[1], bytes[2]];
      Numbers(n / 4096, bytes[1], bytes[2], 0);
    } else {
      assert Continues(bytes, 3) && bytes[1..4] == [bytes[1], bytes[2], bytes[3]];
      Numbers(n / 262144, bytes[1], bytes[2], bytes[3]);
    }
  }

  lemma OneDigit(h: nat, a: nat)
    requires a < 64
    ensures (h * 64 + a) / 64 == h && (h * 64 + a) % 64 == a
  {
  }

  lemma CharDecodesToItsEncoding(bytes: seq<Byte>)
    requires bytes != [] && DecodeChar(bytes).Some?
    ensures var (c, n) := DecodeChar(bytes).value; EncodeChar(c) == bytes[..n]
  {
    hide Number;
    var b: int := bytes[0];
    if b < 0x80 {
    } else if b < 0xE0 {
      assert bytes[1..2] == [bytes[1]];
      Numbers(b - 0xC0, bytes[1], 0, 0);
      OneDigit(b - 0xC0, bytes[1] - 0x80);
    } else if b < 0xF0 {
      assert bytes[1..3] == [bytes[1], bytes[2]];
      Numbers(b - 0xE0, bytes[1], bytes[2], 0);
      TwoDigits(b - 0xE0, bytes[1] - 0x80, bytes[2] - 0x80);
    } else {
      assert bytes[1..4] == [bytes[1], bytes[2], bytes[3]];
      Numbers(b - 0xF0, bytes[1], bytes[2], bytes[3]);
      ThreeDigits(b - 0xF0, bytes[1] - 0x80, bytes[2] - 0x80, bytes[3] - 0x80);
    }
  }

  lemma TwoDigits(h: nat, a: nat, b: nat)
    requires a < 64 && b < 64
    ensures var n := (h * 64 + a) * 64 + b; n / 4096 == h && n / 64 % 64 == a && n % 64 == b
  {
    OneDigit(h * 64 + a, b);
    OneDigit(h, a);
    SixBits((h * 64 + a) * 64 + b);
  }

  lemma ThreeDigits(h: nat, a: nat, b: nat, c: nat)
    requires a < 64 && b < 64 && c < 64
    ensures var n := ((h * 64 + a) * 64 + b) * 64 + c;
            n / 262144 == h && n / 4096 % 64 == a && n / 64 % 64 == b && n % 64 == c
  {
    OneDigit((h * 64 + a) * 64 + b, c);
    TwoDigits(h, a, b);
    SixBits(((h * 64 + a) * 64 + b) * 64 + c);
  }

  lemma {:induction false} TextRoundTrip(text: string)
    ensures DecodeText(EncodeText(text)) == Some(text)
  {
    if text != [] {
      var rest := EncodeText(text[1..]);
      CharRoundTrip(text[0], rest);
      Halves(EncodeChar(text[0]), rest);
      TextRoundTrip(text[1..]);
      assert text == [text[0]] + text[1..];
    }
  }

  lemma {:induction false} TextDecodesToItsEncoding(bytes: seq<Byte>)
    requires DecodeText(bytes).Some?
    ensures EncodeText(DecodeText(bytes).value) == bytes
    decreases |bytes|
  {
    if bytes != [] {
      var (c, n) := DecodeChar(bytes).value;
      TextDecodesToItsEncoding(bytes[n..]);
      CharDecodesToItsEncoding(bytes);
      Rejoin(bytes, n);
    }
  }

  /** The decoder accepts exactly what the encoder produces, and gives back what it came from. */
  lemma Utf8Exactly(bytes: seq<Byte>, text: string)
    ensures DecodeText(bytes) == Some(text) <==> EncodeText(text) == bytes
  {
    TextRoundTrip(text);
    if DecodeText(bytes).Some? { TextDecodesToItsEncoding(bytes); }
  }

  // ------------------------------------------------------------------ base64url

  /** The alphabet of section 5 of RFC 4648. */
  function Digit(v: int): char
    requires 0 <= v < 64
  {
    if v < 26 then ('A' as int + v) as char
    else if v < 52 then ('a' as int + v - 26) as char
    else if v < 62 then ('0' as int + v - 52) as char
    else if v == 62 then '-' else '_'
  }

  /** The value of a digit; the decoder also takes the two digits of the standard alphabet. */
  function ValueOf(c: char): (v: Option<int>)
    ensures v.Some? ==> 0 <= v.value < 64
  {
    if 'A' <= c <= 'Z' then Some(c as int - 'A' as int)
    else if 'a' <= c <= 'z' then Some(c as int - 'a' as int + 26)
    else if '0' <= c <= '9' then Some(c as int - '0' as int + 52)
    else if c == '-' || c == '+' then Some(62)
    else if c == '_' || c == '/' then Some(63)
    else None
  }

  lemma DigitValue(v: int)
    requires 0 <= v < 64
    ensures ValueOf(Digit(v)) == Some(v) && Digit(v) != '=' && Digit(v) as int < 128
  {
  }

  function Pads(n: nat): string {
    seq(n, _ => '=')
  }

  function Quad(a: Byte, b: Byte, c: Byte): (text: string)
    ensures |text| == 4
  {
    [Digit(a / 4), Digit(a % 4 * 16 + b / 16), Digit(b % 16 * 4 + c / 64), Digit(c % 64)]
  }

  function Base64(bytes: seq<Byte>): string {
    if |bytes| == 0 then []
    else if |bytes| == 1 then [Digit(bytes[0] / 4), Digit(bytes[0] % 4 * 16)] + "=="
    else if |bytes| == 2 then
      [Digit(bytes[0] / 4), Digit(bytes[0] % 4 * 16 + bytes[1] / 16), Digit(bytes[1] % 16 * 4)] + "="
    else Quad(bytes[0], bytes[1], bytes[2]) + Base64(bytes[3..])
  }

  /** `rstrip("=")`. */
  function StripPads(s: string): string {
    if s != [] && s[|s| - 1] == '=' then StripPads(s[..|s| - 1]) else s
  }

  /** The digits alone, which is what is left when the padding goes. */
  function Digits(bytes: seq<Byte>): string {
    if |bytes| == 0 then []
    else if |bytes| == 1 then [Digit(bytes[0] / 4), Digit(bytes[0] % 4 * 16)]
    else if |bytes| == 2 then [Digit(bytes[0] / 4), Digit(bytes[0] % 4 * 16 + bytes[1] / 16), Digit(bytes[1] % 16 * 4)]
    else Quad(bytes[0], bytes[1], bytes[2]) + Digits(bytes[3..])
  }

  /** `-len % 4` pad characters: Python's remainder is never negative. */
  function Padding(length: int): nat {
    (-length) % 4
  }

  /** Digits, none of which is a pad. */
  predicate AllDigits(text: string) {
    forall i | 0 <= i < |text| :: text[i] != '=' && text[i] as int < 128
  }

  lemma QuadDigits(a: Byte, b: Byte, c: Byte)
    ensures AllDigits(Quad(a, b, c))
  {
    DigitValue(a / 4);
    DigitValue(a % 4 * 16 + b / 16);
    DigitValue(b % 16 * 4 + c / 64);
    DigitValue(c % 64);
  }

  lemma {:induction false} DigitsAreDigits(bytes: seq<Byte>)
    ensures AllDigits(Digits(bytes))
  {
    hide Digit;
    if |bytes| == 1 {
      DigitValue(bytes[0] / 4);
      DigitValue(bytes[0] % 4 * 16);
    } else if |bytes| == 2 {
      DigitValue(bytes[0] / 4);
      DigitValue(bytes[0] % 4 * 16 + bytes[1] / 16);
      DigitValue(bytes[1] % 16 * 4);
    } else if |bytes| >= 3 {
      DigitsAreDigits(bytes[3..]);
      QuadDigits(bytes[0], bytes[1], bytes[2]);
      assert Digits(bytes) == Quad(bytes[0], bytes[1], bytes[2]) + Digits(bytes[3..]);
    }
  }

  lemma {:induction false} DigitsAndPads(bytes: seq<Byte>)
    ensures Base64(bytes) == Digits(bytes) + Pads(Padding(|Digits(bytes)|))
  {
    hide Digit;
    if |bytes| == 1 {
      assert Pads(2) == "==";
    } else if |bytes| == 2 {
      assert Pads(1) == "=";
    } else if |bytes| >= 3 {
      DigitsAndPads(bytes[3..]);
      var head, rest := Quad(bytes[0], bytes[1], bytes[2]), Digits(bytes[3..]);
      assert Digits(bytes) == head + rest && Base64(bytes) == head + Base64(bytes[3..]);
      FourMore(|rest|);
      Associates(head, rest, Pads(Padding(|rest|)));
    }
  }

  lemma FourMore(n: nat)
    ensures Padding(n + 4) == Padding(n)
  {
  }

  lemma {:induction false} StripExactly(digits: string, n: nat)
    requires digits != [] ==> digits[|digits| - 1] != '='
    ensures StripPads(digits + Pads(n)) == digits
  {
    if n == 0 {
      assert digits + Pads(0) == digits;
    } else {
      assert (digits + Pads(n))[..|digits| + n - 1] == digits + Pads(n - 1);
      StripExactly(digits, n - 1);
    }
  }

  /** Stripping leaves the digits, and `-len % 4` restores the padding for every number of bytes. */
  lemma PaddingRestored(bytes: seq<Byte>)
    ensures var stripped := StripPads(Base64(bytes));
            stripped == Digits(bytes) && stripped + Pads(Padding(|stripped|)) == Base64(bytes)
  {
    hide Digits, Base64;
    DigitsAndPads(bytes);
    DigitsAreDigits(bytes);
    StripExactly(Digits(bytes), Padding(|Digits(bytes)|));
  }

  // ------------------------------------------------------------------ the lenient decoder

  /** Where the decoder stands: digits into a group of four, bits not yet emitted, pads in a row. */
  datatype Standing = Standing(quad: int, left: int, pads: nat, out: seq<Byte>)

  predicate ValidStanding(s: Standing) {
    (s.quad == 0 && s.left == 0) || (s.quad == 1 && 0 <= s.left < 64) ||
    (s.quad == 2 && 0 <= s.left < 16) || (s.quad == 3 && 0 <= s.left < 4)
  }

  function TakeDigit(s: Standing, v: int): (t: Standing)
    requires ValidStanding(s) && 0 <= v < 64
    ensures ValidStanding(t)
  {
    if s.quad == 0 then Standing(1, v, 0, s.out)
    else if s.quad == 1 then Standing(2, v % 16, 0, s.out + [s.left * 4 + v / 16])
    else if s.quad == 2 then Standing(3, v % 4, 0, s.out + [s.left * 16 + v / 4])
    else Standing(0, 0, 0, s.out + [s.left * 64 + v])
  }

  /** The decoder the language offers, in its lenient form: characters outside the alphabet are
      skipped, a complete pad sequence ends the input, and an incomplete group is an error. */
  function Scan(s: Standing, text: string): Option<seq<Byte>>
    requires ValidStanding(s)
    decreases |text|
  {
    if text == [] then (if s.quad == 0 then Some(s.out) else None)
    else if text[0] == '=' then
      if s.quad < 2 then Scan(s, text[1..])
      else if s.quad + s.pads + 1 >= 4 then Some(s.out)
      else Scan(s.(pads := s.pads + 1), text[1..])
    else
      match ValueOf(text[0])
      case None => Scan(s, text[1..])
      case Some(v) => Scan(TakeDigit(s, v), text[1..])
  }

  predicate Ascii(text: string) {
    forall i | 0 <= i < |text| :: text[i] as int < 128
  }

  /** `urlsafe_b64decode`: text outside ASCII is refused. */
  function Unbase64(text: string): Option<seq<Byte>> {
    if Ascii(text) then Scan(Standing(0, 0, 0, []), text) else None
  }

  lemma TakeOne(s: Standing, v: int, rest: string)
    requires ValidStanding(s) && 0 <= v < 64
    ensures Scan(s, [Digit(v)] + rest) == Scan(TakeDigit(s, v), rest)
  {
    DigitValue(v);
    assert ([Digit(v)] + rest)[1..] == rest;
  }

  lemma TakeTwo(out: seq<Byte>, b: Byte, rest: string)
    ensures Scan(Standing(0, 0, 0, out), [Digit(b / 4), Digit(b % 4 * 16)] + rest) ==
            Scan(Standing(2, 0, 0, out + [b]), rest)
  {
    var s := Standing(0, 0, 0, out);
    assert [Digit(b / 4), Digit(b % 4 * 16)] + rest == [Digit(b / 4)] + ([Digit(b % 4 * 16)] + rest);
    TakeOne(s, b / 4, [Digit(b % 4 * 16)] + rest);
    TakeOne(TakeDigit(s, b / 4), b % 4 * 16, rest);
  }

  lemma AfterThree(out: seq<Byte>, a: Byte, b: Byte, v: int)
    requires 0 <= v < 4
    ensures var s := Standing(0, 0, 0, out);
            TakeDigit(TakeDigit(TakeDigit(s, a / 4), a % 4 * 16 + b / 16), b % 16 * 4 + v) ==
            Standing(3, v, 0, out + [a] + [b])
  {
    var first := TakeDigit(Standing(0, 0, 0, out), a / 4);
    var second := TakeDigit(first, a % 4 * 16 + b / 16);
    assert second == Standing(2, b as int / 16, 0, out + [a]);
  }

  lemma TakeThree(out: seq<Byte>, a: Byte, b: Byte, v: int, rest: string)
    requires 0 <= v < 4
    ensures Scan(Standing(0, 0, 0, out), [Digit(a / 4), Digit(a % 4 * 16 + b / 16), Digit(b % 16 * 4 + v)] + rest) ==
            Scan(Standing(3, v, 0, out + [a] + [b]), rest)
  {
    hide Digit, Scan, TakeDigit;
    var s := Standing(0, 0, 0, out);
    var x, y, z := a / 4, a % 4 * 16 + b / 16, b % 16 * 4 + v;
    AfterThree(out, a, b, v);
    ThreeInARow(Digit(x), Digit(y), Digit(z), rest);
    TakeOne(s, x, [Digit(y)] + ([Digit(z)] + rest));
    TakeOne(TakeDigit(s, x), y, [Digit(z)] + rest);
    TakeOne(TakeDigit(TakeDigit(s, x), y), z, rest);
  }

  lemma ThreeInARow(x: char, y: char, z: char, rest: string)
    ensures [x, y, z] + rest == [x] + ([y] + ([z] + rest))
  {
  }

  lemma TakeFour(out: seq<Byte>, a: Byte, b: Byte, c: Byte, rest: string)
    ensures Scan(Standing(0, 0, 0, out), Quad(a, b, c) + rest) ==
            Scan(Standing(0, 0, 0, out + [a] + [b] + [c]), rest)
  {
    var front := [Digit(a / 4), Digit(a % 4 * 16 + b / 16), Digit(b % 16 * 4 + c / 64)];
    assert Quad(a, b, c) + rest == front + ([Digit(c % 64)] + rest);
    TakeThree(out, a, b, c / 64, [Digit(c % 64)] + rest);
    TakeOne(Standing(3, c / 64, 0, out + [a] + [b]), c % 64, rest);
  }

  lemma {:induction false} ScanBase64(out: seq<Byte>, bytes: seq<Byte>)
    ensures Scan(Standing(0, 0, 0, out), Base64(bytes)) == Some(out + bytes)
    decreases |bytes|
  {
    hide Digit, TakeDigit, ValueOf;
    if |bytes| == 0 {
      assert out + bytes == out;
    } else if |bytes| == 1 {
      TakeTwo(out, bytes[0], "==");
      OnePadThenAnother(out + [bytes[0]]);
      assert out + [bytes[0]] == out + bytes;
    } else if |bytes| == 2 {
      TakeThree(out, bytes[0], bytes[1], 0, "=");
      assert out + [bytes[0]] + [bytes[1]] == out + bytes;
    } else {
      TakeFour(out, bytes[0], bytes[1], bytes[2], Base64(bytes[3..]));
      ScanBase64(out + [bytes[0]] + [bytes[1]] + [bytes[2]], bytes[3..]);
      assert out + [bytes[0]] + [bytes[1]] + [bytes[2]] + bytes[3..] == out + bytes;
    }
  }

  lemma OnePadThenAnother(out: seq<Byte>)
    ensures Scan(Standing(2, 0, 0, out), "==") == Some(out)
  {
    assert "=="[1..] == "=";
  }

  lemma AsciiBase64(bytes: seq<Byte>)
    ensures Ascii(Base64(bytes))
  {
    hide Digits, Base64;
    DigitsAndPads(bytes);
    DigitsAreDigits(bytes);
  }

  // ------------------------------------------------------------------ cursors

  function EncodeCursor(parts: seq<string>): string {
    StripPads(Base64(EncodeText(Join(parts))))
  }

  /** The parts, or `None` for `BadCursor`. */
  function DecodeCursor(cursor: string, expected: nat): Option<seq<string>> {
    match Unbase64(cursor + Pads(Padding(|cursor|)))
    case None => None
    case Some(bytes) =>
      match DecodeText(bytes)
      case None => None
      case Some(text) => if |Split(text)| == expected then Some(Split(text)) else None
  }

  // What the decoder makes of text that no page handed out.

  lemma {:induction false} ScannedAlike(s: Standing, a: string, u: string, v: string)
    requires ValidStanding(s)
    requires forall t: Standing | ValidStanding(t) :: Scan(t, u) == Scan(t, v)
    ensures Scan(s, a + u) == Scan(s, a + v)
    decreases |a|
  {
    if a == [] {
      assert a + u == u && a + v == v;
    } else {
      var rest := a[1..];
      assert (a + u)[1..] == rest + u && (a + v)[1..] == rest + v;
      if a[0] == '=' {
        ScannedAlike(if s.quad < 2 then s else s.(pads := s.pads + 1), rest, u, v);
      } else {
        ScannedAlike(if ValueOf(a[0]).Some? then TakeDigit(s, ValueOf(a[0]).value) else s, rest, u, v);
      }
    }
  }

  predicate Read(c: char) {
    'A' <= c <= 'Z' || 'a' <= c <= 'z' || '0' <= c <= '9' || c == '-' || c == '_' || c == '+' || c == '/' || c == '='
  }

  lemma PassedOver(s: Standing, c: char, rest: string)
    requires ValidStanding(s) && !Read(c)
    ensures Scan(s, [c] + rest) == Scan(s, rest)
  {
    assert ([c] + rest)[1..] == rest;
  }

  lemma EitherAlphabet(s: Standing, rest: string)
    requires ValidStanding(s)
    ensures Scan(s, ['+'] + rest) == Scan(s, ['-'] + rest) && Scan(s, ['/'] + rest) == Scan(s, ['_'] + rest)
  {
    assert (['+'] + rest)[1..] == rest && (['-'] + rest)[1..] == rest;
    assert (['/'] + rest)[1..] == rest && (['_'] + rest)[1..] == rest;
  }

  /** Characters outside both alphabets are passed over, and the standard alphabet is read like the URL-safe one. */
  lemma OtherCharacters(s: Standing, a: string, c: char, b: string)
    requires ValidStanding(s)
    ensures !Read(c) ==> Scan(s, a + ([c] + b)) == Scan(s, a + b)
    ensures Scan(s, a + (['+'] + b)) == Scan(s, a + (['-'] + b))
    ensures Scan(s, a + (['/'] + b)) == Scan(s, a + (['_'] + b))
  {
    hide Scan, Read, ValidStanding;
    if !Read(c) {
      forall t: Standing | ValidStanding(t) ensures Scan(t, [c] + b) == Scan(t, b) { PassedOver(t, c, b); }
      ScannedAlike(s, a, [c] + b, b);
    }
    forall t: Standing | ValidStanding(t)
      ensures Scan(t, ['+'] + b) == Scan(t, ['-'] + b) && Scan(t, ['/'] + b) == Scan(t, ['_'] + b)
    {
      EitherAlphabet(t, b);
    }
    ScannedAlike(s, a, ['+'] + b, ['-'] + b);
    ScannedAlike(s, a, ['/'] + b, ['_'] + b);
  }

  /** A group of four that was begun must be ended, by digits or by just the pads it lacks; what follows the pads
      is not looked at; and pads before the second digit are passed over. */
  lemma PaddingEnds(s: Standing, rest: string)
    requires ValidStanding(s) && s.pads == 0
    ensures Scan(s, "") == if s.quad == 0 then Some(s.out) else None
    ensures s.quad < 2 ==> Scan(s, "=" + rest) == Scan(s, rest)
    ensures s.quad == 2 ==> Scan(s, "=") == None && Scan(s, "==" + rest) == Some(s.out)
    ensures s.quad == 3 ==> Scan(s, "=" + rest) == Some(s.out)
  {
    assert ("=" + rest)[1..] == rest && ("==" + rest)[1..] == "=" + rest && "="[1..] == "";
  }

  /** A cursor with a character outside ASCII is refused; any other is given to the decoder. */
  lemma OutsideAsciiIsRefused(cursor: string, expected: nat)
    ensures (exists i :: 0 <= i < |cursor| && cursor[i] as int >= 128) ==> DecodeCursor(cursor, expected) == None
    ensures (forall i :: 0 <= i < |cursor| ==> cursor[i] as int < 128) ==>
              Unbase64(cursor) == Scan(Standing(0, 0, 0, []), cursor)
  {
    hide Scan, DecodeText, Split;
    var padded := cursor + Pads(Padding(|cursor|));
    if i :| 0 <= i < |cursor| && cursor[i] as int >= 128 {
      assert padded[i] == cursor[i];
    }
  }

  lemma Received(parts: seq<string>, expected: nat)
    ensures DecodeCursor(EncodeCursor(parts), expected) ==
            if |Split(Join(parts))| == expected then Some(Split(Join(parts))) else None
  {
    hide Base64, StripPads, Scan, EncodeText, DecodeText, Split, Join;
    var bytes := EncodeText(Join(parts));
    PaddingRestored(bytes);
    AsciiBase64(bytes);
    ScanBase64([], bytes);
    assert [] + bytes == bytes;
    TextRoundTrip(Join(parts));
  }

  /** A cursor gives its parts back exactly when there is a part and none holds the separator. */
  lemma CursorRoundTripsExactly(parts: seq<string>)
    ensures DecodeCursor(EncodeCursor(parts), |parts|) == Some(parts) <==> parts != [] && AllClean(parts)
  {
    hide EncodeCursor, DecodeCursor, Split, Join;
    Received(parts, |parts|);
    SplitsAreClean(Join(parts));
    if parts != [] && AllClean(parts) { SplitJoin(parts); }
  }

  /** A cursor made for another number of parts is refused, so it cannot be half-read. */
  lemma OtherCollectionsAreRefused(parts: seq<string>, expected: nat)
    requires parts != [] && AllClean(parts) && expected != |parts|
    ensures DecodeCursor(EncodeCursor(parts), expected) == None
  {
    hide EncodeCursor, DecodeCursor, Split, Join;
    Received(parts, expected);
    SplitJoin(parts);
  }

  /** Different positions have different cursors. */
  lemma CursorsIdentify(parts: seq<string>, others: seq<string>)
    requires parts != [] && AllClean(parts) && others != [] && AllClean(others)
    requires EncodeCursor(parts) == EncodeCursor(others)
    ensures parts == others
  {
    hide EncodeCursor, DecodeCursor;
    CursorRoundTripsExactly(parts);
    CursorRoundTripsExactly(others);
    Received(parts, |parts|);
    Received(others, |parts|);
    SplitJoin(parts);
    SplitJoin(others);
  }

  // ------------------------------------------------------------------ what a cursor is made of

  /** The parts with a unit separator between them. */
  lemma JoinedExactly(part: string, other: string, rest: seq<string>)
    ensures Join([part]) == part && Join([part] + ([other] + rest)) == part + [0x1F as char] + Join([other] + rest)
  {
    assert ([part] + ([other] + rest))[1..] == [other] + rest;
  }

  /** How many bytes a character takes, what the first says of that, and that the others continue it. */
  lemma EncodedExactly(c: char)
    ensures var n, bytes: seq<int> := c as int, Ints(EncodeChar(c));
            if n < 128 then bytes == [n]
            else if n < 2048 then
              |bytes| == 2 && 192 <= bytes[0] < 224 && 128 <= bytes[1] < 192 &&
              n == (bytes[0] - 192) * 64 + (bytes[1] - 128)
            else if n < 65536 then
              |bytes| == 3 && 224 <= bytes[0] < 240 && 128 <= bytes[1] < 192 && 128 <= bytes[2] < 192 &&
              n == (bytes[0] - 224) * 4096 + (bytes[1] - 128) * 64 + (bytes[2] - 128)
            else
              |bytes| == 4 && 240 <= bytes[0] < 248 && 128 <= bytes[1] < 192 && 128 <= bytes[2] < 192 &&
              128 <= bytes[3] < 192 &&
              n == (bytes[0] - 240) * 262144 + (bytes[1] - 128) * 4096 + (bytes[2] - 128) * 64 + (bytes[3] - 128)
  {
    SixBitGroups(c as int);
  }

  function Ints(bytes: seq<Byte>): (ints: seq<int>)
    ensures |ints| == |bytes| && forall i | 0 <= i < |bytes| :: ints[i] == bytes[i] as int
  {
    seq(|bytes|, i requires 0 <= i < |bytes| => bytes[i] as int)
  }

  lemma SixBitGroups(n: int)
    requires 0 <= n
    ensures n == n / 64 * 64 + n % 64
    ensures n / 64 == n / 4096 * 64 + n / 64 % 64
    ensures n / 4096 == n / 262144 * 64 + n / 4096 % 64
  {
    assert n / 4096 == n / 64 / 64;
    assert n / 262144 == n / 4096 / 64;
  }

  /** The digits of the URL-safe alphabet in section 5 of RFC 4648: capitals, small letters, figures, and
      the last two. */
  lemma AlphabetExactly(v: nat)
    requires v < 63
    ensures Digit(0) == 'A' && Digit(26) == 'a' && Digit(52) == '0' && Digit(62) == '-' && Digit(63) == '_'
    ensures v !in {25, 51, 61, 62} ==> Digit(v + 1) as int == Digit(v) as int + 1
  {
  }

  /** Three bytes are four digits, as one number. */
  lemma QuadExactly(a: Byte, b: Byte, c: Byte, v: nat, w: nat, x: nat, y: nat)
    requires v < 64 && w < 64 && x < 64 && y < 64
    requires (a as int) * 65536 + (b as int) * 256 + (c as int) == v * 262144 + w * 4096 + x * 64 + y
    ensures Quad(a, b, c) == [Digit(v), Digit(w), Digit(x), Digit(y)]
  {
    hide Digit;
    var p, q, r, s := a as int / 4, a as int % 4 * 16 + b as int / 16, b as int % 16 * 4 + c as int / 64, c as int % 64;
    assert (a as int) * 65536 + (b as int) * 256 + (c as int) == p * 262144 + q * 4096 + r * 64 + s;
    SameDigits(v, w, x, y, p, q, r, s);
  }

  lemma SameDigits(v: nat, w: nat, x: nat, y: nat, p: nat, q: nat, r: nat, s: nat)
    requires v < 64 && w < 64 && x < 64 && y < 64 && p < 64 && q < 64 && r < 64 && s < 64
    requires v * 262144 + w * 4096 + x * 64 + y == p * 262144 + q * 4096 + r * 64 + s
    ensures v == p && w == q && x == r && y == s
  {
  }
}
