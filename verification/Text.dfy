/** UTF-8 and percent-encoding, as Python's `str.encode`, `bytes.decode(errors="replace")`,
    `urllib.parse.quote_plus` and `urllib.parse.unquote` define them. */
module Text {
  import opened Wrappers

  type byte = b: nat | b < 256 witness 0

  const REPLACEMENT: char := '\U{FFFD}'

  function Encode(c: char): (bytes: seq<byte>)
    ensures 1 <= |bytes| <= 4
  {
    var n := c as int;
    if n < 0x80 then [n]
    else if n < 0x800 then [0xC0 + n / 64, 0x80 + n % 64]
    else if n < 0x1_0000 then [0xE0 + n / 4096, 0x80 + n / 64 % 64, 0x80 + n % 64]
    else [0xF0 + n / 0x4_0000, 0x80 + n / 4096 % 64, 0x80 + n / 64 % 64, 0x80 + n % 64]
  }

  function EncodeAll(s: string): seq<byte> {
    if |s| == 0 then [] else Encode(s[0]) + EncodeAll(s[1..])
  }

  predicate Continuation(bytes: seq<byte>, i: nat) {
    i < |bytes| && 0x80 <= bytes[i] < 0xC0
  }

  /** The next character and the octets it uses; an ill-formed prefix becomes one U+FFFD. */
  function DecodeOne(bytes: seq<byte>): (r: (char, nat))
    requires |bytes| > 0
    ensures 1 <= r.1 <= |bytes|
  {
    var lead: int := bytes[0];
    if lead < 0x80 then (lead as char, 1)
    else if 0xC2 <= lead < 0xE0 then
      if Continuation(bytes, 1) then (((lead - 0xC0) * 64 + (bytes[1] as int - 0x80)) as char, 2)
      else (REPLACEMENT, 1)
    else if 0xE0 <= lead < 0xF0 then
      var lo := if lead == 0xE0 then 0xA0 else 0x80;
      var hi := if lead == 0xED then 0x9F else 0xBF;
      if !(|bytes| > 1 && lo <= bytes[1] <= hi) then (REPLACEMENT, 1)
      else if !Continuation(bytes, 2) then (REPLACEMENT, 2)
      else (((lead - 0xE0) * 4096 + (bytes[1] as int - 0x80) * 64 + (bytes[2] as int - 0x80)) as char, 3)
    else if 0xF0 <= lead < 0xF5 then
      var lo := if lead == 0xF0 then 0x90 else 0x80;
      var hi := if lead == 0xF4 then 0x8F else 0xBF;
      if !(|bytes| > 1 && lo <= bytes[1] <= hi) then (REPLACEMENT, 1)
      else if !Continuation(bytes, 2) then (REPLACEMENT, 2)
      else if !Continuation(bytes, 3) then (REPLACEMENT, 3)
      else (((lead - 0xF0) * 0x4_0000 + (bytes[1] as int - 0x80) * 4096
             + (bytes[2] as int - 0x80) * 64 + (bytes[3] as int - 0x80)) as char, 4)
    else (REPLACEMENT, 1)
  }

  function DecodeAll(bytes: seq<byte>): string {
    if |bytes| == 0 then ""
    else
      var (c, n) := DecodeOne(bytes);
      [c] + DecodeAll(bytes[n..])
  }

  lemma DecodeTwo(c: char, bytes: seq<byte>)
    requires 0x80 <= c as int < 0x800 && Encode(c) <= bytes
    ensures DecodeOne(bytes) == (c, 2)
  {
    var n := c as int;
    assert bytes[0] == 0xC0 + n / 64 && bytes[1] == 0x80 + n % 64;
  }

  lemma DecodeThree(c: char, bytes: seq<byte>)
    requires 0x800 <= c as int < 0x1_0000 && Encode(c) <= bytes
    ensures DecodeOne(bytes) == (c, 3)
  {
    var n := c as int;
    assert bytes[0] == 0xE0 + n / 4096 && bytes[1] == 0x80 + n / 64 % 64 && bytes[2] == 0x80 + n % 64;
    assert n / 4096 == n / 64 / 64;
  }

  lemma DecodeFour(c: char, bytes: seq<byte>)
    requires 0x1_0000 <= c as int && Encode(c) <= bytes
    ensures DecodeOne(bytes) == (c, 4)
  {
    var n := c as int;
    assert bytes[0] == 0xF0 + n / 0x4_0000 && bytes[1] == 0x80 + n / 4096 % 64;
    assert bytes[2] == 0x80 + n / 64 % 64 && bytes[3] == 0x80 + n % 64;
    assert n / 4096 == n / 64 / 64 && n / 0x4_0000 == n / 4096 / 64;
  }

  lemma DecodeOneEncode(c: char, rest: seq<byte>)
    ensures DecodeOne(Encode(c) + rest) == (c, |Encode(c)|)
  {
    var n := c as int;
    var bytes := Encode(c) + rest;
    assert Encode(c) <= bytes;
    if 0x80 <= n < 0x800 {
      DecodeTwo(c, bytes);
    } else if 0x800 <= n < 0x1_0000 {
      DecodeThree(c, bytes);
    } else if n >= 0x1_0000 {
      DecodeFour(c, bytes);
    }
  }

  /** An octet without its marker. */
  function Bits(octet: int, marker: int): int {
    octet - marker
  }

  /** Well-formed UTF-8: the shortest form, and the character's bits spread over the octets. */
  lemma EncodeMeans(c: char)
    ensures var n, e := c as int, Encode(c);
            && (|e| == 1 <==> n < 0x80) && (|e| <= 2 <==> n < 0x800) && (|e| <= 3 <==> n < 0x1_0000)
            && (forall i :: 1 <= i < |e| ==> 0x80 <= e[i] < 0xC0)
            && (|e| == 1 ==> n == e[0])
            && (|e| == 2 ==> n == Bits(e[0], 0xC0) * 0x40 + Bits(e[1], 0x80))
            && (|e| == 3 ==> n == Bits(e[0], 0xE0) * 0x1000 + Bits(e[1], 0x80) * 0x40 + Bits(e[2], 0x80))
            && (|e| == 4 ==> n == Bits(e[0], 0xF0) * 0x4_0000 + Bits(e[1], 0x80) * 0x1000 + Bits(e[2], 0x80) * 0x40
                                  + Bits(e[3], 0x80))
  {
    var n := c as int;
    assert n / 4096 == n / 64 / 64 && n / 0x4_0000 == n / 4096 / 64;
  }

  /** Decoding is exact: what is not replaced was well-formed, and well-formed octets are never replaced. */
  lemma DecodeOneIff(bytes: seq<byte>, c: char)
    requires |bytes| > 0 && c != REPLACEMENT
    ensures DecodeOne(bytes).0 == c <==> Encode(c) <= bytes
    ensures DecodeOne(bytes).0 == c ==> DecodeOne(bytes).1 == |Encode(c)|
  {
    if Encode(c) <= bytes {
      DecodeOneEncode(c, bytes[|Encode(c)|..]);
      assert bytes == Encode(c) + bytes[|Encode(c)|..];
    }
    if DecodeOne(bytes).0 == c {
      DecodedWasEncoded(bytes);
    }
  }

  lemma DecodedWasEncoded(bytes: seq<byte>)
    requires |bytes| > 0 && DecodeOne(bytes).0 != REPLACEMENT
    ensures bytes[..DecodeOne(bytes).1] == Encode(DecodeOne(bytes).0)
  {
    hide Encode;
    var (c, n) := DecodeOne(bytes);
    if n == 1 {
      EncodedOne(c);
    } else if n == 2 {
      EncodedTwo(c, Bits(bytes[0], 0xC0), Bits(bytes[1], 0x80));
    } else if n == 3 {
      EncodedThree(c, Bits(bytes[0], 0xE0), Bits(bytes[1], 0x80), Bits(bytes[2], 0x80));
    } else {
      EncodedFour(c, Bits(bytes[0], 0xF0), Bits(bytes[1], 0x80), Bits(bytes[2], 0x80), Bits(bytes[3], 0x80));
    }
  }

  lemma EncodedOne(ch: char)
    requires ch < '\U{80}'
    ensures Encode(ch) == [ch as int]
  {
  }

  lemma EncodedTwo(ch: char, a: nat, b: nat)
    requires b < 64 && 0x80 <= ch as int < 0x800 && ch as int == a * 64 + b
    ensures a < 0x40 && Encode(ch) == [0xC0 + a, 0x80 + b]
  {
    TwoOctets(a, b);
  }

  lemma EncodedThree(ch: char, a: nat, b: nat, c: nat)
    requires b < 64 && c < 64 && 0x800 <= ch as int < 0x1_0000 && ch as int == a * 4096 + b * 64 + c
    ensures a < 0x20 && Encode(ch) == [0xE0 + a, 0x80 + b, 0x80 + c]
  {
    TwoOctets(a * 64 + b, c);
    TwoOctets(a, b);
    assert ch as int / 4096 == ch as int / 64 / 64;
  }

  lemma EncodedFour(ch: char, a: nat, b: nat, c: nat, d: nat)
    requires b < 64 && c < 64 && d < 64 && 0x1_0000 <= ch as int
    requires ch as int == a * 0x4_0000 + b * 4096 + c * 64 + d
    ensures a < 0x10 && Encode(ch) == [0xF0 + a, 0x80 + b, 0x80 + c, 0x80 + d]
  {
    TwoOctets((a * 64 + b) * 64 + c, d);
    TwoOctets(a * 64 + b, c);
    TwoOctets(a, b);
    assert ch as int / 4096 == ch as int / 64 / 64 && ch as int / 0x4_0000 == ch as int / 4096 / 64;
  }

  lemma TwoOctets(high: nat, low: nat)
    requires low < 64
    ensures (high * 64 + low) / 64 == high && (high * 64 + low) % 64 == low
  {
  }

  lemma {:induction false} DecodeEncode(s: string)
    ensures DecodeAll(EncodeAll(s)) == s
  {
    if |s| != 0 {
      var rest := EncodeAll(s[1..]);
      DecodeOneEncode(s[0], rest);
      assert (Encode(s[0]) + rest)[|Encode(s[0])|..] == rest;
      DecodeEncode(s[1..]);
    }
  }

  // ---- Percent-encoding (section 2.1 of RFC 3986, form rules) ----

  /** The characters `quote` never escapes. */
  predicate AlwaysSafe(b: byte) {
    || 'A' as int <= b <= 'Z' as int || 'a' as int <= b <= 'z' as int || '0' as int <= b <= '9' as int
    || b == '_' as int || b == '.' as int || b == '-' as int || b == '~' as int
  }

  function UpperHex(d: nat): char
    requires d < 16
  {
    if d < 10 then ('0' as int + d) as char else ('A' as int + d - 10) as char
  }

  function HexOf(c: char): Option<nat> {
    if '0' <= c <= '9' then Some(c as int - '0' as int)
    else if 'a' <= c <= 'f' then Some(c as int - 'a' as int + 10)
    else if 'A' <= c <= 'F' then Some(c as int - 'A' as int + 10)
    else None
  }

  function QuoteByte(b: byte): string {
    if AlwaysSafe(b) then [b as char] else ['%', UpperHex(b / 16), UpperHex(b % 16)]
  }

  const UPPER := "ABCDEFGHIJKLMNOPQRSTUVWXYZ"
  const LOWER := "abcdefghijklmnopqrstuvwxyz"
  const DIGITS := "0123456789"
  const MARKS := "-._~"
  const HEX := "0123456789ABCDEF"
  const LOWER_HEX := "0123456789abcdef"

  /** A hexadecimal digit is read by its place in the alphabet, either case. */
  lemma HexAlphabet(c: char, d: nat)
    requires d < 16
    ensures HexOf(c) == Some(d) <==> c == HEX[d] || c == LOWER_HEX[d]
    ensures HexOf(c).Some? ==> HexOf(c).value < 16
    ensures UpperHex(d) == HEX[d]
  {
  }

  lemma SafeLetters(b: byte)
    ensures AlwaysSafe(b) <==>
              b as char in UPPER || b as char in LOWER || b as char in DIGITS || b as char in MARKS
  {
  }

  /** Unreserved characters (section 2.3 of RFC 3986) stay; any other octet is a percent sign and two digits. */
  lemma QuotedOctet(b: byte)
    ensures var c := b as char;
            QuoteByte(b) == if c in UPPER || c in LOWER || c in DIGITS || c in MARKS then [c]
                            else ['%', HEX[b / 16], HEX[b % 16]]
  {
    hide AlwaysSafe, UpperHex;
    HexAlphabet('0', b / 16);
    HexAlphabet('0', b % 16);
    SafeLetters(b);
  }

  function QuoteBytes(bytes: seq<byte>): string {
    if |bytes| == 0 then "" else QuoteByte(bytes[0]) + QuoteBytes(bytes[1..])
  }

  /** `quote_plus`: a space becomes a plus sign. */
  function QuotePlus(s: string): string {
    if |s| == 0 then ""
    else (if s[0] == ' ' then "+" else QuoteBytes(Encode(s[0]))) + QuotePlus(s[1..])
  }

  /** `unquote_to_bytes` of an ASCII string; a percent sign without two hex digits stays. */
  function UnquoteBytes(s: string): seq<byte>
    requires forall i :: 0 <= i < |s| ==> s[i] < '\U{80}'
  {
    if |s| == 0 then []
    else if s[0] == '%' && |s| >= 3 && HexOf(s[1]).Some? && HexOf(s[2]).Some? then
      [HexOf(s[1]).value * 16 + HexOf(s[2]).value] + UnquoteBytes(s[3..])
    else [s[0] as int] + UnquoteBytes(s[1..])
  }

  /** The length of the leading run of ASCII characters. */
  function AsciiRun(s: string): (n: nat)
    ensures n <= |s| && forall i :: 0 <= i < n ==> s[i] < '\U{80}'
    ensures |s| > 0 && s[0] < '\U{80}' ==> n > 0
    ensures n < |s| ==> s[n] >= '\U{80}'
  {
    if |s| == 0 || s[0] >= '\U{80}' then 0 else 1 + AsciiRun(s[1..])
  }

  /** `unquote`: each ASCII run is decoded on its own, other characters pass through. */
  function Unquote(s: string): string {
    if |s| == 0 then ""
    else if s[0] >= '\U{80}' then [s[0]] + Unquote(s[1..])
    else
      var n := AsciiRun(s);
      DecodeAll(UnquoteBytes(s[..n])) + Unquote(s[n..])
  }

  function PlusToSpace(s: string): string {
    if |s| == 0 then "" else [if s[0] == '+' then ' ' else s[0]] + PlusToSpace(s[1..])
  }

  /** How `parse_qsl` reads one field. */
  function FormDecode(s: string): string {
    Unquote(PlusToSpace(s))
  }

  /** What a quoted string looks like once its plus signs are spaces again. */
  ghost function QuoteSpaced(s: string): string {
    if |s| == 0 then ""
    else (if s[0] == ' ' then " " else QuoteBytes(Encode(s[0]))) + QuoteSpaced(s[1..])
  }

  ghost predicate QuotedChar(c: char) {
    || 'A' <= c <= 'Z' || 'a' <= c <= 'z' || '0' <= c <= '9'
    || c == '_' || c == '.' || c == '-' || c == '~' || c == '%'
  }

  lemma {:induction false} QuoteBytesChars(bytes: seq<byte>)
    ensures forall i :: 0 <= i < |QuoteBytes(bytes)| ==> QuotedChar(QuoteBytes(bytes)[i])
  {
    if |bytes| != 0 {
      QuoteBytesChars(bytes[1..]);
      assert forall i :: 0 <= i < |QuoteByte(bytes[0])| ==> QuotedChar(QuoteByte(bytes[0])[i]);
    }
  }

  /** Printed fields use only unreserved characters, percent signs and plus signs. */
  lemma {:induction false} QuotePlusChars(s: string)
    ensures forall i :: 0 <= i < |QuotePlus(s)| ==> QuotedChar(QuotePlus(s)[i]) || QuotePlus(s)[i] == '+'
  {
    if |s| != 0 {
      QuotePlusChars(s[1..]);
      QuoteBytesChars(Encode(s[0]));
    }
  }

  lemma {:induction false} PlusToSpaceConcat(a: string, b: string)
    ensures PlusToSpace(a + b) == PlusToSpace(a) + PlusToSpace(b)
  {
    if |a| == 0 {
      assert a + b == b;
    } else {
      assert (a + b)[1..] == a[1..] + b;
      PlusToSpaceConcat(a[1..], b);
    }
  }

  lemma {:induction false} PlusToSpaceIdentity(s: string)
    requires '+' !in s
    ensures PlusToSpace(s) == s
  {
    if |s| != 0 {
      PlusToSpaceIdentity(s[1..]);
      assert s == [s[0]] + s[1..];
    }
  }

  lemma {:induction false} SpacesReturn(s: string)
    ensures PlusToSpace(QuotePlus(s)) == QuoteSpaced(s)
  {
    if |s| != 0 {
      SpacesReturn(s[1..]);
      var head := if s[0] == ' ' then "+" else QuoteBytes(Encode(s[0]));
      PlusToSpaceConcat(head, QuotePlus(s[1..]));
      if s[0] == ' ' {
        assert PlusToSpace("+") == " ";
      } else {
        QuoteBytesChars(Encode(s[0]));
        PlusToSpaceIdentity(head);
      }
    }
  }

  ghost predicate Ascii(s: string) {
    forall i :: 0 <= i < |s| ==> s[i] < '\U{80}'
  }

  lemma UnquoteQuotedByte(b: byte, rest: string)
    requires Ascii(rest)
    ensures Ascii(QuoteByte(b) + rest)
    ensures UnquoteBytes(QuoteByte(b) + rest) == [b] + UnquoteBytes(rest)
  {
    var s := QuoteByte(b) + rest;
    if AlwaysSafe(b) {
      assert s[1..] == rest;
    } else {
      assert s[3..] == rest;
    }
  }

  lemma QuoteBytesSplit(bytes: seq<byte>, rest: string)
    requires |bytes| > 0
    ensures QuoteBytes(bytes) + rest == QuoteByte(bytes[0]) + (QuoteBytes(bytes[1..]) + rest)
  {
    Associate(QuoteByte(bytes[0]), QuoteBytes(bytes[1..]), rest);
  }

  lemma Associate<T>(a: seq<T>, b: seq<T>, c: seq<T>)
    ensures a + b + c == a + (b + c)
  {
  }

  lemma Regroup<T>(s: seq<T>, t: seq<T>)
    requires |s| > 0
    ensures [s[0]] + (s[1..] + t) == s + t
  {
  }

  lemma {:induction false} UnquoteQuoted(bytes: seq<byte>, rest: string)
    requires Ascii(rest)
    ensures Ascii(QuoteBytes(bytes) + rest)
    ensures UnquoteBytes(QuoteBytes(bytes) + rest) == bytes + UnquoteBytes(rest)
  {
    if |bytes| == 0 {
      assert QuoteBytes(bytes) + rest == rest;
    } else {
      var tail := QuoteBytes(bytes[1..]) + rest;
      UnquoteQuoted(bytes[1..], rest);
      QuoteBytesSplit(bytes, rest);
      UnquoteQuotedByte(bytes[0], tail);
      Regroup(bytes, UnquoteBytes(rest));
    }
  }

  lemma {:induction false} UnquoteSpaced(s: string)
    ensures Ascii(QuoteSpaced(s))
    ensures UnquoteBytes(QuoteSpaced(s)) == EncodeAll(s)
  {
    if |s| != 0 {
      UnquoteSpaced(s[1..]);
      var rest := QuoteSpaced(s[1..]);
      if s[0] == ' ' {
        assert (" " + rest)[1..] == rest;
      } else {
        UnquoteQuoted(Encode(s[0]), rest);
      }
    }
  }

  lemma UnquoteAscii(q: string)
    requires Ascii(q)
    ensures Unquote(q) == DecodeAll(UnquoteBytes(q))
  {
    hide DecodeAll, UnquoteBytes;
    if |q| == 0 {
      EmptyDecodes();
    } else {
      assert AsciiRun(q) == |q|;
      assert q[..|q|] == q && q[|q|..] == "";
    }
  }

  lemma EmptyDecodes()
    ensures DecodeAll(UnquoteBytes("")) == ""
  {
  }

  /** Reading back a printed field returns the field, for every Unicode string. */
  lemma FormRoundTrip(s: string)
    ensures FormDecode(QuotePlus(s)) == s
  {
    hide Unquote, PlusToSpace, QuotePlus, QuoteSpaced, UnquoteBytes, DecodeAll, EncodeAll;
    SpacesReturn(s);
    UnquoteSpaced(s);
    DecodeEncode(s);
    UnquoteAscii(QuoteSpaced(s));
  }
}
