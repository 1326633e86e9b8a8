/** Version-1 info hashes: 160 bits written in hexadecimal or Base32 (magnet.py). */
module Btih {
  import opened Wrappers

  datatype MagnetError =
    | InvalidUri
    | WrongScheme
    | MissingBtih
    | InvalidBtih
    | ConflictingBtih

  predicate IsHexDigit(c: char) {
    '0' <= c <= '9' || 'a' <= c <= 'f'
  }

  /** The normal form: 40 lower-case hexadecimal digits. */
  predicate NormalBtih(s: string) {
    |s| == 40 && forall i :: 0 <= i < |s| ==> IsHexDigit(s[i])
  }

  predicate IsAnyHexDigit(c: char) {
    IsHexDigit(c) || 'A' <= c <= 'F'
  }

  /** `[0-9a-fA-F]{40}`. */
  predicate IsHexBtih(s: string) {
    |s| == 40 && forall i :: 0 <= i < |s| ==> IsAnyHexDigit(s[i])
  }

  predicate IsBase32Digit(c: char) {
    'A' <= c <= 'Z' || '2' <= c <= '7' || 'a' <= c <= 'z'
  }

  /** `[A-Z2-7a-z]{32}`. */
  predicate IsBase32Btih(s: string) {
    |s| == 32 && forall i :: 0 <= i < |s| ==> IsBase32Digit(s[i])
  }

  /** The characters removed by Python's `str.strip()`. */
  predicate IsSpace(c: char) {
    || '\U{9}' <= c <= '\U{D}' || '\U{1C}' <= c <= '\U{20}'
    || c == '\U{85}' || c == '\U{A0}' || c == '\U{1680}' || '\U{2000}' <= c <= '\U{200A}'
    || c == '\U{2028}' || c == '\U{2029}' || c == '\U{202F}' || c == '\U{205F}' || c == '\U{3000}'
  }

  lemma AsciiSpaces(c: char)
    requires c < '\U{80}'
    ensures IsSpace(c) <==> c in "\t\n\r \U{B}\U{C}\U{1C}\U{1D}\U{1E}\U{1F}"
  {
  }

  function Strip(s: string): string {
    if |s| == 0 then s
    else if IsSpace(s[0]) then Strip(s[1..])
    else if IsSpace(s[|s| - 1]) then Strip(s[..|s| - 1])
    else s
  }

  ghost predicate AllSpace(s: string) {
    forall i :: 0 <= i < |s| ==> IsSpace(s[i])
  }

  ghost predicate Trims(s: string, left: string, middle: string, right: string) {
    s == left + middle + right && AllSpace(left) && AllSpace(right)
  }

  lemma TrimsLeft(s: string, left: string, middle: string, right: string)
    requires |s| > 0 && IsSpace(s[0]) && Trims(s[1..], left, middle, right)
    ensures Trims(s, [s[0]] + left, middle, right)
  {
    assert s == [s[0]] + (left + middle + right);
    assert [s[0]] + (left + middle + right) == [s[0]] + left + middle + right;
  }

  lemma TrimsRight(s: string, left: string, middle: string, right: string)
    requires |s| > 0 && IsSpace(s[|s| - 1]) && Trims(s[..|s| - 1], left, middle, right)
    ensures Trims(s, left, middle, right + [s[|s| - 1]])
  {
    assert s == left + middle + right + [s[|s| - 1]];
    assert left + middle + right + [s[|s| - 1]] == left + middle + (right + [s[|s| - 1]]);
  }

  /** Stripping takes spaces off both ends, as many as there are. */
  lemma {:induction false} StripMeans(s: string)
    ensures exists left, right :: Trims(s, left, Strip(s), right)
    ensures Strip(s) != "" ==> !IsSpace(Strip(s)[0]) && !IsSpace(Strip(s)[|Strip(s)| - 1])
  {
    hide IsSpace;
    if |s| != 0 && IsSpace(s[0]) {
      StripMeans(s[1..]);
      var left, right :| Trims(s[1..], left, Strip(s[1..]), right);
      TrimsLeft(s, left, Strip(s), right);
    } else if |s| != 0 && IsSpace(s[|s| - 1]) {
      var n := |s| - 1;
      StripMeans(s[..n]);
      var left, right :| Trims(s[..n], left, Strip(s[..n]), right);
      TrimsRight(s, left, Strip(s), right);
    } else {
      assert Strip(s) == s;
      TrimsNothing(s);
    }
  }

  lemma TrimsNothing(s: string)
    ensures Trims(s, "", s, "")
  {
    assert "" + s + "" == s;
  }

  function Lower(c: char): char {
    if 'A' <= c <= 'Z' then (c as int + 32) as char else c
  }

  function LowerAll(s: string): (r: string)
    ensures |r| == |s| && forall i :: 0 <= i < |s| ==> r[i] == Lower(s[i])
  {
    if |s| == 0 then "" else [Lower(s[0])] + LowerAll(s[1..])
  }

  function HexDigitValue(c: char): (d: nat)
    requires IsAnyHexDigit(c)
    ensures d < 16
  {
    if c <= '9' then c as int - '0' as int
    else if c <= 'F' then c as int - 'A' as int + 10
    else c as int - 'a' as int + 10
  }

  function HexDigit(d: nat): char
    requires d < 16
  {
    if d < 10 then ('0' as int + d) as char else ('a' as int + d - 10) as char
  }

  /** The alphabet of section 6 of RFC 4648, either case. */
  function Base32DigitValue(c: char): (d: nat)
    requires IsBase32Digit(c)
    ensures d < 32
  {
    if 'A' <= c <= 'Z' then c as int - 'A' as int
    else if 'a' <= c <= 'z' then c as int - 'a' as int
    else c as int - '2' as int + 26
  }

  const HEX := "0123456789abcdef"
  const UPPER_HEX := "0123456789ABCDEF"
  const BASE32 := "ABCDEFGHIJKLMNOPQRSTUVWXYZ234567"
  const LOWER_BASE32 := "abcdefghijklmnopqrstuvwxyz234567"

  /** A digit's value is its place in the alphabet, either case; the normal form is written in lower case. */
  lemma HexAlphabet(c: char, d: nat)
    ensures IsAnyHexDigit(c) <==> c in HEX || c in UPPER_HEX
    ensures IsHexDigit(c) <==> c in HEX
    ensures IsAnyHexDigit(c) && d < 16 ==> (HexDigitValue(c) == d <==> c == HEX[d] || c == UPPER_HEX[d])
    ensures d < 16 ==> HexDigit(d) == HEX[d]
  {
  }

  lemma Base32Letters(c: char)
    ensures IsBase32Digit(c) <==> c in BASE32 || c in LOWER_BASE32
  {
  }

  lemma Base32Alphabet(c: char)
    requires IsBase32Digit(c)
    ensures c == BASE32[Base32DigitValue(c)] || c == LOWER_BASE32[Base32DigitValue(c)]
  {
  }

  function HexDigits(s: string): (ds: seq<nat>)
    requires forall i :: 0 <= i < |s| ==> IsAnyHexDigit(s[i])
    ensures |ds| == |s| && forall i :: 0 <= i < |s| ==> ds[i] == HexDigitValue(s[i])
  {
    seq(|s|, i requires 0 <= i < |s| => HexDigitValue(s[i]))
  }

  function Base32Digits(s: string): (ds: seq<nat>)
    requires forall i :: 0 <= i < |s| ==> IsBase32Digit(s[i])
    ensures |ds| == |s| && forall i :: 0 <= i < |s| ==> ds[i] == Base32DigitValue(s[i])
  {
    seq(|s|, i requires 0 <= i < |s| => Base32DigitValue(s[i]))
  }

  /** The big-endian number a digit sequence denotes. */
  function Value(base: nat, ds: seq<nat>): nat {
    if |ds| == 0 then 0 else Value(base, ds[..|ds| - 1]) * base + ds[|ds| - 1]
  }

  function Pow(base: nat, n: nat): nat {
    if n == 0 then 1 else Pow(base, n - 1) * base
  }

  /** Eight Base32 digits as five octets, most significant first. */
  function Octets(acc: nat): (bytes: seq<nat>)
    requires acc < 0x100_0000_0000
    ensures |bytes| == 5 && forall i :: 0 <= i < 5 ==> bytes[i] < 256
  {
    [acc / 0x1_0000_0000, acc / 0x100_0000 % 256, acc / 0x1_0000 % 256, acc / 256 % 256, acc % 256]
  }

  lemma MulLe(a: nat, b: nat, c: nat)
    requires a <= b
    ensures a * c <= b * c
  {
  }

  lemma Distribute(x: nat, y: nat, z: nat)
    ensures (x + y) * z == x * z + y * z
  {
  }

  lemma Associate(x: nat, y: nat, z: nat)
    ensures x * y * z == x * (y * z)
  {
  }

  lemma {:induction false} ValueBound(base: nat, ds: seq<nat>)
    requires base >= 1 && forall i :: 0 <= i < |ds| ==> ds[i] < base
    ensures Value(base, ds) < Pow(base, |ds|)
  {
    if |ds| != 0 {
      var n := |ds| - 1;
      ValueBound(base, ds[..n]);
      var v := Value(base, ds[..n]);
      MulLe(v + 1, Pow(base, n), base);
      Distribute(v, 1, base);
    }
  }

  lemma Pow32Eight()
    ensures Pow(32, 8) == 0x100_0000_0000
  {
    assert Pow(32, 1) == 32;
    assert Pow(32, 2) == 1024;
    assert Pow(32, 4) == 1024 * 1024 by { assert Pow(32, 3) == 32768; }
    assert Pow(32, 6) == 1024 * 1024 * 1024 by { assert Pow(32, 5) == 1024 * 1024 * 32; }
    assert Pow(32, 7) == 1024 * 1024 * 1024 * 32;
  }

  /** `base64.b32decode` on a whole number of eight-digit groups. */
  function Base32Decode(ds: seq<nat>): (bytes: seq<nat>)
    requires forall i :: 0 <= i < |ds| ==> ds[i] < 32
    requires |ds| % 8 == 0
    ensures |bytes| == |ds| / 8 * 5 && forall i :: 0 <= i < |bytes| ==> bytes[i] < 256
  {
    if |ds| == 0 then []
    else
      ValueBound(32, ds[..8]);
      Pow32Eight();
      Octets(Value(32, ds[..8])) + Base32Decode(ds[8..])
  }

  /** `bytes.hex()`. */
  function Hex(bytes: seq<nat>): (s: string)
    requires forall i :: 0 <= i < |bytes| ==> bytes[i] < 256
    ensures |s| == 2 * |bytes| && forall i :: 0 <= i < |s| ==> IsHexDigit(s[i])
  {
    if |bytes| == 0 then ""
    else
      var n := |bytes| - 1;
      Hex(bytes[..n]) + [HexDigit(bytes[n] / 16), HexDigit(bytes[n] % 16)]
  }

  /** `normalize_btih`. */
  function NormalizeBtih(value: string): (r: Result<string, MagnetError>)
    ensures r.Ok? ==> NormalBtih(r.value)
  {
    var candidate := Strip(value);
    if IsHexBtih(candidate) then Ok(LowerAll(candidate))
    else if !IsBase32Btih(candidate) then Err(InvalidBtih)
    else Ok(Hex(Base32Decode(Base32Digits(candidate))))
  }

  /** The 160-bit number an accepted spelling denotes, read straight off its own digits. */
  ghost function Denoted(value: string): Option<nat> {
    var candidate := Strip(value);
    if IsHexBtih(candidate) then Some(Value(16, HexDigits(candidate)))
    else if IsBase32Btih(candidate) then Some(Value(32, Base32Digits(candidate)))
    else None
  }

  lemma {:induction false} ValueConcat(base: nat, xs: seq<nat>, ys: seq<nat>)
    ensures Value(base, xs + ys) == Value(base, xs) * Pow(base, |ys|) + Value(base, ys)
  {
    if |ys| == 0 {
      assert xs + ys == xs;
    } else {
      var n := |ys| - 1;
      assert (xs + ys)[..|xs + ys| - 1] == xs + ys[..n];
      ValueConcat(base, xs, ys[..n]);
      var p, v := Pow(base, n), Value(base, ys[..n]);
      Distribute(Value(base, xs) * p, v, base);
      Associate(Value(base, xs), p, base);
      assert (xs + ys)[|xs + ys| - 1] == ys[n];
    }
  }

  lemma {:induction false} ValueInjective(base: nat, xs: seq<nat>, ys: seq<nat>)
    requires |xs| == |ys|
    requires forall i :: 0 <= i < |xs| ==> xs[i] < base && ys[i] < base
    requires Value(base, xs) == Value(base, ys)
    ensures xs == ys
  {
    if |xs| != 0 {
      var n := |xs| - 1;
      LastDigit(base, Value(base, xs[..n]), xs[n], Value(base, ys[..n]), ys[n]);
      ValueInjective(base, xs[..n], ys[..n]);
      assert xs == xs[..n] + [xs[n]] && ys == ys[..n] + [ys[n]];
    }
  }

  lemma LastDigit(base: nat, a: nat, x: nat, b: nat, y: nat)
    requires x < base && y < base && a * base + x == b * base + y
    ensures a == b && x == y
  {
    if a < b {
      CarryLess(base, a, x, b);
    } else if b < a {
      CarryLess(base, b, y, a);
    }
  }

  lemma CarryLess(base: nat, a: nat, x: nat, b: nat)
    requires x < base && a < b
    ensures a * base + x < b * base
  {
    MulLe(a + 1, b, base);
    Distribute(a, 1, base);
  }

  lemma OctetsValue(acc: nat)
    requires acc < 0x100_0000_0000
    ensures Value(256, Octets(acc)) == acc
  {
    var b := Octets(acc);
    assert b[..4][..3] == b[..3] && b[..3][..2] == b[..2] && b[..2][..1] == b[..1] && b[..1][..0] == [];
    assert Value(256, b[..1]) == b[0];
    assert Value(256, b[..2]) == acc / 0x100_0000;
    assert Value(256, b[..3]) == acc / 0x1_0000;
    assert Value(256, b[..4]) == acc / 256;
  }

  lemma {:induction false} PowAdd(base: nat, m: nat, n: nat)
    ensures Pow(base, m + n) == Pow(base, m) * Pow(base, n)
  {
    if n != 0 {
      PowAdd(base, m, n - 1);
      Associate(Pow(base, m), Pow(base, n - 1), base);
    }
  }

  lemma Pow256Five()
    ensures Pow(256, 5) == 0x100_0000_0000
  {
    assert Pow(256, 1) == 256;
    assert Pow(256, 2) == 65536;
    assert Pow(256, 3) == 65536 * 256;
    assert Pow(256, 4) == 65536 * 65536;
  }

  /** Eight digits of five bits weigh as much as five octets. */
  lemma {:induction false} PowGroups(k: nat)
    ensures Pow(256, 5 * k) == Pow(32, 8 * k)
  {
    if k != 0 {
      PowGroups(k - 1);
      PowAdd(256, 5 * (k - 1), 5);
      PowAdd(32, 8 * (k - 1), 8);
      Pow256Five();
      Pow32Eight();
    }
  }

  lemma {:induction false} Base32DecodeValue(ds: seq<nat>)
    requires forall i :: 0 <= i < |ds| ==> ds[i] < 32
    requires |ds| % 8 == 0
    ensures Value(256, Base32Decode(ds)) == Value(32, ds)
  {
    if |ds| != 0 {
      ValueBound(32, ds[..8]);
      Pow32Eight();
      var acc := Value(32, ds[..8]);
      var rest := Base32Decode(ds[8..]);
      Base32DecodeValue(ds[8..]);
      OctetsValue(acc);
      ValueConcat(256, Octets(acc), rest);
      PowGroups(|ds[8..]| / 8);
      assert ds == ds[..8] + ds[8..];
      ValueConcat(32, ds[..8], ds[8..]);
    }
  }

  lemma {:induction false} HexValue(bytes: seq<nat>)
    requires forall i :: 0 <= i < |bytes| ==> bytes[i] < 256
    ensures Value(16, HexDigits(Hex(bytes))) == Value(256, bytes)
  {
    if |bytes| != 0 {
      var n := |bytes| - 1;
      HexValue(bytes[..n]);
      var prefix := HexDigits(Hex(bytes[..n]));
      var pair := [bytes[n] / 16, bytes[n] % 16];
      assert HexDigits(Hex(bytes)) == prefix + pair;
      assert (prefix + pair)[..|prefix| + 1] == prefix + [bytes[n] / 16];
      assert (prefix + [bytes[n] / 16])[..|prefix|] == prefix;
    }
  }

  /** Accepted are exactly 40 hexadecimal or 32 Base32 characters, spaces around them aside. */
  lemma NormalizeOkIff(value: string)
    ensures NormalizeBtih(value).Ok? <==>
              || (|Strip(value)| == 40 && forall c :: c in Strip(value) ==> c in HEX || c in UPPER_HEX)
              || (|Strip(value)| == 32 && forall c :: c in Strip(value) ==> c in BASE32 || c in LOWER_BASE32)
  {
    hide Strip, IsAnyHexDigit, IsBase32Digit;
    forall c: char ensures IsAnyHexDigit(c) <==> c in HEX || c in UPPER_HEX { HexAlphabet(c, 0); }
    forall c: char ensures IsBase32Digit(c) <==> c in BASE32 || c in LOWER_BASE32 { Base32Letters(c); }
  }

  /** Normalising keeps the 160 bits. */
  lemma NormalizeKeepsBits(value: string)
    requires NormalizeBtih(value).Ok?
    ensures Denoted(value) == Some(Value(16, HexDigits(NormalizeBtih(value).value)))
  {
    var candidate := Strip(value);
    if IsHexBtih(candidate) {
      assert HexDigits(LowerAll(candidate)) == HexDigits(candidate);
    } else {
      Base32DecodeValue(Base32Digits(candidate));
      HexValue(Base32Decode(Base32Digits(candidate)));
    }
  }

  lemma HexInjective(x: string, y: string)
    requires NormalBtih(x) && NormalBtih(y)
    requires Value(16, HexDigits(x)) == Value(16, HexDigits(y))
    ensures x == y
  {
    ValueInjective(16, HexDigits(x), HexDigits(y));
    forall i | 0 <= i < 40 ensures x[i] == y[i] {
      assert HexDigits(x)[i] == HexDigits(y)[i];
    }
  }

  /** Accepted spellings share a normal form exactly when they denote the same 160 bits. */
  lemma NormalizeIdentifiesBits(a: string, b: string)
    requires NormalizeBtih(a).Ok? && NormalizeBtih(b).Ok?
    ensures NormalizeBtih(a) == NormalizeBtih(b) <==> Denoted(a) == Denoted(b)
  {
    NormalizeKeepsBits(a);
    NormalizeKeepsBits(b);
    if Denoted(a) == Denoted(b) {
      HexInjective(NormalizeBtih(a).value, NormalizeBtih(b).value);
    }
  }

  lemma {:induction false} LowerNormal(s: string)
    requires forall i :: 0 <= i < |s| ==> IsHexDigit(s[i])
    ensures LowerAll(s) == s && Strip(s) == s
  {
  }

  /** A normal form is its own normal form. */
  lemma NormalizeIdempotent(btih: string)
    requires NormalBtih(btih)
    ensures NormalizeBtih(btih) == Ok(btih)
  {
    LowerNormal(btih);
  }
}
