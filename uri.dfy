/**
 * `encodeURIComponent` on strings of Unicode scalar values: every character
 * outside the unreserved set becomes the `%XX` escapes of its UTF-8 bytes.
 * `Decode` (the `decodeURIComponent` direction) is its inverse.
 */
module UriComponent {
  import opened Wrappers
  import opened Text

  /** The characters `encodeURIComponent` copies unchanged. */
  predicate Unreserved(c: char) {
    || ('A' <= c <= 'Z') || ('a' <= c <= 'z') || IsDigit(c)
    || c == '-' || c == '_' || c == '.' || c == '!' || c == '~' || c == '*' || c == '\'' || c == '(' || c == ')'
  }

  /** What an encoded string is made of: unreserved characters and percent escapes. */
  predicate UriSafe(s: string) {
    forall i :: 0 <= i < |s| ==> Unreserved(s[i]) || s[i] == '%'
  }

  /** The UTF-8 encoding of a scalar value. */
  function Utf8(c: char): (bytes: seq<int>)
    ensures 1 <= |bytes| <= 4 && forall i :: 0 <= i < |bytes| ==> 0 <= bytes[i] < 256
  {
    var n := c as int;
    if n < 0x80 then [n]
    else if n < 0x800 then [0xC0 + n / 64, 0x80 + n % 64]
    else if n < 0x10000 then [0xE0 + n / 4096, 0x80 + (n / 64) % 64, 0x80 + n % 64]
    else [0xF0 + n / 262144, 0x80 + (n / 4096) % 64, 0x80 + (n / 64) % 64, 0x80 + n % 64]
  }

  /** The upper-case hexadecimal digit of `v`. */
  function HexDigit(v: nat): (c: char)
    requires v < 16
    ensures IsDigit(c) || 'A' <= c <= 'F'
  {
    if v < 10 then ('0' as int + v) as char else ('A' as int + v - 10) as char
  }

  /** `%XX` for one byte, upper-case hexadecimal. */
  function Escape(b: int): (r: string)
    requires 0 <= b < 256
    ensures |r| == 3 && r[0] == '%' && UriSafe(r)
  {
    ['%', HexDigit(b / 16), HexDigit(b % 16)]
  }

  /** `%XX` for each byte. */
  function PercentBytes(bs: seq<int>): (r: string)
    requires forall i :: 0 <= i < |bs| ==> 0 <= bs[i] < 256
    ensures |r| == 3 * |bs| && UriSafe(r)
  {
    if bs == [] then [] else Escape(bs[0]) + PercentBytes(bs[1..])
  }

  function EncodeChar(c: char): (r: string)
    ensures |r| > 0 && UriSafe(r)
  {
    if Unreserved(c) then [c] else PercentBytes(Utf8(c))
  }

  /** `encodeURIComponent(s)`. */
  function Encode(s: string): (r: string)
    ensures UriSafe(r)
  {
    if s == [] then [] else EncodeChar(s[0]) + Encode(s[1..])
  }

  /** A string of unreserved characters, such as a decimal width, is its own encoding. */
  lemma {:induction false} EncodeUnreserved(s: string)
    requires forall i :: 0 <= i < |s| ==> Unreserved(s[i])
    ensures Encode(s) == s
  {
    if s != [] {
      EncodeUnreserved(s[1..]);
    }
  }

  lemma EncodeDigits(s: string)
    requires AllDigits(s)
    ensures Encode(s) == s
  {
    EncodeUnreserved(s);
  }

  // ---- Decoding ----

  function HexValue(c: char): Option<nat> {
    if '0' <= c <= '9' then Some((c as int) - ('0' as int))
    else if 'A' <= c <= 'F' then Some((c as int) - ('A' as int) + 10)
    else if 'a' <= c <= 'f' then Some((c as int) - ('a' as int) + 10)
    else None
  }

  /** The byte written as `%XX` at position `i`, if there is one. */
  function ByteAt(s: string, i: nat): (r: Option<nat>)
    ensures r.Some? ==> r.value < 256
  {
    if i + 3 <= |s| && s[i] == '%' && HexValue(s[i + 1]).Some? && HexValue(s[i + 2]).Some? then
      Some(16 * HexValue(s[i + 1]).value + HexValue(s[i + 2]).value)
    else None
  }

  /** The six payload bits of a UTF-8 continuation byte written at position `i`. */
  function ContAt(s: string, i: nat): (r: Option<nat>)
    ensures r.Some? ==> r.value < 64
  {
    match ByteAt(s, i)
    case Some(b) => if 0x80 <= b < 0xC0 then Some(b - 0x80) else None
    case None => None
  }

  /**
   * The character a multi-byte sequence spells, rejected when it is a
   * surrogate, beyond U+10FFFF, or below `least`, the smallest value that
   * needs that many bytes (an overlong form).
   */
  function Scalar(v: nat, least: nat, width: nat): Option<(char, nat)> {
    if least <= v && (v < 0xD800 || 0xE000 <= v < 0x110000) then Some((v as char, width)) else None
  }

  /** Appends six payload bits. */
  function Sextets(high: nat, low: nat): nat {
    high * 64 + low
  }

  function DecodeTwo(s: string, b0: nat): Option<(char, nat)>
    requires b0 >= 0xC0
  {
    if ContAt(s, 3).Some? then Scalar(Sextets(b0 - 0xC0, ContAt(s, 3).value), 0x80, 6) else None
  }

  function DecodeThree(s: string, b0: nat): Option<(char, nat)>
    requires b0 >= 0xE0
  {
    if ContAt(s, 3).Some? && ContAt(s, 6).Some? then
      Scalar(Sextets(Sextets(b0 - 0xE0, ContAt(s, 3).value), ContAt(s, 6).value), 0x800, 9)
    else None
  }

  function DecodeFour(s: string, b0: nat): Option<(char, nat)>
    requires b0 >= 0xF0
  {
    if ContAt(s, 3).Some? && ContAt(s, 6).Some? && ContAt(s, 9).Some? then
      Scalar(Sextets(Sextets(Sextets(b0 - 0xF0, ContAt(s, 3).value), ContAt(s, 6).value), ContAt(s, 9).value), 0x10000, 12)
    else None
  }

  /** Decodes the first character of `s`, returning it and the number of characters it took. */
  function DecodeOne(s: string): (r: Option<(char, nat)>)
    requires s != []
    ensures r.Some? ==> 1 <= r.value.1 <= |s|
  {
    if s[0] != '%' then Some((s[0], 1))
    else if ByteAt(s, 0).None? then None
    else
      var b0 := ByteAt(s, 0).value;
      if b0 < 0x80 then Some((b0 as char, 3))
      else if 0xC0 <= b0 < 0xE0 then DecodeTwo(s, b0)
      else if 0xE0 <= b0 < 0xF0 then DecodeThree(s, b0)
      else if 0xF0 <= b0 < 0xF8 then DecodeFour(s, b0)
      else None
  }

  /** `decodeURIComponent(s)`, with `None` where it would throw (a bad escape, an overlong form, a surrogate). */
  function Decode(s: string): Option<string>
    decreases |s|
  {
    if s == [] then Some([])
    else match DecodeOne(s)
      case None => None
      case Some((c, k)) =>
        match Decode(s[k..])
        case None => None
        case Some(rest) => Some([c] + rest)
  }

  lemma HexRoundTrip(b: int)
    requires 0 <= b < 256
    ensures HexValue(HexDigit(b / 16)) == Some(b / 16)
    ensures HexValue(HexDigit(b % 16)) == Some(b % 16)
    ensures 16 * (b / 16) + b % 16 == b
  {
  }

  /** The `j`-th escape of an encoded byte sequence reads back as the `j`-th byte. */
  lemma {:induction false} ByteAtPercent(bs: seq<int>, t: string, j: nat)
    requires forall i :: 0 <= i < |bs| ==> 0 <= bs[i] < 256
    requires j < |bs|
    ensures ByteAt(PercentBytes(bs) + t, 3 * j) == Some(bs[j])
  {
    var head, tail := Escape(bs[0]), bs[1..];
    var rest := PercentBytes(tail) + t;
    Reassociate(head, PercentBytes(tail), t);
    assert PercentBytes(bs) + t == head + rest;
    if j == 0 {
      ByteAtHead(bs[0], rest);
    } else {
      assert forall i :: 0 <= i < |tail| ==> tail[i] == bs[i + 1];
      ByteAtPercent(tail, t, j - 1);
      ByteAtShift(head, rest, 3 * (j - 1));
    }
  }

  lemma Reassociate(a: string, b: string, c: string)
    ensures (a + b) + c == a + (b + c)
  {
  }

  /** The escape `%XY` of a byte at the front is read back as that byte. */
  lemma ByteAtHead(b: int, rest: string)
    requires 0 <= b < 256
    ensures ByteAt(Escape(b) + rest, 0) == Some(b)
  {
    HexRoundTrip(b);
  }

  /** Reading past a prefix is reading the rest. */
  lemma ByteAtShift(p: string, r: string, i: nat)
    ensures ByteAt(p + r, |p| + i) == ByteAt(r, i)
  {
    if i + 3 <= |r| {
      assert (p + r)[|p| + i] == r[i];
      assert (p + r)[|p| + i + 1] == r[i + 1];
      assert (p + r)[|p| + i + 2] == r[i + 2];
    }
  }

  /** The two bytes of a character in [0x80, 0x800): a lead byte and one continuation byte. */
  lemma Utf8Two(c: char)
    requires 0x80 <= c as int < 0x800
    ensures var bs := Utf8(c);
      && |bs| == 2 && 0xC0 <= bs[0] < 0xE0 && 0x80 <= bs[1] < 0xC0
      && Sextets(bs[0] - 0xC0, bs[1] - 0x80) == c as int
  {
  }

  /** The three bytes of a character in [0x800, 0x10000). */
  lemma Utf8Three(c: char)
    requires 0x800 <= c as int < 0x10000
    ensures var bs := Utf8(c);
      && |bs| == 3 && 0xE0 <= bs[0] < 0xF0 && 0x80 <= bs[1] < 0xC0 && 0x80 <= bs[2] < 0xC0
      && Sextets(Sextets(bs[0] - 0xE0, bs[1] - 0x80), bs[2] - 0x80) == c as int
  {
    var n := c as int;
    assert Sextets(n / 4096, (n / 64) % 64) == n / 64;
  }

  /** The four bytes of a character from 0x10000 on. */
  lemma Utf8Four(c: char)
    requires 0x10000 <= c as int
    ensures var bs := Utf8(c);
      && |bs| == 4 && 0xF0 <= bs[0] < 0xF8 && 0x80 <= bs[1] < 0xC0 && 0x80 <= bs[2] < 0xC0 && 0x80 <= bs[3] < 0xC0
      && Sextets(Sextets(Sextets(bs[0] - 0xF0, bs[1] - 0x80), bs[2] - 0x80), bs[3] - 0x80) == c as int
  {
    var n := c as int;
    assert Sextets(n / 262144, (n / 4096) % 64) == n / 4096;
    assert Sextets(n / 4096, (n / 64) % 64) == n / 64;
  }

  /** A continuation byte written at `i` gives its six payload bits. */
  lemma ContAtByte(s: string, i: nat, b: nat)
    requires ByteAt(s, i) == Some(b) && 0x80 <= b < 0xC0
    ensures ContAt(s, i) == Some(b - 0x80)
  {
  }

  lemma DecodeTwoBytes(c: char, t: string)
    requires !Unreserved(c) && 0x80 <= c as int < 0x800
    ensures DecodeOne(EncodeChar(c) + t) == Some((c, 6))
  {
    var bs := Utf8(c);
    var s := PercentBytes(bs) + t;
    Utf8Two(c);
    ByteAtPercent(bs, t, 0);
    ByteAtPercent(bs, t, 1);
    ContAtByte(s, 3, bs[1]);
    assert s[0] == '%';
    assert DecodeTwo(s, bs[0]) == Some((c, 6));
  }

  lemma DecodeThreeBytes(c: char, t: string)
    requires !Unreserved(c) && 0x800 <= c as int < 0x10000
    ensures DecodeOne(EncodeChar(c) + t) == Some((c, 9))
  {
    var bs := Utf8(c);
    var s := PercentBytes(bs) + t;
    Utf8Three(c);
    ByteAtPercent(bs, t, 0);
    ByteAtPercent(bs, t, 1);
    ByteAtPercent(bs, t, 2);
    ContAtByte(s, 3, bs[1]);
    ContAtByte(s, 6, bs[2]);
    assert s[0] == '%';
    assert DecodeThree(s, bs[0]) == Some((c, 9));
  }

  lemma DecodeFourBytes(c: char, t: string)
    requires !Unreserved(c) && 0x10000 <= c as int
    ensures DecodeOne(EncodeChar(c) + t) == Some((c, 12))
  {
    var bs := Utf8(c);
    var s := PercentBytes(bs) + t;
    Utf8Four(c);
    ByteAtPercent(bs, t, 0);
    ByteAtPercent(bs, t, 1);
    ByteAtPercent(bs, t, 2);
    ByteAtPercent(bs, t, 3);
    ContAtByte(s, 3, bs[1]);
    ContAtByte(s, 6, bs[2]);
    ContAtByte(s, 9, bs[3]);
    assert s[0] == '%';
    assert DecodeFour(s, bs[0]) == Some((c, 12));
  }

  /** Decoding the escapes of one character gives that character back. */
  lemma DecodeOneEncoded(c: char, t: string)
    ensures DecodeOne(EncodeChar(c) + t) == Some((c, |EncodeChar(c)|))
  {
    var n := c as int;
    if Unreserved(c) {
    } else if n < 0x80 {
      var s := EncodeChar(c) + t;
      ByteAtPercent(Utf8(c), t, 0);
      assert s[0] == '%';
    } else if n < 0x800 {
      DecodeTwoBytes(c, t);
    } else if n < 0x10000 {
      DecodeThreeBytes(c, t);
    } else {
      DecodeFourBytes(c, t);
    }
  }

  /** A two-byte sequence led by 0xC0 or 0xC1 spells a value below 0x80: it is refused, as `%C0%80` is. */
  lemma DecodeRejectsOverlongTwo(s: string)
    requires s != [] && ByteAt(s, 0).Some? && 0xC0 <= ByteAt(s, 0).value < 0xC2
    ensures DecodeOne(s).None? && Decode(s).None?
  {
    var b0 := ByteAt(s, 0).value;
    if ContAt(s, 3).Some? {
      assert Sextets(b0 - 0xC0, ContAt(s, 3).value) < 0x80;
    }
  }

  /** `decodeURIComponent(encodeURIComponent(s)) == s`. */
  lemma {:induction false} DecodeEncode(s: string)
    ensures Decode(Encode(s)) == Some(s)
  {
    if s != [] {
      var e := EncodeChar(s[0]);
      var rest := Encode(s[1..]);
      DecodeOneEncoded(s[0], rest);
      assert (e + rest)[|e|..] == rest;
      DecodeEncode(s[1..]);
      assert s == [s[0]] + s[1..];
    }
  }

  /** `encodeURIComponent` never yields the same text for two different strings. */
  lemma EncodeInjective(s: string, t: string)
    requires Encode(s) == Encode(t)
    ensures s == t
  {
    DecodeEncode(s);
    DecodeEncode(t);
  }
}
