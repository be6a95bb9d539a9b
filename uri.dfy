/** JavaScript's `encodeURIComponent`: every character outside the
    unreserved set becomes the `%XX` escapes (upper-case hexadecimal) of its
    UTF-8 bytes. Characters are Unicode scalar values, so the lone-surrogate
    error of the JavaScript function cannot arise here. */
module Uri {
  import opened Wrappers

  /** The characters `encodeURIComponent` leaves as they are. */
  predicate IsUnreserved(c: char) {
    ('A' <= c <= 'Z') || ('a' <= c <= 'z') || ('0' <= c <= '9')
    || c == '-' || c == '_' || c == '.' || c == '!' || c == '~' || c == '*' || c == '\'' || c == '(' || c == ')'
  }

  /** The number of bytes UTF-8 spends on a code point. */
  function Utf8Length(n: nat): (len: nat)
    ensures 1 <= len <= 4
  {
    if n < 0x80 then 1 else if n < 0x800 then 2 else if n < 0x10000 then 3 else 4
  }

  /** The UTF-8 encoding of one character: as many bytes as its code point
      needs, a lead byte that announces the length, continuation bytes
      `10xxxxxx` after it, and a single byte exactly for ASCII. */
  function Utf8(c: char): (r: seq<nat>)
    ensures |r| == Utf8Length(c as int)
    ensures forall k :: 0 <= k < |r| ==> r[k] < 256
    ensures |r| == 1 <==> (c as int) < 0x80
    ensures (c as int) < 0x80 <==> r == [c as int]
    ensures |r| == 2 ==> 0xC2 <= r[0] < 0xE0
    ensures |r| == 3 ==> 0xE0 <= r[0] < 0xF0
    ensures |r| == 4 ==> 0xF0 <= r[0] <= 0xF4
    ensures forall k :: 1 <= k < |r| ==> 0x80 <= r[k] < 0xC0
  {
    var n := c as int;
    if n < 0x80 then [n]
    else if n < 0x800 then [0xC0 + n / 64, 0x80 + n % 64]
    else if n < 0x10000 then [0xE0 + n / 4096, 0x80 + (n / 64) % 64, 0x80 + n % 64]
    else [0xF0 + n / 262144, 0x80 + (n / 4096) % 64, 0x80 + (n / 64) % 64, 0x80 + n % 64]
  }

  /** The code point a well-formed UTF-8 sequence of one character carries:
      the lead byte's payload bits followed by six bits per continuation byte. */
  function Utf8Value(b: seq<int>): int
    requires 1 <= |b| <= 4
  {
    if |b| == 1 then b[0]
    else if |b| == 2 then (b[0] - 0xC0) * 64 + (b[1] - 0x80)
    else if |b| == 3 then (b[0] - 0xE0) * 4096 + (b[1] - 0x80) * 64 + (b[2] - 0x80)
    else (b[0] - 0xF0) * 262144 + (b[1] - 0x80) * 4096 + (b[2] - 0x80) * 64 + (b[3] - 0x80)
  }

  /** Decoding the bytes of a character gives the character back. */
  lemma Utf8RoundTrip(c: char)
    ensures Utf8Value(Utf8(c)) == c as int
  {
    var n := c as int;
    if n >= 0x10000 {
      DivMod64(n);
      DivMod64(n / 64);
      DivMod64(n / 4096);
      assert n / 4096 / 64 == n / 262144;
      assert n / 64 / 64 == n / 4096;
    } else if n >= 0x800 {
      DivMod64(n);
      DivMod64(n / 64);
      assert n / 64 / 64 == n / 4096;
    } else if n >= 0x80 {
      DivMod64(n);
    }
  }

  lemma DivMod64(n: nat)
    ensures n == (n / 64) * 64 + n % 64
  {
  }

  /** The UTF-8 encoding of a string. */
  function Utf8String(s: string): seq<nat> {
    if s == [] then [] else Utf8(s[0]) + Utf8String(s[1..])
  }

  /** An upper-case hexadecimal digit. */
  function HexChar(d: nat): (c: char)
    requires d < 16
    ensures IsUnreserved(c)
  {
    if d < 10 then ('0' as int + d) as char else ('A' as int + d - 10) as char
  }

  /** `%XX` for one byte. */
  function Escape(b: nat): (r: string)
    requires b < 256
    ensures |r| == 3 && r[0] == '%' && IsUnreserved(r[1]) && IsUnreserved(r[2])
  {
    ['%', HexChar(b / 16), HexChar(b % 16)]
  }

  function EscapeAll(bytes: seq<nat>): (r: string)
    requires forall k :: 0 <= k < |bytes| ==> bytes[k] < 256
    ensures |r| == 3 * |bytes|
    ensures forall k :: 0 <= k < |r| ==> r[k] == '%' || IsUnreserved(r[k])
  {
    if bytes == [] then [] else Escape(bytes[0]) + EscapeAll(bytes[1..])
  }

  function EncodeChar(c: char): string {
    if IsUnreserved(c) then [c] else EscapeAll(Utf8(c))
  }

  /** `encodeURIComponent(s)`: the output holds only unreserved characters and
      `%`, so it can stand as a query-string value. */
  function EncodeURIComponent(s: string): (r: string)
    ensures |r| >= |s|
    ensures forall k :: 0 <= k < |r| ==> r[k] == '%' || IsUnreserved(r[k])
  {
    if s == [] then [] else EncodeChar(s[0]) + EncodeURIComponent(s[1..])
  }

  /** A string of unreserved characters is its own encoding. */
  lemma {:induction false} UnreservedUnchanged(s: string)
    requires forall k :: 0 <= k < |s| ==> IsUnreserved(s[k])
    ensures EncodeURIComponent(s) == s
  {
    if s != [] {
      UnreservedUnchanged(s[1..]);
    }
  }

  function HexCharValue(c: char): Option<nat> {
    if '0' <= c <= '9' then Some(c as int - '0' as int)
    else if 'A' <= c <= 'F' then Some(c as int - 'A' as int + 10)
    else if 'a' <= c <= 'f' then Some(c as int - 'a' as int + 10)
    else None
  }

  /** Percent-decoding to bytes: `%XX` is the byte XX, any other ASCII
      character is its own byte; a stray `%` or a non-ASCII character is an error. */
  function PercentDecode(t: string): Option<seq<nat>>
    decreases |t|
  {
    if t == [] then Some([])
    else if t[0] == '%' then
      if |t| < 3 || HexCharValue(t[1]).None? || HexCharValue(t[2]).None? then None
      else match PercentDecode(t[3..])
        case None => None
        case Some(rest) => Some([16 * HexCharValue(t[1]).value + HexCharValue(t[2]).value] + rest)
    else if (t[0] as int) < 0x80 then
      match PercentDecode(t[1..])
      case None => None
      case Some(rest) => Some([t[0] as int] + rest)
    else None
  }

  lemma HexCharRoundTrip(d: nat)
    requires d < 16
    ensures HexCharValue(HexChar(d)) == Some(d)
  {
  }

  lemma {:induction false} DecodeEscapes(bytes: seq<nat>, rest: string)
    requires forall k :: 0 <= k < |bytes| ==> bytes[k] < 256
    ensures PercentDecode(EscapeAll(bytes) + rest) ==
      match PercentDecode(rest) case None => None case Some(r) => Some(bytes + r)
  {
    if bytes != [] {
      var b := bytes[0];
      var t := EscapeAll(bytes) + rest;
      HexCharRoundTrip(b / 16);
      HexCharRoundTrip(b % 16);
      assert t == Escape(b) + (EscapeAll(bytes[1..]) + rest);
      assert t[3..] == EscapeAll(bytes[1..]) + rest;
      assert t[0] == '%' && t[1] == HexChar(b / 16) && t[2] == HexChar(b % 16);
      DecodeEscapes(bytes[1..], rest);
      assert 16 * (b / 16) + b % 16 == b;
      assert bytes == [b] + bytes[1..];
      match PercentDecode(rest) {
        case None =>
        case Some(r) =>
          assert PercentDecode(t[3..]) == Some(bytes[1..] + r);
          assert PercentDecode(t) == Some([b] + (bytes[1..] + r));
          assert [b] + (bytes[1..] + r) == bytes + r;
      }
    } else {
      assert EscapeAll(bytes) + rest == rest;
      assert forall r: seq<nat> :: bytes + r == r;
    }
  }

  /** Percent-decoding an encoding gives back the UTF-8 bytes of the original
      string: the encoding loses nothing. */
  lemma {:induction false} DecodeOfEncode(s: string)
    ensures PercentDecode(EncodeURIComponent(s)) == Some(Utf8String(s))
  {
    if s != [] {
      var c := s[0];
      DecodeOfEncode(s[1..]);
      if IsUnreserved(c) {
        var t := EncodeURIComponent(s);
        assert t == [c] + EncodeURIComponent(s[1..]);
        assert t[1..] == EncodeURIComponent(s[1..]);
      } else {
        DecodeEscapes(Utf8(c), EncodeURIComponent(s[1..]));
      }
    }
  }

  /** A space becomes `%20`. */
  lemma SpaceEncoding()
    ensures EncodeURIComponent(" ") == "%20"
  {
    assert EncodeURIComponent(" ") == EncodeChar(' ') + EncodeURIComponent("");
  }
}
