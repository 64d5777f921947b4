/** UTF-8 as `str::as_bytes` and `String::from_utf8` use it (table 3-7 of the Unicode
    Standard, chapter 3). */
module Utf8 {
  import opened Prelude

  function EncodeChar(c: char): (b: Bytes)
    ensures 1 <= |b| <= 4
  {
    var n := c as int;
    if n < 0x80 then [n]
    else
      var m := n / 0x40;
      if n < 0x800 then [0xC0 + m, Continuation(n)]
      else
        var l := m / 0x40;
        if n < 0x1_0000 then [0xE0 + l, Continuation(m), Continuation(n)]
        else [0xF0 + l / 0x40, Continuation(l), Continuation(m), Continuation(n)]
  }

  /** The byte carrying the low six bits of `n`. */
  function Continuation(n: nat): (b: u8)
    ensures IsContinuation(b)
  {
    0x80 + n % 0x40
  }

  /** Appends the six bits of a continuation byte. */
  function Extend(n: nat, b: u8): (m: nat)
    requires IsContinuation(b)
    ensures m / 0x40 == n && Continuation(m) == b
  {
    n * 0x40 + (b - 0x80)
  }

  /** The bytes of a character, in numbers. */
  lemma EncodeCharBytes(c: char)
    ensures var n := c as int;
            EncodeChar(c) ==
              if n < 128 then [n]
              else if n < 2048 then [192 + n / 64, 128 + n % 64]
              else if n < 65536 then [224 + n / 4096, 128 + n / 64 % 64, 128 + n % 64]
              else [240 + n / 262144, 128 + n / 4096 % 64, 128 + n / 64 % 64, 128 + n % 64]
  {
  }

  function Encode(s: string): Bytes {
    if s == "" then [] else EncodeChar(s[0]) + Encode(s[1..])
  }

  predicate IsContinuation(b: u8) {
    0x80 <= b < 0xC0
  }

  predicate IsScalar(n: int) {
    0 <= n < 0xD800 || 0xE000 <= n < 0x11_0000
  }

  /** The scalar value at the front of `b` and its length; no answer for a byte sequence that is
      truncated, overlong, a surrogate or out of range. */
  function DecodeChar(b: Bytes): (r: Option<(char, nat)>)
    ensures r.Some? ==> 1 <= r.value.1 <= |b|
  {
    if b == [] then None
    else if b[0] < 0x80 then Some((b[0] as char, 1))
    else if 0xC0 <= b[0] < 0xE0 then
      if |b| < 2 || !IsContinuation(b[1]) then None
      else
        var n := Extend(b[0] - 0xC0, b[1]);
        if n < 0x80 then None else Some((n as char, 2))
    else if 0xE0 <= b[0] < 0xF0 then
      if |b| < 3 || !IsContinuation(b[1]) || !IsContinuation(b[2]) then None
      else
        var n := Extend(Extend(b[0] - 0xE0, b[1]), b[2]);
        if n < 0x800 || !IsScalar(n) then None else Some((n as char, 3))
    else if 0xF0 <= b[0] < 0xF8 then
      if |b| < 4 || !IsContinuation(b[1]) || !IsContinuation(b[2]) || !IsContinuation(b[3]) then None
      else
        var n := Extend(Extend(Extend(b[0] - 0xF0, b[1]), b[2]), b[3]);
        if n < 0x1_0000 || !IsScalar(n) then None else Some((n as char, 4))
    else None
  }

  function Decode(b: Bytes): Option<string> {
    if b == [] then Some("")
    else
      match DecodeChar(b)
      case None => None
      case Some((c, n)) =>
        match Decode(b[n..])
        case None => None
        case Some(s) => Some([c] + s)
  }

  lemma DecodeCharOfEncodeChar(c: char, rest: Bytes)
    ensures DecodeChar(EncodeChar(c) + rest) == Some((c, |EncodeChar(c)|))
  {
    var n := c as int;
    assert IsScalar(n);
  }

  lemma EncodeCharOfDecodeChar(b: Bytes)
    requires DecodeChar(b).Some?
    ensures EncodeChar(DecodeChar(b).value.0) == b[..DecodeChar(b).value.1]
  {
  }

  /** Every string survives encoding. */
  lemma {:induction false} DecodeOfEncode(s: string)
    ensures Decode(Encode(s)) == Some(s)
  {
    if s != "" {
      var e := EncodeChar(s[0]);
      DecodeCharOfEncodeChar(s[0], Encode(s[1..]));
      assert (e + Encode(s[1..]))[|e|..] == Encode(s[1..]);
      DecodeOfEncode(s[1..]);
      assert s == [s[0]] + s[1..];
    }
  }

  lemma EncodeCons(c: char, s: string)
    ensures Encode([c] + s) == EncodeChar(c) + Encode(s)
  {
    assert ([c] + s)[1..] == s;
  }

  /** A byte sequence that decodes is the encoding of what it decodes to: no second spelling is
      accepted. */
  lemma {:induction false} EncodeOfDecode(b: Bytes)
    ensures Decode(b).Some? ==> Encode(Decode(b).value) == b
  {
    if b != [] && Decode(b).Some? {
      var (c, n) := DecodeChar(b).value;
      EncodeCharOfDecodeChar(b);
      EncodeOfDecode(b[n..]);
      EncodeCons(c, Decode(b[n..]).value);
      assert b == b[..n] + b[n..];
    }
  }
}
