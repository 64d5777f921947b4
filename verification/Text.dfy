/** Text handling shared by the route table and by the queries against it: trimming, domain
    normalisation, and the strict dotted-quad form of IPv4 addresses. A Rust `str` is a
    sequence of Unicode scalar values, which is what Dafny's `string` is. */
module Text {
  import opened Prelude

  /** `char::is_whitespace`, the Unicode White_Space property. */
  predicate IsWhitespace(c: char) {
    var n := c as int;
    9 <= n <= 13 || n == 0x20 || n == 0x85 || n == 0xA0 || n == 0x1680 || 0x2000 <= n <= 0x200A
    || n == 0x2028 || n == 0x2029 || n == 0x202F || n == 0x205F || n == 0x3000
  }

  function TrimStart(s: string): string {
    if s != "" && IsWhitespace(s[0]) then TrimStart(s[1..]) else s
  }

  function TrimEnd(s: string): string {
    if s != "" && IsWhitespace(s[|s| - 1]) then TrimEnd(s[..|s| - 1]) else s
  }

  function Trim(s: string): string {
    TrimEnd(TrimStart(s))
  }

  /** `trim_end_matches('.')`. */
  function TrimEndDots(s: string): string {
    if s != "" && s[|s| - 1] == '.' then TrimEndDots(s[..|s| - 1]) else s
  }

  function LowerChar(c: char): char {
    if 'A' <= c <= 'Z' then (c as int + 32) as char else c
  }

  /** `to_ascii_lowercase`. */
  function AsciiLower(s: string): string {
    seq(|s|, i requires 0 <= i < |s| => LowerChar(s[i]))
  }

  function NormalizeDomain(host: string): string {
    AsciiLower(TrimEndDots(Trim(host)))
  }

  /** No whitespace at either end. */
  predicate Trimmed(s: string) {
    s != "" ==> !IsWhitespace(s[0]) && !IsWhitespace(s[|s| - 1])
  }

  lemma {:induction false} TrimEndShape(s: string)
    ensures TrimEnd(s) <= s
    ensures TrimEnd(s) != "" ==> !IsWhitespace(TrimEnd(s)[|TrimEnd(s)| - 1])
  {
    if s != "" && IsWhitespace(s[|s| - 1]) {
      TrimEndShape(s[..|s| - 1]);
    }
  }

  lemma {:induction false} TrimStartShape(s: string)
    ensures TrimStart(s) != "" ==> !IsWhitespace(TrimStart(s)[0])
  {
    if s != "" && IsWhitespace(s[0]) {
      TrimStartShape(s[1..]);
    }
  }

  lemma {:induction false} TrimEndDotsShape(s: string)
    ensures TrimEndDots(s) <= s
    ensures TrimEndDots(s) != "" ==> TrimEndDots(s)[|TrimEndDots(s)| - 1] != '.'
  {
    if s != "" && s[|s| - 1] == '.' {
      TrimEndDotsShape(s[..|s| - 1]);
    }
  }

  lemma TrimTrims(s: string)
    ensures Trimmed(Trim(s))
  {
    TrimStartShape(s);
    TrimEndShape(TrimStart(s));
  }

  lemma TrimOfTrimmed(s: string)
    requires Trimmed(s)
    ensures Trim(s) == s
  {
  }

  /** Normalising twice differs from normalising once exactly when the character left in front
      of the trailing dots is whitespace, as in `"a ."`. */
  lemma NormalizeDomainIdempotentIff(host: string)
    ensures NormalizeDomain(NormalizeDomain(host)) == NormalizeDomain(host)
            <==> Trimmed(TrimEndDots(Trim(host)))
  {
    var d := TrimEndDots(Trim(host));
    var n := NormalizeDomain(host);
    TrimTrims(host);
    TrimEndDotsShape(Trim(host));
    if Trimmed(d) {
      TrimOfTrimmed(n);
      assert AsciiLower(n) == n;
    } else {
      assert TrimStart(n) == n && IsWhitespace(n[|n| - 1]);
      TrimEndShape(n);
      TrimEndDotsShape(TrimEnd(n));
    }
  }

  lemma NormalizeDomainTwiceCounterexample()
    ensures NormalizeDomain("a .") == "a "
    ensures NormalizeDomain(NormalizeDomain("a .")) == "a"
  {
    assert TrimEndDots("a .") == "a " by { assert "a ."[..2] == "a "; }
    assert TrimEnd("a ") == "a" by { assert "a "[..1] == "a"; }
    assert AsciiLower("a ") == "a ";
    assert AsciiLower("a") == "a";
  }

  /** Where `c` occurs first, or `|s|`. */
  function IndexOf(s: string, c: char): (i: nat)
    ensures i <= |s|
  {
    if s == "" || s[0] == c then 0 else IndexOf(s[1..], c) + 1
  }

  lemma {:induction false} IndexOfIsFirst(s: string, c: char)
    ensures var i := IndexOf(s, c); (i < |s| ==> s[i] == c) && c !in s[..i]
  {
    if s != "" && s[0] != c {
      IndexOfIsFirst(s[1..], c);
      var i := IndexOf(s, c);
      assert s[..i] == [s[0]] + s[1..][..i - 1];
    }
  }

  /** `str::split_once`. */
  function SplitOnce(s: string, c: char): Option<(string, string)> {
    var i := IndexOf(s, c);
    if i < |s| then Some((s[..i], s[i + 1..])) else None
  }

  lemma SplitOnceShape(s: string, c: char)
    ensures match SplitOnce(s, c)
            case None => c !in s
            case Some((a, b)) => s == a + [c] + b && c !in a
  {
    IndexOfIsFirst(s, c);
    var i := IndexOf(s, c);
    if i == |s| {
      assert s[..i] == s;
    }
  }

  lemma SplitOnceJoined(a: string, c: char, b: string)
    requires c !in a
    ensures SplitOnce(a + [c] + b, c) == Some((a, b))
  {
    var s := a + [c] + b;
    IndexOfIsFirst(s, c);
    var i := IndexOf(s, c);
    assert s[|a|] == c;
    assert i <= |a| by {
      assert forall j :: 0 <= j < i ==> s[j] in s[..i];
    }
    assert i >= |a| by {
      assert forall j :: 0 <= j < |a| ==> s[j] == a[j];
    }
    assert s[..|a|] == a && s[|a| + 1..] == b;
  }

  predicate IsDigit(c: char) {
    '0' <= c <= '9'
  }

  predicate AllDigits(s: string) {
    forall c :: c in s ==> IsDigit(c)
  }

  function Digit(n: nat): (c: char)
    requires n < 10
    ensures IsDigit(c) && DigitValue(c) == n
  {
    ('0' as int + n) as char
  }

  function DigitValue(c: char): (n: nat)
    requires IsDigit(c)
    ensures n < 10 && ('0' as int + n) as char == c
  {
    c as int - '0' as int
  }

  /** Decimal text of a number, as `Display` prints it. */
  function Decimal(n: nat): (s: string)
    ensures s != "" && AllDigits(s)
    ensures |s| > 1 ==> s[0] != '0'
    ensures s[0] == '0' ==> n == 0
  {
    if n < 10 then [Digit(n)] else Decimal(n / 10) + [Digit(n % 10)]
  }

  function DecimalValue(s: string): nat
    requires AllDigits(s)
  {
    if s == "" then 0 else 10 * DecimalValue(s[..|s| - 1]) + DigitValue(s[|s| - 1])
  }

  lemma {:induction false} DecimalValueOfDecimal(n: nat)
    ensures DecimalValue(Decimal(n)) == n
  {
    if n < 10 {
      assert [Digit(n)][..0] == "";
    } else {
      DecimalValueOfDecimal(n / 10);
      assert (Decimal(n / 10) + [Digit(n % 10)])[..|Decimal(n / 10)|] == Decimal(n / 10);
    }
  }

  lemma {:induction false} DecimalOfDecimalValue(s: string)
    requires s != "" && AllDigits(s) && (|s| > 1 ==> s[0] != '0')
    ensures Decimal(DecimalValue(s)) == s
    ensures s[0] != '0' ==> DecimalValue(s) > 0
  {
    var front := s[..|s| - 1];
    assert s == front + [s[|s| - 1]];
    if |s| == 1 {
      assert front == "";
    } else {
      DecimalOfDecimalValue(front);
      assert DecimalValue(front) > 0;
    }
  }

  lemma {:induction false} DecimalLength(n: nat, digits: nat)
    requires n < Pow10(digits) && digits > 0
    ensures |Decimal(n)| <= digits
  {
    if n >= 10 {
      DecimalLength(n / 10, digits - 1);
    }
  }

  function Pow10(n: nat): nat {
    if n == 0 then 1 else 10 * Pow10(n - 1)
  }

  /** One field of a dotted quad: one to three digits, no leading zero, at most 255. */
  function ParseOctet(s: string): Option<u8> {
    if 1 <= |s| <= 3 && AllDigits(s) && (|s| > 1 ==> s[0] != '0') && DecimalValue(s) <= 255
    then Some(DecimalValue(s)) else None
  }

  /** An IPv4 address is its big-endian 32-bit value. */
  type Ipv4 = u32

  function FromOctets(a: u8, b: u8, c: u8, d: u8): Ipv4 {
    ((a * 0x100 + b) * 0x100 + c) * 0x100 + d
  }

  function Octets(ip: Ipv4): (o: Bytes)
    ensures |o| == 4 && FromOctets(o[0], o[1], o[2], o[3]) == ip
  {
    var ab := ip / 0x1_0000;
    var cd := ip % 0x1_0000;
    [ab / 0x100, ab % 0x100, cd / 0x100, cd % 0x100]
  }

  lemma OctetsOfFromOctets(a: u8, b: u8, c: u8, d: u8)
    ensures Octets(FromOctets(a, b, c, d)) == [a, b, c, d]
  {
    var ip := FromOctets(a, b, c, d);
    assert ip == (a * 0x100 + b) * 0x1_0000 + (c * 0x100 + d);
    assert ip / 0x1_0000 == a * 0x100 + b;
  }

  /** `Ipv4Addr::from_str`. */
  function ParseIpv4(s: string): Option<Ipv4> {
    match SplitOnce(s, '.')
    case None => None
    case Some((a, r1)) =>
      match SplitOnce(r1, '.')
      case None => None
      case Some((b, r2)) =>
        match SplitOnce(r2, '.')
        case None => None
        case Some((c, d)) =>
          match (ParseOctet(a), ParseOctet(b), ParseOctet(c), ParseOctet(d))
          case (Some(w), Some(x), Some(y), Some(z)) => Some(FromOctets(w, x, y, z))
          case _ => None
  }

  function Dotted(a: string, b: string, c: string, d: string): string {
    a + "." + (b + "." + (c + "." + d))
  }

  /** `Ipv4Addr::to_string`. */
  function PrintIpv4(ip: Ipv4): string {
    var o := Octets(ip);
    Dotted(Decimal(o[0]), Decimal(o[1]), Decimal(o[2]), Decimal(o[3]))
  }

  lemma ParseOctetOfDecimal(n: u8)
    ensures ParseOctet(Decimal(n)) == Some(n)
  {
    DecimalValueOfDecimal(n);
    assert Pow10(3) == 1000;
    DecimalLength(n, 3);
  }

  lemma ParseIpv4OfPrint(ip: Ipv4)
    ensures ParseIpv4(PrintIpv4(ip)) == Some(ip)
  {
    var o := Octets(ip);
    var c, d := Decimal(o[2]), Decimal(o[3]);
    SplitOnceJoined(Decimal(o[0]), '.', Decimal(o[1]) + "." + (c + "." + d));
    SplitOnceJoined(Decimal(o[1]), '.', c + "." + d);
    SplitOnceJoined(c, '.', d);
    assert c + "." + d == c + ['.'] + d;
    ParseOctetOfDecimal(o[0]);
    ParseOctetOfDecimal(o[1]);
    ParseOctetOfDecimal(o[2]);
    ParseOctetOfDecimal(o[3]);
  }

  /** The parser accepts the printed form only: an address has one spelling. */
  lemma PrintIpv4OfParse(s: string)
    ensures ParseIpv4(s).Some? ==> PrintIpv4(ParseIpv4(s).value) == s
  {
    if ParseIpv4(s).Some? {
      var (a, r1) := SplitOnce(s, '.').value;
      var (b, r2) := SplitOnce(r1, '.').value;
      var (c, d) := SplitOnce(r2, '.').value;
      SplitOnceShape(s, '.');
      SplitOnceShape(r1, '.');
      SplitOnceShape(r2, '.');
      DecimalOfDecimalValue(a);
      DecimalOfDecimalValue(b);
      DecimalOfDecimalValue(c);
      DecimalOfDecimalValue(d);
      OctetsOfFromOctets(DecimalValue(a), DecimalValue(b), DecimalValue(c), DecimalValue(d));
      assert s == Dotted(a, b, c, d);
    }
  }

  /** `str::parse::<u8>`: an optional `+`, then at least one digit, at most 255. */
  function ParseU8(s: string): Option<u8> {
    var t := if s != "" && s[0] == '+' then s[1..] else s;
    if t != "" && AllDigits(t) && DecimalValue(t) <= 255 then Some(DecimalValue(t)) else None
  }

  /** `format!("{host}:{port}")`. */
  function HostPort(host: string, port: u16): string {
    host + ":" + Decimal(port)
  }
}
