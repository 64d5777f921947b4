/** The text functions by their own measure: letters, digits, spaces and dots. */
module TextLaws {
  import opened Prelude
  import opened Text

  // ---------------------------------------------------------------- trimming and lower case

  predicate AllSpace(s: string) {
    forall c :: c in s ==> IsWhitespace(c)
  }

  predicate AllDots(s: string) {
    forall c :: c in s ==> c == '.'
  }

  lemma {:induction false} TrimStartCuts(s: string) returns (front: string)
    ensures AllSpace(front) && s == front + TrimStart(s)
  {
    front := "";
    if s != "" && IsWhitespace(s[0]) {
      var rest := TrimStartCuts(s[1..]);
      front := [s[0]] + rest;
    }
  }

  lemma {:induction false} TrimEndCuts(s: string) returns (back: string)
    ensures AllSpace(back) && s == TrimEnd(s) + back
  {
    back := "";
    if s != "" && IsWhitespace(s[|s| - 1]) {
      var rest := TrimEndCuts(s[..|s| - 1]);
      back := rest + [s[|s| - 1]];
    }
  }

  lemma {:induction false} TrimEndDotsCuts(s: string) returns (dots: string)
    ensures AllDots(dots) && s == TrimEndDots(s) + dots
  {
    dots := "";
    if s != "" && s[|s| - 1] == '.' {
      var rest := TrimEndDotsCuts(s[..|s| - 1]);
      dots := rest + [s[|s| - 1]];
    }
  }

  /** The space characters, by number. */
  lemma WhitespaceMeaning(c: char)
    ensures IsWhitespace(c) <==>
              c as int in {9, 10, 11, 12, 13, 32, 133, 160, 5760, 8192, 8193, 8194, 8195, 8196, 8197, 8198, 8199, 8200,
                           8201, 8202, 8232, 8233, 8239, 8287, 12288}
  {
  }

  /** Trimming cuts spaces off both ends, and all of them. */
  lemma TrimMeaning(s: string) returns (front: string, back: string)
    ensures AllSpace(front) && AllSpace(back) && s == front + Trim(s) + back && Trimmed(Trim(s))
  {
    front := TrimStartCuts(s);
    back := TrimEndCuts(TrimStart(s));
    TrimTrims(s);
  }

  /** A letter of the English alphabet becomes the small one; every other character stays. */
  lemma LowerCharMeaning(c: char)
    ensures var capitals, small := "ABCDEFGHIJKLMNOPQRSTUVWXYZ", "abcdefghijklmnopqrstuvwxyz";
            && (forall i :: 0 <= i < 26 && c == capitals[i] ==> LowerChar(c) == small[i])
            && (c !in capitals ==> LowerChar(c) == c)
  {
    var capitals := "ABCDEFGHIJKLMNOPQRSTUVWXYZ";
    if 'A' <= c <= 'Z' {
      assert c == capitals[c as int - 65];
    }
  }

  /** A normalised name is what is left without the spaces at both ends and the dots before the last ones,
      letter by letter in lower case. */
  lemma NormalizeDomainMeaning(host: string) returns (front: string, name: string, dots: string, back: string)
    ensures host == front + name + dots + back && AllSpace(front) && AllSpace(back) && AllDots(dots)
    ensures Trimmed(name + dots) && (name != "" ==> name[|name| - 1] != '.')
    ensures |NormalizeDomain(host)| == |name|
    ensures forall i :: 0 <= i < |name| ==> NormalizeDomain(host)[i] == LowerChar(name[i])
  {
    front, back := TrimMeaning(host);
    name := TrimEndDots(Trim(host));
    TrimEndDotsShape(Trim(host));
    dots := TrimEndDotsCuts(Trim(host));
  }

  // ---------------------------------------------------------------- numbers and addresses

  /** Digits are read from the left, each ten times the next. */
  lemma DecimalValueMeaning(s: string, c: char)
    requires AllDigits(s) && IsDigit(c)
    ensures DecimalValue(s + [c]) == 10 * DecimalValue(s) + (c as int - '0' as int)
  {
    assert (s + [c])[..|s|] == s;
  }

  /** A printed number reads as itself, and carries no leading zero. */
  lemma DecimalMeaning(n: nat)
    ensures AllDigits(Decimal(n)) && DecimalValue(Decimal(n)) == n && (|Decimal(n)| > 1 ==> Decimal(n)[0] != '0')
  {
    DecimalValueOfDecimal(n);
  }

  lemma DecimalExamples()
    ensures Decimal(0) == "0" && Decimal(53) == "53" && Decimal(443) == "443"
    ensures Decimal(10) == "10" && Decimal(168) == "168" && Decimal(255) == "255"
  {
    assert Decimal(44) == Decimal(4) + [Digit(4)] == "44";
    assert Decimal(443) == Decimal(44) + [Digit(3)];
    assert Decimal(16) == "16" && Decimal(168) == Decimal(16) + [Digit(8)];
    assert Decimal(25) == "25" && Decimal(255) == Decimal(25) + [Digit(5)];
  }

  /** The text of an address. */
  function QuadText(a: u8, b: u8, c: u8, d: u8): string {
    Decimal(a) + "." + Decimal(b) + "." + Decimal(c) + "." + Decimal(d)
  }

  lemma Assoc(x: string, y: string, z: string)
    ensures x + (y + z) == x + y + z
  {
  }

  lemma DottedIsJoined(a: string, b: string, c: string, d: string)
    ensures Dotted(a, b, c, d) == a + "." + b + "." + c + "." + d
  {
    Assoc(a + ".", b + ".", c + "." + d);
    Assoc(a + "." + b + ".", c + ".", d);
    Assoc(a + ".", b, ".");
    Assoc(a + "." + b + ".", c, ".");
    assert b + "." + (c + "." + d) == (b + ".") + (c + "." + d);
  }

  /** The first number of an address is its highest byte. */
  lemma AddressMeaning(a: u8, b: u8, c: u8, d: u8)
    ensures FromOctets(a, b, c, d) == 16777216 * (a as int) + 65536 * (b as int) + 256 * (c as int) + d
    ensures PrintIpv4(FromOctets(a, b, c, d)) == QuadText(a, b, c, d)
    ensures ParseIpv4(QuadText(a, b, c, d)) == Some(FromOctets(a, b, c, d))
  {
    OctetsOfFromOctets(a, b, c, d);
    ParseIpv4OfPrint(FromOctets(a, b, c, d));
    DottedIsJoined(Decimal(a), Decimal(b), Decimal(c), Decimal(d));
  }

  /** The strict parser accepts four numbers up to 255 without leading zeros, joined by dots, and nothing else. */
  lemma ParseIpv4Iff(s: string)
    ensures ParseIpv4(s).Some? <==> exists a, b, c, d :: s == QuadText(a, b, c, d)
  {
    if ParseIpv4(s).Some? {
      PrintIpv4OfParse(s);
      var o := Octets(ParseIpv4(s).value);
      AddressMeaning(o[0], o[1], o[2], o[3]);
      assert s == QuadText(o[0], o[1], o[2], o[3]);
    }
    if a, b, c, d :| s == QuadText(a, b, c, d) {
      AddressMeaning(a, b, c, d);
    }
  }

  /** A dialled text: the host, a colon, the port. */
  lemma DialText(a: u8, b: u8, c: u8, d: u8, port: u16)
    ensures HostPort(PrintIpv4(FromOctets(a, b, c, d)), port) == QuadText(a, b, c, d) + ":" + Decimal(port)
  {
    AddressMeaning(a, b, c, d);
  }

  lemma DialExample()
    ensures HostPort("10.168.0.53", 443) == "10.168.0.53:443"
  {
    DecimalExamples();
    assert HostPort("10.168.0.53", 443) == "10.168.0.53" + ":" + "443";
  }

  /** A prefix length is read like a printed number, with an optional plus sign. */
  lemma ParseU8Meaning(n: u8)
    ensures ParseU8(Decimal(n)) == Some(n) && ParseU8("+" + Decimal(n)) == Some(n)
  {
    DecimalValueOfDecimal(n);
    assert ("+" + Decimal(n))[1..] == Decimal(n);
    assert Decimal(n)[0] in Decimal(n);
  }

  /** Nothing else is: a sign alone, a minus sign, a number over 255. */
  lemma ParseU8Refuses(s: string, n: nat)
    ensures ParseU8("") == None && ParseU8("+") == None && ParseU8("-" + s) == None
    ensures n > 255 ==> ParseU8(Decimal(n)) == None
  {
    DecimalValueOfDecimal(n);
    assert Decimal(n)[0] in Decimal(n);
    assert "+"[1..] == "" && ("-" + s)[0] in "-" + s;
  }
}
