/** The `--extra` address list: single addresses, `a~b` ranges and CIDR blocks, with the mask
    arithmetic written on bits. */
module ExtraIps {
  import opened Prelude
  import opened Sequences
  import opened Text
  import opened Rules

  function Pow2(n: nat): (p: nat)
    ensures p > 0
  {
    if n == 0 then 1 else 2 * Pow2(n - 1)
  }

  function BitAnd(x: nat, y: nat): nat {
    if x == 0 || y == 0 then 0 else 2 * BitAnd(x / 2, y / 2) + x % 2 * (y % 2)
  }

  function BitOr(x: nat, y: nat): nat
    decreases x + y
  {
    if x == 0 then y else if y == 0 then x
    else 2 * BitOr(x / 2, y / 2) + if x % 2 == 1 || y % 2 == 1 then 1 else 0
  }

  function Not32(x: u32): u32 {
    0xFFFF_FFFF - x
  }

  /** `x << k`, one place at a time. */
  function ShiftLeft32(x: u32, k: nat): u32
    decreases k
  {
    if k == 0 then x else ShiftLeft32(2 * x % 0x1_0000_0000, k - 1)
  }

  /** `x >> k`. */
  function ShiftRight(x: nat, k: nat): nat {
    if k == 0 then x else ShiftRight(x / 2, k - 1)
  }

  /** The network mask of a prefix length of at most 32. */
  function PrefixMask(prefix: nat): u32
    requires prefix <= 32
  {
    if prefix == 0 then 0 else ShiftLeft32(Not32(0), 32 - prefix)
  }

  /** First address of the block: `ip & mask`. */
  function CidrStart(ip: Ipv4, prefix: nat): u32
    requires prefix <= 32
  {
    CidrInRange(ip, prefix);
    BitAnd(ip, PrefixMask(prefix))
  }

  /** Last address of the block: `ip | !mask`. */
  function CidrEnd(ip: Ipv4, prefix: nat): u32
    requires prefix <= 32
  {
    CidrInRange(ip, prefix);
    BitOr(ip, Not32(PrefixMask(prefix)))
  }

  lemma {:induction false} Pow2Monotone(a: nat, b: nat)
    requires a <= b
    ensures Pow2(a) <= Pow2(b)
  {
    if a < b {
      Pow2Monotone(a, b - 1);
    }
  }

  lemma Pow2Is32()
    ensures Pow2(32) == 0x1_0000_0000
  {
    assert Pow2(8) == 0x100;
    assert Pow2(16) == 0x1_0000;
    assert Pow2(24) == 0x100_0000;
  }

  /** `x` with its low `k` bits cleared. */
  ghost function ClearLow(x: nat, k: nat): nat {
    if k == 0 then x else 2 * ClearLow(x / 2, k - 1)
  }

  lemma {:induction false} SameHighBits(x: nat, y: nat, k: nat)
    ensures ClearLow(x, k) <= y < ClearLow(x, k) + Pow2(k) <==> ShiftRight(y, k) == ShiftRight(x, k)
  {
    if k > 0 {
      SameHighBits(x / 2, y / 2, k - 1);
    }
  }

  lemma {:induction false} AndWithMask(x: nat, n: nat, k: nat)
    requires k <= n && x < Pow2(n)
    ensures Pow2(n) >= Pow2(k) && BitAnd(x, Pow2(n) - Pow2(k)) == ClearLow(x, k)
  {
    Pow2Monotone(k, n);
    if n > 0 {
      var j := if k == 0 then 0 else k - 1;
      AndWithMask(x / 2, n - 1, j);
      assert (Pow2(n) - Pow2(k)) / 2 == Pow2(n - 1) - Pow2(j);
      assert (Pow2(n) - Pow2(k)) % 2 == if k == 0 then 1 else 0;
    }
  }

  lemma {:induction false} OrWithOnes(x: nat, k: nat)
    ensures BitOr(x, Pow2(k) - 1) == ClearLow(x, k) + Pow2(k) - 1
  {
    if k > 0 {
      OrWithOnes(x / 2, k - 1);
      assert (Pow2(k) - 1) / 2 == Pow2(k - 1) - 1 && (Pow2(k) - 1) % 2 == 1;
    }
  }

  lemma {:induction false} ClearLowFits(x: nat, k: nat, n: nat)
    requires k <= n && x < Pow2(n)
    ensures ClearLow(x, k) + Pow2(k) <= Pow2(n)
  {
    if k > 0 {
      ClearLowFits(x / 2, k - 1, n - 1);
    }
  }

  lemma {:induction false} ShiftedOnes(j: nat, k: nat)
    requires j + k <= 31
    ensures Pow2(j) <= 0x1_0000_0000 && Pow2(j + k) <= 0x1_0000_0000
    ensures ShiftLeft32(0x1_0000_0000 - Pow2(j), k) == 0x1_0000_0000 - Pow2(j + k)
    decreases k
  {
    Pow2Is32();
    Pow2Monotone(j, 31);
    Pow2Monotone(j + k, 31);
    if k > 0 {
      ShiftedOnes(j + 1, k - 1);
    }
  }

  lemma MaskValue(prefix: nat)
    requires prefix <= 32
    ensures Pow2(32 - prefix) <= 0x1_0000_0000
    ensures PrefixMask(prefix) == 0x1_0000_0000 - Pow2(32 - prefix)
  {
    Pow2Is32();
    if prefix > 0 {
      ShiftedOnes(0, 32 - prefix);
    }
  }

  lemma CidrInRange(ip: Ipv4, prefix: nat)
    requires prefix <= 32
    ensures BitAnd(ip, PrefixMask(prefix)) < 0x1_0000_0000
    ensures BitOr(ip, Not32(PrefixMask(prefix))) < 0x1_0000_0000
  {
    Pow2Is32();
    MaskValue(prefix);
    AndWithMask(ip, 32, 32 - prefix);
    OrWithOnes(ip, 32 - prefix);
    ClearLowFits(ip, 32 - prefix, 32);
  }

  /** A CIDR block holds exactly the 2^(32-p) addresses that share the top p bits
      (section 3.1 of RFC 4632). */
  lemma CidrBlock(ip: Ipv4, prefix: nat)
    requires prefix <= 32
    ensures CidrStart(ip, prefix) <= ip <= CidrEnd(ip, prefix)
    ensures CidrEnd(ip, prefix) - CidrStart(ip, prefix) + 1 == Pow2(32 - prefix)
    ensures forall x: Ipv4 {:trigger ShiftRight(x, 32 - prefix)} ::
              CidrStart(ip, prefix) <= x <= CidrEnd(ip, prefix)
              <==> ShiftRight(x, 32 - prefix) == ShiftRight(ip, 32 - prefix)
  {
    var k := 32 - prefix;
    Pow2Is32();
    MaskValue(prefix);
    AndWithMask(ip, 32, k);
    OrWithOnes(ip, k);
    ClearLowFits(ip, k, 32);
    SameHighBits(ip, ip, k);
    forall x: Ipv4
      ensures CidrStart(ip, prefix) <= x <= CidrEnd(ip, prefix) <==> ShiftRight(x, k) == ShiftRight(ip, k)
    {
      SameHighBits(ip, x, k);
    }
  }

  function ParseExtraIp(text: string): Option<HostMatcher> {
    var input := Trim(text);
    if input == "" then None
    else if '/' in input then ParseCidr(input)
    else if '~' in input then ParseRange(input)
    else
      match ParseIpv4(input)
      case Some(ip) => Some(Exact(ip))
      case None => None
  }

  function ParseCidr(input: string): Option<HostMatcher> {
    match SplitOnce(input, '/')
    case None => None
    case Some((address, bits)) =>
      match (ParseIpv4(Trim(address)), ParseU8(Trim(bits)))
      case (Some(ip), Some(prefix)) =>
        if prefix > 32 then None else Some(Range(CidrStart(ip, prefix), CidrEnd(ip, prefix)))
      case _ => None
  }

  lemma ParseRangeJoined(a: string, b: string)
    requires '~' !in a
    ensures ParseRange(a + "~" + b) == RangeBetween(ParseIpv4(Trim(a)), ParseIpv4(Trim(b)))
  {
    SplitOnceJoined(a, '~', b);
    assert a + "~" + b == a + ['~'] + b;
  }

  /** A reversed range means the same set of addresses: those between the two bounds. */
  lemma RangeIsSymmetric(a: string, b: string, ip: Ipv4)
    requires '~' !in a && '~' !in b
    ensures ParseRange(a + "~" + b) == ParseRange(b + "~" + a)
    ensures var (x, y) := (ParseIpv4(Trim(a)), ParseIpv4(Trim(b)));
            if x.None? || y.None? then ParseRange(a + "~" + b).None?
            else
              ParseRange(a + "~" + b).Some?
              && (MatcherContains(ParseRange(a + "~" + b).value, Ipv4Target(ip))
                  <==> x.value <= ip <= y.value || y.value <= ip <= x.value)
  {
    ParseRangeJoined(a, b);
    ParseRangeJoined(b, a);
  }
}
