/** The Internet checksum (sections 1 and 2 of RFC 1071) and the heartbeat packet that carries two
    of them. */
module Checksum {
  import opened Prelude

  /** The 16-bit word at the front; a last odd byte is padded with zero. */
  function Word(data: Bytes): u16
    requires data != []
  {
    if |data| == 1 then FromBigEndian16(data[0], 0) else FromBigEndian16(data[0], data[1])
  }

  function Tail(data: Bytes): Bytes {
    if |data| < 2 then [] else data[2..]
  }

  /** The sum of all words, without a bound. */
  function WordSum(data: Bytes): nat
    decreases |data|
  {
    if data == [] then 0 else Word(data) + WordSum(Tail(data))
  }

  function WordCount(data: Bytes): nat {
    (|data| + 1) / 2
  }

  lemma {:induction false} WordSumBound(data: Bytes)
    ensures WordSum(data) <= 0xFFFF * WordCount(data)
    decreases |data|
  {
    if data != [] {
      WordSumBound(Tail(data));
    }
  }

  /** Folds the carries back in until 16 bits are left. */
  function Fold(sum: nat): u16
    decreases sum
  {
    if sum < 0x1_0000 then sum else Fold(sum % 0x1_0000 + sum / 0x1_0000)
  }

  /** Folding keeps the sum modulo 65535, and gives zero for zero only. */
  lemma {:induction false} FoldMeaning(sum: nat)
    ensures Fold(sum) % 0xFFFF == sum % 0xFFFF
    ensures Fold(sum) == 0 <==> sum == 0
    decreases sum
  {
    if sum >= 0x1_0000 {
      var hi, lo := sum / 0x1_0000, sum % 0x1_0000;
      FoldMeaning(lo + hi);
      assert sum == 0xFFFF * hi + (lo + hi);
      ModPlusMultiple(lo + hi, hi);
    }
  }

  lemma {:induction false} ModPlusMultiple(x: nat, k: nat)
    ensures (0xFFFF * k + x) % 0xFFFF == x % 0xFFFF
  {
    if k > 0 {
      ModPlusMultiple(x, k - 1);
      assert 0xFFFF * k + x == 0xFFFF + (0xFFFF * (k - 1) + x);
    }
  }

  function Checksum16(data: Bytes): u16 {
    0xFFFF - Fold(WordSum(data))
  }

  function Ones(n: nat): Bytes {
    seq(n, _ => 0xFF)
  }

  lemma {:induction false} WordSumOfOnes(words: nat)
    ensures WordSum(Ones(2 * words)) == 0xFFFF * words
  {
    if words > 0 {
      assert Tail(Ones(2 * words)) == Ones(2 * (words - 1));
      WordSumOfOnes(words - 1);
    }
  }

  /** The 32-bit sum of the code cannot overflow exactly up to 65537 words. */
  lemma NoOverflowIff(words: nat)
    ensures (forall data :: WordCount(data) <= words ==> WordSum(data) < 0x1_0000_0000) <==> words <= 65537
  {
    if words <= 65537 {
      forall data | WordCount(data) <= words ensures WordSum(data) < 0x1_0000_0000 {
        WordSumBound(data);
      }
    } else {
      WordSumOfOnes(words);
      assert WordCount(Ones(2 * words)) == words;
    }
  }

  lemma {:induction false} WordSumSnoc(data: Bytes, n: nat)
    requires 2 * n < |data|
    ensures WordSum(data[..Upto(data, n + 1)]) == WordSum(data[..2 * n]) + Word(data[2 * n..])
  {
    var prefix := data[..Upto(data, n + 1)];
    if n == 0 {
      assert Word(prefix) == Word(data[0..]) && Tail(prefix) == [];
    } else {
      WordSumSnoc(data[2..], n - 1);
      assert Tail(prefix) == data[2..][..Upto(data[2..], n)];
      assert Tail(data[..2 * n]) == data[2..][..2 * (n - 1)];
      assert data[2..][2 * (n - 1)..] == data[2 * n..];
      assert Word(prefix) == Word(data[..2 * n]);
    }
  }

  /** The end of the `n`-th chunk of two bytes. */
  function Upto(data: Bytes, n: nat): (e: nat)
    ensures e <= |data|
  {
    if 2 * n <= |data| then 2 * n else |data|
  }

  lemma WrappedAdd(a: nat, w: u16)
    ensures (a % 0x1_0000_0000 + w) % 0x1_0000_0000 == (a + w) % 0x1_0000_0000
  {
    var q, r := a / 0x1_0000_0000, a % 0x1_0000_0000;
    if r + w < 0x1_0000_0000 {
      assert a + w == q * 0x1_0000_0000 + (r + w);
    } else {
      assert a + w == (q + 1) * 0x1_0000_0000 + (r + w - 0x1_0000_0000);
    }
  }

  method SumWords(data: Bytes) returns (sum: u32)
    ensures sum == WordSum(data) % 0x1_0000_0000
  {
    sum := 0;
    var n := 0;
    while 2 * n < |data|
      invariant n <= WordCount(data)
      invariant sum == WordSum(data[..Upto(data, n)]) % 0x1_0000_0000
    {
      WordSumSnoc(data, n);
      var low := if 2 * n + 1 < |data| then data[2 * n + 1] else 0;
      var word := FromBigEndian16(data[2 * n], low);
      assert word == Word(data[2 * n..]);
      WrappedAdd(WordSum(data[..2 * n]), word);
      sum := (sum + word) % 0x1_0000_0000;
      n := n + 1;
    }
    assert data[..Upto(data, n)] == data;
  }

  /** `internet_checksum`: the sum is kept in 32 bits and wraps. */
  method InternetChecksum(data: Bytes) returns (c: u16)
    ensures c == 0xFFFF - Fold(WordSum(data) % 0x1_0000_0000)
    ensures WordCount(data) <= 65537 ==> c == Checksum16(data)
  {
    var sum := SumWords(data);
    WordSumBound(data);
    ghost var whole := sum;
    while sum / 0x1_0000 != 0
      invariant Fold(sum) == Fold(whole)
      decreases sum
    {
      sum := sum % 0x1_0000 + sum / 0x1_0000;
    }
    c := 0xFFFF - sum;
  }

  lemma {:induction false} WordSumConcat(a: Bytes, b: Bytes)
    requires |a| % 2 == 0
    ensures WordSum(a + b) == WordSum(a) + WordSum(b)
  {
    if a == [] {
      assert a + b == b;
    } else {
      WordSumConcat(a[2..], b);
      assert (a + b)[2..] == a[2..] + b;
    }
  }

  /** The checksum of data is zero exactly when its sum is a positive multiple of 65535. */
  lemma ZeroChecksumIff(data: Bytes)
    ensures Checksum16(data) == 0 <==> WordSum(data) > 0 && WordSum(data) % 0xFFFF == 0
  {
    FoldMeaning(WordSum(data));
  }

  /** Words are read with the high byte first; a last odd byte is a high byte. */
  lemma WordsAreBigEndian(a: u8, b: u8, rest: Bytes)
    ensures WordSum([a]) == 256 * (a as int) && WordSum([a, b] + rest) == 256 * (a as int) + b + WordSum(rest)
  {
    assert Tail([a, b] + rest) == rest && Tail([a]) == [];
  }

  /** The worked example of section 3 of RFC 1071. */
  lemma WorkedExample()
    ensures Checksum16([0x00, 0x01, 0xf2, 0x03, 0xf4, 0xf5, 0xf6, 0xf7]) == 0x220d
  {
    var third, fourth := [0xf4, 0xf5] + [0xf6, 0xf7], [0xf6, 0xf7] + [];
    WordsAreBigEndian(0xf6, 0xf7, []);
    WordsAreBigEndian(0xf4, 0xf5, [0xf6, 0xf7]);
    WordsAreBigEndian(0xf2, 0x03, third);
    WordsAreBigEndian(0x00, 0x01, [0xf2, 0x03] + third);
    assert fourth == [0xf6, 0xf7];
    assert [0x00, 0x01] + ([0xf2, 0x03] + third) == [0x00, 0x01, 0xf2, 0x03, 0xf4, 0xf5, 0xf6, 0xf7];
    assert WordSum([0x00, 0x01, 0xf2, 0x03, 0xf4, 0xf5, 0xf6, 0xf7]) == 0x2ddf0;
    assert Fold(0x2ddf0) == Fold(0xddf2) == 0xddf2;
  }

  /** Data whose checksum was stored in a zeroed word at an even offset checks to zero. */
  lemma StoredChecksumVerifies(head: Bytes, rest: Bytes)
    requires |head| % 2 == 0
    ensures Checksum16(head + BigEndian16(Checksum16(head + [0, 0] + rest)) + rest) == 0
  {
    var s := WordSum(head + [0, 0] + rest);
    var c := Checksum16(head + [0, 0] + rest);
    var whole := head + BigEndian16(c) + rest;
    WordSumConcat(head + [0, 0], rest);
    WordSumConcat(head, [0, 0]);
    WordSumConcat(head + BigEndian16(c), rest);
    WordSumConcat(head, BigEndian16(c));
    assert Tail([0, 0]) == [] && Tail(BigEndian16(c)) == [];
    assert WordSum(whole) == s + c;
    FoldMeaning(s);
    ComplementedSum(s, Fold(s));
    ZeroChecksumIff(whole);
  }

  lemma ComplementedSum(s: nat, f: u16)
    requires f % 0xFFFF == s % 0xFFFF && (f == 0 <==> s == 0)
    ensures s + (0xFFFF - f) > 0 && (s + (0xFFFF - f)) % 0xFFFF == 0
  {
    if f == 0xFFFF {
    } else {
      assert s == s / 0xFFFF * 0xFFFF + f;
    }
  }

  // ---------------------------------------------------------------- the heartbeat packet

  const TX_HEARTBEAT_PACKET_LEN: nat := 0x4c
  const PAYLOAD_PREFIX: Bytes :=
    [0x53, 0x41, 0x4E, 0x47, 0x46, 0x4F, 0x52, 0x53, 0x43, 0x53, 0x49, 0x50, 0x43, 0x4C, 0x49, 0x45, 0x4E, 0x54]
  const PAYLOAD_SUFFIX: Bytes := [0x4C, 0x33, 0x56, 0x50, 0x4E, 0]

  /** The IPv4 header around its checksum: version and length, total length, identification, no
      fragment, time to live, ICMP; then the two addresses. */
  const IP_HEAD: Bytes := [0x45, 0, 0, 0x4c, 0xbb, 0xaa, 0, 0, 0x40, 0x01]

  /** The ICMP echo request around its checksum. */
  const ICMP_HEAD: Bytes := [0x08, 0]

  function IcmpRest(session: Bytes, tail: Bytes): Bytes {
    [0x55, 0x55, 0x44, 0x33] + PAYLOAD_PREFIX + session + tail + PAYLOAD_SUFFIX
  }

  function IpHeader(local: Bytes, dst: Bytes): Bytes {
    IP_HEAD + BigEndian16(Checksum16(IP_HEAD + [0, 0] + (local + dst))) + (local + dst)
  }

  function IcmpMessage(session: Bytes, tail: Bytes): Bytes {
    ICMP_HEAD + BigEndian16(Checksum16(ICMP_HEAD + [0, 0] + IcmpRest(session, tail))) + IcmpRest(session, tail)
  }

  /** `copy_from_slice` at an offset. */
  method CopyInto(packet: array<u8>, at: nat, bytes: Bytes)
    requires at + |bytes| <= packet.Length
    modifies packet
    ensures forall i :: 0 <= i < packet.Length ==>
              packet[i] == if at <= i < at + |bytes| then bytes[i - at] else old(packet[i])
  {
    for k := 0 to |bytes|
      invariant forall i :: 0 <= i < packet.Length ==>
                  packet[i] == if at <= i < at + k then bytes[i - at] else old(packet[i])
    {
      packet[at + k] := bytes[k];
    }
  }

  /** Where everything stands in the packet, byte by byte but for the two checksums. */
  ghost predicate LaidOut(p: Bytes, local: Bytes, dst: Bytes, session: Bytes, tail: Bytes) {
    && |p| == 76
    && p[0..10] == [0x45, 0, 0, 76, 0xbb, 0xaa, 0, 0, 64, 1] && p[12..16] == local && p[16..20] == dst
    && p[20..22] == [8, 0] && p[24..28] == [0x55, 0x55, 0x44, 0x33]
    && p[28..46] == [0x53, 0x41, 0x4E, 0x47, 0x46, 0x4F, 0x52, 0x53, 0x43, 0x53, 0x49, 0x50, 0x43, 0x4C, 0x49, 0x45,
                     0x4E, 0x54]
    && p[46..62] == session && p[62..70] == tail && p[70..76] == [0x4C, 0x33, 0x56, 0x50, 0x4E, 0]
  }

  lemma IpPart(p: Bytes, local: Bytes, dst: Bytes)
    requires |local| == 4 && |dst| == 4 && |p| == 76 && p[0..20] == IpHeader(local, dst)
    ensures p[0..10] == [0x45, 0, 0, 76, 0xbb, 0xaa, 0, 0, 64, 1] && p[12..16] == local && p[16..20] == dst
  {
    var h := IpHeader(local, dst);
    assert h[0..10] == IP_HEAD && h[12..16] == local && h[16..20] == dst;
    assert p[0..10] == p[0..20][0..10] && p[12..16] == p[0..20][12..16] && p[16..20] == p[0..20][16..20];
  }

  lemma Piece(before: Bytes, piece: Bytes, after: Bytes)
    ensures (before + piece + after)[|before|..|before| + |piece|] == piece
  {
    assert before + piece + after == before + (piece + after);
  }

  lemma PiecesOfIcmp(ck: Bytes, session: Bytes, tail: Bytes)
    requires |ck| == 2 && |session| == 16 && |tail| == 8
    ensures var m := ICMP_HEAD + ck + IcmpRest(session, tail);
            && m[0..2] == ICMP_HEAD && m[4..8] == [0x55, 0x55, 0x44, 0x33] && m[8..26] == PAYLOAD_PREFIX
            && m[26..42] == session && m[42..50] == tail && m[50..56] == PAYLOAD_SUFFIX
  {
    var m := ICMP_HEAD + ck + IcmpRest(session, tail);
    var front, echo: Bytes := ICMP_HEAD + ck, [0x55, 0x55, 0x44, 0x33];
    assert m == [] + ICMP_HEAD + (ck + IcmpRest(session, tail));
    Piece([], ICMP_HEAD, ck + IcmpRest(session, tail));
    assert m == front + echo + (PAYLOAD_PREFIX + session + tail + PAYLOAD_SUFFIX);
    Piece(front, echo, PAYLOAD_PREFIX + session + tail + PAYLOAD_SUFFIX);
    assert m == front + echo + PAYLOAD_PREFIX + (session + tail + PAYLOAD_SUFFIX);
    Piece(front + echo, PAYLOAD_PREFIX, session + tail + PAYLOAD_SUFFIX);
    assert m == front + echo + PAYLOAD_PREFIX + session + (tail + PAYLOAD_SUFFIX);
    Piece(front + echo + PAYLOAD_PREFIX, session, tail + PAYLOAD_SUFFIX);
    assert m == front + echo + PAYLOAD_PREFIX + session + tail + PAYLOAD_SUFFIX;
    Piece(front + echo + PAYLOAD_PREFIX + session, tail, PAYLOAD_SUFFIX);
    assert m == front + echo + PAYLOAD_PREFIX + session + tail + PAYLOAD_SUFFIX + [];
    Piece(front + echo + PAYLOAD_PREFIX + session + tail, PAYLOAD_SUFFIX, []);
  }

  lemma SliceOfIcmp(p: Bytes, a: nat, b: nat)
    requires |p| == 76 && a <= b <= 56
    ensures p[20..76][a..b] == p[20 + a..20 + b]
  {
    var x, y := p[20..76][a..b], p[20 + a..20 + b];
    assert forall i :: 0 <= i < b - a ==> x[i] == p[20 + a + i] == y[i];
  }

  lemma IcmpPart(p: Bytes, session: Bytes, tail: Bytes)
    requires |session| == 16 && |tail| == 8 && |p| == 76 && p[20..76] == IcmpMessage(session, tail)
    ensures p[20..22] == [8, 0] && p[24..28] == [0x55, 0x55, 0x44, 0x33] && p[28..46] == PAYLOAD_PREFIX
    ensures p[46..62] == session && p[62..70] == tail && p[70..76] == PAYLOAD_SUFFIX
  {
    PiecesOfIcmp(BigEndian16(Checksum16(ICMP_HEAD + [0, 0] + IcmpRest(session, tail))), session, tail);
    SliceOfIcmp(p, 0, 2);
    SliceOfIcmp(p, 4, 8);
    SliceOfIcmp(p, 8, 26);
    SliceOfIcmp(p, 26, 42);
    SliceOfIcmp(p, 42, 50);
    SliceOfIcmp(p, 50, 56);
  }

  /** Fills the packet in place, the two checksums last. For all addresses, sessions and tails both
      parts of the finished packet check to zero. */
  method BuildTxHeartbeatPacket(local: Bytes, dst: Bytes, session: Bytes, tail: Bytes) returns (packet: array<u8>)
    requires |local| == 4 && |dst| == 4 && |session| == 16 && |tail| == 8
    ensures fresh(packet) && LaidOut(packet[..], local, dst, session, tail)
    ensures Checksum16(packet[0..20]) == 0 && Checksum16(packet[20..76]) == 0
  {
    packet := new u8[TX_HEARTBEAT_PACKET_LEN](i => 0);
    FillFields(packet, local, dst, session, tail);
    StoreBoth(packet, local + dst, IcmpRest(session, tail));
    assert packet[..][0..20] == packet[0..20] && packet[..][20..76] == packet[20..76];
    IpPart(packet[..], local, dst);
    IcmpPart(packet[..], session, tail);
  }

  method FillFields(packet: array<u8>, local: Bytes, dst: Bytes, session: Bytes, tail: Bytes)
    requires |local| == 4 && |dst| == 4 && |session| == 16 && |tail| == 8
    requires packet.Length == TX_HEARTBEAT_PACKET_LEN && forall i :: 0 <= i < packet.Length ==> packet[i] == 0
    modifies packet
    ensures packet[0..20] == IP_HEAD + [0, 0] + (local + dst)
    ensures packet[20..76] == ICMP_HEAD + [0, 0] + IcmpRest(session, tail)
  {
    FillIp(packet, local, dst);
    FillIcmp(packet, session, tail);
    assert packet[0..20] == packet[..20] && packet[20..76] == packet[20..];
  }

  method StoreBoth(packet: array<u8>, ghost addresses: Bytes, ghost rest: Bytes)
    requires packet.Length == TX_HEARTBEAT_PACKET_LEN
    requires packet[0..20] == IP_HEAD + [0, 0] + addresses && packet[20..76] == ICMP_HEAD + [0, 0] + rest
    modifies packet
    ensures packet[0..20] == IP_HEAD + BigEndian16(Checksum16(IP_HEAD + [0, 0] + addresses)) + addresses
    ensures packet[20..76] == ICMP_HEAD + BigEndian16(Checksum16(ICMP_HEAD + [0, 0] + rest)) + rest
    ensures Checksum16(packet[0..20]) == 0 && Checksum16(packet[20..76]) == 0
  {
    ghost var icmp := packet[20..76];
    StoreChecksum(packet, 0, 20, IP_HEAD, addresses);
    assert packet[20..76] == icmp;
    ghost var ip := packet[0..20];
    StoreChecksum(packet, 20, 76, ICMP_HEAD, rest);
    assert packet[0..20] == ip;
  }

  /** Computes the checksum of one part of the packet and stores it where the part has its zeroed
      word, after `head`. */
  method StoreChecksum(packet: array<u8>, lo: nat, hi: nat, ghost head: Bytes, ghost rest: Bytes)
    requires lo <= hi <= packet.Length == TX_HEARTBEAT_PACKET_LEN
    requires packet[lo..hi] == head + [0, 0] + rest && |head| == if lo == 0 then 10 else 2
    modifies packet
    ensures packet[lo..hi] == head + BigEndian16(Checksum16(head + [0, 0] + rest)) + rest
    ensures Checksum16(packet[lo..hi]) == 0
    ensures forall i :: 0 <= i < lo || hi <= i < packet.Length ==> packet[i] == old(packet[i])
  {
    var sum := InternetChecksum(packet[lo..hi]);
    var at := lo + if lo == 0 then 10 else 2;
    assert at + 2 <= hi;
    ghost var before := packet[lo..hi];
    CopyInto(packet, at, BigEndian16(sum));
    Stored(before, packet[lo..hi], head, rest, sum);
    StoredChecksumVerifies(head, rest);
  }

  lemma Stored(before: Bytes, after: Bytes, head: Bytes, rest: Bytes, sum: u16)
    requires before == head + [0, 0] + rest && |after| == |before|
    requires forall i :: 0 <= i < |before| ==>
               after[i] == if |head| <= i < |head| + 2 then BigEndian16(sum)[i - |head|] else before[i]
    ensures after == head + BigEndian16(sum) + rest
  {
  }

  method FillIp(packet: array<u8>, local: Bytes, dst: Bytes)
    requires |local| == 4 && |dst| == 4
    requires packet.Length == TX_HEARTBEAT_PACKET_LEN && forall i :: 0 <= i < packet.Length ==> packet[i] == 0
    modifies packet
    ensures packet[..20] == IP_HEAD + [0, 0] + (local + dst)
    ensures forall i :: 20 <= i < packet.Length ==> packet[i] == 0
  {
    packet[0] := 0x45;
    CopyInto(packet, 2, BigEndian16(0x4c));
    CopyInto(packet, 4, [0xbb, 0xaa]);
    packet[8] := 0x40;
    packet[9] := 0x01;
    CopyInto(packet, 12, local);
    CopyInto(packet, 16, dst);
  }

  method FillIcmp(packet: array<u8>, session: Bytes, tail: Bytes)
    requires |session| == 16 && |tail| == 8
    requires packet.Length == TX_HEARTBEAT_PACKET_LEN && forall i :: 20 <= i < packet.Length ==> packet[i] == 0
    modifies packet
    ensures packet[..20] == old(packet[..20])
    ensures packet[20..] == ICMP_HEAD + [0, 0] + IcmpRest(session, tail)
  {
    FillEcho(packet);
    FillPayload(packet, session, tail);
    assert packet[20..] == packet[..28][20..] + packet[28..];
  }

  method FillEcho(packet: array<u8>)
    requires packet.Length == TX_HEARTBEAT_PACKET_LEN && forall i :: 20 <= i < packet.Length ==> packet[i] == 0
    modifies packet
    ensures packet[..20] == old(packet[..20])
    ensures packet[..28][20..] == ICMP_HEAD + [0, 0] + [0x55, 0x55, 0x44, 0x33]
  {
    packet[20] := 0x08;
    packet[21] := 0x00;
    CopyInto(packet, 24, [0x55, 0x55]);
    CopyInto(packet, 26, [0x44, 0x33]);
  }

  method FillPayload(packet: array<u8>, session: Bytes, tail: Bytes)
    requires |session| == 16 && |tail| == 8 && packet.Length == TX_HEARTBEAT_PACKET_LEN
    modifies packet
    ensures packet[..28] == old(packet[..28])
    ensures packet[28..] == PAYLOAD_PREFIX + session + tail + PAYLOAD_SUFFIX
  {
    CopyInto(packet, 28, PAYLOAD_PREFIX);
    CopyInto(packet, 46, session);
    CopyInto(packet, 62, tail);
    CopyInto(packet, 70, PAYLOAD_SUFFIX);
  }
}
