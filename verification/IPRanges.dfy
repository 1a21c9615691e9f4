/**
 IPRangeFromIPNet of net_out_rule.go: the range from a network's address to its last
 address. Addresses are byte strings of any length; their meaning is the big-endian
 number their bits spell. A mask in prefix notation is the one of section 3.1 of
 RFC 4632: ones, then zeros.
 */
module IPRanges {
  type Bits = seq<bool>

  // ---------- numbers spelled by bits ----------

  function Pow2(n: nat): (p: nat)
    ensures p > 0
  {
    if n == 0 then 1 else 2 * Pow2(n - 1)
  }

  function Value(b: Bits): (v: nat)
    ensures v < Pow2(|b|)
  {
    if b == [] then 0 else (if b[0] then Pow2(|b| - 1) else 0) + Value(b[1..])
  }

  function Spell(v: nat, n: nat): (b: Bits)
    requires v < Pow2(n)
    ensures |b| == n && Value(b) == v
  {
    if n == 0 then []
    else if v < Pow2(n - 1) then [false] + Spell(v, n - 1)
    else [true] + Spell(v - Pow2(n - 1), n - 1)
  }

  lemma {:induction false} ValueInjective(a: Bits, b: Bits)
    requires |a| == |b| && Value(a) == Value(b)
    ensures a == b
  {
    if a != [] {
      ValueInjective(a[1..], b[1..]);
    }
  }

  // ---------- networks as bits ----------

  function Masked(x: Bits, mask: Bits): (r: Bits)
    requires |x| == |mask|
  {
    seq(|x|, i requires 0 <= i < |x| => x[i] && mask[i])
  }

  /** Set the bits that are zero in the mask to ones. */
  function Filled(x: Bits, mask: Bits): (r: Bits)
    requires |x| == |mask|
  {
    seq(|x|, i requires 0 <= i < |x| => !mask[i] || x[i])
  }

  function HostBits(mask: Bits): (n: nat)
    ensures n <= |mask|
  {
    if mask == [] then 0 else (if mask[0] then 0 else 1) + HostBits(mask[1..])
  }

  predicate IsPrefixMask(mask: Bits) {
    forall i, j | 0 <= i < j < |mask| :: mask[j] ==> mask[i]
  }

  predicate InRange(x: Bits, first: Bits, last: Bits) {
    Value(first) <= Value(x) <= Value(last)
  }

  lemma MaskedTail(x: Bits, mask: Bits)
    requires |x| == |mask| > 0
    ensures Masked(x, mask)[1..] == Masked(x[1..], mask[1..])
    ensures Filled(x, mask)[1..] == Filled(x[1..], mask[1..])
  {
  }

  /** The extreme case: no network bits at all. */
  lemma {:induction false} WholeSpace(x: Bits, mask: Bits)
    requires |x| == |mask| && forall i | 0 <= i < |mask| :: !mask[i]
    ensures Value(Masked(x, mask)) == 0
    ensures Value(Filled(x, mask)) == Pow2(|x|) - 1
    ensures HostBits(mask) == |mask|
  {
    if x != [] {
      MaskedTail(x, mask);
      WholeSpace(x[1..], mask[1..]);
    }
  }

  /** Number of addresses between a network's first and last, for a prefix mask. */
  lemma {:induction false} RangeSize(ip: Bits, mask: Bits)
    requires |ip| == |mask| && IsPrefixMask(mask) && Masked(ip, mask) == ip
    ensures Value(Filled(ip, mask)) - Value(ip) + 1 == Pow2(HostBits(mask))
  {
    if ip != [] {
      MaskedTail(ip, mask);
      if mask[0] {
        RangeSize(ip[1..], mask[1..]);
      } else {
        WholeSpace(ip, mask);
      }
    }
  }

  lemma {:induction false} RangeIsBlock(ip: Bits, mask: Bits, x: Bits)
    requires |ip| == |mask| == |x| && IsPrefixMask(mask) && Masked(ip, mask) == ip
    ensures InRange(x, ip, Filled(ip, mask)) <==> Masked(x, mask) == ip
  {
    if ip != [] {
      MaskedTail(ip, mask);
      MaskedTail(x, mask);
      if mask[0] {
        RangeIsBlock(ip[1..], mask[1..], x[1..]);
        assert ip[0] == Masked(ip, mask)[0] == Filled(ip, mask)[0];
        assert Masked(x, mask) == [x[0]] + Masked(x[1..], mask[1..]);
      } else {
        WholeSpace(ip, mask);
        WholeSpace(x, mask);
        assert Masked(x, mask) == Masked(ip, mask);
      }
    }
  }

  // ---------- exactly the networks whose range is their block ----------

  lemma {:induction false} ValueMonotone(a: Bits, b: Bits)
    requires |a| == |b| && forall i | 0 <= i < |a| :: a[i] ==> b[i]
    ensures Value(a) <= Value(b)
  {
    if a != [] {
      ValueMonotone(a[1..], b[1..]);
    }
  }

  /** A mask with a one below a zero: some address in the range is outside the network. */
  lemma {:induction false} StrayAddress(ip: Bits, mask: Bits) returns (x: Bits)
    requires |ip| == |mask| && !IsPrefixMask(mask) && Masked(ip, mask) == ip
    ensures |x| == |ip| && InRange(x, ip, Filled(ip, mask)) && Masked(x, mask) != ip
  {
    var last := Filled(ip, mask);
    assert ip[0] == (ip[0] && mask[0]);
    if mask[0] {
      MaskedTail(ip, mask);
      var y := StrayAddress(ip[1..], mask[1..]);
      x := [ip[0]] + y;
      MaskedTail(x, mask);
    } else {
      var j :| 0 < j < |mask| && mask[j];
      x := if ip[j] then last[j := false] else ip[j := true];
      ValueMonotone(if ip[j] then x else ip, if ip[j] then last else x);
      assert Masked(x, mask)[j] != ip[j];
    }
  }

  ghost predicate RangeMatchesNetwork(ip: Bits, mask: Bits)
    requires |ip| == |mask|
  {
    forall x: Bits | |x| == |ip| :: InRange(x, ip, Filled(ip, mask)) <==> Masked(x, mask) == Masked(ip, mask)
  }

  lemma RangeMatchesIffPrefix(ip: Bits, mask: Bits)
    requires |ip| == |mask|
    ensures RangeMatchesNetwork(ip, mask) <==> IsPrefixMask(mask) && Masked(ip, mask) == ip
  {
    var network := Masked(ip, mask);
    assert Masked(network, mask) == network;
    if network != ip {
      ValueMonotone(network, ip);
      if Value(network) == Value(ip) {
        ValueInjective(network, ip);
      }
    } else if IsPrefixMask(mask) {
      forall x: Bits | |x| == |ip|
        ensures InRange(x, ip, Filled(ip, mask)) <==> Masked(x, mask) == ip
      {
        RangeIsBlock(ip, mask, x);
      }
    } else {
      var x := StrayAddress(ip, mask);
    }
  }

  // ---------- addresses as bytes ----------

  /** A byte, as its bits from the most significant down; `Open` shows a machine byte as one. */
  datatype Byte = Byte(b7: bool, b6: bool, b5: bool, b4: bool, b3: bool, b2: bool, b1: bool, b0: bool)

  type Bytes = seq<Byte>

  const ZERO := Byte(false, false, false, false, false, false, false, false)
  const ONES := Byte(true, true, true, true, true, true, true, true)

  function And(x: Byte, m: Byte): Byte {
    Byte(x.b7 && m.b7, x.b6 && m.b6, x.b5 && m.b5, x.b4 && m.b4, x.b3 && m.b3, x.b2 && m.b2, x.b1 && m.b1, x.b0 && m.b0)
  }

  function Fill(x: Byte, m: Byte): Byte {
    Byte(!m.b7 || x.b7, !m.b6 || x.b6, !m.b5 || x.b5, !m.b4 || x.b4, !m.b3 || x.b3, !m.b2 || x.b2, !m.b1 || x.b1, !m.b0 || x.b0)
  }

  predicate Bit(b: Byte, i: nat)
    requires i < 8
  {
    match i
    case 0 => b.b7
    case 1 => b.b6
    case 2 => b.b5
    case 3 => b.b4
    case 4 => b.b3
    case 5 => b.b2
    case 6 => b.b1
    case _ => b.b0
  }

  function AllBits(s: Bytes): (r: Bits)
    ensures |r| == 8 * |s|
  {
    seq(8 * |s|, n requires 0 <= n < 8 * |s| => Bit(s[n / 8], n % 8))
  }

  function Number(s: Bytes): nat {
    Value(AllBits(s))
  }

  function ToBytes(r: Bits, n: nat): (s: Bytes)
    requires |r| == 8 * n
    ensures |s| == n
  {
    seq(n, k requires 0 <= k < n =>
      Byte(r[8 * k], r[8 * k + 1], r[8 * k + 2], r[8 * k + 3], r[8 * k + 4], r[8 * k + 5], r[8 * k + 6], r[8 * k + 7]))
  }

  lemma ToBytesBits(r: Bits, n: nat)
    requires |r| == 8 * n
    ensures AllBits(ToBytes(r, n)) == r
  {
    var s := ToBytes(r, n);
    forall m | 0 <= m < |r|
      ensures AllBits(s)[m] == r[m]
    {
      var k := m / 8;
      assert s[k] == Byte(r[8 * k], r[8 * k + 1], r[8 * k + 2], r[8 * k + 3], r[8 * k + 4], r[8 * k + 5], r[8 * k + 6], r[8 * k + 7]);
    }
  }

  lemma SameByte(x: Byte, y: Byte)
    requires forall i | 0 <= i < 8 :: Bit(x, i) == Bit(y, i)
    ensures x == y
  {
    assert Bit(x, 0) == Bit(y, 0) && Bit(x, 1) == Bit(y, 1) && Bit(x, 2) == Bit(y, 2) && Bit(x, 3) == Bit(y, 3);
    assert Bit(x, 4) == Bit(y, 4) && Bit(x, 5) == Bit(y, 5) && Bit(x, 6) == Bit(y, 6) && Bit(x, 7) == Bit(y, 7);
  }

  /** Addresses of one length are distinguished by their numbers. */
  lemma NumberInjective(x: Bytes, y: Bytes)
    requires |x| == |y| && Number(x) == Number(y)
    ensures x == y
  {
    ValueInjective(AllBits(x), AllBits(y));
    forall k | 0 <= k < |x|
      ensures x[k] == y[k]
    {
      forall i | 0 <= i < 8
        ensures Bit(x[k], i) == Bit(y[k], i)
      {
        assert AllBits(x)[8 * k + i] == AllBits(y)[8 * k + i];
      }
      SameByte(x[k], y[k]);
    }
  }

  function AndBytes(x: Bytes, mask: Bytes): (r: Bytes)
    requires |x| == |mask|
  {
    seq(|x|, i requires 0 <= i < |x| => And(x[i], mask[i]))
  }

  /** The last address: bytes past the end of the mask keep the zero they were made with. */
  function LastBytes(ip: Bytes, mask: Bytes): (r: Bytes)
    requires |mask| <= |ip|
  {
    seq(|ip|, i requires 0 <= i < |ip| => if i < |mask| then Fill(ip[i], mask[i]) else ZERO)
  }

  lemma AndBit(x: Byte, m: Byte, i: nat)
    requires i < 8
    ensures Bit(And(x, m), i) <==> Bit(x, i) && Bit(m, i)
  {
  }

  lemma FillBit(x: Byte, m: Byte, i: nat)
    requires i < 8
    ensures Bit(Fill(x, m), i) <==> !Bit(m, i) || Bit(x, i)
  {
  }

  lemma AndBytesBits(x: Bytes, mask: Bytes)
    requires |x| == |mask|
    ensures AllBits(AndBytes(x, mask)) == Masked(AllBits(x), AllBits(mask))
  {
    forall n | 0 <= n < 8 * |x|
      ensures AllBits(AndBytes(x, mask))[n] <==> AllBits(x)[n] && AllBits(mask)[n]
    {
      AndBit(x[n / 8], mask[n / 8], n % 8);
    }
  }

  lemma LastBitAt(x: Bytes, mask: Bytes, n: nat)
    requires |x| == |mask| && n < 8 * |x|
    ensures AllBits(LastBytes(x, mask))[n] <==> !AllBits(mask)[n] || AllBits(x)[n]
  {
    FillBit(x[n / 8], mask[n / 8], n % 8);
  }

  lemma LastBytesBits(x: Bytes, mask: Bytes)
    requires |x| == |mask|
    ensures AllBits(LastBytes(x, mask)) == Filled(AllBits(x), AllBits(mask))
  {
    forall n | 0 <= n < 8 * |x|
      ensures AllBits(LastBytes(x, mask))[n] <==> !AllBits(mask)[n] || AllBits(x)[n]
    {
      LastBitAt(x, mask, n);
    }
  }

  // ---------- the range of a network ----------

  datatype IPNet = IPNet(ip: Bytes, mask: Bytes)
  datatype IPRange = IPRange(start: Bytes, end: Bytes)

  function IPRangeFromIPNet(n: IPNet): (r: IPRange)
    requires |n.mask| <= |n.ip|
  {
    IPRange(n.ip, LastBytes(n.ip, n.mask))
  }

  predicate Covers(r: IPRange, x: Bytes) {
    Number(r.start) <= Number(x) <= Number(r.end)
  }

  /** The range holds exactly the addresses of the network. */
  ghost predicate SameAddresses(r: IPRange, n: IPNet)
    requires |n.ip| == |n.mask|
  {
    forall x: Bytes | |x| == |n.ip| :: Covers(r, x) <==> AndBytes(x, n.mask) == AndBytes(n.ip, n.mask)
  }

  /** A network as the notation has it: a prefix mask, and no host bits in the address. */
  ghost predicate IsCIDR(n: IPNet) {
    |n.ip| == |n.mask| && IsPrefixMask(AllBits(n.mask)) && AndBytes(n.ip, n.mask) == n.ip
  }

  lemma AllBitsInjective(x: Bytes, y: Bytes)
    requires AllBits(x) == AllBits(y)
    ensures x == y
  {
    assert 8 * |x| == 8 * |y|;
    NumberInjective(x, y);
  }

  /** Membership in range and network, byte for byte and bit for bit. */
  lemma MembershipAsBits(n: IPNet, x: Bytes)
    requires |n.ip| == |n.mask| == |x|
    ensures Covers(IPRangeFromIPNet(n), x) <==> InRange(AllBits(x), AllBits(n.ip), Filled(AllBits(n.ip), AllBits(n.mask)))
    ensures AndBytes(x, n.mask) == AndBytes(n.ip, n.mask) <==>
      Masked(AllBits(x), AllBits(n.mask)) == Masked(AllBits(n.ip), AllBits(n.mask))
  {
    LastBytesBits(n.ip, n.mask);
    AndBytesBits(x, n.mask);
    AndBytesBits(n.ip, n.mask);
    if AllBits(AndBytes(x, n.mask)) == AllBits(AndBytes(n.ip, n.mask)) {
      AllBitsInjective(AndBytes(x, n.mask), AndBytes(n.ip, n.mask));
    }
  }

  lemma NetworkAsBits(n: IPNet)
    requires |n.ip| == |n.mask|
    ensures IsCIDR(n) <==> IsPrefixMask(AllBits(n.mask)) && Masked(AllBits(n.ip), AllBits(n.mask)) == AllBits(n.ip)
  {
    AndBytesBits(n.ip, n.mask);
    if AllBits(AndBytes(n.ip, n.mask)) == AllBits(n.ip) {
      AllBitsInjective(AndBytes(n.ip, n.mask), n.ip);
    }
  }

  /** Any bits are the bits of an address, so what holds of addresses holds of bits. */
  lemma BytesMissNothing(n: IPNet, b: Bits)
    requires |n.ip| == |n.mask| && |b| == |AllBits(n.ip)|
    requires var x := ToBytes(b, |n.ip|); Covers(IPRangeFromIPNet(n), x) <==> AndBytes(x, n.mask) == AndBytes(n.ip, n.mask)
    ensures InRange(b, AllBits(n.ip), Filled(AllBits(n.ip), AllBits(n.mask))) <==>
      Masked(b, AllBits(n.mask)) == Masked(AllBits(n.ip), AllBits(n.mask))
  {
    ToBytesBits(b, |n.ip|);
    MembershipAsBits(n, ToBytes(b, |n.ip|));
  }

  lemma RangeAsBits(n: IPNet)
    requires |n.ip| == |n.mask|
    ensures SameAddresses(IPRangeFromIPNet(n), n) <==> RangeMatchesNetwork(AllBits(n.ip), AllBits(n.mask))
  {
    if RangeMatchesNetwork(AllBits(n.ip), AllBits(n.mask)) {
      forall x: Bytes | |x| == |n.ip|
        ensures Covers(IPRangeFromIPNet(n), x) <==> AndBytes(x, n.mask) == AndBytes(n.ip, n.mask)
      {
        MembershipAsBits(n, x);
        assert |AllBits(x)| == |AllBits(n.ip)|;
      }
    } else if SameAddresses(IPRangeFromIPNet(n), n) {
      forall b: Bits | |b| == |AllBits(n.ip)|
        ensures InRange(b, AllBits(n.ip), Filled(AllBits(n.ip), AllBits(n.mask))) <==>
          Masked(b, AllBits(n.mask)) == Masked(AllBits(n.ip), AllBits(n.mask))
      {
        BytesMissNothing(n, b);
      }
    }
  }

  /** For every address length: the range is the network exactly when the network is a CIDR block. */
  lemma RangeFromNetExact(n: IPNet)
    requires |n.ip| == |n.mask|
    ensures SameAddresses(IPRangeFromIPNet(n), n) <==> IsCIDR(n)
  {
    RangeAsBits(n);
    RangeMatchesIffPrefix(AllBits(n.ip), AllBits(n.mask));
    NetworkAsBits(n);
  }

  lemma AddressExists(v: nat, n: nat)
    requires v < Pow2(8 * n)
    ensures exists x: Bytes :: |x| == n && Number(x) == v
  {
    ToBytesBits(Spell(v, 8 * n), n);
    assert Number(ToBytes(Spell(v, 8 * n), n)) == v;
  }

  ghost function AddressOf(v: nat, n: nat): (x: Bytes)
    requires v < Pow2(8 * n)
    ensures |x| == n && Number(x) == v
  {
    AddressExists(v, n);
    var x: Bytes :| |x| == n && Number(x) == v;
    x
  }

  /** The addresses of length `n` with numbers from `lo` up to but not including `hi`. */
  ghost function Addresses(lo: nat, hi: nat, n: nat): (s: set<Bytes>)
    requires lo <= hi <= Pow2(8 * n)
    decreases hi
  {
    if lo == hi then {} else Addresses(lo, hi - 1, n) + {AddressOf(hi - 1, n)}
  }

  lemma {:induction false} AddressesMember(lo: nat, hi: nat, n: nat, x: Bytes)
    requires lo <= hi <= Pow2(8 * n)
    ensures x in Addresses(lo, hi, n) <==> |x| == n && lo <= Number(x) < hi
    decreases hi
  {
    if lo < hi {
      AddressesMember(lo, hi - 1, n, x);
      if |x| == n && Number(x) == hi - 1 {
        NumberInjective(x, AddressOf(hi - 1, n));
      }
    }
  }

  lemma {:induction false} AddressesSize(lo: nat, hi: nat, n: nat)
    requires lo <= hi <= Pow2(8 * n)
    ensures |Addresses(lo, hi, n)| == hi - lo
    decreases hi
  {
    if lo < hi {
      AddressesSize(lo, hi - 1, n);
      var top := AddressOf(hi - 1, n);
      AddressesMember(lo, hi - 1, n, top);
    }
  }

  lemma RangeNumbers(n: IPNet)
    requires IsCIDR(n)
    ensures var r := IPRangeFromIPNet(n);
      Number(r.end) - Number(r.start) + 1 == Pow2(HostBits(AllBits(n.mask))) && Number(r.end) < Pow2(8 * |n.ip|)
  {
    AndBytesBits(n.ip, n.mask);
    LastBytesBits(n.ip, n.mask);
    RangeSize(AllBits(n.ip), AllBits(n.mask));
  }

  /** The addresses of the range, as a set. */
  ghost function AddressesOf(r: IPRange): set<Bytes>
    requires Number(r.start) <= Number(r.end) + 1 <= Pow2(8 * |r.start|)
  {
    Addresses(Number(r.start), Number(r.end) + 1, |r.start|)
  }

  lemma RangeMember(n: IPNet, x: Bytes)
    requires IsCIDR(n)
    requires Number(n.ip) <= Number(IPRangeFromIPNet(n).end) + 1 <= Pow2(8 * |n.ip|)
    ensures x in AddressesOf(IPRangeFromIPNet(n)) <==> |x| == |n.ip| && AndBytes(x, n.mask) == n.ip
  {
    AddressesMember(Number(n.ip), Number(IPRangeFromIPNet(n).end) + 1, |n.ip|, x);
    RangeFromNetExact(n);
  }

  /** The range of a CIDR block has two to the number of host bits addresses: those of the network. */
  lemma RangeFromNetSize(n: IPNet)
    requires IsCIDR(n)
    ensures var r := IPRangeFromIPNet(n);
      && Number(r.start) <= Number(r.end) + 1 <= Pow2(8 * |r.start|)
      && |AddressesOf(r)| == Pow2(HostBits(AllBits(n.mask)))
      && forall x :: x in AddressesOf(r) <==> |x| == |n.ip| && AndBytes(x, n.mask) == n.ip
  {
    RangeNumbers(n);
    var r := IPRangeFromIPNet(n);
    AddressesSize(Number(r.start), Number(r.end) + 1, |n.ip|);
    forall x
      ensures x in AddressesOf(r) <==> |x| == |n.ip| && AndBytes(x, n.mask) == n.ip
    {
      RangeMember(n, x);
    }
  }

  function Open(b: bv8): Byte {
    Byte(b & 0x80 != 0, b & 0x40 != 0, b & 0x20 != 0, b & 0x10 != 0, b & 0x08 != 0, b & 0x04 != 0, b & 0x02 != 0, b & 0x01 != 0)
  }

  lemma OpenIsFaithful(x: bv8, m: bv8)
    ensures Open(x & m) == And(Open(x), Open(m))
    ensures Open(!m | x) == Fill(Open(x), Open(m))
    ensures Open(x) == Open(m) ==> x == m
    ensures Open(0) == ZERO
  {
  }

  function OpenAll(s: seq<bv8>): Bytes {
    seq(|s|, i requires 0 <= i < |s| => Open(s[i]))
  }

  /**
   The byte loop over the mask. It writes past the address, and so panics, exactly
   when the mask is longer than the address.
   */
  method LastIP(ip: array<bv8>, mask: array<bv8>) returns (panics: bool, lastip: array<bv8>)
    ensures fresh(lastip) && lastip.Length == ip.Length
    ensures panics <==> mask.Length > ip.Length
    ensures !panics ==> OpenAll(lastip[..]) == LastBytes(OpenAll(ip[..]), OpenAll(mask[..]))
  {
    panics := false;
    lastip := new bv8[ip.Length](_ => 0);
    OpenIsFaithful(0, 0);
    for i := 0 to mask.Length
      invariant i <= lastip.Length
      invariant forall k | 0 <= k < i :: Open(lastip[k]) == Fill(Open(ip[k]), Open(mask[k]))
      invariant forall k | i <= k < lastip.Length :: lastip[k] == 0
    {
      if i >= lastip.Length {
        return true, lastip;
      }
      OpenIsFaithful(ip[i], mask[i]);
      lastip[i] := !mask[i] | ip[i];
    }
  }

  // ---------- an IPv4 network kept in its 16-byte form ----------

  /** The 16-byte form of an IPv4 address: ten zeros, two bytes of ones, the address. */
  function Mapped4(ip: Bytes): (r: Bytes)
    requires |ip| == 4
    ensures |r| == 16
  {
    [ZERO, ZERO, ZERO, ZERO, ZERO, ZERO, ZERO, ZERO, ZERO, ZERO, ONES, ONES] + ip
  }

  /** `x` is the 16-byte form of an address of the network `ip`/`mask`. */
  ghost predicate InMapped4Network(x: Bytes, ip: Bytes, mask: Bytes)
    requires |ip| == |mask| == 4
  {
    exists y: Bytes :: |y| == 4 && x == Mapped4(y) && AndBytes(y, mask) == AndBytes(ip, mask)
  }

  /**
   With a 4-byte mask on a 16-byte address the loop stops after four bytes and leaves
   the rest zero. Whatever the network, the range then either covers its own end, which
   is no IPv4 address, or misses its own start: it never holds the network's addresses.
   */
  lemma MixedFormsNeverMatch(ip: Bytes, mask: Bytes)
    requires |ip| == |mask| == 4
    ensures var r := IPRangeFromIPNet(IPNet(Mapped4(ip), mask));
      !forall x: Bytes | |x| == 16 :: Covers(r, x) <==> InMapped4Network(x, ip, mask)
  {
    var r := IPRangeFromIPNet(IPNet(Mapped4(ip), mask));
    if Number(r.start) <= Number(r.end) {
      EndIsNoMapped4(ip, mask);
      assert Covers(r, r.end) && |r.end| == 16;
    } else {
      assert InMapped4Network(r.start, ip, mask);
      assert !Covers(r, r.start) && |r.start| == 16;
    }
  }

  lemma EndIsNoMapped4(ip: Bytes, mask: Bytes)
    requires |ip| == |mask| == 4
    ensures !InMapped4Network(LastBytes(Mapped4(ip), mask), ip, mask)
  {
    var end := LastBytes(Mapped4(ip), mask);
    assert end[10] == ZERO;
    forall y: Bytes | |y| == 4
      ensures end != Mapped4(y)
    {
      assert Mapped4(y)[10] == ONES;
    }
  }
}
