/**
 IPv4 addresses and CIDR blocks (prefix notation of section 3.1 of RFC 4632) as
 the daemon and the plugins use them: an address is a 32-bit number, and masking
 with a prefix of length p clears its low 32 - p bits.
 */
module Ipv4 {
  const ADDRESS_COUNT := 0x1_0000_0000

  type Addr = a: int | 0 <= a < ADDRESS_COUNT

  type Prefix = p: int | 0 <= p <= 32

  function Pow2(n: nat): (r: nat)
    ensures r > 0
  {
    if n == 0 then 1 else 2 * Pow2(n - 1)
  }

  /** A CIDR block. `addr` may carry host bits; `Network` masks them off. */
  datatype Ipv4Network = Ipv4Network(addr: Addr, prefix: Prefix) {
    function Size(): nat {
      Pow2(32 - prefix)
    }

    function Network(): (a: Addr) {
      Mask(addr, prefix)
    }

    function Broadcast(): (a: Addr)
    {
      BlockFits(addr, prefix);
      Network() + (Size() - 1)
    }

    predicate Contains(ip: Addr) {
      Mask(ip, prefix) == Network()
    }
  }

  /** The address with the host bits of a prefix cleared. */
  function Mask(ip: Addr, prefix: Prefix): (a: Addr)
    ensures a <= ip < a + Pow2(32 - prefix)
  {
    var s := Pow2(32 - prefix);
    RemainderBelow(ip, s);
    ip - ip % s
  }

  lemma RemainderBelow(ip: nat, s: nat)
    requires s > 0
    ensures 0 <= ip % s <= ip && ip % s < s
  {
    if ip >= s {
      assert ip % s < s;
    } else {
      assert ip / s == 0;
    }
  }

  /** Whether a subnet lies in a network: both its end points do. */
  predicate SubnetInNetwork(subnet: Ipv4Network, network: Ipv4Network) {
    network.Contains(subnet.Network()) && network.Contains(subnet.Broadcast())
  }

  lemma {:induction false} Pow2Adds(a: nat, b: nat)
    ensures Pow2(a + b) == Pow2(a) * Pow2(b)
  {
    if a > 0 {
      Pow2Adds(a - 1, b);
      assert a + b - 1 == (a - 1) + b;
    }
  }

  lemma {:induction false} Pow2Monotone(a: nat, b: nat)
    requires a < b
    ensures Pow2(a) < Pow2(b)
  {
    if a + 1 < b {
      Pow2Monotone(a, b - 1);
    }
  }

  lemma Pow2Of32()
    ensures Pow2(32) == ADDRESS_COUNT
    ensures Pow2(16) == 0x1_0000
  {
    assert Pow2(8) == 256;
    Pow2Adds(8, 8);
    Pow2Adds(16, 16);
  }

  /** Distinct multiples of s lie at least s apart. */
  lemma MultiplesApart(a: int, b: int, s: nat)
    ensures a < b ==> a * s + s <= b * s
  {
    if a < b {
      var d := b - a - 1;
      assert b * s == a * s + s + d * s by {
        assert b == a + 1 + d;
        assert (a + 1 + d) * s == a * s + s + d * s;
      }
      assert d * s >= 0;
    }
  }

  /** An aligned block never runs past the last address. */
  lemma BlockFits(ip: Addr, prefix: Prefix)
    ensures Mask(ip, prefix) + Pow2(32 - prefix) <= ADDRESS_COUNT
  {
    var s := Pow2(32 - prefix);
    var count := Pow2(prefix);
    assert count * s == ADDRESS_COUNT by {
      Pow2Adds(prefix, 32 - prefix);
      Pow2Of32();
      assert prefix + (32 - prefix) == 32;
    }
    LastMultiple(ip, s, count);
  }

  lemma LastMultiple(ip: nat, s: nat, count: nat)
    requires s > 0 && ip < count * s
    ensures ip - ip % s + s <= count * s
  {
    MultiplesApart(ip / s, count, s);
    MultiplesApart(count, ip / s, s);
  }

  /** The multiple of s at or below ip is unique. */
  lemma QuotientUnique(ip: int, s: nat, k: int)
    requires s > 0 && k * s <= ip < k * s + s
    ensures ip - ip % s == k * s
  {
    MultiplesApart(ip / s, k, s);
    MultiplesApart(k, ip / s, s);
  }

  /** A block is exactly the closed interval from its network to its broadcast address. */
  lemma ContainsIsInterval(n: Ipv4Network, ip: Addr)
    ensures n.Contains(ip) <==> n.Network() <= ip <= n.Broadcast()
  {
    BlockFits(n.addr, n.prefix);
    SameBlock(n.addr, ip, n.Size());
  }

  lemma SameBlock(a: nat, ip: nat, s: nat)
    requires s > 0
    ensures ip - ip % s == a - a % s <==> a - a % s <= ip < a - a % s + s
  {
    var k := a / s;
    assert a - a % s == k * s;
    if k * s <= ip < k * s + s {
      QuotientUnique(ip, s, k);
    }
  }

  /** Masking with a longer prefix and then with a shorter one is masking with the shorter. */
  lemma MaskNests(ip: Addr, longer: Prefix, shorter: Prefix)
    requires shorter <= longer
    ensures Mask(Mask(ip, longer), shorter) == Mask(ip, shorter)
  {
    var small, ratio := Pow2(32 - longer), Pow2(longer - shorter);
    assert Pow2(32 - shorter) == ratio * small by {
      Pow2Adds(longer - shorter, 32 - longer);
      assert (longer - shorter) + (32 - longer) == 32 - shorter;
    }
    CoarserMultiple(ip, small, ratio);
  }

  lemma MulAssoc(k: int, ratio: int, small: int)
    ensures k * (ratio * small) == (k * ratio) * small
  {
  }

  /** A multiple of small not above ip is not above ip without its remainder. */
  lemma BelowMasked(ip: nat, small: nat, c: int)
    requires small > 0 && c * small <= ip
    ensures c * small <= ip - ip % small
  {
    MultiplesApart(ip / small, c, small);
  }

  lemma CoarserMultiple(ip: nat, small: nat, ratio: nat)
    requires small > 0 && ratio > 0
    ensures ratio * small > 0
    ensures var masked := ip - ip % small; masked - masked % (ratio * small) == ip - ip % (ratio * small)
  {
    assert ratio * small > 0;
    var big := ratio * small;
    var k := ip / big;
    assert k * big <= ip < k * big + big && k * big == ip - ip % big;
    MulAssoc(k, ratio, small);
    BelowMasked(ip, small, k * ratio);
    QuotientUnique(ip - ip % small, big, k);
  }

  /**
   The two-point test is exactly block inclusion, and exactly "the network's
   prefix is no longer and the masked addresses agree".
   */
  lemma SubnetInNetworkIsInclusion(subnet: Ipv4Network, network: Ipv4Network)
    ensures SubnetInNetwork(subnet, network)
            <==> forall ip: Addr :: subnet.Contains(ip) ==> network.Contains(ip)
    ensures SubnetInNetwork(subnet, network)
            <==> network.prefix <= subnet.prefix && Mask(subnet.addr, network.prefix) == network.Network()
  {
    BlockFits(subnet.addr, subnet.prefix);
    var lo, hi := subnet.Network(), subnet.Broadcast();
    ContainsIsInterval(subnet, lo);
    ContainsIsInterval(subnet, hi);
    ContainsIsInterval(network, lo);
    ContainsIsInterval(network, hi);
    if SubnetInNetwork(subnet, network) {
      forall ip: Addr | subnet.Contains(ip)
        ensures network.Contains(ip)
      {
        ContainsIsInterval(subnet, ip);
        ContainsIsInterval(network, ip);
      }
      if network.prefix > subnet.prefix {
        Pow2Monotone(32 - network.prefix, 32 - subnet.prefix);
        assert false;
      }
      MaskNests(subnet.addr, subnet.prefix, network.prefix);
    }
    if network.prefix <= subnet.prefix && Mask(subnet.addr, network.prefix) == network.Network() {
      MaskNests(lo, subnet.prefix, network.prefix);
      MaskNests(hi, subnet.prefix, network.prefix);
      MaskNests(subnet.addr, subnet.prefix, network.prefix);
      assert Mask(hi, subnet.prefix) == lo;
    }
  }

  /** A block contains its own network address. */
  lemma ContainsOwnNetwork(n: Ipv4Network)
    ensures n.Contains(n.Network())
  {
    MaskNests(n.addr, n.prefix, n.prefix);
  }
}
