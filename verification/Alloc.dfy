/** Choosing addresses from one subnet: the usable hosts and the cyclic search for a free one. */
module Alloc {
  import opened Wrappers
  import opened Ipv4

  datatype Allocator = Allocator(net: Ipv4Network, gateway: Addr)

  /** The address after the network address, wrapping past the last one. */
  function FirstUsable(net: Ipv4Network): Addr {
    (net.Network() + 1) % ADDRESS_COUNT
  }

  function New(net: Ipv4Network, gateway: Option<Addr>): Allocator {
    Allocator(net, match gateway case Some(g) => g case None => FirstUsable(net))
  }

  /** The addresses from ip to the broadcast address that are not set aside. */
  function HostsFrom(a: Allocator, ip: int): seq<Addr>
    requires a.net.Network() <= ip
    decreases a.net.Broadcast() - ip
  {
    if ip > a.net.Broadcast() then []
    else
      (if ip != a.net.Network() && ip != a.net.Broadcast() && ip != a.gateway then [ip] else []) + HostsFrom(a, ip + 1)
  }

  function UsableHosts(a: Allocator): seq<Addr> {
    HostsFrom(a, a.net.Network())
  }

  predicate Usable(a: Allocator, ip: Addr) {
    a.net.Network() < ip < a.net.Broadcast() && ip != a.gateway
  }

  predicate Ascending(s: seq<Addr>) {
    forall i, j | 0 <= i < j < |s| :: s[i] < s[j]
  }

  predicate GatewayInside(a: Allocator) {
    a.net.Network() < a.gateway < a.net.Broadcast()
  }

  lemma {:induction false} HostsFromExact(a: Allocator, ip: int)
    requires a.net.Network() < ip <= a.net.Broadcast() + 1
    ensures Ascending(HostsFrom(a, ip))
    ensures forall x: Addr :: x in HostsFrom(a, ip) <==> ip <= x && Usable(a, x)
    ensures |HostsFrom(a, ip)| == (if ip < a.net.Broadcast() then a.net.Broadcast() - ip else 0)
                                  - (if ip <= a.gateway < a.net.Broadcast() then 1 else 0)
    decreases a.net.Broadcast() - ip
  {
    if ip <= a.net.Broadcast() {
      HostsFromExact(a, ip + 1);
      var rest := HostsFrom(a, ip + 1);
      forall i | 0 <= i < |rest|
        ensures ip < rest[i]
      {
        assert rest[i] in rest;
      }
    }
  }

  /**
   The usable hosts are, in ascending order, exactly the addresses strictly between the
   network and the broadcast address without the gateway: 2^(32-p) - 2 of them, less one
   if the gateway is inside, and none for the two longest prefixes.
   */
  lemma UsableHostsExact(a: Allocator)
    ensures Ascending(UsableHosts(a))
    ensures forall x: Addr :: x in UsableHosts(a) <==> Usable(a, x)
    ensures |UsableHosts(a)| == if a.net.prefix >= 31 then 0
                                else Pow2(32 - a.net.prefix) - 2 - (if GatewayInside(a) then 1 else 0)
  {
    BlockFits(a.net.addr, a.net.prefix);
    HostsFromExact(a, a.net.Network() + 1);
    assert UsableHosts(a) == HostsFrom(a, a.net.Network() + 1);
    assert Pow2(0) == 1 && Pow2(1) == 2;
    if a.net.prefix < 31 {
      Pow2Monotone(1, 32 - a.net.prefix);
    }
  }

  /** Under the prefix cap at most 65534 hosts are ever listed. */
  lemma HostCountCapped(a: Allocator)
    requires a.net.prefix >= 16
    ensures |UsableHosts(a)| <= 65534
  {
    UsableHostsExact(a);
    Pow2Of32();
    if a.net.prefix > 16 {
      Pow2Monotone(32 - a.net.prefix, 16);
    }
  }

  /** The default gateway is set aside whenever there is a host to set aside. */
  lemma DefaultGatewayInside(net: Ipv4Network)
    requires net.prefix <= 30
    ensures GatewayInside(New(net, None)) && New(net, None).gateway == net.Network() + 1
  {
    BlockFits(net.addr, net.prefix);
    assert Pow2(1) == 2;
    Pow2Monotone(1, 32 - net.prefix);
    SmallRemainder(net.Network() + 1, ADDRESS_COUNT);
  }

  lemma SmallRemainder(x: nat, m: nat)
    requires x < m
    ensures x % m == x
  {
  }

  // --------------------------------------------------------------- the cyclic search

  function IndexOf(s: seq<Addr>, x: Addr): (r: Option<nat>)
    ensures match r case Some(i) => i < |s| && s[i] == x case None => x !in s
  {
    if s == [] then None
    else if s[0] == x then Some(0)
    else match IndexOf(s[1..], x)
      case Some(i) => Some(i + 1)
      case None => None
  }

  function Start(hosts: seq<Addr>, last: Option<Addr>): (i: nat)
    ensures i <= |hosts|
  {
    match last
    case None => 0
    case Some(l) =>
      match IndexOf(hosts, l)
      case Some(i) => i + 1
      case None => 0
  }

  /** The k-th position visited when starting from a position and wrapping round. */
  function Visit(n: nat, start: nat, k: nat): (p: nat)
    requires start <= n && k < n
    ensures p == if start + k < n then start + k else start + k - n
  {
    WrapOnce(start + k, n);
    (start + k) % n
  }

  lemma WrapOnce(x: nat, n: nat)
    requires n > 0 && x < 2 * n
    ensures x % n == if x < n then x else x - n
  {
    if x >= n {
      SmallRemainder(x - n, n);
      assert x % n == (x - n) % n;
    }
  }

  /** x comes before y when going round from just after last; from the lowest if last is not usable. */
  predicate Precedes(a: Allocator, last: Option<Addr>, x: Addr, y: Addr) {
    if last.Some? && Usable(a, last.value) then
      if (x > last.value) == (y > last.value) then x < y else x > last.value
    else x < y
  }

  /** A free usable host before which no other comes. */
  ghost predicate FirstFree(a: Allocator, leased: set<Addr>, last: Option<Addr>, ip: Addr) {
    && Usable(a, ip) && ip !in leased
    && forall x: Addr | Usable(a, x) && x !in leased && x != ip :: Precedes(a, last, ip, x)
  }

  lemma FirstFreeUnique(a: Allocator, leased: set<Addr>, last: Option<Addr>, x: Addr, y: Addr)
    requires FirstFree(a, leased, last, x) && FirstFree(a, leased, last, y)
    ensures x == y
  {
  }

  /** The address the search finds, for use in specifications. */
  ghost function NextFree(a: Allocator, leased: set<Addr>, last: Option<Addr>): (r: Option<Addr>)
    ensures match r
            case Some(ip) => FirstFree(a, leased, last, ip)
            case None => !exists ip :: FirstFree(a, leased, last, ip)
  {
    if exists ip :: FirstFree(a, leased, last, ip)
    then var ip :| FirstFree(a, leased, last, ip); Some(ip)
    else None
  }

  /**
   The first unleased usable host in cyclic order after the last reserved address, or from
   the start if that is absent or not usable; None exactly if every usable host is leased.
   */
  method NextIp(a: Allocator, leased: set<Addr>, last: Option<Addr>) returns (r: Option<Addr>)
    ensures match r
            case Some(ip) => FirstFree(a, leased, last, ip)
            case None => forall ip: Addr | Usable(a, ip) :: ip in leased
    ensures r == NextFree(a, leased, last)
  {
    var hosts := UsableHosts(a);
    UsableHostsExact(a);
    if |hosts| == 0 {
      return None;
    }
    var start := Start(hosts, last);
    StartIsAfterLast(a, hosts, last);
    var n := |hosts|;
    for k := 0 to n
      invariant forall j | 0 <= j < k :: hosts[Visit(n, start, j)] in leased
    {
      var ip := hosts[Visit(n, start, k)];
      if ip !in leased {
        FoundIsFirst(a, hosts, leased, last, k);
        if NextFree(a, leased, last).Some? {
          FirstFreeUnique(a, leased, last, ip, NextFree(a, leased, last).value);
        }
        return Some(ip);
      }
    }
    AllVisited(hosts, leased, start);
    return None;
  }

  /** With ascending hosts, those from the start index on come after last, the others do not. */
  lemma StartIsAfterLast(a: Allocator, hosts: seq<Addr>, last: Option<Addr>)
    requires hosts == UsableHosts(a)
    ensures last.Some? && Usable(a, last.value) ==>
              forall i | 0 <= i < |hosts| :: i >= Start(hosts, last) <==> hosts[i] > last.value
    ensures !(last.Some? && Usable(a, last.value)) ==> Start(hosts, last) == 0
  {
    UsableHostsExact(a);
  }

  lemma AllVisited(hosts: seq<Addr>, leased: set<Addr>, start: nat)
    requires start <= |hosts| && forall j | 0 <= j < |hosts| :: hosts[Visit(|hosts|, start, j)] in leased
    ensures forall x | x in hosts :: x in leased
  {
    forall p | 0 <= p < |hosts|
      ensures hosts[p] in leased
    {
      var j := if p >= start then p - start else p + |hosts| - start;
      assert Visit(|hosts|, start, j) == p;
    }
  }

  /** Visiting in index order is visiting in cyclic order. */
  lemma VisitOrder(a: Allocator, hosts: seq<Addr>, last: Option<Addr>, j: nat, k: nat)
    requires hosts == UsableHosts(a) && j < k < |hosts|
    ensures var n, start := |hosts|, Start(hosts, last);
            Precedes(a, last, hosts[Visit(n, start, j)], hosts[Visit(n, start, k)])
  {
    UsableHostsExact(a);
    StartIsAfterLast(a, hosts, last);
    hide UsableHosts, Start;
  }

  lemma FoundIsFirst(a: Allocator, hosts: seq<Addr>, leased: set<Addr>, last: Option<Addr>, k: nat)
    requires hosts == UsableHosts(a) && k < |hosts|
    requires var n, start := |hosts|, Start(hosts, last);
             hosts[Visit(n, start, k)] !in leased && forall j | 0 <= j < k :: hosts[Visit(n, start, j)] in leased
    ensures FirstFree(a, leased, last, hosts[Visit(|hosts|, Start(hosts, last), k)])
  {
    UsableHostsExact(a);
    var n, start := |hosts|, Start(hosts, last);
    var ip := hosts[Visit(n, start, k)];
    hide UsableHosts, Start, Usable, Precedes;
    assert ip in hosts;
    forall x: Addr | Usable(a, x) && x !in leased && x != ip
      ensures Precedes(a, last, ip, x)
    {
      var p :| 0 <= p < n && hosts[p] == x;
      var j := if p >= start then p - start else p + n - start;
      assert Visit(n, start, j) == p;
      VisitOrder(a, hosts, last, k, j);
    }
  }

  /** The search finds something as long as a usable host is free. */
  lemma FreeIsFound(a: Allocator, leased: set<Addr>, last: Option<Addr>, x: Addr)
    requires Usable(a, x) && x !in leased
    ensures NextFree(a, leased, last).Some?
  {
    var hosts := UsableHosts(a);
    UsableHostsExact(a);
    assert x in hosts;
    var n, start := |hosts|, Start(hosts, last);
    StartIsAfterLast(a, hosts, last);
    hide UsableHosts, Usable, Start, FirstFree;
    var k := 0;
    while k < n && hosts[Visit(n, start, k)] in leased
      invariant k <= n && forall j | 0 <= j < k :: hosts[Visit(n, start, j)] in leased
    {
      k := k + 1;
    }
    if k < n {
      FoundIsFirst(a, hosts, leased, last, k);
    } else {
      AllVisited(hosts, leased, start);
    }
  }

  /** Every address strictly between two is leased, or is the gateway. */
  ghost predicate AllTaken(a: Allocator, leased: set<Addr>, low: Addr, high: Addr) {
    forall x: Addr | low < x < high && x != a.gateway :: x in leased
  }

  /**
   Which address is found, in plain terms: strictly inside the subnet, not the gateway, not
   leased, with nothing free between the last reserved address and it, or up to the end of
   the subnet and from its start; from the start as well if the last one is no usable host.
   */
  lemma NextFreeMeans(a: Allocator, leased: set<Addr>, last: Option<Addr>)
    ensures var low, high := a.net.Network(), a.net.Broadcast();
            match NextFree(a, leased, last)
            case None => AllTaken(a, leased, low, high)
            case Some(ip) =>
              && low < ip < high && ip != a.gateway && ip !in leased
              && if last.Some? && low < last.value < high && last.value != a.gateway then
                   if ip > last.value then AllTaken(a, leased, last.value, ip)
                   else AllTaken(a, leased, last.value, high) && AllTaken(a, leased, low, ip)
                 else AllTaken(a, leased, low, ip)
  {
    if NextFree(a, leased, last).None? {
      forall x: Addr | Usable(a, x) && x !in leased
        ensures false
      {
        FreeIsFound(a, leased, last, x);
      }
    } else {
      var ip := NextFree(a, leased, last).value;
      assert FirstFree(a, leased, last, ip);
      forall x: Addr | Usable(a, x) && x !in leased
        ensures x == ip || Precedes(a, last, ip, x)
      {
      }
    }
  }

  // --------------------------------------------------------------- from the configuration

  datatype Range = Range(subnet: Field<Ipv4Network>, gateway: Option<Field<Addr>>)

  datatype ConfigError = EmptyRanges | InvalidSubnet | SubnetTooLarge | InvalidGateway

  /** The allocator for the first range of the first range set, if that range is acceptable. */
  function AllocatorFor(ranges: seq<seq<Range>>): (r: Result<Allocator, ConfigError>)
    ensures r.Ok? ==> r.value.net.prefix >= 16
  {
    if ranges == [] || ranges[0] == [] then Err(EmptyRanges)
    else
      var range := ranges[0][0];
      match range.subnet.parsed
      case None => Err(InvalidSubnet)
      case Some(net) =>
        if net.prefix < 16 then Err(SubnetTooLarge)
        else
          match range.gateway
          case None => Ok(New(net, None))
          case Some(g) => if g.parsed.None? then Err(InvalidGateway) else Ok(New(net, g.parsed))
  }

  /** A range that can be allocated from: a subnet not too large, and a gateway that is an address if one is named. */
  predicate Acceptable(range: Range) {
    && range.subnet.parsed.Some? && range.subnet.parsed.value.prefix >= 16
    && (range.gateway.Some? ==> range.gateway.value.parsed.Some?)
  }

  /**
   A configuration is accepted exactly if its first range is acceptable, later ranges
   playing no part. Its usable hosts are then at most 65534, all of the named subnet, and
   never the named gateway or, for subnets with hosts, the first address if none is named.
   */
  lemma AcceptedConfiguration(ranges: seq<seq<Range>>)
    ensures AllocatorFor(ranges).Ok? <==> ranges != [] && ranges[0] != [] && Acceptable(ranges[0][0])
    ensures AllocatorFor(ranges).Ok? ==>
              var a, range := AllocatorFor(ranges).value, ranges[0][0];
              && a.net == range.subnet.parsed.value && |UsableHosts(a)| <= 65534
              && (forall ip | ip in UsableHosts(a) :: a.net.Contains(ip))
              && (range.gateway.Some? ==> range.gateway.value.parsed.value !in UsableHosts(a))
              && (range.gateway.None? && a.net.prefix <= 30 ==> GatewayInside(a) && a.gateway == a.net.Network() + 1)
  {
    if AllocatorFor(ranges).Ok? {
      var a := AllocatorFor(ranges).value;
      HostCountCapped(a);
      UsableHostsExact(a);
      forall ip | ip in UsableHosts(a)
        ensures a.net.Contains(ip)
      {
        ContainsIsInterval(a.net, ip);
      }
      if a.net.prefix <= 30 {
        DefaultGatewayInside(a.net);
      }
    }
  }

  /** What is reported for a configuration that is not accepted: the first thing wrong with it. */
  lemma RejectedConfiguration(ranges: seq<seq<Range>>)
    requires AllocatorFor(ranges).Err?
    ensures var e := AllocatorFor(ranges).error;
            && (e == EmptyRanges <==> ranges == [] || ranges[0] == [])
            && (e != EmptyRanges ==>
                  var range := ranges[0][0];
                  && (e == InvalidSubnet <==> range.subnet.parsed.None?)
                  && (e == SubnetTooLarge <==> range.subnet.parsed.Some? && range.subnet.parsed.value.prefix < 16)
                  && (e == InvalidGateway ==> range.gateway.Some? && range.gateway.value.parsed.None?))
  {
  }
}
