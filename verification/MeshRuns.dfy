/**
 Runs that reach the full mesh do exist: in any cluster any member can complete a
 failure-free first pass, and two nodes with different pod CIDRs are such a cluster.
 */
module MeshRuns {
  import opened Wrappers
  import opened Ipv4
  import opened Mac
  import opened Peers
  import opened Netlink
  import opened Controller
  import opened Agreement
  import opened Reconciling
  import opened Lease
  import opened FullMesh

  /** In any cluster, any member's daemon can start on empty tables and complete a failure-free pass. */
  lemma FirstPassExists(members: seq<Member>, i: nat, dev: Link) returns (states: seq<State>, pass: Pass)
    requires Cluster(members) && i < |members|
    ensures Unobtrusive(map[], dev, members, i) && |states| == 2
    ensures GoodRun(Vxlan, dev, map[], states, [pass]) && Orders(map[], pass) && AllHandled(pass.outcome)
    ensures pass.desired == Desired(Publish(members), members[i].node.name.value, Vxlan)
  {
    NothingObtrudes(dev, members, i);
    ClusterSeparate(map[], dev, members, i);
    hide *;
    states, pass := OnePassRun(dev, Desired(Publish(members), members[i].node.name.value, Vxlan));
  }

  lemma NothingObtrudes(dev: Link, members: seq<Member>, i: nat)
    requires Cluster(members)
    ensures Unobtrusive(map[], dev, members, i)
  {
  }

  lemma OnePassRun(dev: Link, desired: PeerMap) returns (states: seq<State>, pass: Pass)
    requires Separate(Vxlan, dev, map[], desired) && forall n | n in desired :: Decodable(Vxlan, desired[n])
    ensures GoodRun(Vxlan, dev, map[], states, [pass]) && |states| == 2
    ensures Orders(map[], pass) && AllHandled(pass.outcome) && pass.desired == desired
  {
    var order := SomeOrder(desired.Keys);
    pass := Pass(desired, [], order, _ => Fates(Handled, Handled, Handled));
    var start := State(map[], map[]);
    states := [start, AfterPass(Vxlan, dev, start, pass)];
    assert NoTakeover(Vxlan, dev, map[], desired, pass.outcome);
    hide AfterPass, NoTakeover, CleanPass, Wanted, Decodable, Apart, Footprint;
    HandledIsClean(map[], desired, pass.outcome);
  }

  function SomeMember(name: string, cidr: Addr, ip: Addr, mac: seq<Byte>): Member {
    var (block, address) := (Field("", Some(Ipv4Network(cidr, 24))), Field("", Some(ip)));
    Member(Node(Some(name), None, Some(block), [NodeAddress("InternalIP", address)]), OwnNode(block, address), mac)
  }

  /** Two nodes with different /24 pod CIDRs: after its first pass, the first forwards to all pods of the second. */
  lemma TwoNodesReach(dev: Link, x: Addr, y: Addr, ip: Addr, other: Addr, a: Addr)
    returns (members: seq<Member>, states: seq<State>, pass: Pass)
    requires x % 256 == 0 && y % 256 == 0 && x != y && y <= a < y + 256
    ensures members == [SomeMember("a", x, ip, [0, 0, 0, 0, 0, 1]), SomeMember("b", y, other, [0, 0, 0, 0, 0, 2])]
    ensures Cluster(members) && GoodRun(Vxlan, dev, map[], states, [pass]) && |states| == 2
    ensures Forward(states[1].tables, dev, a) == Some(other)
  {
    var m, k := SomeMember("a", x, ip, [0, 0, 0, 0, 0, 1]), SomeMember("b", y, other, [0, 0, 0, 0, 0, 2]);
    members := [m, k];
    TwoMembers(x, y, ip, other, a);
    hide SomeMember, Cluster, Forward, GoodRun, Unobtrusive, Desired;
    states, pass := FirstPassExists(members, 0, dev);
    ReachableInRun(members, 0, dev, map[], states, [pass], 0, 1, a);
  }

  lemma Block24(net: Addr, a: Addr)
    requires net % 256 == 0
    ensures Ipv4Network(net, 24).Contains(a) <==> net <= a < net + 256
  {
    assert Pow2(8) == 256;
  }

  lemma SomeMemberIs(name: string, cidr: Addr, ip: Addr, mac: seq<Byte>)
    requires |mac| == 6
    ensures var m := SomeMember(name, cidr, ip, mac);
            && m.Valid() && m.Cidr() == Ipv4Network(cidr, 24) && m.mac == mac && m.node.name == Some(name)
            && m.own.publicIp.parsed == Some(ip)
  {
  }

  lemma TwoDistinct(m: Member, k: Member)
    requires m.Valid() && k.Valid() && Distinct(m, k) && Distinct(k, m)
    ensures Cluster([m, k])
  {
    hide Distinct, Member.Valid;
  }

  lemma TwoMembers(x: Addr, y: Addr, ip: Addr, other: Addr, a: Addr)
    requires x % 256 == 0 && y % 256 == 0 && x != y && y <= a < y + 256
    ensures var m, k := SomeMember("a", x, ip, [0, 0, 0, 0, 0, 1]), SomeMember("b", y, other, [0, 0, 0, 0, 0, 2]);
            && Cluster([m, k]) && k.own.publicIp.parsed == Some(other) && k.Cidr().Contains(a)
  {
    var m, k := SomeMember("a", x, ip, [0, 0, 0, 0, 0, 1]), SomeMember("b", y, other, [0, 0, 0, 0, 0, 2]);
    SomeMemberIs("a", x, ip, [0, 0, 0, 0, 0, 1]);
    SomeMemberIs("b", y, other, [0, 0, 0, 0, 0, 2]);
    hide SomeMember, Ipv4Network.Contains, Member.Valid, Member.Cidr, Cluster;
    forall c: Addr
      ensures !(Ipv4Network(x, 24).Contains(c) && Ipv4Network(y, 24).Contains(c))
    {
      Block24(x, c);
      Block24(y, c);
    }
    Block24(y, a);
    assert m.mac[5] != k.mac[5] && "a"[0] != "b"[0];
    assert Distinct(m, k) && Distinct(k, m);
    hide Distinct;
    TwoDistinct(m, k);
  }
}
