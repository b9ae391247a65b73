/**
 End to end: once every node of a cluster has completed a failure-free vxlan pass, a
 packet for any pod is forwarded to the node that owns the pod's address. Forwarding
 takes the longest matching route (section 5.1 of RFC 4632), then the gateway's
 neighbour entry, then the forwarding entry from its hardware address to the remote
 endpoint (section 4.1 of RFC 7348).
 */
module FullMesh {
  import opened Wrappers
  import opened Ipv4
  import opened Mac
  import opened Peers
  import opened Netlink
  import opened Controller
  import opened Agreement
  import opened Reconciling
  import opened Lease

  predicate Matches(slot: Slot, a: Addr) {
    slot.RouteTo? && Mask(a, slot.prefix) == slot.net
  }

  /** The route for an address, trying prefixes from longest to shortest. */
  function LookupFrom(t: Tables, a: Addr, prefix: Prefix): Option<Slot> {
    var slot := RouteTo(Mask(a, prefix), prefix);
    if slot in t then Some(slot) else if prefix == 0 then None else LookupFrom(t, a, prefix - 1)
  }

  function Lookup(t: Tables, a: Addr): Option<Slot> {
    LookupFrom(t, a, 32)
  }

  lemma {:induction false} LookupFromIsLongest(t: Tables, a: Addr, prefix: Prefix, slot: Slot)
    ensures LookupFrom(t, a, prefix) == Some(slot) <==>
            slot in t && Matches(slot, a) && slot.prefix <= prefix
            && forall other | other in t && Matches(other, a) && other.prefix <= prefix :: other.prefix <= slot.prefix
  {
    var here := RouteTo(Mask(a, prefix), prefix);
    if prefix > 0 {
      LookupFromIsLongest(t, a, prefix - 1, slot);
    }
    if here in t {
      assert Matches(here, a);
    } else {
      assert forall other | other in t && Matches(other, a) && other.prefix <= prefix :: other.prefix < prefix;
    }
  }

  /** The lookup finds exactly the longest match. */
  lemma LookupIsLongestMatch(t: Tables, a: Addr, slot: Slot)
    ensures Lookup(t, a) == Some(slot) <==>
            && slot in t && Matches(slot, a)
            && forall other | other in t && Matches(other, a) :: other.prefix <= slot.prefix
  {
    LookupFromIsLongest(t, a, 32, slot);
  }

  /** Where the vxlan device sends a packet for an address: the underlay address of some node. */
  function Forward(t: Tables, dev: Link, a: Addr): Option<Addr> {
    match Lookup(t, a)
    case None => None
    case Some(slot) =>
      if slot !in t || !t[slot].Via? || t[slot].oif != dev then None
      else
        var hop := NeighbourAt(dev, t[slot].gateway);
        if hop !in t || !t[hop].LinkAddress? then None
        else
          var fwd := ForwardOf(dev, t[hop].bytes);
          if fwd in t && t[fwd].Underlay? then Some(t[fwd].node) else None
  }

  /** A route on the device, its gateway's neighbour entry, and where the hardware address in it is reached. */
  predicate Chained(t: Tables, dev: Link, slot: Slot, mac: seq<Byte>, node: Addr) {
    && slot in t && t[slot].Via? && t[slot].oif == dev
    && NeighbourAt(dev, t[slot].gateway) in t && t[NeighbourAt(dev, t[slot].gateway)] == LinkAddress(mac)
    && ForwardOf(dev, mac) in t && t[ForwardOf(dev, mac)] == Underlay(node)
  }

  /** A packet is sent to a node exactly if the longest matching route, and no other, leads there entry by entry. */
  lemma ForwardMeans(t: Tables, dev: Link, a: Addr, node: Addr)
    ensures Forward(t, dev, a) == Some(node) <==>
            exists slot, mac ::
              && Chained(t, dev, slot, mac, node) && Matches(slot, a)
              && forall other | other in t && Matches(other, a) :: other.prefix <= slot.prefix
  {
    hide Lookup;
    if Lookup(t, a).Some? {
      var slot := Lookup(t, a).value;
      LookupIsLongestMatch(t, a, slot);
      if Forward(t, dev, a) == Some(node) {
        assert Chained(t, dev, slot, t[NeighbourAt(dev, t[slot].gateway)].bytes, node);
      }
    }
    forall slot, mac | && Chained(t, dev, slot, mac, node) && Matches(slot, a)
                       && forall other | other in t && Matches(other, a) :: other.prefix <= slot.prefix
      ensures Forward(t, dev, a) == Some(node)
    {
      LookupIsLongestMatch(t, a, slot);
    }
  }

  lemma VxlanFootprint(dev: Link, p: Peer)
    requires Decodable(Vxlan, p)
    ensures var f, cidr := Footprint(Vxlan, dev, p), p.podCidr.parsed.value;
            && RouteSlot(cidr) in f && f[RouteSlot(cidr)] == Via(dev, cidr.Network())
            && NeighbourAt(dev, cidr.Network()) in f && f[NeighbourAt(dev, cidr.Network())]
                == LinkAddress(PeerMac(p).value)
            && ForwardOf(dev, PeerMac(p).value) in f && f[ForwardOf(dev, PeerMac(p).value)]
                == Underlay(p.publicIp.parsed.value)
            && forall slot | slot in f && slot.RouteTo? :: slot == RouteSlot(cidr)
  {
  }

  lemma ForwardsAlong(dev: Link, t: Tables, p: Peer, a: Addr)
    requires Decodable(Vxlan, p) && Holds(t, Footprint(Vxlan, dev, p))
    requires Lookup(t, a) == Some(RouteSlot(p.podCidr.parsed.value))
    ensures Forward(t, dev, a) == p.publicIp.parsed
  {
    VxlanFootprint(dev, p);
    hide Footprint, Lookup, PeerMac;
  }

  /** An installed peer's pods are reached at its public address, if no other route is as specific. */
  lemma ForwardsToInstalled(dev: Link, foreign: Tables, s: State, n: string, a: Addr)
    requires Agrees(Vxlan, dev, foreign, s) && n in s.next && s.next[n].podCidr.parsed.Some?
    requires s.next[n].podCidr.parsed.value.Contains(a)
    requires forall slot | slot in foreign && Matches(slot, a) :: slot.prefix < s.next[n].podCidr.parsed.value.prefix
    requires forall m | m in s.next && m != n && s.next[m].podCidr.parsed.Some? ::
             !s.next[m].podCidr.parsed.value.Contains(a)
    ensures Forward(s.tables, dev, a) == s.next[n].publicIp.parsed && s.next[n].publicIp.parsed.Some?
  {
    var p := s.next[n];
    assert Decodable(Vxlan, p) && Holds(s.tables, Footprint(Vxlan, dev, p));
    var cidr := p.podCidr.parsed.value;
    var slot := RouteSlot(cidr);
    VxlanFootprint(dev, p);
    hide Footprint, Forward, Lookup, PeerMac;
    forall other | other in s.tables && Matches(other, a)
      ensures other.prefix <= slot.prefix
    {
      if other !in foreign {
        var m :| m in s.next && other in Footprint(Vxlan, dev, s.next[m]);
        VxlanFootprint(dev, s.next[m]);
        assert s.next[m].podCidr.parsed.value.Contains(a);
      }
    }
    LookupIsLongestMatch(s.tables, a, slot);
    hide Agrees;
    ForwardsAlong(dev, s.tables, p, a);
  }

  // ------------------------------------------------------------------------ clusters

  /** A node of the cluster with the hardware address of its vxlan device. */
  datatype Member = Member(node: Node, own: OwnNode, mac: seq<Byte>) {
    function Published(): Node {
      Applied(node, PublishPatch(Vxlan, own.publicIp, Some(FormatMac(mac))))
    }

    predicate Valid() {
      && node.name.Some? && ExtractOwnNode(node) == Some(own)
      && own.podCidr.parsed.Some? && own.publicIp.parsed.Some? && |mac| == 6
    }

    function Cidr(): Ipv4Network
      requires Valid()
    {
      own.podCidr.parsed.value
    }
  }

  function Publish(members: seq<Member>): seq<Node> {
    seq(|members|, i requires 0 <= i < |members| => members[i].Published())
  }

  /** Complete leases, unique names, disjoint pod CIDRs and distinct hardware addresses. */
  ghost predicate Cluster(members: seq<Member>) {
    && (forall i | 0 <= i < |members| :: members[i].Valid())
    && forall i, j | 0 <= i < |members| && 0 <= j < |members| && i != j :: Distinct(members[i], members[j])
  }

  ghost predicate Distinct(m: Member, k: Member)
    requires m.Valid() && k.Valid()
  {
    && m.node.name != k.node.name
    && m.mac != k.mac
    && forall a: Addr :: !(m.Cidr().Contains(a) && k.Cidr().Contains(a))
  }

  function PeerOf(m: Member): Peer
    requires m.Valid()
  {
    Peer(m.node.name.value, m.own.podCidr, m.own.publicIp, Some(FormatMac(m.mac)))
  }

  lemma PublishedIsPeer(m: Member)
    requires m.Valid()
    ensures NodeToPeer(m.Published(), Vxlan) == Some(PeerOf(m)) && NameOf(m.Published()) == m.node.name.value
    ensures Decodable(Vxlan, PeerOf(m)) && PeerMac(PeerOf(m)) == Some(m.mac)
  {
    PublishRoundTrip(m.node, Vxlan, m.own.publicIp, Some(FormatMac(m.mac)));
    MacRoundTrip(m.mac);
  }

  /** What a member wants installed is exactly the peers of all other members. */
  lemma DesiredOfCluster(members: seq<Member>, i: nat)
    requires Cluster(members) && i < |members|
    ensures var desired := Desired(Publish(members), members[i].node.name.value, Vxlan);
            && Keyed(desired)
            && (forall j | 0 <= j < |members| && j != i ::
                  && members[j].node.name.value in desired
                  && desired[members[j].node.name.value] == PeerOf(members[j]))
            && forall name | name in desired ::
                 exists j :: 0 <= j < |members| && j != i && name == members[j].node.name.value
  {
    var nodes, self := Publish(members), members[i].node.name.value;
    forall j | 0 <= j < |members|
      ensures Complete(nodes[j], Vxlan) && LeaseOf(nodes[j], Vxlan) == PeerOf(members[j])
      ensures nodes[j].name == Some(members[j].node.name.value) && NameOf(nodes[j]) == members[j].node.name.value
    {
      PublishedIsPeer(members[j]);
      NodeToPeerMeans(nodes[j], Vxlan);
    }
    hide NodeToPeer, NameOf, Complete, LeaseOf;
    forall j, k | 0 <= j < k < |members|
      ensures NameOf(nodes[j]) != NameOf(nodes[k])
    {
      assert Distinct(members[j], members[k]);
    }
    DesiredKeyed(nodes, self, Vxlan);
    DesiredIsReadableNodes(nodes, self, Vxlan);
    var desired := Desired(nodes, self, Vxlan);
    forall j | 0 <= j < |members| && j != i
      ensures members[j].node.name.value in desired && desired[members[j].node.name.value] == PeerOf(members[j])
    {
      assert Distinct(members[i], members[j]);
      assert FiledUnder(desired, nodes[j], Vxlan);
    }
    forall name | name in desired
      ensures exists j :: 0 <= j < |members| && j != i && name == members[j].node.name.value
    {
      var j :| 0 <= j < |nodes| && NameOf(nodes[j]) == name;
      assert j != i;
    }
  }

  /** Foreign entries leave the vxlan device's own tables alone, and their routes for pods are less specific. */
  ghost predicate Unobtrusive(foreign: Tables, dev: Link, members: seq<Member>, i: nat)
    requires Cluster(members)
  {
    && (forall slot | slot in foreign :: slot.RouteTo? || slot.dev != dev)
    && forall j, a: Addr, slot | && 0 <= j < |members| && j != i && members[j].Cidr().Contains(a)
                                 && slot in foreign && Matches(slot, a) ::
         slot.prefix < members[j].Cidr().prefix
  }

  lemma PeersApart(dev: Link, m: Member, k: Member)
    requires m.Valid() && k.Valid() && Distinct(m, k)
    ensures Apart(Vxlan, dev, PeerOf(m), PeerOf(k))
  {
    PublishedIsPeer(m);
    PublishedIsPeer(k);
    ContainsOwnNetwork(m.Cidr());
    ContainsOwnNetwork(k.Cidr());
    assert m.Cidr().Network() != k.Cidr().Network();
  }

  lemma PeerClearOfForeign(foreign: Tables, dev: Link, members: seq<Member>, i: nat, j: nat)
    requires Cluster(members) && Unobtrusive(foreign, dev, members, i) && j < |members| && j != i
    ensures Footprint(Vxlan, dev, PeerOf(members[j])).Keys !! foreign.Keys
  {
    PublishedIsPeer(members[j]);
    var cidr := members[j].Cidr();
    ContainsOwnNetwork(cidr);
    assert Matches(RouteSlot(cidr), cidr.Network());
    assert RouteSlot(cidr) !in foreign;
  }

  lemma MemberNamed(members: seq<Member>, i: nat, n: string) returns (j: nat)
    requires Cluster(members) && i < |members| && n in Desired(Publish(members), members[i].node.name.value, Vxlan)
    ensures j < |members| && j != i && n == members[j].node.name.value && members[j].Valid()
    ensures Desired(Publish(members), members[i].node.name.value, Vxlan)[n] == PeerOf(members[j])
  {
    DesiredOfCluster(members, i);
    hide Desired, Cluster, PeerOf;
    j :| 0 <= j < |members| && j != i && n == members[j].node.name.value;
  }

  lemma MemberWanted(members: seq<Member>, i: nat, j: nat)
    requires Cluster(members) && i < |members| && j < |members| && j != i
    ensures members[j].Valid()
    ensures var desired := Desired(Publish(members), members[i].node.name.value, Vxlan);
            members[j].node.name.value in desired && desired[members[j].node.name.value] == PeerOf(members[j])
  {
    DesiredOfCluster(members, i);
  }

  lemma ClusterDistinct(members: seq<Member>, j: nat, k: nat)
    requires Cluster(members) && j < |members| && k < |members| && j != k
    ensures members[j].Valid() && members[k].Valid() && Distinct(members[j], members[k])
  {
  }

  lemma DesiredClear(foreign: Tables, dev: Link, members: seq<Member>, i: nat, n: string)
    requires Cluster(members) && i < |members| && Unobtrusive(foreign, dev, members, i)
    requires n in Desired(Publish(members), members[i].node.name.value, Vxlan)
    ensures var p := Desired(Publish(members), members[i].node.name.value, Vxlan)[n];
            Decodable(Vxlan, p) && Footprint(Vxlan, dev, p).Keys !! foreign.Keys
  {
    hide Desired, Cluster, Unobtrusive, Footprint, Decodable;
    var j := MemberNamed(members, i, n);
    PublishedIsPeer(members[j]);
    PeerClearOfForeign(foreign, dev, members, i, j);
  }

  lemma DesiredApart(dev: Link, members: seq<Member>, i: nat, n: string, m: string)
    requires Cluster(members) && i < |members| && n != m
    requires var desired := Desired(Publish(members), members[i].node.name.value, Vxlan); n in desired && m in desired
    ensures var desired := Desired(Publish(members), members[i].node.name.value, Vxlan);
            Apart(Vxlan, dev, desired[n], desired[m])
  {
    hide Desired, Cluster, Apart, Distinct;
    var j := MemberNamed(members, i, n);
    var k := MemberNamed(members, i, m);
    ClusterDistinct(members, j, k);
    PeersApart(dev, members[j], members[k]);
  }

  lemma ClusterSeparate(foreign: Tables, dev: Link, members: seq<Member>, i: nat)
    requires Cluster(members) && i < |members| && members[i].Valid() && Unobtrusive(foreign, dev, members, i)
    ensures var desired := Desired(Publish(members), members[i].node.name.value, Vxlan);
            Separate(Vxlan, dev, foreign, desired) && forall n | n in desired :: Decodable(Vxlan, desired[n])
  {
    hide Footprint, Desired, Unobtrusive, Decodable, Cluster, Apart;
    var desired := Desired(Publish(members), members[i].node.name.value, Vxlan);
    DesiredKeyed(Publish(members), members[i].node.name.value, Vxlan);
    forall n | n in desired
      ensures Decodable(Vxlan, desired[n]) && Footprint(Vxlan, dev, desired[n]).Keys !! foreign.Keys
    {
      DesiredClear(foreign, dev, members, i, n);
    }
    forall n, m | n in desired && m in desired && n != m
      ensures Apart(Vxlan, dev, desired[n], desired[m])
    {
      DesiredApart(dev, members, i, n, m);
    }
  }

  /** One member's machine: its device, foreign entries, and the pass it completes. */
  datatype Host = Host(dev: Link, foreign: Tables, before: State, pass: Pass)

  ghost predicate AllHandled(outcome: Outcome) {
    forall a: Action :: outcome(a).AllHandled()
  }

  /** The host was in agreement, sees all published nodes, and its pass neither fails nor takes over entries. */
  ghost predicate CompletesPass(members: seq<Member>, i: nat, h: Host)
    requires Cluster(members) && i < |members|
  {
    && Unobtrusive(h.foreign, h.dev, members, i)
    && Agrees(Vxlan, h.dev, h.foreign, h.before) && Separate(Vxlan, h.dev, h.foreign, h.before.next)
    && Orders(h.before.next, h.pass)
    && h.pass.desired == Desired(Publish(members), members[i].node.name.value, Vxlan)
    && AllHandled(h.pass.outcome)
    && NoTakeover(Vxlan, h.dev, h.before.next, h.pass.desired, h.pass.outcome)
  }

  /** With every request handled the pass is clean, and every decodable peer gets installed. */
  lemma HandledIsClean(installed: PeerMap, desired: PeerMap, outcome: Outcome)
    requires AllHandled(outcome) && forall n | n in desired :: Decodable(Vxlan, desired[n])
    ensures CleanPass(Vxlan, installed, desired, outcome)
    ensures forall n | n in desired :: Wanted(Vxlan, installed, desired, outcome, n)
  {
    hide Decodable;
  }

  lemma PassInstallsAll(members: seq<Member>, i: nat, h: Host)
    requires Cluster(members) && i < |members| && CompletesPass(members, i, h)
    ensures var s := AfterPass(Vxlan, h.dev, h.before, h.pass);
            s.next == h.pass.desired && Agrees(Vxlan, h.dev, h.foreign, s)
  {
    ClusterSeparate(h.foreign, h.dev, members, i);
    hide Cluster, Unobtrusive, Desired, NoTakeover, Agrees, AfterPass, Orders, Footprint, Apart, PeerMac;
    var installed, desired, outcome := h.before.next, h.pass.desired, h.pass.outcome;
    HandledIsClean(installed, desired, outcome);
    assert Keyed(installed);
    hide AllHandled, Wanted;
    hide Separate, CleanPass;
    assert Separate(Vxlan, h.dev, h.foreign, desired);
    PassAgrees(Vxlan, h.dev, h.foreign, h.before, h.pass);
    InstalledAfterPass(Vxlan, h.dev, h.before, h.pass);
  }

  /** Full mesh: every pod address of every other member is forwarded to that member's public address. */
  lemma EveryPodReachable(members: seq<Member>, i: nat, h: Host, j: nat, a: Addr)
    requires Cluster(members) && i < |members| && CompletesPass(members, i, h)
    requires j < |members| && j != i && members[j].Cidr().Contains(a)
    ensures Forward(AfterPass(Vxlan, h.dev, h.before, h.pass).tables, h.dev, a) == members[j].own.publicIp.parsed
  {
    hide AfterPass, Agrees, Desired, Cluster, NoTakeover, Separate, Orders, Forward, AllHandled;
    PassInstallsAll(members, i, h);
    MemberWanted(members, i, j);
    var s := AfterPass(Vxlan, h.dev, h.before, h.pass);
    var name := members[j].node.name.value;
    assert forall slot | slot in h.foreign && Matches(slot, a) :: slot.prefix < members[j].Cidr().prefix;
    hide Unobtrusive, Matches, CompletesPass;
    forall m | m in s.next && m != name && s.next[m].podCidr.parsed.Some?
      ensures !s.next[m].podCidr.parsed.value.Contains(a)
    {
      var k := MemberNamed(members, i, m);
      ClusterDistinct(members, j, k);
    }
    ForwardsToInstalled(h.dev, h.foreign, s, name, a);
  }

  /**
   In every good run of a member's daemon, all pods are reachable after each failure-free
   pass on the published nodes.
   */
  lemma ReachableInRun(members: seq<Member>, i: nat, dev: Link, foreign: Tables, states: seq<State>,
                       passes: seq<Pass>, k: nat, j: nat, a: Addr)
    requires Cluster(members) && i < |members| && Unobtrusive(foreign, dev, members, i)
    requires GoodRun(Vxlan, dev, foreign, states, passes) && k < |passes|
    requires passes[k].desired == Desired(Publish(members), members[i].node.name.value, Vxlan)
    requires AllHandled(passes[k].outcome)
    requires j < |members| && j != i && members[j].Cidr().Contains(a)
    ensures Forward(states[k + 1].tables, dev, a) == members[j].own.publicIp.parsed
  {
    assert |states| == |passes| + 1;
    hide Cluster, Unobtrusive, GoodRun, Run, Agrees, Separate, NoTakeover, CleanPass, Desired, AfterPass, Orders,
         Forward, AllHandled;
    GoodStep(Vxlan, dev, foreign, states, passes, k);
    RunAgrees(Vxlan, dev, foreign, states, passes, k);
    EveryPodReachable(members, i, Host(dev, foreign, states[k], passes[k]), j, a);
  }

  /** A daemon's first pass takes nothing over, so one failure-free pass from its start is enough. */
  lemma ReachableAfterFirstPass(members: seq<Member>, i: nat, dev: Link, foreign: Tables, pass: Pass, j: nat, a: Addr)
    requires Cluster(members) && i < |members| && Unobtrusive(foreign, dev, members, i)
    requires Orders(map[], pass) && AllHandled(pass.outcome)
    requires pass.desired == Desired(Publish(members), members[i].node.name.value, Vxlan)
    requires j < |members| && j != i && members[j].Cidr().Contains(a)
    ensures Forward(AfterPass(Vxlan, dev, State(foreign, map[]), pass).tables, dev, a) == members[j].own.publicIp.parsed
  {
    assert NoTakeover(Vxlan, dev, map[], pass.desired, pass.outcome);
    StartAgrees(Vxlan, dev, foreign);
    hide Cluster, Unobtrusive, Agrees, Separate, NoTakeover, Desired, AfterPass, Orders, Forward, AllHandled;
    EveryPodReachable(members, i, Host(dev, foreign, State(foreign, map[]), pass), j, a);
  }
}
