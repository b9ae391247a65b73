/** Runs of the reconcile pass: exactly when they keep agreement, and how they converge. */
module Reconciling {
  import opened Wrappers
  import opened Ipv4
  import opened Peers
  import opened Netlink
  import opened Controller
  import opened Agreement

  // ------------------------------------------------------------ takeovers break it

  lemma {:induction false} SomeOrder(keys: set<string>) returns (order: seq<string>)
    ensures Enumerates(order, keys)
    decreases |keys|
  {
    if keys == {} {
      order := [];
    } else {
      var n :| n in keys;
      var rest := SomeOrder(keys - {n});
      order := rest + [n];
    }
  }

  lemma OrderStartingWith(keys: set<string>, n: string, m: string) returns (order: seq<string>)
    requires n in keys && m in keys && n != m
    ensures Enumerates(order, keys) && |order| >= 2 && order[0] == n && order[1] == m
  {
    var rest := SomeOrder(keys - {n, m});
    order := [n, m] + rest;
    assert forall i | 2 <= i < |order| :: order[i] in rest;
  }

  /** A clean action does not bring back a slot its peer does not claim. */
  lemma StaysGone(b: Backend, dev: Link, s: State, a: Action, fates: Fates, slot: Slot)
    requires slot !in s.tables
    requires a.Add? ==> CleanAdd(b, a.peer, fates) && slot !in Footprint(b, dev, a.peer)
    ensures slot !in Perform(b, dev, s, a, fates).tables
  {
    if a.Add? {
      CleanAddEffect(b, s.tables, dev, a.peer, fates);
    }
  }

  /** Changing one peer leaves the entries of a peer apart from its old self in place. */
  lemma ChangeKeepsOther(b: Backend, dev: Link, s: State, installed: PeerMap, desired: PeerMap, n: string,
                         other: Peer, outcome: Outcome)
    requires Changed(installed, desired, n) && CleanPass(b, installed, desired, outcome)
    requires Decodable(b, installed[n]) && Holds(s.tables, Footprint(b, dev, installed[n]))
    requires Holds(s.tables, Footprint(b, dev, other)) && Apart(b, dev, installed[n], other)
    ensures Holds(PerformAll(b, dev, s, Update(installed, desired, n), outcome).tables, Footprint(b, dev, other))
  {
    hide Footprint, CleanAdd, CleanRemove, AddPeer, RemovePeer;
    var r, a := Remove(installed[n]), Add(desired[n]);
    PerformSmall(b, dev, s, r, a, outcome);
    hide PerformAll;
    CleanRemoveEffect(b, s.tables, dev, installed[n], outcome(r));
    var s1 := Perform(b, dev, s, r, outcome(r));
    CleanAddEffect(b, s1.tables, dev, desired[n], outcome(a));
  }

  /** A peer's turn takes away the entries it has that it does not also claim anew. */
  lemma TurnTakesEntry(b: Backend, dev: Link, s: State, installed: PeerMap, desired: PeerMap, m: string,
                       outcome: Outcome, slot: Slot)
    requires m in installed && CleanRemove(b, outcome(Remove(installed[m])))
    requires m in desired ==> installed[m] != desired[m] && CleanAdd(b, desired[m], outcome(Add(desired[m])))
    requires Decodable(b, installed[m]) && Holds(s.tables, Footprint(b, dev, installed[m]))
    requires slot in Footprint(b, dev, installed[m]) && (m in desired ==> slot !in Footprint(b, dev, desired[m]))
    ensures slot !in PerformAll(b, dev, s, Update(installed, desired, m), outcome).tables
  {
    hide Footprint, CleanAdd, CleanRemove, AddPeer, RemovePeer;
    var r := Remove(installed[m]);
    PerformSmall(b, dev, s, r, if m in desired then Add(desired[m]) else r, outcome);
    hide PerformAll;
    CleanRemoveEffect(b, s.tables, dev, installed[m], outcome(r));
    if m in desired {
      StaysGone(b, dev, Perform(b, dev, s, r, outcome(r)), Add(desired[m]), outcome(Add(desired[m])), slot);
    }
  }

  lemma UpdateStaysGone(b: Backend, dev: Link, s: State, installed: PeerMap, desired: PeerMap, n: string,
                        outcome: Outcome, slot: Slot)
    requires slot !in s.tables && n in installed && CleanPass(b, installed, desired, outcome)
    requires n in desired ==> slot !in Footprint(b, dev, desired[n])
    ensures slot !in PerformAll(b, dev, s, Update(installed, desired, n), outcome).tables
  {
    hide Footprint, CleanAdd, CleanRemove, Perform;
    var r := Remove(installed[n]);
    PerformSmall(b, dev, s, r, if n in desired then Add(desired[n]) else r, outcome);
    hide PerformAll;
    StaysGone(b, dev, s, r, outcome(r), slot);
    if Changed(installed, desired, n) {
      StaysGone(b, dev, Perform(b, dev, s, r, outcome(r)), Add(desired[n]), outcome(Add(desired[n])), slot);
    }
  }

  lemma FirstTwoLose(b: Backend, dev: Link, s: State, desired: PeerMap, order: seq<string>, n: string, m: string,
                     outcome: Outcome, slot: Slot)
    requires Installed(b, dev, s, n) && Installed(b, dev, s, m) && Apart(b, dev, s.next[n], s.next[m])
    requires CleanPass(b, s.next, desired, outcome) && Changed(s.next, desired, n)
    requires slot in Footprint(b, dev, s.next[m]) && (m in desired ==> slot !in Footprint(b, dev, desired[m]))
    requires order == [n, m]
    ensures slot !in PerformAll(b, dev, s, Updates(s.next, desired, order), outcome).tables
  {
    var first, second := Update(s.next, desired, n), Update(s.next, desired, m);
    assert Updates(s.next, desired, order) == first + second by {
      assert order[..1] == [n] && [n][..0] == [];
      assert Updates(s.next, desired, []) + first == first;
    }
    assert m in desired ==> s.next[m] != desired[m];
    hide PerformAll, Updates, Update, Footprint, CleanAdd, CleanRemove;
    assert m in desired ==> Changed(s.next, desired, m);
    assert CleanRemove(b, outcome(Remove(s.next[m])));
    assert m in desired ==> CleanAdd(b, desired[m], outcome(Add(desired[m])));
    hide CleanPass;
    PerformConcat(b, dev, s, first, second, outcome);
    ChangeKeepsOther(b, dev, s, s.next, desired, n, s.next[m], outcome);
    TurnTakesEntry(b, dev, PerformAll(b, dev, s, first, outcome), s.next, desired, m, outcome, slot);
  }

  ghost predicate Installed(b: Backend, dev: Link, s: State, n: string) {
    n in s.next && Decodable(b, s.next[n]) && Holds(s.tables, Footprint(b, dev, s.next[n]))
  }

  lemma {:induction false} UpdatesLose(b: Backend, dev: Link, s: State, desired: PeerMap, order: seq<string>,
                                       n: string, m: string,
                                       outcome: Outcome, slot: Slot)
    requires Installed(b, dev, s, n) && Installed(b, dev, s, m) && Apart(b, dev, s.next[n], s.next[m])
    requires CleanPass(b, s.next, desired, outcome) && Changed(s.next, desired, n)
    requires slot in Footprint(b, dev, s.next[m])
    requires forall x | x in desired && x != n :: slot !in Footprint(b, dev, desired[x])
    requires NoRepeats(order) && forall x | x in order :: x in s.next
    requires |order| >= 2 && order[0] == n && order[1] == m
    ensures slot !in PerformAll(b, dev, s, Updates(s.next, desired, order), outcome).tables
  {
    if |order| == 2 {
      assert order == [n, m] && n != m;
      hide NoRepeats, PerformAll, CleanPass, Updates, Footprint, Installed;
      FirstTwoLose(b, dev, s, desired, order, n, m, outcome, slot);
    } else {
      var init, last := order[..|order| - 1], order[|order| - 1];
      LastVisited(order);
      assert last != n && init[0] == n && init[1] == m && last in order;
      assert forall x | x in init :: x in order;
      assert Updates(s.next, desired, order) == Updates(s.next, desired, init) + Update(s.next, desired, last);
      hide *;
      PerformConcat(b, dev, s, Updates(s.next, desired, init), Update(s.next, desired, last), outcome);
      UpdatesLose(b, dev, s, desired, init, n, m, outcome, slot);
      var mid := PerformAll(b, dev, s, Updates(s.next, desired, init), outcome);
      UpdateStaysGone(b, dev, mid, s.next, desired, last, outcome, slot);
    }
  }

  lemma {:induction false} AdditionsLose(b: Backend, dev: Link, s: State, installed: PeerMap, desired: PeerMap,
                                         order: seq<string>,
                                         outcome: Outcome, slot: Slot)
    requires slot !in s.tables && CleanPass(b, installed, desired, outcome)
    requires forall x | x in order :: x in desired
    requires forall x | x in order && x !in installed :: slot !in Footprint(b, dev, desired[x])
    ensures slot !in PerformAll(b, dev, s, Additions(installed, desired, order), outcome).tables
  {
    if order != [] {
      var init, last := order[..|order| - 1], order[|order| - 1];
      assert order == init + [last];
      AdditionsLose(b, dev, s, installed, desired, init, outcome, slot);
      var mid := PerformAll(b, dev, s, Additions(installed, desired, init), outcome);
      var more := Addition(installed, desired, last);
      PerformConcat(b, dev, s, Additions(installed, desired, init), more, outcome);
      PerformSmall(b, dev, mid, Add(desired[last]), Add(desired[last]), outcome);
      hide Footprint, CleanAdd, PerformAll, Perform;
      if last !in installed {
        StaysGone(b, dev, mid, Add(desired[last]), outcome(Add(desired[last])), slot);
      }
    }
  }

  ghost predicate LosesEntry(b: Backend, dev: Link, s: State, n: string, slot: Slot) {
    n in s.next && slot in Footprint(b, dev, s.next[n]) && slot !in s.tables
  }

  lemma TakeoverFacts(b: Backend, dev: Link, foreign: Tables, s: State, desired: PeerMap, n: string, m: string,
                      slot: Slot)
    requires Agrees(b, dev, foreign, s) && Separate(b, dev, foreign, s.next) && Separate(b, dev, foreign, desired)
    requires n in s.next && m in s.next && n != m && n in desired && slot in Footprint(b, dev, desired[n])
    ensures Installed(b, dev, s, n) && Installed(b, dev, s, m) && Apart(b, dev, s.next[n], s.next[m]) && Keyed(s.next)
    ensures forall x | x in desired && x != n :: slot !in Footprint(b, dev, desired[x])
  {
    hide Footprint;
    forall x | x in desired && x != n
      ensures slot !in Footprint(b, dev, desired[x])
    {
      assert Apart(b, dev, desired[n], desired[x]);
    }
  }

  /**
   If n's new entries claim one of m's present ones, and n and m have their turns first,
   n's peer ends up without it.
   */
  lemma TakenOverEntryLost(b: Backend, dev: Link, foreign: Tables, s: State, pass: Pass, n: string, m: string,
                           slot: Slot)
    requires Orders(s.next, pass) && |pass.order1| >= 2 && pass.order1[0] == n && pass.order1[1] == m
    requires Agrees(b, dev, foreign, s) && Separate(b, dev, foreign, s.next) && Separate(b, dev, foreign, pass.desired)
    requires CleanPass(b, s.next, pass.desired, pass.outcome) && n != m && m in s.next
    requires Changed(s.next, pass.desired, n) && AddOk(b, pass.desired[n], pass.outcome(Add(pass.desired[n])))
    requires slot in Footprint(b, dev, pass.desired[n]) && slot in Footprint(b, dev, s.next[m])
    ensures LosesEntry(b, dev, AfterPass(b, dev, s, pass), n, slot)
  {
    var desired, outcome := pass.desired, pass.outcome;
    hide Agrees, CleanPass, PerformAll, Footprint, AddOk, Installed, Updates, Additions, Apart;
    TakeoverFacts(b, dev, foreign, s, desired, n, m, slot);
    hide Separate;
    InstalledAfterPass(b, dev, s, pass);
    assert Wanted(b, s.next, desired, outcome, n);
    var updates, additions := Updates(s.next, desired, pass.order1), Additions(s.next, desired, pass.order2);
    PerformConcat(b, dev, s, updates, additions, outcome);
    UpdatesLose(b, dev, s, desired, pass.order1, n, m, outcome, slot);
    AdditionsLose(b, dev, PerformAll(b, dev, s, updates, outcome), s.next, desired, pass.order2, outcome, slot);
  }

  /** With a takeover, some iteration order leaves an installed peer without one of its entries. */
  lemma TakeoverLosesEntry(b: Backend, dev: Link, foreign: Tables, s: State, desired: PeerMap, outcome: Outcome)
    returns (pass: Pass, n: string, slot: Slot)
    requires Agrees(b, dev, foreign, s) && Separate(b, dev, foreign, s.next) && Separate(b, dev, foreign, desired)
    requires CleanPass(b, s.next, desired, outcome) && !NoTakeover(b, dev, s.next, desired, outcome)
    ensures pass.desired == desired && pass.outcome == outcome && Orders(s.next, pass)
    ensures LosesEntry(b, dev, AfterPass(b, dev, s, pass), n, slot)
  {
    hide Footprint, Agrees, AddOk, CleanPass, AfterPass, Wanted;
    var m;
    n, m :| && Changed(s.next, desired, n) && AddOk(b, desired[n], outcome(Add(desired[n])))
            && m in s.next && m != n && !Apart(b, dev, desired[n], s.next[m]);
    slot :| slot in Footprint(b, dev, desired[n]) && slot in Footprint(b, dev, s.next[m]);
    var order1 := OrderStartingWith(s.next.Keys, n, m);
    var order2 := SomeOrder(desired.Keys);
    pass := Pass(desired, order1, order2, outcome);
    TakenOverEntryLost(b, dev, foreign, s, pass, n, m, slot);
  }

  /**
   A clean pass keeps agreement in every iteration order exactly when no changed peer
   takes over entries of another installed peer.
   */
  lemma PassAgreesIffNoTakeover(b: Backend, dev: Link, foreign: Tables, s: State, desired: PeerMap, outcome: Outcome)
    requires Agrees(b, dev, foreign, s) && Separate(b, dev, foreign, s.next) && Separate(b, dev, foreign, desired)
    requires CleanPass(b, s.next, desired, outcome)
    ensures (forall order1, order2 :: Orders(s.next, Pass(desired, order1, order2, outcome)) ==>
               Agrees(b, dev, foreign, AfterPass(b, dev, s, Pass(desired, order1, order2, outcome))))
            <==> NoTakeover(b, dev, s.next, desired, outcome)
  {
    hide Separate, CleanPass, NoTakeover, AfterPass, Footprint, Orders;
    if NoTakeover(b, dev, s.next, desired, outcome) {
      forall order1, order2 | Orders(s.next, Pass(desired, order1, order2, outcome))
        ensures Agrees(b, dev, foreign, AfterPass(b, dev, s, Pass(desired, order1, order2, outcome)))
      {
        PassAgrees(b, dev, foreign, s, Pass(desired, order1, order2, outcome));
      }
    } else {
      var pass, n, slot := TakeoverLosesEntry(b, dev, foreign, s, desired, outcome);
      assert pass == Pass(desired, pass.order1, pass.order2, outcome);
      assert !Agrees(b, dev, foreign, AfterPass(b, dev, s, pass));
    }
  }

  /** A changed peer that moves to the CIDR another installed peer holds is a takeover. */
  lemma MovingOntoHeldCidrTakesOver(b: Backend, dev: Link, installed: PeerMap, desired: PeerMap, n: string,
                                    m: string, outcome: Outcome)
    requires Changed(installed, desired, n) && m in installed && n != m
    requires AddOk(b, desired[n], outcome(Add(desired[n]))) && Decodable(b, installed[m])
    requires desired[n].podCidr.parsed == installed[m].podCidr.parsed
    ensures !NoTakeover(b, dev, installed, desired, outcome)
  {
    var slot := RouteSlot(installed[m].podCidr.parsed.value);
    assert slot in Footprint(b, dev, desired[n]) && slot in Footprint(b, dev, installed[m]);
    assert !Apart(b, dev, desired[n], installed[m]);
  }

  /** A host-gw peer with a /24 pod CIDR. */
  function SomePeer(node: string, cidr: Addr, ip: Addr): Peer {
    Peer(node, Field("", Some(Ipv4Network(cidr, 24))), Field("", Some(ip)), None)
  }

  lemma SomePeersFootprint(dev: Link, node: string, cidr: Addr, ip: Addr)
    requires cidr % 256 == 0
    ensures Decodable(HostGw, SomePeer(node, cidr, ip))
    ensures Footprint(HostGw, dev, SomePeer(node, cidr, ip)) == map[RouteTo(cidr, 24) := Via(dev, ip)]
  {
    assert Pow2(8) == 256;
  }

  /** Two installed peers whose routes are in place. */
  lemma TwoInstalled(dev: Link, a: Peer, b: Peer, x: Addr, y: Addr, ip: Addr, other: Addr)
    requires x % 256 == 0 && y % 256 == 0 && x != y && a.node != b.node
    requires a == SomePeer(a.node, x, ip) && b == SomePeer(b.node, y, other)
    ensures var peers: PeerMap := map[a.node := a, b.node := b];
            var routes: Tables := map[RouteTo(x, 24) := Via(dev, ip), RouteTo(y, 24) := Via(dev, other)];
            Agrees(HostGw, dev, map[], State(routes, peers)) && Separate(HostGw, dev, map[], peers)
  {
    SomePeersFootprint(dev, a.node, x, ip);
    SomePeersFootprint(dev, b.node, y, other);
    hide SomePeer, Footprint, Decodable;
    var peers: PeerMap := map[a.node := a, b.node := b];
    assert a.node in peers && b.node in peers && peers[a.node] == a && peers[b.node] == b;
    assert Owned(HostGw, dev, peers, RouteTo(x, 24)) && Owned(HostGw, dev, peers, RouteTo(y, 24));
  }

  /**
   An instance, for any two nodes: one moves to the pod CIDR of the other, which is gone, and
   some order of a pass without any failure leaves the moved node installed without its route.
   */
  lemma MovedNodeLosesRoute(dev: Link, a: Peer, b: Peer, moved: Peer,
                            x: Addr, y: Addr, ip: Addr, other: Addr, outcome: Outcome)
    returns (s: State, desired: PeerMap, pass: Pass)
    requires x % 256 == 0 && y % 256 == 0 && x != y && a.node != b.node
    requires a == SomePeer(a.node, x, ip) && b == SomePeer(b.node, y, other) && moved == SomePeer(a.node, y, ip)
    requires forall action: Action :: outcome(action).AllHandled()
    ensures s.next == map[a.node := a, b.node := b] && desired == map[a.node := moved]
    ensures Agrees(HostGw, dev, map[], s)
    ensures Separate(HostGw, dev, map[], s.next) && Separate(HostGw, dev, map[], desired)
    ensures CleanPass(HostGw, s.next, desired, outcome) && !NoTakeover(HostGw, dev, s.next, desired, outcome)
    ensures pass.desired == desired && pass.outcome == outcome && Orders(s.next, pass)
    ensures LosesEntry(HostGw, dev, AfterPass(HostGw, dev, s, pass), a.node, RouteTo(y, 24))
  {
    TwoInstalled(dev, a, b, x, y, ip, other);
    s := State(map[RouteTo(x, 24) := Via(dev, ip), RouteTo(y, 24) := Via(dev, other)], map[a.node := a, b.node := b]);
    desired := map[a.node := moved];
    MovedTakesOver(dev, a, b, moved, x, y, ip, other, outcome);
    MovedOnto(dev, a, b, moved, x, y, ip, other);
    hide *;
    var n, slot;
    pass, n, slot := TakeoverLosesEntry(HostGw, dev, map[], s, desired, outcome);
    OnlyDesired(s, pass, dev, n);
    OneEntry(dev, AfterPass(HostGw, dev, s, pass), desired, n, slot, a.node, RouteTo(y, 24));
  }

  lemma OneEntry(dev: Link, s: State, desired: PeerMap, n: string, slot: Slot, node: string, only: Slot)
    requires LosesEntry(HostGw, dev, s, n, slot) && n in desired && s.next[n] == desired[n]
    requires desired.Keys == {node} && Footprint(HostGw, dev, desired[node]).Keys == {only}
    ensures n == node && slot == only
  {
    hide Footprint;
  }

  lemma MovedTakesOver(dev: Link, a: Peer, b: Peer, moved: Peer, x: Addr, y: Addr, ip: Addr, other: Addr,
                       outcome: Outcome)
    requires x % 256 == 0 && y % 256 == 0 && x != y && a.node != b.node
    requires a == SomePeer(a.node, x, ip) && b == SomePeer(b.node, y, other) && moved == SomePeer(a.node, y, ip)
    requires forall action: Action :: outcome(action).AllHandled()
    ensures var installed, desired: PeerMap := map[a.node := a, b.node := b], map[a.node := moved];
            && Keyed(installed) && CleanPass(HostGw, installed, desired, outcome)
            && !NoTakeover(HostGw, dev, installed, desired, outcome)
  {
    MovedOnto(dev, a, b, moved, x, y, ip, other);
    var installed, desired: PeerMap := map[a.node := a, b.node := b], map[a.node := moved];
    hide SomePeer, Footprint, Decodable, Apart;
    assert Changed(installed, desired, a.node) && b.node in installed;
  }

  lemma MovedOnto(dev: Link, a: Peer, b: Peer, moved: Peer, x: Addr, y: Addr, ip: Addr, other: Addr)
    requires x % 256 == 0 && y % 256 == 0 && x != y && a.node != b.node
    requires a == SomePeer(a.node, x, ip) && b == SomePeer(b.node, y, other) && moved == SomePeer(a.node, y, ip)
    ensures moved != a && !Apart(HostGw, dev, moved, b) && Footprint(HostGw, dev, moved).Keys == {RouteTo(y, 24)}
    ensures Decodable(HostGw, moved) && Separate(HostGw, dev, map[], map[a.node := moved])
  {
    SomePeersFootprint(dev, a.node, y, ip);
    SomePeersFootprint(dev, b.node, y, other);
    assert moved.podCidr.parsed.value.addr == y != a.podCidr.parsed.value.addr;
    hide SomePeer, Footprint, Decodable;
    assert RouteTo(y, 24) in Footprint(HostGw, dev, moved) && RouteTo(y, 24) in Footprint(HostGw, dev, b);
  }

  lemma OnlyDesired(s: State, pass: Pass, dev: Link, n: string)
    requires Keyed(s.next) && Orders(s.next, pass) && n in AfterPass(HostGw, dev, s, pass).next
    ensures n in pass.desired && AfterPass(HostGw, dev, s, pass).next[n] == pass.desired[n]
  {
    hide AfterPass, Orders, Keyed, Wanted;
    InstalledAfterPass(HostGw, dev, s, pass);
  }

  // ---------------------------------------------------------------------- convergence

  function Missing(installed: PeerMap, desired: PeerMap): set<string> {
    set n | n in desired && !(n in installed && installed[n] == desired[n])
  }

  /** The peers whose add this pass reports as done. */
  function Added(b: Backend, installed: PeerMap, pass: Pass): set<string> {
    set n | n in Missing(installed, pass.desired) && AddOk(b, pass.desired[n], pass.outcome(Add(pass.desired[n])))
  }

  lemma MissingLess(b: Backend, installed: PeerMap, next: PeerMap, pass: Pass)
    requires next == map n | n in pass.desired && Wanted(b, installed, pass.desired, pass.outcome, n) :: pass.desired[n]
    ensures |Missing(next, pass.desired)| == |Missing(installed, pass.desired)| - |Added(b, installed, pass)|
    ensures Missing(next, pass.desired) == {} <==> next == pass.desired
  {
    hide AddOk;
    var desired := pass.desired;
    var missing, added, left := Missing(installed, desired), Added(b, installed, pass), Missing(next, desired);
    forall n
      ensures n in left <==> n in missing && n !in added
    {
      assert n in next <==> Wanted(b, installed, desired, pass.outcome, n);
    }
    assert added <= missing;
    NothingMissing(next, desired);
    hide Missing, Added, Wanted;
    assert left == missing - added;
  }

  lemma NothingMissing(installed: PeerMap, desired: PeerMap)
    requires forall n | n in installed :: n in desired && installed[n] == desired[n]
    ensures Missing(installed, desired) == {} <==> installed == desired
  {
    if Missing(installed, desired) == {} {
      assert forall n | n in desired :: n !in Missing(installed, desired);
    }
  }

  /** Each successful add takes exactly one peer off the missing ones, and nothing puts one back. */
  lemma PassReducesMissing(b: Backend, dev: Link, s: State, pass: Pass)
    requires Keyed(s.next) && Orders(s.next, pass)
    ensures var s' := AfterPass(b, dev, s, pass);
            && |Missing(s'.next, pass.desired)| == |Missing(s.next, pass.desired)| - |Added(b, s.next, pass)|
            && (Missing(s'.next, pass.desired) == {} <==> s'.next == pass.desired)
  {
    hide AfterPass, AddOk, Orders, Keyed;
    InstalledAfterPass(b, dev, s, pass);
    MissingLess(b, s.next, AfterPass(b, dev, s, pass).next, pass);
  }

  /** Once nothing is missing, further passes with the same desired map do nothing. */
  lemma SettledPassDoesNothing(b: Backend, dev: Link, s: State, pass: Pass)
    requires Keyed(s.next) && Orders(s.next, pass) && s.next == pass.desired
    ensures AfterPass(b, dev, s, pass) == s
  {
    DiffEmptyIffEqual(s.next, pass.desired, pass.order1, pass.order2);
  }

  // ---------------------------------------------------------------------- whole runs

  /** A run of the daemon: each state follows from the one before by one pass. */
  ghost predicate Run(b: Backend, dev: Link, states: seq<State>, passes: seq<Pass>) {
    && |states| == |passes| + 1
    && Keyed(states[0].next)
    && forall i | 0 <= i < |passes| ::
         && Orders(states[i].next, passes[i])
         && states[i + 1] == AfterPass(b, dev, states[i], passes[i])
  }

  /** After each pass the memory is a part of the desired map. */
  lemma {:induction false} MemoryWithinDesired(b: Backend, dev: Link, states: seq<State>, passes: seq<Pass>, i: nat)
    requires Run(b, dev, states, passes) && i <= |passes|
    ensures Keyed(states[i].next)
    ensures i > 0 ==>
              forall n | n in states[i].next ::
                n in passes[i - 1].desired && states[i].next[n] == passes[i - 1].desired[n]
  {
    if i > 0 {
      MemoryWithinDesired(b, dev, states, passes, i - 1);
      assert Orders(states[i - 1].next, passes[i - 1]);
      hide AfterPass, AddOk, Run;
      InstalledAfterPass(b, dev, states[i - 1], passes[i - 1]);
    }
  }

  /** In a failure-ridden run too, entries of other interfaces are never touched. */
  lemma {:induction false} OtherDevicesUntouchedByRun(b: Backend, dev: Link, states: seq<State>, passes: seq<Pass>,
                                                      i: nat)
    requires Run(b, dev, states, passes) && i <= |passes|
    ensures Elsewhere(states[i].tables, dev) == Elsewhere(states[0].tables, dev)
  {
    if i > 0 {
      OtherDevicesUntouchedByRun(b, dev, states, passes, i - 1);
      var pass := passes[i - 1];
      assert Orders(states[i - 1].next, pass) && states[i] == AfterPass(b, dev, states[i - 1], pass);
      hide Run, Elsewhere, PerformAll, NoRepeats, Diff;
      var actions := Diff(states[i - 1].next, pass.desired, pass.order1, pass.order2);
      OtherDevicesUntouchedByActions(b, dev, states[i - 1], actions, pass.outcome);
    }
  }

  lemma {:induction false} OtherDevicesUntouchedByActions(b: Backend, dev: Link, s: State, actions: seq<Action>,
                                                          outcome: Outcome)
    ensures Elsewhere(PerformAll(b, dev, s, actions, outcome).tables, dev) == Elsewhere(s.tables, dev)
  {
    if actions != [] {
      var init, last := actions[..|actions| - 1], actions[|actions| - 1];
      OtherDevicesUntouchedByActions(b, dev, s, init, outcome);
      hide AddPeer, RemovePeer, Elsewhere;
      AddStaysOnDevice(b, PerformAll(b, dev, s, init, outcome).tables, dev, last.peer, outcome(last));
      RemoveStaysOnDevice(b, PerformAll(b, dev, s, init, outcome).tables, dev, last.peer, outcome(last));
    }
  }

  /** The conditions on a run: peers keep apart, requests fare cleanly, and no pass takes over. */
  ghost predicate GoodRun(b: Backend, dev: Link, foreign: Tables, states: seq<State>, passes: seq<Pass>) {
    && Run(b, dev, states, passes)
    && states[0] == State(foreign, map[])
    && forall i | 0 <= i < |passes| ::
         && Separate(b, dev, foreign, passes[i].desired)
         && CleanPass(b, states[i].next, passes[i].desired, passes[i].outcome)
         && NoTakeover(b, dev, states[i].next, passes[i].desired, passes[i].outcome)
  }

  lemma PartSeparate(b: Backend, dev: Link, foreign: Tables, part: PeerMap, whole: PeerMap)
    requires Separate(b, dev, foreign, whole) && forall n | n in part :: n in whole && part[n] == whole[n]
    ensures Separate(b, dev, foreign, part)
  {
    hide Footprint, Apart;
  }

  lemma StartAgrees(b: Backend, dev: Link, foreign: Tables)
    ensures Agrees(b, dev, foreign, State(foreign, map[])) && Separate(b, dev, foreign, map[])
  {
  }

  lemma GoodStep(b: Backend, dev: Link, foreign: Tables, states: seq<State>, passes: seq<Pass>, i: nat)
    requires GoodRun(b, dev, foreign, states, passes) && i < |passes|
    ensures Orders(states[i].next, passes[i]) && states[i + 1] == AfterPass(b, dev, states[i], passes[i])
    ensures Separate(b, dev, foreign, passes[i].desired)
    ensures CleanPass(b, states[i].next, passes[i].desired, passes[i].outcome)
    ensures NoTakeover(b, dev, states[i].next, passes[i].desired, passes[i].outcome)
  {
    hide Separate, CleanPass, NoTakeover, Orders, AfterPass;
  }

  /** After every pass of every good run the tables are what the memory says and the foreign entries. */
  lemma {:induction false} RunAgrees(b: Backend, dev: Link, foreign: Tables, states: seq<State>, passes: seq<Pass>,
                                     i: nat)
    requires GoodRun(b, dev, foreign, states, passes) && i <= |passes|
    ensures Agrees(b, dev, foreign, states[i]) && Separate(b, dev, foreign, states[i].next)
  {
    if i == 0 {
      StartAgrees(b, dev, foreign);
    } else {
      RunStarts(b, dev, foreign, states, passes);
      hide *;
      RunAgrees(b, dev, foreign, states, passes, i - 1);
      MemoryWithinDesired(b, dev, states, passes, i);
      GoodStep(b, dev, foreign, states, passes, i - 1);
      PartSeparate(b, dev, foreign, states[i].next, passes[i - 1].desired);
      PassAgrees(b, dev, foreign, states[i - 1], passes[i - 1]);
    }
  }

  lemma RunStarts(b: Backend, dev: Link, foreign: Tables, states: seq<State>, passes: seq<Pass>)
    requires GoodRun(b, dev, foreign, states, passes)
    ensures |states| == |passes| + 1 && Run(b, dev, states, passes)
  {
  }

  // ------------------------------------------------------------------ host-gw and vxlan

  /** With host-gw, peers keep apart exactly when their parsed CIDRs name different blocks. */
  lemma HostGwSeparate(dev: Link, foreign: Tables, peers: PeerMap)
    ensures Separate(HostGw, dev, foreign, peers) <==>
            && Keyed(peers)
            && (forall n, m | && n in peers && m in peers && n != m
                              && Decodable(HostGw, peers[n]) && Decodable(HostGw, peers[m]) ::
                  RouteSlot(peers[n].podCidr.parsed.value) != RouteSlot(peers[m].podCidr.parsed.value))
            && (forall n | n in peers && Decodable(HostGw, peers[n]) ::
                RouteSlot(peers[n].podCidr.parsed.value) !in foreign)
  {
    forall n | n in peers
      ensures Footprint(HostGw, dev, peers[n]).Keys
              == if Decodable(HostGw, peers[n]) then {RouteSlot(peers[n].podCidr.parsed.value)} else {}
    {
    }
    hide Footprint, Decodable;
    if Separate(HostGw, dev, foreign, peers) {
      forall n, m | n in peers && m in peers && n != m && Decodable(HostGw, peers[n]) && Decodable(HostGw, peers[m])
        ensures RouteSlot(peers[n].podCidr.parsed.value) != RouteSlot(peers[m].podCidr.parsed.value)
      {
        assert Apart(HostGw, dev, peers[n], peers[m]);
      }
    }
  }

  /** Every add gets an answer, and every delete succeeds. */
  ghost predicate Answered(outcome: Outcome) {
    && (forall p: Peer :: outcome(Add(p)).route != Lost)
    && (forall p: Peer :: outcome(Remove(p)).route == Handled)
  }

  /**
   host-gw, over every run with working deletes and answered adds, failing or not: after
   each pass the memory is within desired, and the routes beside the foreign ones are
   exactly those of the installed peers.
   */
  lemma HostGwRoutesAreThoseInstalled(dev: Link, foreign: Tables, states: seq<State>, passes: seq<Pass>, i: nat)
    requires Run(HostGw, dev, states, passes) && states[0] == State(foreign, map[]) && 0 < i <= |passes|
    requires forall k | 0 <= k < |passes| :: Separate(HostGw, dev, foreign, passes[k].desired)
    requires forall k | 0 <= k < |passes| :: Answered(passes[k].outcome)
    requires forall k | 0 <= k < |passes| ::
               NoTakeover(HostGw, dev, states[k].next, passes[k].desired, passes[k].outcome)
    ensures forall n | n in states[i].next ::
              n in passes[i - 1].desired && states[i].next[n] == passes[i - 1].desired[n]
    ensures forall slot, entry :: (slot in states[i].tables && states[i].tables[slot] == entry) <==>
              (slot in foreign && foreign[slot] == entry) || RouteOfSome(dev, states[i].next, slot, entry)
  {
    forall k | 0 <= k < |passes|
      ensures CleanPass(HostGw, states[k].next, passes[k].desired, passes[k].outcome)
    {
    }
    hide Separate, NoTakeover, CleanPass, Agrees, RouteOfSome;
    RunAgrees(HostGw, dev, foreign, states, passes, i);
    MemoryWithinDesired(HostGw, dev, states, passes, i);
    AgreesMeansRoutes(dev, foreign, states[i]);
  }

  lemma AgreesMeansRoutes(dev: Link, foreign: Tables, s: State)
    requires Agrees(HostGw, dev, foreign, s)
    ensures forall slot, entry :: (slot in s.tables && s.tables[slot] == entry) <==>
              (slot in foreign && foreign[slot] == entry) || RouteOfSome(dev, s.next, slot, entry)
  {
    forall n, slot, entry | n in s.next
      ensures (slot in Footprint(HostGw, dev, s.next[n]) && Footprint(HostGw, dev, s.next[n])[slot] == entry)
              <==> IsRouteOf(dev, s.next[n], slot, entry)
    {
    }
    hide Footprint, IsRouteOf;
    forall slot, entry
      ensures (slot in s.tables && s.tables[slot] == entry) <==>
              (slot in foreign && foreign[slot] == entry) || RouteOfSome(dev, s.next, slot, entry)
    {
      if slot in s.tables && slot !in foreign {
        var n :| n in s.next && slot in Footprint(HostGw, dev, s.next[n]);
        assert IsRouteOf(dev, s.next[n], slot, s.tables[slot]);
      }
    }
  }

  predicate IsRouteOf(dev: Link, p: Peer, slot: Slot, entry: Entry) {
    Decodable(HostGw, p) && slot == RouteSlot(p.podCidr.parsed.value) && entry == Via(dev, p.publicIp.parsed.value)
  }

  ghost predicate RouteOfSome(dev: Link, peers: PeerMap, slot: Slot, entry: Entry) {
    exists n :: n in peers && IsRouteOf(dev, peers[n], slot, entry)
  }
}
