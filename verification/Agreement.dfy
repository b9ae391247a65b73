/**
 When the daemon's memory and the kernel tables agree: after every pass of every run,
 the tables hold what the installed peers stand for and the foreign entries, no more.
 */
module Agreement {
  import opened Wrappers
  import opened Peers
  import opened Netlink
  import opened Controller

  /** All entries of m are in t. */
  predicate Holds(t: Tables, m: Tables) {
    forall slot | slot in m :: slot in t && t[slot] == m[slot]
  }

  ghost predicate Owned(b: Backend, dev: Link, peers: PeerMap, slot: Slot) {
    exists n :: n in peers && slot in Footprint(b, dev, peers[n])
  }

  /** The tables are the foreign entries together with the footprints of the installed peers. */
  ghost predicate Agrees(b: Backend, dev: Link, foreign: Tables, s: State) {
    && Holds(s.tables, foreign)
    && (forall n | n in s.next :: Decodable(b, s.next[n]) && Holds(s.tables, Footprint(b, dev, s.next[n])))
    && (forall slot | slot in s.tables :: slot in foreign || Owned(b, dev, s.next, slot))
  }

  predicate Apart(b: Backend, dev: Link, p: Peer, q: Peer) {
    Footprint(b, dev, p).Keys !! Footprint(b, dev, q).Keys
  }

  /** No two peers, and no peer and a foreign entry, claim the same slot. */
  ghost predicate Separate(b: Backend, dev: Link, foreign: Tables, peers: PeerMap) {
    && Keyed(peers)
    && (forall n, m | n in peers && m in peers && n != m :: Apart(b, dev, peers[n], peers[m]))
    && (forall n | n in peers :: Footprint(b, dev, peers[n]).Keys !! foreign.Keys)
  }

  // --------------------------------------------------------------- single actions

  lemma ExtendAgrees(b: Backend, dev: Link, foreign: Tables, s: State, s': State, p: Peer)
    requires Agrees(b, dev, foreign, s) && p.node !in s.next
    requires Decodable(b, p) && Footprint(b, dev, p).Keys !! s.tables.Keys
    requires s'.tables == Footprint(b, dev, p) + s.tables && s'.next == s.next[p.node := p]
    ensures Agrees(b, dev, foreign, s')
  {
    hide Footprint, Decodable;
    forall n | n in s'.next
      ensures Decodable(b, s'.next[n]) && Holds(s'.tables, Footprint(b, dev, s'.next[n]))
    {
    }
    forall slot | slot in s'.tables
      ensures slot in foreign || Owned(b, dev, s'.next, slot)
    {
      if slot in Footprint(b, dev, p) {
        assert p.node in s'.next;
      } else if slot !in foreign {
        var n :| n in s.next && slot in Footprint(b, dev, s.next[n]);
        assert n in s'.next && s'.next[n] == s.next[n];
      }
    }
  }

  lemma ShrinkAgrees(b: Backend, dev: Link, foreign: Tables, s: State, s': State, n: string)
    requires Agrees(b, dev, foreign, s) && n in s.next
    requires Footprint(b, dev, s.next[n]).Keys !! foreign.Keys
    requires forall m | m in s.next && m != n :: Apart(b, dev, s.next[m], s.next[n])
    requires s'.tables == s.tables - Footprint(b, dev, s.next[n]).Keys && s'.next == s.next - {n}
    ensures Agrees(b, dev, foreign, s')
  {
    hide Footprint, Decodable;
    forall m | m in s'.next
      ensures Decodable(b, s'.next[m]) && Holds(s'.tables, Footprint(b, dev, s'.next[m]))
    {
      assert Apart(b, dev, s.next[m], s.next[n]);
    }
    forall slot | slot in s'.tables
      ensures slot in foreign || Owned(b, dev, s'.next, slot)
    {
      if slot !in foreign {
        var m :| m in s.next && slot in Footprint(b, dev, s.next[m]);
        assert m in s'.next && s'.next[m] == s.next[m];
      }
    }
  }

  /** Under agreement the daemon's memory determines the tables. */
  lemma MemoryDeterminesTables(b: Backend, dev: Link, foreign: Tables, s: State, s': State)
    requires Agrees(b, dev, foreign, s) && Agrees(b, dev, foreign, s') && s.next == s'.next
    ensures s.tables == s'.tables
  {
    hide Footprint, Decodable;
    forall slot | slot in s.tables || slot in s'.tables
      ensures slot in s.tables && slot in s'.tables && s.tables[slot] == s'.tables[slot]
    {
      if slot !in foreign {
        var n :| n in s.next && slot in Footprint(b, dev, s.next[n]);
      }
    }
  }

  /** Adding a peer nobody is in the way of keeps agreement exactly when its requests fare cleanly. */
  lemma AddAgreesIffClean(b: Backend, dev: Link, foreign: Tables, s: State, p: Peer, fates: Fates)
    requires Agrees(b, dev, foreign, s) && p.node !in s.next
    requires Footprint(b, dev, p).Keys !! s.tables.Keys
    requires p.podCidr.parsed.Some? ==> RouteSlot(p.podCidr.parsed.value) !in s.tables
    ensures Agrees(b, dev, foreign, Perform(b, dev, s, Add(p), fates)) <==> CleanAdd(b, p, fates)
  {
    var s' := Perform(b, dev, s, Add(p), fates);
    AddReports(b, s.tables, dev, p, fates);
    if CleanAdd(b, p, fates) {
      CleanAddEffect(b, s.tables, dev, p, fates);
    } else {
      DirtyAddEffect(b, s.tables, dev, p, fates);
    }
    hide AddPeer, CleanAdd, Footprint, Agrees;
    var ideal := if AddOk(b, p, fates) then State(Footprint(b, dev, p) + s.tables, s.next[p.node := p]) else s;
    assert s'.next == ideal.next by {
      assert s.next - {p.node} == s.next;
    }
    if AddOk(b, p, fates) {
      ExtendAgrees(b, dev, foreign, s, ideal, p);
    }
    if Agrees(b, dev, foreign, s') {
      MemoryDeterminesTables(b, dev, foreign, s', ideal);
    }
  }

  /** Removing an installed peer keeps agreement exactly when its requests fare cleanly. */
  lemma RemoveAgreesIffClean(b: Backend, dev: Link, foreign: Tables, s: State, n: string, fates: Fates)
    requires Agrees(b, dev, foreign, s) && n in s.next && s.next[n].node == n
    requires Footprint(b, dev, s.next[n]).Keys !! foreign.Keys
    requires forall m | m in s.next && m != n :: Apart(b, dev, s.next[m], s.next[n])
    ensures Agrees(b, dev, foreign, Perform(b, dev, s, Remove(s.next[n]), fates)) <==> CleanRemove(b, fates)
  {
    var p := s.next[n];
    var s' := Perform(b, dev, s, Remove(p), fates);
    var ideal := State(s.tables - Footprint(b, dev, p).Keys, s.next - {n});
    if CleanRemove(b, fates) {
      CleanRemoveEffect(b, s.tables, dev, p, fates);
    } else {
      DirtyRemoveEffect(b, s.tables, dev, p, fates);
    }
    hide RemovePeer, CleanRemove, Footprint;
    ShrinkAgrees(b, dev, foreign, s, ideal, n);
    hide Agrees;
    if Agrees(b, dev, foreign, s') {
      MemoryDeterminesTables(b, dev, foreign, s', ideal);
    }
  }

  lemma NobodyInTheWay(b: Backend, dev: Link, foreign: Tables, s: State, p: Peer)
    requires Agrees(b, dev, foreign, s) && Footprint(b, dev, p).Keys !! foreign.Keys
    requires forall m | m in s.next :: Apart(b, dev, s.next[m], p)
    ensures Footprint(b, dev, p).Keys !! s.tables.Keys
  {
    hide Footprint, Decodable, Holds;
  }

  lemma CleanAddAgrees(b: Backend, dev: Link, foreign: Tables, s: State, p: Peer, fates: Fates)
    requires Agrees(b, dev, foreign, s) && p.node !in s.next && CleanAdd(b, p, fates)
    requires AddOk(b, p, fates) ==>
               && Footprint(b, dev, p).Keys !! foreign.Keys
               && forall m | m in s.next :: Apart(b, dev, s.next[m], p)
    ensures Agrees(b, dev, foreign, Perform(b, dev, s, Add(p), fates))
  {
    var s' := Perform(b, dev, s, Add(p), fates);
    hide *;
    CleanlyAdded(b, dev, s, p, fates);
    if AddOk(b, p, fates) {
      NobodyInTheWay(b, dev, foreign, s, p);
      ExtendAgrees(b, dev, foreign, s, s', p);
    }
  }

  lemma CleanlyAdded(b: Backend, dev: Link, s: State, p: Peer, fates: Fates)
    requires p.node !in s.next && CleanAdd(b, p, fates)
    ensures Perform(b, dev, s, Add(p), fates)
            == if AddOk(b, p, fates) then State(Footprint(b, dev, p) + s.tables, s.next[p.node := p]) else s
    ensures AddOk(b, p, fates) ==> Decodable(b, p)
  {
    AddReports(b, s.tables, dev, p, fates);
    CleanAddEffect(b, s.tables, dev, p, fates);
    hide AddPeer, Footprint;
    assert s.next - {p.node} == s.next;
  }

  // ----------------------------------------------------------------- whole passes

  predicate Changed(installed: PeerMap, desired: PeerMap, n: string) {
    n in installed && n in desired && desired[n] != installed[n]
  }

  /** The requests of every action of the pass fare cleanly. */
  ghost predicate CleanPass(b: Backend, installed: PeerMap, desired: PeerMap, outcome: Outcome) {
    && (forall n | n in installed && (n in desired ==> Changed(installed, desired, n)) ::
          CleanRemove(b, outcome(Remove(installed[n]))))
    && (forall n | n in desired && (n in installed ==> Changed(installed, desired, n)) ::
          CleanAdd(b, desired[n], outcome(Add(desired[n]))))
  }

  /** No changed peer's new entries take the place of another installed peer's present ones. */
  ghost predicate NoTakeover(b: Backend, dev: Link, installed: PeerMap, desired: PeerMap, outcome: Outcome) {
    forall n, m | && Changed(installed, desired, n) && AddOk(b, desired[n], outcome(Add(desired[n])))
                  && m in installed && m != n ::
      Apart(b, dev, desired[n], installed[m])
  }

  lemma {:induction false} UpdatesAgree(b: Backend, dev: Link, foreign: Tables, s: State, desired: PeerMap,
                                        order: seq<string>, outcome: Outcome)
    requires Agrees(b, dev, foreign, s) && Separate(b, dev, foreign, s.next) && Separate(b, dev, foreign, desired)
    requires CleanPass(b, s.next, desired, outcome) && NoTakeover(b, dev, s.next, desired, outcome)
    requires NoRepeats(order) && forall n | n in order :: n in s.next
    ensures Agrees(b, dev, foreign, PerformAll(b, dev, s, Updates(s.next, desired, order), outcome))
  {
    if order != [] {
      var init, last := order[..|order| - 1], order[|order| - 1];
      LastVisited(order);
      assert last in order && forall n | n in init :: n in order;
      var updates, more := Updates(s.next, desired, init), Update(s.next, desired, last);
      assert Updates(s.next, desired, order) == updates + more;
      SeparateKeyed(b, dev, foreign, s.next);
      SeparateKeyed(b, dev, foreign, desired);
      hide *;
      UpdatesAgree(b, dev, foreign, s, desired, init, outcome);
      UpdatesNext(b, dev, s, desired, init, outcome);
      PerformConcat(b, dev, s, updates, more, outcome);
      UpdateAgrees(b, dev, foreign, s.next, PerformAll(b, dev, s, updates, outcome), desired, init, last, outcome);
    }
  }

  /** One round of the first loop. */
  lemma UpdateAgrees(b: Backend, dev: Link, foreign: Tables, installed: PeerMap, mid: State, desired: PeerMap,
                     init: seq<string>, last: string, outcome: Outcome)
    requires Agrees(b, dev, foreign, mid) && Separate(b, dev, foreign, installed) && Separate(b, dev, foreign, desired)
    requires CleanPass(b, installed, desired, outcome) && NoTakeover(b, dev, installed, desired, outcome)
    requires last in installed && last !in init
    requires forall n ::
               && (n in mid.next <==> n in installed && (n in init ==> Wanted(b, installed, desired, outcome, n)))
               && (n in mid.next ==> mid.next[n] == if n in init then desired[n] else installed[n])
    ensures Agrees(b, dev, foreign, PerformAll(b, dev, mid, Update(installed, desired, last), outcome))
  {
    hide Footprint, Agrees, AddOk, CleanAdd, CleanRemove, Apart;
    var x := Remove(installed[last]);
    PerformSmall(b, dev, mid, x, if last in desired then Add(desired[last]) else x, outcome);
    hide PerformAll;
    if last in desired ==> Changed(installed, desired, last) {
      forall m | m in mid.next && m != last
        ensures Apart(b, dev, mid.next[m], installed[last])
      {
      }
      RemoveAgreesIffClean(b, dev, foreign, mid, last, outcome(x));
      var after := Perform(b, dev, mid, x, outcome(x));
      assert after.next == mid.next - {last};
      if last in desired {
        var p := desired[last];
        if AddOk(b, p, outcome(Add(p))) {
          forall m | m in after.next
            ensures Apart(b, dev, after.next[m], p)
          {
            ApartSymmetric(b, dev, installed[m], p);
          }
        }
        CleanAddAgrees(b, dev, foreign, after, p, outcome(Add(p)));
      }
    }
  }

  lemma ApartSymmetric(b: Backend, dev: Link, p: Peer, q: Peer)
    ensures Apart(b, dev, p, q) <==> Apart(b, dev, q, p)
  {
  }

  lemma {:induction false} AdditionsAgree(b: Backend, dev: Link, foreign: Tables, s: State, installed: PeerMap,
                                          desired: PeerMap, order: seq<string>, outcome: Outcome)
    requires Agrees(b, dev, foreign, s) && Separate(b, dev, foreign, desired)
    requires CleanPass(b, installed, desired, outcome)
    requires NoRepeats(order) && forall n | n in order :: n in desired
    requires forall n | n in s.next :: n in installed && n in desired && s.next[n] == desired[n]
    ensures Agrees(b, dev, foreign, PerformAll(b, dev, s, Additions(installed, desired, order), outcome))
  {
    if order != [] {
      var init, last := order[..|order| - 1], order[|order| - 1];
      LastVisited(order);
      assert last in order && forall n | n in init :: n in order;
      var additions, more := Additions(installed, desired, init), Addition(installed, desired, last);
      assert Additions(installed, desired, order) == additions + more;
      hide *;
      AdditionsAgree(b, dev, foreign, s, installed, desired, init, outcome);
      var mid := PerformAll(b, dev, s, additions, outcome);
      SeparateKeyed(b, dev, foreign, desired);
      AdditionsNext(b, dev, s, installed, desired, init, outcome);
      PerformConcat(b, dev, s, additions, more, outcome);
      AdditionAgrees(b, dev, foreign, installed, mid, desired, init, last, outcome);
    }
  }

  lemma SeparateKeyed(b: Backend, dev: Link, foreign: Tables, peers: PeerMap)
    requires Separate(b, dev, foreign, peers)
    ensures Keyed(peers)
  {
  }

  /** One round of the second loop. */
  lemma AdditionAgrees(b: Backend, dev: Link, foreign: Tables, installed: PeerMap, mid: State, desired: PeerMap,
                       init: seq<string>, last: string, outcome: Outcome)
    requires Agrees(b, dev, foreign, mid) && Separate(b, dev, foreign, desired)
    requires CleanPass(b, installed, desired, outcome) && last in desired && last !in init
    requires forall n | n in mid.next :: (n in installed || n in init) && n in desired && mid.next[n] == desired[n]
    ensures Agrees(b, dev, foreign, PerformAll(b, dev, mid, Addition(installed, desired, last), outcome))
  {
    var p := desired[last];
    PerformSmall(b, dev, mid, Add(p), Add(p), outcome);
    hide PerformAll, Agrees, Footprint, AddOk, CleanAdd, Apart;
    if last !in installed {
      CleanAddAgrees(b, dev, foreign, mid, p, outcome(Add(p)));
    }
  }

  /** A clean pass without takeovers keeps agreement, in every iteration order. */
  lemma PassAgrees(b: Backend, dev: Link, foreign: Tables, s: State, pass: Pass)
    requires Agrees(b, dev, foreign, s) && Separate(b, dev, foreign, s.next) && Orders(s.next, pass)
    requires Separate(b, dev, foreign, pass.desired)
    requires CleanPass(b, s.next, pass.desired, pass.outcome) && NoTakeover(b, dev, s.next, pass.desired, pass.outcome)
    ensures Agrees(b, dev, foreign, AfterPass(b, dev, s, pass))
  {
    var updates, additions := Updates(s.next, pass.desired, pass.order1), Additions(s.next, pass.desired, pass.order2);
    PerformConcat(b, dev, s, updates, additions, pass.outcome);
    UpdatesAgree(b, dev, foreign, s, pass.desired, pass.order1, pass.outcome);
    UpdatesNext(b, dev, s, pass.desired, pass.order1, pass.outcome);
    var mid := PerformAll(b, dev, s, updates, pass.outcome);
    hide Agrees, Separate, CleanPass, NoTakeover, NoRepeats, AddOk, PerformAll;
    assert forall n | n in mid.next :: n in s.next && n in pass.desired && mid.next[n] == pass.desired[n];
    AdditionsAgree(b, dev, foreign, mid, s.next, pass.desired, pass.order2, pass.outcome);
  }
}
