/** Peers of a node, and the difference between the installed and the desired ones. */
module Peers {
  import opened Wrappers
  import opened Ipv4

  datatype Peer = Peer(node: string, podCidr: Field<Ipv4Network>, publicIp: Field<Addr>, vtepMac: Option<string>)

  type PeerMap = map<string, Peer>

  datatype Action = Add(peer: Peer) | Remove(peer: Peer)

  /** Each peer is filed under its own name. */
  predicate Keyed(m: PeerMap) {
    forall n | n in m :: m[n].node == n
  }

  /** A hash map's iteration order: each key once, in no particular order. */
  ghost predicate Enumerates(order: seq<string>, keys: set<string>) {
    (forall x :: x in order <==> x in keys) && NoRepeats(order)
  }

  predicate NoRepeats(order: seq<string>) {
    forall i, j | 0 <= i < j < |order| :: order[i] != order[j]
  }

  lemma LastVisited(order: seq<string>)
    requires order != [] && NoRepeats(order)
    ensures var init, last := order[..|order| - 1], order[|order| - 1];
            && order == init + [last] && NoRepeats(init) && last !in init
            && forall n :: n in order <==> n in init || n == last
  {
    var init, last := order[..|order| - 1], order[|order| - 1];
    assert order == init + [last];
  }

  /** What the diff asks for about one installed peer. */
  function Update(installed: PeerMap, desired: PeerMap, n: string): seq<Action> {
    if n !in installed then []
    else if n !in desired then [Remove(installed[n])]
    else if desired[n] != installed[n] then [Remove(installed[n]), Add(desired[n])]
    else []
  }

  function Updates(installed: PeerMap, desired: PeerMap, order: seq<string>): seq<Action> {
    if order == [] then []
    else Updates(installed, desired, order[..|order| - 1]) + Update(installed, desired, order[|order| - 1])
  }

  /** What it asks for about one desired peer that is not installed at all. */
  function Addition(installed: PeerMap, desired: PeerMap, n: string): seq<Action> {
    if n !in desired || n in installed then [] else [Add(desired[n])]
  }

  function Additions(installed: PeerMap, desired: PeerMap, order: seq<string>): seq<Action> {
    if order == [] then []
    else Additions(installed, desired, order[..|order| - 1]) + Addition(installed, desired, order[|order| - 1])
  }

  /** The actions, for given iteration orders of the two maps. */
  function Diff(installed: PeerMap, desired: PeerMap, order1: seq<string>, order2: seq<string>): seq<Action>
  {
    Updates(installed, desired, order1) + Additions(installed, desired, order2)
  }

  /** The keys of m not in pending have been visited, in the given order. */
  ghost predicate Visited(m: PeerMap, order: seq<string>, pending: set<string>) {
    pending <= m.Keys && Enumerates(order, m.Keys - pending)
  }

  lemma VisitedNext(m: PeerMap, order: seq<string>, pending: set<string>, n: string)
    requires Visited(m, order, pending) && n in pending
    ensures n in m && Visited(m, order + [n], pending - {n})
  {
  }

  lemma VisitedEnds(m: PeerMap, order: seq<string>)
    ensures Visited(m, [], m.Keys)
    ensures Visited(m, order, {}) ==> Enumerates(order, m.Keys)
  {
    assert m.Keys - {} == m.Keys;
  }

  lemma UpdatesSnoc(installed: PeerMap, desired: PeerMap, order: seq<string>, n: string)
    ensures Updates(installed, desired, []) == []
    ensures Updates(installed, desired, order + [n])
            == Updates(installed, desired, order) + Update(installed, desired, n)
  {
    assert (order + [n])[..|order|] == order;
  }

  lemma AdditionsSnoc(installed: PeerMap, desired: PeerMap, order: seq<string>, n: string)
    ensures Additions(installed, desired, []) == []
    ensures Additions(installed, desired, order + [n])
            == Additions(installed, desired, order) + Addition(installed, desired, n)
  {
    assert (order + [n])[..|order|] == order;
  }

  // ------------------------------------------------------ the diff is correct

  function Apply(m: PeerMap, a: Action): PeerMap {
    match a
    case Add(p) => m[p.node := p]
    case Remove(p) => m - {p.node}
  }

  function Replay(m: PeerMap, actions: seq<Action>): PeerMap {
    if actions == [] then m else Apply(Replay(m, actions[..|actions| - 1]), actions[|actions| - 1])
  }

  lemma {:induction false} ReplayConcat(m: PeerMap, a: seq<Action>, b: seq<Action>)
    ensures Replay(m, a + b) == Replay(Replay(m, a), b)
  {
    if b == [] {
      assert a + b == a;
    } else {
      assert (a + b)[..|a + b| - 1] == a + b[..|b| - 1];
      ReplayConcat(m, a, b[..|b| - 1]);
    }
  }

  lemma ReplaySmall(m: PeerMap, a: Action, b: Action)
    ensures Replay(m, []) == m && Replay(m, [a]) == Apply(m, a) && Replay(m, [a, b]) == Apply(Apply(m, a), b)
  {
    assert [a][..0] == [] && [a, b][..1] == [a];
  }

  /** After the first loop: nodes visited are as desired, the others as installed. */
  lemma {:induction false} UpdatesReplay(installed: PeerMap, desired: PeerMap, order: seq<string>)
    requires Keyed(installed) && Keyed(desired) && NoRepeats(order) && forall n | n in order :: n in installed
    ensures var m := Replay(installed, Updates(installed, desired, order));
            forall n ::
              && (n in m <==> n in installed && (n in order ==> n in desired))
              && (n in m ==> m[n] == if n in order then desired[n] else installed[n])
  {
    if order != [] {
      var init, last := order[..|order| - 1], order[|order| - 1];
      LastVisited(order);
      hide NoRepeats;
      UpdatesReplay(installed, desired, init);
      ReplayConcat(installed, Updates(installed, desired, init), Update(installed, desired, last));
      var m := Replay(installed, Updates(installed, desired, init));
      ReplaySmall(m, Remove(installed[last]), if last in desired then Add(desired[last]) else Remove(installed[last]));
    }
  }

  lemma {:induction false} AdditionsReplay(installed: PeerMap, desired: PeerMap, m: PeerMap, order: seq<string>)
    requires Keyed(desired) && NoRepeats(order) && forall n | n in order :: n in desired
    ensures var m' := Replay(m, Additions(installed, desired, order));
            forall n ::
              && (n in m' <==> n in m || (n in order && n !in installed))
              && (n in m' ==> m'[n] == if n in order && n !in installed then desired[n] else m[n])
  {
    if order != [] {
      var init, last := order[..|order| - 1], order[|order| - 1];
      LastVisited(order);
      hide NoRepeats;
      AdditionsReplay(installed, desired, m, init);
      var more := Addition(installed, desired, last);
      ReplayConcat(m, Additions(installed, desired, init), more);
      ReplaySmall(Replay(m, Additions(installed, desired, init)), Add(desired[last]), Add(desired[last]));
    }
  }

  /** The desired peers among those installed: what is left between the two loops. */
  function Kept(installed: PeerMap, desired: PeerMap): PeerMap {
    map n | n in installed && n in desired :: desired[n]
  }

  lemma UpdatesLeaveKept(installed: PeerMap, desired: PeerMap, order: seq<string>)
    requires Keyed(installed) && Keyed(desired) && Enumerates(order, installed.Keys)
    ensures Replay(installed, Updates(installed, desired, order)) == Kept(installed, desired)
  {
    hide Updates, Replay, NoRepeats, Keyed;
    UpdatesReplay(installed, desired, order);
  }

  lemma AdditionsComplete(installed: PeerMap, desired: PeerMap, order: seq<string>)
    requires Keyed(desired) && Enumerates(order, desired.Keys)
    ensures Replay(Kept(installed, desired), Additions(installed, desired, order)) == desired
  {
    hide Additions, Replay, NoRepeats, Keyed;
    AdditionsReplay(installed, desired, Kept(installed, desired), order);
  }

  /** In every iteration order, replaying the diff on the installed peers gives exactly the desired ones. */
  lemma DiffReplays(installed: PeerMap, desired: PeerMap, order1: seq<string>, order2: seq<string>)
    requires Keyed(installed) && Keyed(desired)
    requires Enumerates(order1, installed.Keys) && Enumerates(order2, desired.Keys)
    ensures Replay(installed, Diff(installed, desired, order1, order2)) == desired
  {
    hide Updates, Additions, Replay, Enumerates, Keyed, Kept;
    var updates, additions := Updates(installed, desired, order1), Additions(installed, desired, order2);
    ReplayConcat(installed, updates, additions);
    UpdatesLeaveKept(installed, desired, order1);
    AdditionsComplete(installed, desired, order2);
  }

  /** The diff as the code computes it, in whatever orders the two maps are iterated. */
  method Reconcile(installed: PeerMap, desired: PeerMap)
    returns (actions: seq<Action>, ghost order1: seq<string>, ghost order2: seq<string>)
    ensures Enumerates(order1, installed.Keys) && Enumerates(order2, desired.Keys)
    ensures actions == Diff(installed, desired, order1, order2)
    ensures Keyed(installed) && Keyed(desired) ==> Replay(installed, actions) == desired
  {
    hide Enumerates, Visited, Updates, Additions, Replay, Keyed;
    VisitedEnds(installed, []);
    UpdatesSnoc(installed, desired, [], "");
    actions, order1, order2 := [], [], [];
    var pending := installed.Keys;
    while pending != {}
      invariant Visited(installed, order1, pending) && actions == Updates(installed, desired, order1)
      decreases |pending|
    {
      var node :| node in pending;
      VisitedNext(installed, order1, pending, node);
      UpdatesSnoc(installed, desired, order1, node);
      order1 := order1 + [node];
      pending := pending - {node};
      var prior := installed[node];
      if node !in desired {
        actions := actions + [Remove(prior)];
      } else if desired[node] != prior {
        actions := actions + [Remove(prior)];
        actions := actions + [Add(desired[node])];
      }
    }
    VisitedEnds(installed, order1);
    VisitedEnds(desired, []);
    AdditionsSnoc(installed, desired, [], "");
    ghost var updates := actions;
    pending := desired.Keys;
    while pending != {}
      invariant Visited(desired, order2, pending) && actions == updates + Additions(installed, desired, order2)
      decreases |pending|
    {
      var node :| node in pending;
      VisitedNext(desired, order2, pending, node);
      AdditionsSnoc(installed, desired, order2, node);
      order2 := order2 + [node];
      pending := pending - {node};
      if node !in installed {
        actions := actions + [Add(desired[node])];
      }
    }
    VisitedEnds(desired, order2);
    if Keyed(installed) && Keyed(desired) {
      DiffReplays(installed, desired, order1, order2);
    }
  }

  /** The actions that concern one node. */
  function About(actions: seq<Action>, n: string): seq<Action> {
    if actions == [] then []
    else
      var last := actions[|actions| - 1];
      About(actions[..|actions| - 1], n) + (if last.peer.node == n then [last] else [])
  }

  lemma {:induction false} AboutConcat(a: seq<Action>, b: seq<Action>, n: string)
    ensures About(a + b, n) == About(a, n) + About(b, n)
  {
    if b == [] {
      assert a + b == a;
    } else {
      assert (a + b)[..|a + b| - 1] == a + b[..|b| - 1];
      AboutConcat(a, b[..|b| - 1], n);
    }
  }

  lemma AboutSmall(a: Action, b: Action, n: string)
    ensures About([a], n) == if a.peer.node == n then [a] else []
    ensures About([a, b], n) == (if a.peer.node == n then [a] else []) + (if b.peer.node == n then [b] else [])
  {
    assert [a][..0] == [] && [a, b][..1] == [a];
  }

  lemma UpdateAbout(installed: PeerMap, desired: PeerMap, x: string, n: string)
    requires Keyed(installed) && Keyed(desired) && x in installed
    ensures About(Update(installed, desired, x), n) == if n == x then Update(installed, desired, x) else []
  {
    AboutSmall(Remove(installed[x]), if x in desired then Add(desired[x]) else Remove(installed[x]), n);
    assert About([], n) == [];
    hide About;
  }

  lemma {:induction false} UpdatesAbout(installed: PeerMap, desired: PeerMap, order: seq<string>, n: string)
    requires Keyed(installed) && Keyed(desired) && NoRepeats(order) && forall x | x in order :: x in installed
    ensures About(Updates(installed, desired, order), n) == if n in order then Update(installed, desired, n) else []
  {
    if order != [] {
      var init, last := order[..|order| - 1], order[|order| - 1];
      LastVisited(order);
      var updates, more := Updates(installed, desired, init), Update(installed, desired, last);
      assert Updates(installed, desired, order) == updates + more;
      hide NoRepeats, Update, Updates, About, Keyed;
      UpdatesAbout(installed, desired, init, n);
      AboutConcat(updates, more, n);
      UpdateAbout(installed, desired, last, n);
    }
  }

  lemma AdditionAbout(installed: PeerMap, desired: PeerMap, x: string, n: string)
    requires Keyed(desired) && x in desired
    ensures About(Addition(installed, desired, x), n)
            == if n == x && x !in installed then [Add(desired[x])] else []
  {
    AboutSmall(Add(desired[x]), Add(desired[x]), n);
  }

  lemma {:induction false} AdditionsAbout(installed: PeerMap, desired: PeerMap, order: seq<string>, n: string)
    requires Keyed(desired) && NoRepeats(order) && forall x | x in order :: x in desired
    ensures About(Additions(installed, desired, order), n)
            == if n in order && n !in installed then [Add(desired[n])] else []
  {
    if order != [] {
      var init, last := order[..|order| - 1], order[|order| - 1];
      LastVisited(order);
      assert About([], n) == [];
      hide NoRepeats, About;
      hide Addition;
      AdditionsAbout(installed, desired, init, n);
      AboutConcat(Additions(installed, desired, init), Addition(installed, desired, last), n);
      AdditionAbout(installed, desired, last, n);
    }
  }

  /** Each node gets at most one Remove and one Add, of what is installed and desired, the Remove first. */
  lemma DiffPerNode(installed: PeerMap, desired: PeerMap, order1: seq<string>, order2: seq<string>, n: string)
    requires Keyed(installed) && Keyed(desired)
    requires Enumerates(order1, installed.Keys) && Enumerates(order2, desired.Keys)
    ensures About(Diff(installed, desired, order1, order2), n)
            == if n in installed then Update(installed, desired, n)
               else if n in desired then [Add(desired[n])]
               else []
  {
    AboutConcat(Updates(installed, desired, order1), Additions(installed, desired, order2), n);
    UpdatesAbout(installed, desired, order1, n);
    AdditionsAbout(installed, desired, order2, n);
  }

  /** There is nothing to do exactly when the maps are equal. */
  lemma DiffEmptyIffEqual(installed: PeerMap, desired: PeerMap, order1: seq<string>, order2: seq<string>)
    requires Keyed(installed) && Keyed(desired)
    requires Enumerates(order1, installed.Keys) && Enumerates(order2, desired.Keys)
    ensures Diff(installed, desired, order1, order2) == [] <==> installed == desired
  {
    if Diff(installed, desired, order1, order2) == [] {
      DiffReplays(installed, desired, order1, order2);
    } else {
      var d := Diff(installed, desired, order1, order2);
      var n := d[0].peer.node;
      assert About([d[0]], n) == [d[0]] by {
        AboutSmall(d[0], d[0], n);
      }
      assert d == [d[0]] + d[1..];
      AboutConcat([d[0]], d[1..], n);
      DiffPerNode(installed, desired, order1, order2, n);
    }
  }
}
