/**
 The daemon's reconcile pass: the diff of installed and desired peers, carried out
 action by action on the kernel tables, with failures, over whole runs.
 */
module Controller {
  import opened Wrappers
  import opened Peers
  import opened Netlink

  /** The fate of each action; a pass performs no action twice. */
  type Outcome = Action -> Fates

  datatype State = State(tables: Tables, next: PeerMap)

  /** One action: the tables change as the requests fare, and a failed add is forgotten. */
  function Perform(b: Backend, dev: Link, s: State, a: Action, fates: Fates): State {
    match a
    case Add(p) =>
      var (tables, added) := AddPeer(b, s.tables, dev, p, fates);
      State(tables, if added then s.next[p.node := p] else s.next - {p.node})
    case Remove(p) =>
      State(RemovePeer(b, s.tables, dev, p, fates).0, s.next - {p.node})
  }

  function PerformAll(b: Backend, dev: Link, s: State, actions: seq<Action>, outcome: Outcome): State {
    if actions == [] then s
    else
      var last := actions[|actions| - 1];
      Perform(b, dev, PerformAll(b, dev, s, actions[..|actions| - 1], outcome), last, outcome(last))
  }

  /** One pass towards a desired map, for given iteration orders and outcomes. */
  datatype Pass = Pass(desired: PeerMap, order1: seq<string>, order2: seq<string>, outcome: Outcome)

  ghost predicate Orders(installed: PeerMap, pass: Pass) {
    Keyed(pass.desired) && Enumerates(pass.order1, installed.Keys) && Enumerates(pass.order2, pass.desired.Keys)
  }

  ghost function AfterPass(b: Backend, dev: Link, s: State, pass: Pass): State {
    PerformAll(b, dev, s, Diff(s.next, pass.desired, pass.order1, pass.order2), pass.outcome)
  }

  /** The daemon's memory of what it installed, and its netlink socket. */
  class Daemon {
    const nl: Socket
    const backend: Backend
    const dev: Link
    var installed: PeerMap

    constructor (nl: Socket, backend: Backend, dev: Link)
      ensures this.nl == nl && this.backend == backend && this.dev == dev && installed == map[]
    {
      this.nl, this.backend, this.dev, installed := nl, backend, dev, map[];
    }

    ghost function Abstract(): State
      reads this, nl
    {
      State(nl.tables, installed)
    }

    method ReconcileFromStore(desired: PeerMap, outcome: Outcome) returns (ghost pass: Pass)
      requires Keyed(desired)
      modifies this, nl
      ensures pass.desired == desired && pass.outcome == outcome && Orders(old(installed), pass)
      ensures Abstract() == AfterPass(backend, dev, old(Abstract()), pass)
    {
      var next := installed;
      var actions, order1, order2 := Reconcile(installed, desired);
      pass := Pass(desired, order1, order2, outcome);
      hide Diff, Enumerates, RouteAdded, HostGwRouteAdded, PeerL2Added, HostGwRouteDeleted, PeerDeleted;
      var i := 0;
      while i < |actions|
        invariant 0 <= i <= |actions|
        invariant State(nl.tables, next) == PerformAll(backend, dev, old(Abstract()), actions[..i], outcome)
        invariant installed == old(installed)
      {
        var action := actions[i];
        var fates := outcome(action);
        assert actions[..i + 1][..i] == actions[..i];
        match action {
          case Add(p) =>
            var added;
            match backend {
              case Vxlan =>
                var r1 := nl.AddRoute(dev, p, fates.route);
                var r2 := nl.AddPeerL2(dev, p, fates);
                added := r1 && r2;
              case HostGw =>
                added := nl.AddHostGwRoute(dev, p, fates.route);
            }
            if added {
              next := next[p.node := p];
            } else {
              next := next - {p.node};
            }
          case Remove(p) =>
            match backend {
              case Vxlan =>
                var _ := nl.DelPeer(dev, p, fates);
              case HostGw =>
                var _ := nl.DelHostGwRoute(dev, p, fates.route);
            }
            next := next - {p.node};
        }
        i := i + 1;
      }
      assert actions[..i] == actions;
      installed := next;
    }
  }

  /** An action settles whether its own node counts as installed: exactly if it is an add that reports success. */
  lemma PerformMeans(b: Backend, dev: Link, s: State, a: Action, fates: Fates)
    ensures var next := Perform(b, dev, s, a, fates).next;
            && (a.peer.node in next <==> a.Add? && AddOk(b, a.peer, fates))
            && (a.peer.node in next ==> next[a.peer.node] == a.peer)
            && forall n | n != a.peer.node :: (n in next <==> n in s.next) && (n in next ==> next[n] == s.next[n])
  {
    AddReports(b, s.tables, dev, a.peer, fates);
    hide AddPeer, RemovePeer, AddOk;
  }

  lemma {:induction false} PerformConcat(b: Backend, dev: Link, s: State, x: seq<Action>, y: seq<Action>,
                                         outcome: Outcome)
    ensures PerformAll(b, dev, s, x + y, outcome) == PerformAll(b, dev, PerformAll(b, dev, s, x, outcome), y, outcome)
  {
    if y == [] {
      assert x + y == x;
    } else {
      assert (x + y)[..|x + y| - 1] == x + y[..|y| - 1];
      PerformConcat(b, dev, s, x, y[..|y| - 1], outcome);
    }
  }

  lemma PerformSmall(b: Backend, dev: Link, s: State, x: Action, y: Action, outcome: Outcome)
    ensures PerformAll(b, dev, s, [], outcome) == s
    ensures PerformAll(b, dev, s, [x], outcome) == Perform(b, dev, s, x, outcome(x))
    ensures PerformAll(b, dev, s, [x, y], outcome)
            == Perform(b, dev, Perform(b, dev, s, x, outcome(x)), y, outcome(y))
  {
    assert [x][..0] == [] && [x, y][..1] == [x];
  }

  // -------------------------------------------------- what ends up in installed

  predicate Wanted(b: Backend, installed: PeerMap, desired: PeerMap, outcome: Outcome, n: string) {
    n in desired && ((n in installed && installed[n] == desired[n]) || AddOk(b, desired[n], outcome(Add(desired[n]))))
  }

  /** What a round of the first loop makes of the memory. */
  lemma UpdateNext(b: Backend, dev: Link, s: State, installed: PeerMap, desired: PeerMap, n: string, outcome: Outcome)
    requires Keyed(installed) && Keyed(desired) && n in installed
    requires n in s.next && s.next[n] == installed[n]
    ensures var next := PerformAll(b, dev, s, Update(installed, desired, n), outcome).next;
            next == if Wanted(b, installed, desired, outcome, n) then s.next[n := desired[n]] else s.next - {n}
  {
    var x := Remove(installed[n]);
    PerformSmall(b, dev, s, x, if n in desired then Add(desired[n]) else x, outcome);
    hide PerformAll, AddOk, AddPeer;
    if n in desired {
      AddReports(b, Perform(b, dev, s, x, outcome(x)).tables, dev, desired[n], outcome(Add(desired[n])));
    }
  }

  lemma {:induction false} UpdatesNext(b: Backend, dev: Link, s: State, desired: PeerMap, order: seq<string>,
                                       outcome: Outcome)
    requires Keyed(s.next) && Keyed(desired) && NoRepeats(order) && forall n | n in order :: n in s.next
    ensures var next := PerformAll(b, dev, s, Updates(s.next, desired, order), outcome).next;
            forall n ::
              && (n in next <==> n in s.next && (n in order ==> Wanted(b, s.next, desired, outcome, n)))
              && (n in next ==> next[n] == if n in order then desired[n] else s.next[n])
  {
    if order != [] {
      var init, last := order[..|order| - 1], order[|order| - 1];
      LastVisited(order);
      hide NoRepeats, AddOk, Update;
      UpdatesNext(b, dev, s, desired, init, outcome);
      var before := PerformAll(b, dev, s, Updates(s.next, desired, init), outcome);
      PerformConcat(b, dev, s, Updates(s.next, desired, init), Update(s.next, desired, last), outcome);
      hide PerformAll;
      UpdateNext(b, dev, before, s.next, desired, last, outcome);
    }
  }

  lemma {:induction false} AdditionsNext(b: Backend, dev: Link, s: State, installed: PeerMap, desired: PeerMap,
                                         order: seq<string>, outcome: Outcome)
    requires Keyed(desired) && NoRepeats(order) && forall n | n in order :: n in desired
    requires forall n | n in s.next :: n in installed
    ensures var next := PerformAll(b, dev, s, Additions(installed, desired, order), outcome).next;
            forall n ::
              && (n in next <==>
                    n in s.next || (n in order && n !in installed && Wanted(b, installed, desired, outcome, n)))
              && (n in next ==> next[n] == if n in s.next then s.next[n] else desired[n])
  {
    if order != [] {
      var init, last := order[..|order| - 1], order[|order| - 1];
      LastVisited(order);
      hide NoRepeats;
      AdditionsNext(b, dev, s, installed, desired, init, outcome);
      var before := PerformAll(b, dev, s, Additions(installed, desired, init), outcome);
      var more := Addition(installed, desired, last);
      PerformConcat(b, dev, s, Additions(installed, desired, init), more, outcome);
      PerformSmall(b, dev, before, Add(desired[last]), Add(desired[last]), outcome);
      AddReports(b, before.tables, dev, desired[last], outcome(Add(desired[last])));
    }
  }

  /**
   Whatever fails and in whatever order, after a pass exactly those desired peers count
   as installed that were so already or whose add reported success.
   */
  lemma InstalledAfterPass(b: Backend, dev: Link, s: State, pass: Pass)
    requires Keyed(s.next) && Orders(s.next, pass)
    ensures AfterPass(b, dev, s, pass).next
            == map n | n in pass.desired && Wanted(b, s.next, pass.desired, pass.outcome, n) :: pass.desired[n]
  {
    hide Updates, Additions, Update, PerformAll, NoRepeats, AddOk;
    var updates, additions := Updates(s.next, pass.desired, pass.order1), Additions(s.next, pass.desired, pass.order2);
    PerformConcat(b, dev, s, updates, additions, pass.outcome);
    UpdatesNext(b, dev, s, pass.desired, pass.order1, pass.outcome);
    var mid := PerformAll(b, dev, s, updates, pass.outcome);
    assert forall n | n in mid.next :: n in s.next && mid.next[n] == pass.desired[n];
    assert forall n :: n in mid.next <==> n in s.next && Wanted(b, s.next, pass.desired, pass.outcome, n);
    AdditionsNext(b, dev, mid, s.next, pass.desired, pass.order2, pass.outcome);
    var next := PerformAll(b, dev, mid, additions, pass.outcome).next;
    hide Wanted, Enumerates;
    assert forall n :: n in next <==> n in pass.desired && Wanted(b, s.next, pass.desired, pass.outcome, n);
    assert forall n | n in next :: next[n] == pass.desired[n];
  }
}
