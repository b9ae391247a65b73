/**
 The kernel's routes, neighbours and forwarding entries, and the netlink requests
 that add and remove what belongs to one peer.
 */
module Netlink {
  import opened Wrappers
  import opened Ipv4
  import opened Mac
  import opened Peers

  type Link = nat

  datatype Backend = Vxlan | HostGw

  /** Where an entry sits; the kernel holds at most one entry per slot. */
  datatype Slot =
    | RouteTo(net: Addr, prefix: Prefix)
    | NeighbourAt(dev: Link, ip: Addr)
    | ForwardOf(dev: Link, mac: seq<Byte>)

  datatype Entry =
    | Via(oif: Link, gateway: Addr)
    | LinkAddress(bytes: seq<Byte>)
    | Underlay(node: Addr)

  type Tables = map<Slot, Entry>

  /**
   What becomes of one request: the kernel handles it, the kernel answers with an
   error, or no answer arrives (any error other than a netlink error reply).
   */
  datatype Fate = Handled | Refused | Lost

  /** The fates of the route, neighbour and forwarding requests of one action. */
  datatype Fates = Fates(route: Fate, neighbour: Fate, forward: Fate) {
    predicate AllHandled() {
      route == neighbour == forward == Handled
    }
  }

  /** An add request: an occupied slot answers EEXIST and stays as it is. */
  function Put(t: Tables, slot: Slot, entry: Entry, fate: Fate): Tables {
    if fate == Handled && slot !in t then t[slot := entry] else t
  }

  function Drop(t: Tables, slot: Slot, fate: Fate): Tables {
    if fate == Handled then t - {slot} else t
  }

  /** A route is only deleted when it also leaves through the given interface. */
  function DropRoute(t: Tables, slot: Slot, oif: Link, fate: Fate): Tables {
    if slot in t && t[slot].Via? && t[slot].oif == oif then Drop(t, slot, fate) else t
  }

  function PeerMac(p: Peer): Option<seq<Byte>> {
    match p.vtepMac
    case Some(text) => ParseMac(text)
    case None => None
  }

  function RouteSlot(cidr: Ipv4Network): Slot {
    RouteTo(cidr.Network(), cidr.prefix)
  }

  // ------------------------------------------ what each operation does to the tables

  /** Only an error reply from the kernel counts as a failure; an existing route does not. */
  function RouteAdded(t: Tables, dev: Link, p: Peer, fate: Fate): (Tables, bool) {
    match p.podCidr.parsed
    case None => (t, false)
    case Some(cidr) => (Put(t, RouteSlot(cidr), Via(dev, cidr.Network()), fate), fate != Refused)
  }

  function HostGwRouteAdded(t: Tables, oif: Link, p: Peer, fate: Fate): (Tables, bool) {
    match (p.podCidr.parsed, p.publicIp.parsed)
    case (Some(cidr), Some(ip)) => (Put(t, RouteSlot(cidr), Via(oif, ip), fate), fate != Refused)
    case _ => (t, false)
  }

  /** Succeeds whenever the peer's fields parse, whatever becomes of the two requests. */
  function PeerL2Added(t: Tables, dev: Link, p: Peer, fates: Fates): (Tables, bool) {
    match (PeerMac(p), p.podCidr.parsed, p.publicIp.parsed)
    case (Some(mac), Some(cidr), Some(ip)) =>
      var t1 := Put(t, NeighbourAt(dev, cidr.Network()), LinkAddress(mac), fates.neighbour);
      (Put(t1, ForwardOf(dev, mac), Underlay(ip), fates.forward), true)
    case _ => (t, false)
  }

  function HostGwRouteDeleted(t: Tables, oif: Link, p: Peer, fate: Fate): (Tables, bool) {
    match p.podCidr.parsed
    case None => (t, false)
    case Some(cidr) => (DropRoute(t, RouteSlot(cidr), oif, fate), fate != Lost)
  }

  /** Removes nothing when a field does not parse, or when the routes cannot be listed. */
  function PeerDeleted(t: Tables, dev: Link, p: Peer, fates: Fates): (Tables, bool) {
    match (p.podCidr.parsed, PeerMac(p))
    case (Some(cidr), Some(mac)) =>
      if fates.route == Lost then (t, false)
      else
        var t1 := DropRoute(t, RouteSlot(cidr), dev, fates.route);
        var t2 := Drop(t1, NeighbourAt(dev, cidr.Network()), fates.neighbour);
        (Drop(t2, ForwardOf(dev, mac), fates.forward), true)
    case _ => (t, false)
  }

  /** The kernel tables behind the daemon's netlink socket. */
  class Socket {
    var tables: Tables

    method Add(slot: Slot, entry: Entry, fate: Fate)
      modifies this
      ensures tables == Put(old(tables), slot, entry, fate)
    {
      if fate == Handled && slot !in tables {
        tables := tables[slot := entry];
      }
    }

    method AddRoute(dev: Link, peer: Peer, fate: Fate) returns (ok: bool)
      modifies this
      ensures (tables, ok) == RouteAdded(old(tables), dev, peer, fate)
    {
      if peer.podCidr.parsed.None? {
        return false;
      }
      var net := peer.podCidr.parsed.value;
      Add(RouteTo(net.Network(), net.prefix), Via(dev, net.Network()), fate);
      return fate != Refused;
    }

    method AddHostGwRoute(oif: Link, peer: Peer, fate: Fate) returns (ok: bool)
      modifies this
      ensures (tables, ok) == HostGwRouteAdded(old(tables), oif, peer, fate)
    {
      if peer.podCidr.parsed.None? || peer.publicIp.parsed.None? {
        return false;
      }
      var net, gw := peer.podCidr.parsed.value, peer.publicIp.parsed.value;
      Add(RouteTo(net.Network(), net.prefix), Via(oif, gw), fate);
      return fate != Refused;
    }

    method AddPeerL2(dev: Link, peer: Peer, fates: Fates) returns (ok: bool)
      modifies this
      ensures (tables, ok) == PeerL2Added(old(tables), dev, peer, fates)
    {
      if peer.vtepMac.None? || ParseMac(peer.vtepMac.value).None? {
        return false;
      }
      var mac := ParseMac(peer.vtepMac.value).value;
      if peer.podCidr.parsed.None? || peer.publicIp.parsed.None? {
        return false;
      }
      var vtepIp, public := peer.podCidr.parsed.value.Network(), peer.publicIp.parsed.value;
      Add(NeighbourAt(dev, vtepIp), LinkAddress(mac), fates.neighbour);
      Add(ForwardOf(dev, mac), Underlay(public), fates.forward);
      return true;
    }

    /** Lists the routes in the kernel's order and deletes the first that matches. */
    method DeleteRoute(dst: Addr, prefix: Prefix, oif: Link, fate: Fate)
      modifies this
      ensures tables == DropRoute(old(tables), RouteTo(dst, prefix), oif, fate)
    {
      var routes := set slot | slot in tables && slot.RouteTo?;
      while routes != {}
        invariant tables == old(tables) && forall slot | slot in routes :: slot in tables && slot.RouteTo?
        invariant forall slot | slot in tables && slot.RouteTo? && slot !in routes ::
                    !(slot.net == dst && slot.prefix == prefix && tables[slot].Via? && tables[slot].oif == oif)
        decreases |routes|
      {
        var route :| route in routes;
        routes := routes - {route};
        if route.prefix != prefix {
          continue;
        }
        var matchesDest := route.net == dst;
        var matchesDev := tables[route].Via? && tables[route].oif == oif;
        if matchesDest && matchesDev {
          if fate == Handled {
            tables := tables - {route};
          }
          return;
        }
      }
    }

    method DeleteNeighbour(dev: Link, ip: Addr, fate: Fate)
      modifies this
      ensures tables == Drop(old(tables), NeighbourAt(dev, ip), fate)
    {
      var neighbours := set slot | slot in tables && slot.NeighbourAt?;
      while neighbours != {}
        invariant tables == old(tables) && forall slot | slot in neighbours :: slot in tables && slot.NeighbourAt?
        invariant NeighbourAt(dev, ip) in tables ==> NeighbourAt(dev, ip) in neighbours
        decreases |neighbours|
      {
        var neigh :| neigh in neighbours;
        neighbours := neighbours - {neigh};
        if neigh.dev != dev {
          continue;
        }
        if neigh.ip == ip {
          if fate == Handled {
            tables := tables - {neigh};
          }
          return;
        }
      }
    }

    method DeleteForward(dev: Link, mac: seq<Byte>, fate: Fate)
      modifies this
      ensures tables == Drop(old(tables), ForwardOf(dev, mac), fate)
    {
      var fdb := set slot | slot in tables && slot.ForwardOf?;
      while fdb != {}
        invariant tables == old(tables) && forall slot | slot in fdb :: slot in tables && slot.ForwardOf?
        invariant ForwardOf(dev, mac) in tables ==> ForwardOf(dev, mac) in fdb
        decreases |fdb|
      {
        var neigh :| neigh in fdb;
        fdb := fdb - {neigh};
        if neigh.dev != dev {
          continue;
        }
        if neigh.mac == mac {
          if fate == Handled {
            tables := tables - {neigh};
          }
          return;
        }
      }
    }

    method DelHostGwRoute(oif: Link, peer: Peer, fate: Fate) returns (ok: bool)
      modifies this
      ensures (tables, ok) == HostGwRouteDeleted(old(tables), oif, peer, fate)
    {
      if peer.podCidr.parsed.None? {
        return false;
      }
      var net := peer.podCidr.parsed.value;
      if fate == Lost {
        return false;
      }
      DeleteRoute(net.Network(), net.prefix, oif, fate);
      return true;
    }

    method DelPeer(dev: Link, peer: Peer, fates: Fates) returns (ok: bool)
      modifies this
      ensures (tables, ok) == PeerDeleted(old(tables), dev, peer, fates)
    {
      if peer.podCidr.parsed.None? {
        return false;
      }
      var net := peer.podCidr.parsed.value;
      var vtepIp := net.Network();
      if peer.vtepMac.None? || ParseMac(peer.vtepMac.value).None? {
        return false;
      }
      var mac := ParseMac(peer.vtepMac.value).value;
      if fates.route == Lost {
        return false;
      }
      DeleteRoute(vtepIp, net.prefix, dev, fates.route);
      DeleteNeighbour(dev, vtepIp, fates.neighbour);
      DeleteForward(dev, mac, fates.forward);
      return true;
    }
  }

  // ----------------------------------------------- the operations of one peer together

  /** Both vxlan operations always run; the add succeeds when both report success. */
  function AddPeer(b: Backend, t: Tables, dev: Link, p: Peer, fates: Fates): (Tables, bool) {
    match b
    case Vxlan =>
      var (t1, r1) := RouteAdded(t, dev, p, fates.route);
      var (t2, r2) := PeerL2Added(t1, dev, p, fates);
      (t2, r1 && r2)
    case HostGw => HostGwRouteAdded(t, dev, p, fates.route)
  }

  function RemovePeer(b: Backend, t: Tables, dev: Link, p: Peer, fates: Fates): (Tables, bool) {
    match b
    case Vxlan => PeerDeleted(t, dev, p, fates)
    case HostGw => HostGwRouteDeleted(t, dev, p, fates.route)
  }

  /** Whether every field the backend needs parses. */
  predicate Decodable(b: Backend, p: Peer) {
    p.podCidr.parsed.Some? && p.publicIp.parsed.Some? && (b == Vxlan ==> PeerMac(p).Some?)
  }

  /** The entries that one fully installed peer stands for. */
  function Footprint(b: Backend, dev: Link, p: Peer): Tables {
    if !Decodable(b, p) then map[]
    else
      var cidr, ip := p.podCidr.parsed.value, p.publicIp.parsed.value;
      match b
      case HostGw => map[RouteSlot(cidr) := Via(dev, ip)]
      case Vxlan =>
        map[RouteSlot(cidr) := Via(dev, cidr.Network()),
            NeighbourAt(dev, cidr.Network()) := LinkAddress(PeerMac(p).value),
            ForwardOf(dev, PeerMac(p).value) := Underlay(ip)]
  }

  /** What an add reports; the tables play no part in it. */
  predicate AddOk(b: Backend, p: Peer, fates: Fates) {
    Decodable(b, p) && fates.route != Refused
  }

  lemma AddReports(b: Backend, t: Tables, dev: Link, p: Peer, fates: Fates)
    ensures AddPeer(b, t, dev, p, fates).1 == AddOk(b, p, fates)
  {
  }

  /**
   The fates that leave no half-done add behind: everything in place and reported so,
   or nothing in place and reported so.
   */
  predicate CleanAdd(b: Backend, p: Peer, fates: Fates) {
    if Decodable(b, p) then
      match b
      case HostGw => fates.route != Lost
      case Vxlan => || fates.AllHandled()
                    || (fates.route == Refused && fates.neighbour != Handled && fates.forward != Handled)
    else
      b == HostGw || p.podCidr.parsed.None? || fates.route != Handled
  }

  predicate CleanRemove(b: Backend, fates: Fates) {
    match b
    case HostGw => fates.route == Handled
    case Vxlan => fates.AllHandled()
  }

  /** A clean add is all or nothing, and existing entries win. */
  lemma CleanAddEffect(b: Backend, t: Tables, dev: Link, p: Peer, fates: Fates)
    requires CleanAdd(b, p, fates)
    ensures AddPeer(b, t, dev, p, fates).0 == if AddOk(b, p, fates) then Footprint(b, dev, p) + t else t
  {
  }

  /** Without foreign entries in the way, only a clean add is all or nothing. */
  lemma DirtyAddEffect(b: Backend, t: Tables, dev: Link, p: Peer, fates: Fates)
    requires !CleanAdd(b, p, fates)
    requires t.Keys !! Footprint(b, dev, p).Keys
    requires p.podCidr.parsed.Some? ==> RouteSlot(p.podCidr.parsed.value) !in t
    ensures var (t', ok) := AddPeer(b, t, dev, p, fates);
            ok == AddOk(b, p, fates) && t' != if ok then Footprint(b, dev, p) + t else t
  {
    AddReports(b, t, dev, p, fates);
    if Decodable(b, p) {
      var cidr := p.podCidr.parsed.value;
      var f := Footprint(b, dev, p);
      var (t', ok) := AddPeer(b, t, dev, p, fates);
      assert RouteSlot(cidr) in f + t;
      if b == Vxlan {
        assert NeighbourAt(dev, cidr.Network()) in f && ForwardOf(dev, PeerMac(p).value) in f;
        assert NeighbourAt(dev, cidr.Network()) !in t && ForwardOf(dev, PeerMac(p).value) !in t;
      }
    }
  }

  /** A clean remove takes away exactly what the peer stands for. */
  lemma CleanRemoveEffect(b: Backend, t: Tables, dev: Link, p: Peer, fates: Fates)
    requires Decodable(b, p) && CleanRemove(b, fates)
    requires var f := Footprint(b, dev, p); forall slot | slot in f :: slot in t && t[slot] == f[slot]
    ensures RemovePeer(b, t, dev, p, fates).0 == t - Footprint(b, dev, p).Keys
  {
    var slot := RouteSlot(p.podCidr.parsed.value);
    assert slot in Footprint(b, dev, p);
  }

  lemma DirtyRemoveEffect(b: Backend, t: Tables, dev: Link, p: Peer, fates: Fates)
    requires Decodable(b, p) && !CleanRemove(b, fates)
    requires var f := Footprint(b, dev, p); forall slot | slot in f :: slot in t && t[slot] == f[slot]
    ensures exists slot :: slot in Footprint(b, dev, p) && slot in RemovePeer(b, t, dev, p, fates).0
  {
    var f, t' := Footprint(b, dev, p), RemovePeer(b, t, dev, p, fates).0;
    var cidr := p.podCidr.parsed.value;
    assert RouteSlot(cidr) in f;
    if b == Vxlan {
      assert NeighbourAt(dev, cidr.Network()) in f && ForwardOf(dev, PeerMac(p).value) in f;
      assert RouteSlot(cidr) in t' || NeighbourAt(dev, cidr.Network()) in t' || ForwardOf(dev, PeerMac(p).value) in t';
    }
  }

  /**
   Entry by entry, what a vxlan add puts where nothing was: a route to the PodCIDR through its
   network address, the neighbour at that address, and where its link address is reached. The
   route needs the PodCIDR only, the other two the whole lease.
   */
  lemma VxlanAddMeans(t: Tables, dev: Link, p: Peer, fates: Fates)
    ensures var t' := AddPeer(Vxlan, t, dev, p, fates).0;
            && (forall slot | slot in t :: slot in t' && t'[slot] == t[slot])
            && forall slot | slot !in t ::
                 if slot !in t' then
                   match (p.podCidr.parsed, p.publicIp.parsed, PeerMac(p))
                   case (None, _, _) => true
                   case (Some(c), Some(_), Some(mac)) =>
                     && (slot == RouteTo(c.Network(), c.prefix) ==> fates.route != Handled)
                     && (slot == NeighbourAt(dev, c.Network()) ==> fates.neighbour != Handled)
                     && (slot == ForwardOf(dev, mac) ==> fates.forward != Handled)
                   case (Some(c), _, _) => slot == RouteTo(c.Network(), c.prefix) ==> fates.route != Handled
                 else
                   && p.podCidr.parsed.Some?
                   && var c := p.podCidr.parsed.value;
                   if slot.RouteTo? then
                     && slot == RouteTo(c.Network(), c.prefix) && t'[slot] == Via(dev, c.Network())
                     && fates.route == Handled
                   else
                     && PeerMac(p).Some? && p.publicIp.parsed.Some?
                     && if slot.NeighbourAt? then
                          && slot == NeighbourAt(dev, c.Network()) && t'[slot] == LinkAddress(PeerMac(p).value)
                          && fates.neighbour == Handled
                        else
                          && slot == ForwardOf(dev, PeerMac(p).value) && t'[slot] == Underlay(p.publicIp.parsed.value)
                          && fates.forward == Handled
  {
    hide PeerMac;
  }

  /** A host-gw add puts at most one route, to the PodCIDR through the public address. */
  lemma HostGwAddMeans(t: Tables, dev: Link, p: Peer, fates: Fates)
    ensures AddPeer(HostGw, t, dev, p, fates).0 ==
            match (p.podCidr.parsed, p.publicIp.parsed)
            case (Some(c), Some(ip)) =>
              if fates.route == Handled && RouteTo(c.Network(), c.prefix) !in t
              then t[RouteTo(c.Network(), c.prefix) := Via(dev, ip)]
              else t
            case _ => t
  {
  }

  /** The peer's entries on the device: what a remove goes for. */
  predicate Belongs(b: Backend, t: Tables, slot: Slot, dev: Link, cidr: Ipv4Network, p: Peer, fates: Fates) {
    && slot in t
    && match slot
       case RouteTo(net, prefix) =>
         && net == cidr.Network() && prefix == cidr.prefix && t[slot].Via? && t[slot].oif == dev
         && fates.route == Handled
       case NeighbourAt(d, ip) => b == Vxlan && d == dev && ip == cidr.Network() && fates.neighbour == Handled
       case ForwardOf(d, mac) => b == Vxlan && d == dev && PeerMac(p) == Some(mac) && fates.forward == Handled
  }

  /**
   What a remove reports and takes away. It fails, and takes nothing, if a field it needs does
   not parse or the routes cannot be listed; otherwise it succeeds, whatever the deletions do.
   */
  lemma RemoveMeans(b: Backend, t: Tables, dev: Link, p: Peer, fates: Fates)
    ensures var (t', ok) := RemovePeer(b, t, dev, p, fates);
            && (ok <==> p.podCidr.parsed.Some? && (b == Vxlan ==> PeerMac(p).Some?) && fates.route != Lost)
            && (!ok ==> t' == t)
            && (forall slot | slot in t' :: slot in t && t'[slot] == t[slot])
            && (ok ==> forall slot | slot in t ::
                  slot !in t' <==> Belongs(b, t, slot, dev, p.podCidr.parsed.value, p, fates))
  {
    hide PeerMac;
  }

  /** The interface an entry belongs to. */
  function DeviceOf(slot: Slot, entry: Entry): Option<Link> {
    match slot
    case RouteTo(_, _) => if entry.Via? then Some(entry.oif) else None
    case NeighbourAt(dev, _) => Some(dev)
    case ForwardOf(dev, _) => Some(dev)
  }

  /** The entries of all other interfaces. */
  function Elsewhere(t: Tables, dev: Link): Tables {
    map slot | slot in t && DeviceOf(slot, t[slot]) != Some(dev) :: t[slot]
  }

  lemma PutStaysOnDevice(t: Tables, slot: Slot, entry: Entry, fate: Fate, dev: Link)
    requires DeviceOf(slot, entry) == Some(dev)
    ensures Elsewhere(Put(t, slot, entry, fate), dev) == Elsewhere(t, dev)
  {
  }

  lemma DropStaysOnDevice(t: Tables, slot: Slot, fate: Fate, dev: Link)
    requires slot in t ==> DeviceOf(slot, t[slot]) == Some(dev)
    ensures Elsewhere(Drop(t, slot, fate), dev) == Elsewhere(t, dev)
  {
  }

  lemma AddStaysOnDevice(b: Backend, t: Tables, dev: Link, p: Peer, fates: Fates)
    ensures Elsewhere(AddPeer(b, t, dev, p, fates).0, dev) == Elsewhere(t, dev)
  {
    hide Put, Elsewhere, PeerMac;
    if p.podCidr.parsed.Some? {
      var cidr := p.podCidr.parsed.value;
      PutStaysOnDevice(t, RouteSlot(cidr), Via(dev, cidr.Network()), fates.route, dev);
      if p.publicIp.parsed.Some? {
        PutStaysOnDevice(t, RouteSlot(cidr), Via(dev, p.publicIp.parsed.value), fates.route, dev);
        if PeerMac(p).Some? {
          var t1 := RouteAdded(t, dev, p, fates.route).0;
          var t2 := Put(t1, NeighbourAt(dev, cidr.Network()), LinkAddress(PeerMac(p).value), fates.neighbour);
          PutStaysOnDevice(t1, NeighbourAt(dev, cidr.Network()), LinkAddress(PeerMac(p).value), fates.neighbour, dev);
          PutStaysOnDevice(t2, ForwardOf(dev, PeerMac(p).value), Underlay(p.publicIp.parsed.value), fates.forward, dev);
        }
      }
    }
  }

  lemma RemoveStaysOnDevice(b: Backend, t: Tables, dev: Link, p: Peer, fates: Fates)
    ensures Elsewhere(RemovePeer(b, t, dev, p, fates).0, dev) == Elsewhere(t, dev)
  {
    hide Drop, Elsewhere, PeerMac;
    if p.podCidr.parsed.Some? {
      var cidr := p.podCidr.parsed.value;
      var slot := RouteSlot(cidr);
      if slot in t && t[slot].Via? && t[slot].oif == dev {
        DropStaysOnDevice(t, slot, fates.route, dev);
      }
      if PeerMac(p).Some? {
        var t1 := DropRoute(t, slot, dev, fates.route);
        var t2 := Drop(t1, NeighbourAt(dev, cidr.Network()), fates.neighbour);
        DropStaysOnDevice(t1, NeighbourAt(dev, cidr.Network()), fates.neighbour, dev);
        DropStaysOnDevice(t2, ForwardOf(dev, PeerMac(p).value), fates.forward, dev);
      }
    }
  }
}
