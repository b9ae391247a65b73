/** The host-local plugin's commands: locked transactions on the lease directory. */
module HostLocal {
  import opened Wrappers
  import opened Ipv4
  import opened Alloc
  import opened Store

  datatype IpamError =
    | Config(why: ConfigError)
    | OpenFailed
    | LockFailed
    | ReadFailed
    | Exhausted
    | WriteFailed
    | ReleaseFailed
    | NotAllocated

  datatype Grant = Grant(ip: Addr, prefix: Prefix, gateway: Addr)

  /** What goes wrong with the file system during one command. */
  datatype Faults = Faults(open: bool, lock: bool, list: bool, lease: Write, cursor: CursorWrite, stuck: set<Addr>)

  predicate NoFaults(f: Faults) {
    !f.open && !f.lock && !f.list && f.lease == Written && f.cursor == CursorWritten && f.stuck == {}
  }

  ghost function AddOutcome(d: Dir, ranges: seq<seq<Range>>, cid: string, ifname: string, f: Faults)
    : (Dir, Result<Grant, IpamError>)
  {
    match AllocatorFor(ranges)
    case Err(why) => (d, Err(Config(why)))
    case Ok(a) =>
      if f.open then (d, Err(OpenFailed))
      else if f.lock then (d, Err(LockFailed))
      else if f.list then (d, Err(ReadFailed))
      else
        match NextFree(a, d.leases.Keys, d.cursor)
        case None => (d, Err(Exhausted))
        case Some(ip) =>
          var (d', ok) := Reserved(d, ip, cid, ifname, f.lease, f.cursor);
          (d', if ok then Ok(Grant(ip, a.net.prefix, a.gateway)) else Err(WriteFailed))
  }

  /** An ADD succeeds exactly if the configuration is accepted, nothing fails, and a usable address is free. */
  lemma AddSucceedsIff(d: Dir, ranges: seq<seq<Range>>, cid: string, ifname: string, f: Faults)
    ensures AddOutcome(d, ranges, cid, ifname, f).1.Ok? <==>
              && AllocatorFor(ranges).Ok?
              && !f.open && !f.lock && !f.list && f.lease == Written && f.cursor == CursorWritten
              && exists ip: Addr :: Usable(AllocatorFor(ranges).value, ip) && ip !in d.leases
  {
    if ip: Addr :| AllocatorFor(ranges).Ok? && Usable(AllocatorFor(ranges).value, ip) && ip !in d.leases {
      FreeIsFound(AllocatorFor(ranges).value, d.leases.Keys, d.cursor, ip);
    }
  }

  /**
   What a served ADD grants, read off the first range and the directory: an address strictly
   inside the subnet that was not leased before, the subnet's own prefix, and the named
   gateway or else the first address. On disk it adds one lease file, naming the container
   and its interface, and the cursor.
   */
  lemma GrantMeans(d: Dir, ranges: seq<seq<Range>>, cid: string, ifname: string, f: Faults)
    requires AddOutcome(d, ranges, cid, ifname, f).1.Ok?
    ensures ranges != [] && ranges[0] != [] && ranges[0][0].subnet.parsed.Some?
    ensures var net, gateway := ranges[0][0].subnet.parsed.value, ranges[0][0].gateway;
            var (d', r) := AddOutcome(d, ranges, cid, ifname, f);
            && net.Network() < r.value.ip < net.Broadcast()
            && r.value.ip !in d.leases && r.value.ip != r.value.gateway
            && r.value.prefix == net.prefix
            && (gateway.Some? ==> gateway.value.parsed == Some(r.value.gateway))
            && (gateway.None? ==> r.value.gateway == net.Network() + 1)
            && d' == Dir(d.leases[r.value.ip := cid + "\n" + ifname], Some(r.value.ip))
  {
    var net := ranges[0][0].subnet.parsed.value;
    var ip := AddOutcome(d, ranges, cid, ifname, f).1.value.ip;
    NextFreeMeans(AllocatorFor(ranges).value, d.leases.Keys, d.cursor);
    ContainsIsInterval(net, net.Network());
    SmallRemainder(net.Network() + 1, ADDRESS_COUNT);
  }

  /** What refuses an ADD: the first thing wrong. Only a write that fails can have changed the directory. */
  lemma RefusalMeans(d: Dir, ranges: seq<seq<Range>>, cid: string, ifname: string, f: Faults)
    ensures var (d', r) := AddOutcome(d, ranges, cid, ifname, f);
            var accepted := ranges != [] && ranges[0] != [] && Acceptable(ranges[0][0]);
            && (r.Err? && r.error.Config? <==> !accepted)
            && (r == Err(OpenFailed) <==> accepted && f.open)
            && (r == Err(LockFailed) <==> accepted && f.lock && !f.open)
            && (r == Err(ReadFailed) <==> accepted && f.list && !f.open && !f.lock)
            && (r == Err(Exhausted) <==>
                  && accepted && !f.open && !f.lock && !f.list
                  && forall ip: Addr | Usable(AllocatorFor(ranges).value, ip) :: ip in d.leases)
            && (r.Err? && r != Err(WriteFailed) ==> d' == d)
            && (r.Err? ==> r.error.Config? || r.error in {OpenFailed, LockFailed, ReadFailed, Exhausted, WriteFailed})
  {
    AcceptedConfiguration(ranges);
    if AllocatorFor(ranges).Ok? {
      NextFreeMeans(AllocatorFor(ranges).value, d.leases.Keys, d.cursor);
    }
  }

  /** What an ADD whose write failed leaves: nothing, part of a lease file, or the lease without the cursor. */
  lemma TornAddMeans(d: Dir, ranges: seq<seq<Range>>, cid: string, ifname: string, f: Faults)
    requires AddOutcome(d, ranges, cid, ifname, f).1 == Err(WriteFailed)
    ensures var d' := AddOutcome(d, ranges, cid, ifname, f).0;
            exists ip: Addr ::
              && Usable(AllocatorFor(ranges).value, ip) && ip !in d.leases
              && match f.lease
                 case NotWritten(None) => d' == d
                 case NotWritten(Some(left)) => d' == Dir(d.leases[ip := left], d.cursor)
                 case Written =>
                   f.cursor.CursorLost? && d' == Dir(d.leases[ip := cid + "\n" + ifname], f.cursor.readsAs)
  {
    NextFreeMeans(AllocatorFor(ranges).value, d.leases.Keys, d.cursor);
    var ip := NextFree(AllocatorFor(ranges).value, d.leases.Keys, d.cursor).value;
    assert Usable(AllocatorFor(ranges).value, ip);
  }

  /** For one, any /24 with an empty directory. */
  lemma FirstAddSucceeds(net: Addr, cid: string, ifname: string) returns (ranges: seq<seq<Range>>, f: Faults)
    requires net % 256 == 0
    ensures AddOutcome(Dir(map[], None), ranges, cid, ifname, f).1.Ok? && NoFaults(f)
  {
    ranges := [[Range(Field("", Some(Ipv4Network(net, 24))), None)]];
    f := Faults(false, false, false, Written, CursorWritten, {});
    AddSucceedsIff(Dir(map[], None), ranges, cid, ifname, f);
    assert Pow2(8) == 256;
    assert AllocatorFor(ranges).value.gateway == net + 1;
    assert Usable(AllocatorFor(ranges).value, net + 2);
  }

  method CmdAdd(store: Store, ranges: seq<seq<Range>>, cid: string, ifname: string, f: Faults)
    returns (r: Result<Grant, IpamError>)
    modifies store
    ensures (store.Contents(), r) == AddOutcome(old(store.Contents()), ranges, cid, ifname, f)
  {
    var alloc := AllocatorFor(ranges);
    if alloc.Err? {
      return Err(Config(alloc.error));
    }
    var a := alloc.value;
    if f.open {
      return Err(OpenFailed);
    }
    if f.lock {
      return Err(LockFailed);
    }
    if f.list {
      return Err(ReadFailed);
    }
    var leased := store.Leased();
    var next := NextIp(a, leased, store.cursor);
    if next.None? {
      return Err(Exhausted);
    }
    var ok := store.Reserve(next.value, cid, ifname, f.lease, f.cursor);
    if !ok {
      return Err(WriteFailed);
    }
    return Ok(Grant(next.value, a.net.prefix, a.gateway));
  }

  /** Removing a pair's leases; a stuck file stops the removal part of the way. */
  method CmdDel(store: Store, cid: string, ifname: string, f: Faults)
    returns (r: Result<(), IpamError>, ghost gone: set<Addr>)
    modifies store`leases
    ensures store.leases == old(store.leases) - gone && gone <= Owned(old(store.leases), cid, ifname)
    ensures r.Ok? <==> !f.open && !f.lock && !f.list && Owned(old(store.leases), cid, ifname) !! f.stuck
    ensures r.Ok? ==> gone == Owned(old(store.leases), cid, ifname)
    ensures f.open || f.lock || f.list ==> gone == {}
    ensures r.Err? ==> r.error == if f.open then OpenFailed else if f.lock then LockFailed else ReleaseFailed
  {
    if f.open {
      return Err(OpenFailed), {};
    }
    if f.lock {
      return Err(LockFailed), {};
    }
    if f.list {
      return Err(ReleaseFailed), {};
    }
    var ok;
    ok, gone := store.Release(cid, ifname, f.stuck);
    return if ok then Ok(()) else Err(ReleaseFailed), gone;
  }

  method CmdCheck(store: Store, cid: string, ifname: string, f: Faults) returns (r: Result<(), IpamError>)
    ensures r == if f.open then Err(OpenFailed) else if f.list then Err(ReadFailed)
                 else if exists ip :: ip in store.leases && HasMatches(store.leases[ip], cid, ifname) then Ok(())
                 else Err(NotAllocated)
  {
    if f.open {
      return Err(OpenFailed);
    }
    if f.list {
      return Err(ReadFailed);
    }
    var found := store.Has(cid, ifname);
    return if found then Ok(()) else Err(NotAllocated);
  }
}
