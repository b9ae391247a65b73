/** The bridge plugin's ADD as a transaction over its IPAM allocation. */
module Bridge {
  import opened Wrappers
  import opened Ipv4
  import opened Alloc
  import opened Store
  import opened HostLocal

  datatype BridgeError = BridgeFailed | NoDelegate | IpamFailed(why: IpamError) | WiringFailed

  /** How the parts of one ADD fare: the bridge, the two delegate calls, and wiring the pod. */
  datatype Attempt = Attempt(bridge: bool, delegate: bool, add: Faults, wired: bool, rollback: bool, del: Faults)

  /** Nothing keeps a DEL from removing these leases. */
  predicate Gets(f: Faults, leases: set<Addr>) {
    !f.open && !f.lock && !f.list && leases !! f.stuck
  }

  /** Releases the allocation if the delegate can be run; its outcome is ignored. */
  method IpamDel(store: Store, cid: string, ifname: string, attempt: Attempt) returns (ghost gone: set<Addr>)
    modifies store`leases
    ensures store.leases == old(store.leases) - gone && gone <= Owned(old(store.leases), cid, ifname)
    ensures attempt.rollback && Gets(attempt.del, Owned(old(store.leases), cid, ifname)) ==>
              gone == Owned(old(store.leases), cid, ifname)
    ensures !attempt.rollback ==> gone == {}
  {
    if attempt.rollback {
      var r;
      r, gone := CmdDel(store, cid, ifname, attempt.del);
    } else {
      gone := {};
    }
  }

  /** The leases after an allocation and its rollback. */
  ghost function RolledBack(d: Dir, ranges: seq<seq<Range>>, cid: string, ifname: string, add: Faults): Leases {
    var leases := AddOutcome(d, ranges, cid, ifname, add).0.leases;
    leases - Owned(leases, cid, ifname)
  }

  /** ADD relays the allocation when the pod is wired, and releases it when wiring fails. */
  method CmdAdd(store: Store, ranges: seq<seq<Range>>, cid: string, ifname: string, attempt: Attempt)
    returns (r: Result<Grant, BridgeError>, ghost gone: set<Addr>)
    modifies store
    ensures !attempt.bridge || !attempt.delegate ==>
              r == Err(if attempt.bridge then NoDelegate else BridgeFailed) && store.Contents() == old(store.Contents())
    ensures attempt.bridge && attempt.delegate ==>
              var (d, granted) := AddOutcome(old(store.Contents()), ranges, cid, ifname, attempt.add);
              match granted
              case Err(why) => r == Err(IpamFailed(why)) && store.Contents() == d
              case Ok(grant) =>
                if attempt.wired then r == Ok(grant) && store.Contents() == d
                else
                  && r == Err(WiringFailed) && store.cursor == d.cursor
                  && store.leases == d.leases - gone && gone <= Owned(d.leases, cid, ifname)
                  && (!attempt.rollback ==> gone == {})
                  && (attempt.rollback && Gets(attempt.del, Owned(d.leases, cid, ifname)) ==>
                           store.leases == RolledBack(old(store.Contents()), ranges, cid, ifname, attempt.add))
  {
    gone := {};
    if !attempt.bridge {
      return Err(BridgeFailed), gone;
    }
    if !attempt.delegate {
      return Err(NoDelegate), gone;
    }
    var granted := HostLocal.CmdAdd(store, ranges, cid, ifname, attempt.add);
    if granted.Err? {
      return Err(IpamFailed(granted.error)), gone;
    }
    if attempt.wired {
      return Ok(granted.value), gone;
    }
    gone := IpamDel(store, cid, ifname, attempt);
    return Err(WiringFailed), gone;
  }

  /**
   A rolled-back ADD leaves the pair without leases; it leaves every other lease as it
   was exactly if the pair's texts are plain, for otherwise the new lease stays behind.
   */
  lemma RollbackUndoesAllocation(d: Dir, ranges: seq<seq<Range>>, cid: string, ifname: string, add: Faults)
    requires AddOutcome(d, ranges, cid, ifname, add).1.Ok?
    ensures Owned(RolledBack(d, ranges, cid, ifname, add), cid, ifname) == {}
    ensures RolledBack(d, ranges, cid, ifname, add) == d.leases - Owned(d.leases, cid, ifname)
            <==> PlainId(cid) && '\n' !in ifname
  {
    var ip := AddOutcome(d, ranges, cid, ifname, add).1.value.ip;
    LeaseOwnerRoundTrip(cid, ifname);
    hide LeaseText, ReleaseMatches, PlainId, FirstFree, AllocatorFor;
    FreshAddress(d, ranges, cid, ifname, add);
    var leases := d.leases[ip := LeaseText(cid, ifname)];
    assert AddOutcome(d, ranges, cid, ifname, add).0.leases == leases;
    assert Owned(leases, cid, ifname)
           == Owned(d.leases, cid, ifname) + if PlainId(cid) && '\n' !in ifname then {ip} else {};
    if !(PlainId(cid) && '\n' !in ifname) {
      assert ip in RolledBack(d, ranges, cid, ifname, add);
    }
  }

  /** Such an ADD exists for any pair. */
  lemma SomeRollback(net: Addr, cid: string, ifname: string) returns (ranges: seq<seq<Range>>, add: Faults)
    requires net % 256 == 0
    ensures Owned(RolledBack(Dir(map[], None), ranges, cid, ifname, add), cid, ifname) == {}
    ensures RolledBack(Dir(map[], None), ranges, cid, ifname, add) == map[] <==> PlainId(cid) && '\n' !in ifname
  {
    ranges, add := FirstAddSucceeds(net, cid, ifname);
    RollbackUndoesAllocation(Dir(map[], None), ranges, cid, ifname, add);
  }

  lemma FreshAddress(d: Dir, ranges: seq<seq<Range>>, cid: string, ifname: string, add: Faults)
    requires AddOutcome(d, ranges, cid, ifname, add).1.Ok?
    ensures AddOutcome(d, ranges, cid, ifname, add).1.value.ip !in d.leases
  {
  }
}
