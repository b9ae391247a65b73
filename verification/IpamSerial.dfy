/**
 Interleaved host-local processes behave as if run one after the other: in the order in
 which they give up the lock, the operations of every crash-free interleaving, whatever
 fails in them, form a sequential run, so what holds of those holds of the processes.
 */
module IpamSerial {
  import opened Wrappers
  import opened Ipv4
  import opened Alloc
  import opened Store
  import opened HostLocal
  import opened IpamRuns
  import opened IpamSystem

  /**
   An event of processes that do not crash: each gives up the lock when it is finished, or
   when it could not read the directory or remove a file. Dying while waiting stands for a
   process that could not open the directory or take the lock.
   */
  predicate CrashFree(a: Allocator, s: Sys, e: Event) {
    match e
    case Spawn(_, kind, _, _) => kind.Adding? ==> kind.alloc == a
    case Give(pid) =>
      pid in s.procs && (s.procs[pid].pc.Done? || s.procs[pid].pc.Entered? || s.procs[pid].pc.Releasing?)
    case Crash(pid, _, _) => pid in s.procs && s.procs[pid].pc.Waiting?
    case _ => true
  }

  ghost predicate CrashFreeRun(a: Allocator, states: seq<Sys>, events: seq<Event>) {
    && Interleaving(states, events)
    && forall k | 0 <= k < |events| :: CrashFree(a, states[k], events[k])
  }

  /** How the writes of the process in the lock went. */
  datatype Wrote = Wrote(lease: Write, cursor: CursorWrite)

  const NOTHING_LOST := Wrote(Written, CursorWritten)

  function Recorded(wrote: Wrote, e: Event): Wrote {
    match e
    case Lock(_) => NOTHING_LOST
    case WriteLease(_, lease) => wrote.(lease := lease)
    case WriteCursor(_, cursor) => wrote.(cursor := cursor)
    case _ => wrote
  }

  function WroteAt(events: seq<Event>, k: nat): Wrote
    requires k <= |events|
  {
    if k == 0 then NOTHING_LOST else Recorded(WroteAt(events, k - 1), events[k - 1])
  }

  /** The operation of a process that ends where it stands now. */
  function OpOf(d: Dir, p: Proc, wrote: Wrote): Op {
    if p.kind.Adding? then
      AddOp(p.cid, p.ifname, Faults(false, false, p.pc.Entered?, wrote.lease, wrote.cursor, {}))
    else DelOp(p.cid, p.ifname, if p.pc.Releasing? then p.pc.pending else d.leases.Keys)
  }

  /** An operation that gave up the lock, with the address it came away with. */
  datatype Served = Served(op: Op, result: Option<Addr>)

  function ServedBy(s: Sys, e: Event, wrote: Wrote): seq<Served> {
    if e.Give? && e.pid in s.procs then
      var p := s.procs[e.pid];
      [Served(OpOf(s.dir, p, wrote), if p.pc.Done? then p.pc.result else None)]
    else []
  }

  /** The operations in the order in which they gave up the lock. */
  function Serial(states: seq<Sys>, events: seq<Event>, k: nat): seq<Served>
    requires k <= |events| < |states|
  {
    if k == 0 then []
    else Serial(states, events, k - 1) + ServedBy(states[k - 1], events[k - 1], WroteAt(events, k - 1))
  }

  function Ops(served: seq<Served>): seq<Op> {
    seq(|served|, i requires 0 <= i < |served| => served[i].op)
  }

  /** The directory d a process has made of the directory it found when it got the lock. */
  ghost predicate PartWay(a: Allocator, found: Dir, d: Dir, p: Proc, wrote: Wrote) {
    && (p.kind.Adding? ==> p.kind.alloc == a)
    && var next := NextFree(a, found.leases.Keys, found.cursor);
       match p.pc
       case Entered => d == found && wrote == NOTHING_LOST
       case Listed(leased) => p.kind.Adding? && d == found && leased == found.leases.Keys && wrote == NOTHING_LOST
       case Chosen(ip) => p.kind.Adding? && d == found && next == Some(ip) && wrote == NOTHING_LOST
       case Leased(ip) => p.kind.Adding? && next == Some(ip) && d == WithLease(found, ip, p) && wrote == NOTHING_LOST
       case Done(result) =>
         p.kind.Adding? && d == Do(a, found, OpOf(d, p, wrote)) && result == Given(a, found, OpOf(d, p, wrote))
       case Releasing(pending) =>
         && p.kind.Deleting? && pending <= found.leases.Keys
         && d == Dir(found.leases - (Owned(found.leases, p.cid, p.ifname) - pending), found.cursor)
       case _ => false
  }

  function WithLease(d: Dir, ip: Addr, p: Proc): Dir {
    d.(leases := d.leases[ip := LeaseText(p.cid, p.ifname)])
  }

  /** A free lock: the directory is as the served operations left it; otherwise its holder is part way. */
  ghost predicate InProgress(a: Allocator, found: Dir, s: Sys, wrote: Wrote) {
    && (forall pid | pid in s.procs :: s.procs[pid].kind.Adding? ==> s.procs[pid].kind.alloc == a)
    && match s.holder
       case None => s.dir == found
       case Some(pid) => pid in s.procs && PartWay(a, found, s.dir, s.procs[pid], wrote)
  }

  /** A process that ends where it may has done its operation. */
  lemma FinishedIsDone(a: Allocator, found: Dir, d: Dir, p: Proc, wrote: Wrote)
    requires PartWay(a, found, d, p, wrote) && (p.pc.Done? || p.pc.Entered? || p.pc.Releasing?)
    ensures d == Do(a, found, OpOf(d, p, wrote))
    ensures Given(a, found, OpOf(d, p, wrote)) == if p.pc.Done? then p.pc.result else None
  {
    hide LeaseText, ReleaseMatches, FirstFree;
    if p.pc.Entered? {
      assert found.leases - (Owned(found.leases, p.cid, p.ifname) - found.leases.Keys) == found.leases;
    }
  }

  /** One more file looked at by a DEL. */
  lemma RemovedOne(leases: Leases, cid: string, ifname: string, pending: set<Addr>, ip: Addr)
    requires ip in pending && pending <= leases.Keys
    ensures var now := leases - (Owned(leases, cid, ifname) - pending);
            && ip in now
            && leases - (Owned(leases, cid, ifname) - (pending - {ip}))
               == if ReleaseMatches(now[ip], cid, ifname) then now - {ip} else now
  {
    hide ReleaseMatches;
  }

  /** A step of the process inside the lock. */
  lemma InsideStep(a: Allocator, found: Dir, s: Sys, e: Event, wrote: Wrote)
    requires Enabled(s, e) && CrashFree(a, s, e) && !e.Spawn? && !e.Lock? && !e.Give? && !e.Crash?
    requires e.pid in s.procs && PartWay(a, found, s.dir, s.procs[e.pid], wrote)
    ensures Moves(a, found, s, e, wrote)
  {
    hide LeaseText, ReleaseMatches, FirstFree, Do, Given;
    if e.RemoveOne? || e.Scan? {
      DelStep(a, found, s, e, wrote);
    } else if e.WriteLease? || e.WriteCursor? {
      WriteStep(a, found, s, e, wrote);
    } else if e.Choose? && Next(s, e).procs[e.pid].pc.Done? {
      NothingFree(a, found, s, e, wrote);
    }
  }

  /** The part of a step that is about the process that makes it. */
  ghost predicate Moves(a: Allocator, found: Dir, s: Sys, e: Event, wrote: Wrote)
    requires Enabled(s, e) && e.pid in s.procs
  {
    var s' := Next(s, e);
    && s'.holder == s.holder && s'.procs.Keys == s.procs.Keys
    && (forall q | q in s.procs && q != e.pid :: s'.procs[q] == s.procs[q])
    && s'.procs[e.pid].kind == s.procs[e.pid].kind
    && PartWay(a, found, s'.dir, s'.procs[e.pid], Recorded(wrote, e))
  }

  lemma DelStep(a: Allocator, found: Dir, s: Sys, e: Event, wrote: Wrote)
    requires Enabled(s, e) && (e.RemoveOne? || e.Scan?)
    requires e.pid in s.procs && PartWay(a, found, s.dir, s.procs[e.pid], wrote)
    ensures Moves(a, found, s, e, wrote)
  {
    hide LeaseText, ReleaseMatches, FirstFree, Do, Given;
    var p := s.procs[e.pid];
    if e.RemoveOne? {
      RemovedOne(found.leases, p.cid, p.ifname, p.pc.pending, e.ip);
    } else {
      assert found.leases - (Owned(found.leases, p.cid, p.ifname) - found.leases.Keys) == found.leases;
    }
  }

  lemma WriteStep(a: Allocator, found: Dir, s: Sys, e: Event, wrote: Wrote)
    requires Enabled(s, e) && (e.WriteLease? || e.WriteCursor?)
    requires e.pid in s.procs && PartWay(a, found, s.dir, s.procs[e.pid], wrote)
    ensures Moves(a, found, s, e, wrote)
  {
    hide LeaseText, ReleaseMatches, FirstFree;
  }

  lemma NothingFree(a: Allocator, found: Dir, s: Sys, e: Event, wrote: Wrote)
    requires Enabled(s, e) && e.Choose? && Next(s, e).procs[e.pid].pc.Done?
    requires PartWay(a, found, s.dir, s.procs[e.pid], wrote)
    ensures Moves(a, found, s, e, wrote)
  {
    hide LeaseText, ReleaseMatches, FirstFree;
  }

  lemma CrashFreeStep(a: Allocator, start: set<Addr>, found: Dir, s: Sys, e: Event, wrote: Wrote)
    requires Inv(start, s) && Enabled(s, e) && CrashFree(a, s, e) && InProgress(a, found, s, wrote) && !e.Give?
    ensures InProgress(a, found, Next(s, e), Recorded(wrote, e))
  {
    if e.Spawn? || e.Lock? || e.Crash? {
      HolderOnly(a, start, found, s, e, wrote);
    } else {
      assert s.holder == Some(e.pid) && e.pid in s.procs;
      hide PartWay, CrashFree, Next, Inv, Enabled, Recorded;
      InsideStep(a, found, s, e, wrote);
    }
  }

  /** Coming, dying while waiting and taking the lock leave the directory alone. */
  lemma HolderOnly(a: Allocator, start: set<Addr>, found: Dir, s: Sys, e: Event, wrote: Wrote)
    requires Inv(start, s) && Enabled(s, e) && CrashFree(a, s, e) && InProgress(a, found, s, wrote)
    requires e.Spawn? || e.Lock? || e.Crash?
    ensures InProgress(a, found, Next(s, e), Recorded(wrote, e))
  {
    hide LiveAfter, NeverOverwrites, PcOk, NextFree;
    assert PartWay(a, found, found, Proc(Deleting, "", "", Entered), NOTHING_LOST);
  }

  lemma CrashFreeGive(a: Allocator, start: set<Addr>, found: Dir, s: Sys, e: Event, wrote: Wrote)
    requires Inv(start, s) && Enabled(s, e) && CrashFree(a, s, e) && InProgress(a, found, s, wrote) && e.Give?
    ensures var op := OpOf(s.dir, s.procs[e.pid], wrote);
            && InProgress(a, Do(a, found, op), Next(s, e), Recorded(wrote, e))
            && ServedBy(s, e, wrote) == [Served(op, Given(a, found, op))]
  {
    hide LiveAfter, NeverOverwrites, PcOk, PartWay, Do, Given, OpOf;
    FinishedIsDone(a, found, s.dir, s.procs[e.pid], wrote);
  }

  /** The directories of a sequential run of what was served, with the results that were given. */
  ghost predicate SerialAs(a: Allocator, dirs: seq<Dir>, first: Dir, served: seq<Served>) {
    && Run(a, dirs, Ops(served)) && dirs[0] == first
    && forall m | 0 <= m < |served| :: Given(a, dirs[m], served[m].op) == served[m].result
  }

  /** Every crash-free interleaving is such a sequential run. */
  lemma {:induction false} InterleavingIsSerial(a: Allocator, states: seq<Sys>, events: seq<Event>, k: nat)
    returns (dirs: seq<Dir>)
    requires CrashFreeRun(a, states, events) && k <= |events|
    ensures var served := Serial(states, events, k);
            && SerialAs(a, dirs, states[0].dir, served) && |dirs| == |served| + 1
            && InProgress(a, dirs[|served|], states[k], WroteAt(events, k))
  {
    if k == 0 {
      dirs := [states[0].dir];
    } else {
      var s, e, wrote := states[k - 1], events[k - 1], WroteAt(events, k - 1);
      var before := InterleavingIsSerial(a, states, events, k - 1);
      var served := Serial(states, events, k - 1);
      Always(states, events, k - 1);
      var start := states[0].dir.leases.Keys;
      assert Enabled(s, e) && states[k] == Next(s, e) && CrashFree(a, s, e);
      hide CrashFreeRun, Interleaving, Enabled, Next, Inv, InProgress, CrashFree, Do, Given, SerialAs, OpOf, Recorded;
      if e.Give? {
        CrashFreeGive(a, start, before[|served|], s, e, wrote);
        var one := ServedBy(s, e, wrote)[0];
        RunExtends(a, before, states[0].dir, served, one);
        dirs := before + [Do(a, before[|served|], one.op)];
      } else {
        CrashFreeStep(a, start, before[|served|], s, e, wrote);
        dirs := before;
        assert Serial(states, events, k) == served;
      }
    }
  }

  lemma RunExtends(a: Allocator, dirs: seq<Dir>, first: Dir, served: seq<Served>, one: Served)
    requires SerialAs(a, dirs, first, served) && |dirs| == |served| + 1
    requires Given(a, dirs[|served|], one.op) == one.result
    ensures SerialAs(a, dirs + [Do(a, dirs[|served|], one.op)], first, served + [one])
  {
    hide Do, Given;
  }

  /** An operation that did not fail in its cursor write. */
  predicate KeepsCursor(op: Op) {
    op.AddOp? ==> op.f.cursor == CursorWritten
  }

  /**
   Round robin for interleaved processes, whatever fails in them: between two operations
   that came away with the same address, every other usable address was given out, or found
   leased, by an ADD served after the first, up to the second, if no operation served in
   between failed in its cursor write.
   */
  lemma InterleavedRoundRobin(a: Allocator, states: seq<Sys>, events: seq<Event>, k: nat,
                              i: nat, j: nat, x: Addr, h: Addr)
    returns (dirs: seq<Dir>, m: nat)
    requires CrashFreeRun(a, states, events) && k <= |events|
    requires var served := Serial(states, events, k);
             && i < j < |served| && served[i].result == Some(x) && served[j].result == Some(x)
             && forall n | i < n < j :: KeepsCursor(served[n].op)
    requires Usable(a, h) && h != x
    ensures var served := Serial(states, events, k);
            && Run(a, dirs, Ops(served)) && dirs[0] == states[0].dir
            && i < m <= j && Searches(served[m].op) && (served[m].result == Some(h) || h in dirs[m].leases)
  {
    dirs := InterleavingIsSerial(a, states, events, k);
    var served := Serial(states, events, k);
    var ops := Ops(served);
    hide CrashFreeRun, InProgress, Usable, Serial, Interleaving, WroteAt;
    assert forall n | 0 <= n < |served| :: Given(a, dirs[n], ops[n]) == served[n].result;
    forall n | i < n < j
      ensures !LosesCursor(a, dirs[n], ops[n])
    {
      assert KeepsCursor(served[n].op);
    }
    ReuseOnlyAfterFullSweep(a, dirs, ops, i, j, x, h);
    hide Run, Given, LosesCursor;
    m :| && i + 1 <= m < j + 1 && Searches(ops[m])
         && (Given(a, dirs[m], ops[m]) == Some(h) || h in dirs[m].leases);
  }

  /**
   Lease conservation for interleaved processes: whenever the lock is free, a pair owns what
   its served ADDs leased since its last complete DEL.
   */
  lemma InterleavedConservation(a: Allocator, states: seq<Sys>, events: seq<Event>, k: nat, cid: string, ifname: string)
    returns (dirs: seq<Dir>)
    requires CrashFreeRun(a, states, events) && k <= |events| && states[k].holder == None
    requires forall one | one in Serial(states, events, k) :: PlainOp(one.op)
    ensures var ops := Ops(Serial(states, events, k));
            && Run(a, dirs, ops) && dirs[0] == states[0].dir && dirs[|ops|] == states[k].dir
            && Owned(states[k].dir.leases, cid, ifname) == Holding(a, dirs, ops, |ops|, cid, ifname)
  {
    dirs := InterleavingIsSerial(a, states, events, k);
    var served := Serial(states, events, k);
    var ops := Ops(served);
    assert forall op | op in ops :: PlainOp(op) by {
      forall op | op in ops
        ensures PlainOp(op)
      {
        var m :| 0 <= m < |served| && ops[m] == op;
        assert served[m] in served;
      }
    }
    hide CrashFreeRun, PlainOp, Serial, Ops, Holding, Owned;
    LeasesConserved(a, dirs, ops, |ops|, cid, ifname);
  }
}
