/**
 Any number of host-local processes on one lease directory, interleaved at the level
 of single file operations, each of which may fail, and any of which may crash.
 */
module IpamSystem {
  import opened Wrappers
  import opened Ipv4
  import opened Alloc
  import opened Store
  import opened HostLocal

  type Pid = nat

  /** Where a process stands. Between taking and giving up the lock it is inside. */
  datatype Pc =
    | Waiting
    | Entered
    | Listed(leased: set<Addr>)
    | Chosen(ip: Addr)
    | Leased(ip: Addr)
    | Releasing(pending: set<Addr>)
    | Done(result: Option<Addr>)
    | Exited(result: Option<Addr>)

  /** An ADD carries the allocator made from its own configuration. */
  datatype Kind = Adding(alloc: Allocator) | Deleting

  datatype Proc = Proc(kind: Kind, cid: string, ifname: string, pc: Pc)

  predicate Inside(pc: Pc) {
    !pc.Waiting? && !pc.Exited?
  }

  /** What happened to lease files, in order. */
  datatype Mark = Put(pid: Pid, ip: Addr) | Removed(ip: Addr)

  datatype Sys = Sys(dir: Dir, holder: Option<Pid>, procs: map<Pid, Proc>, log: seq<Mark>)

  datatype Event =
    | Spawn(pid: Pid, kind: Kind, cid: string, ifname: string)
    | Lock(pid: Pid)
    | List(pid: Pid)
    | Choose(pid: Pid)
    | WriteLease(pid: Pid, lease: Write)
    | WriteCursor(pid: Pid, cursor: CursorWrite)
    | Scan(pid: Pid)
    | RemoveOne(pid: Pid, ip: Addr)
    | Give(pid: Pid)
    | Crash(pid: Pid, lease: Write, cursor: CursorWrite)

  function Moved(s: Sys, pid: Pid, pc: Pc): map<Pid, Proc>
    requires pid in s.procs
  {
    s.procs[pid := s.procs[pid].(pc := pc)]
  }

  function Unlocked(s: Sys, pid: Pid): Option<Pid> {
    if s.holder == Some(pid) then None else s.holder
  }

  /** Whether an event can happen. */
  predicate Enabled(s: Sys, e: Event) {
    match e
    case Spawn(pid, _, _, _) => pid !in s.procs
    case Lock(pid) => pid in s.procs && s.procs[pid].pc.Waiting? && s.holder.None?
    case List(pid) => pid in s.procs && s.procs[pid].pc.Entered? && s.procs[pid].kind.Adding?
    case Choose(pid) => pid in s.procs && s.procs[pid].pc.Listed? && s.procs[pid].kind.Adding?
    case WriteLease(pid, _) => pid in s.procs && s.procs[pid].pc.Chosen?
    case WriteCursor(pid, _) => pid in s.procs && s.procs[pid].pc.Leased?
    case Scan(pid) => pid in s.procs && s.procs[pid].pc.Entered? && s.procs[pid].kind.Deleting?
    case RemoveOne(pid, ip) => pid in s.procs && s.procs[pid].pc.Releasing? && ip in s.procs[pid].pc.pending
    case Give(pid) => pid in s.procs && Inside(s.procs[pid].pc)
    case Crash(pid, _, _) => pid in s.procs && !s.procs[pid].pc.Exited?
  }

  /** The lease write of a process that has chosen an address, complete or not. */
  function LeaseWritten(s: Sys, pid: Pid, lease: Write): Sys
    requires pid in s.procs && s.procs[pid].pc.Chosen?
  {
    var p := s.procs[pid];
    var leases := AfterLease(s.dir.leases, p.pc.ip, LeaseText(p.cid, p.ifname), lease);
    var left := lease == Written || lease.left.Some?;
    s.(dir := s.dir.(leases := leases), log := if left then s.log + [Put(pid, p.pc.ip)] else s.log)
  }

  function CursorAfter(ip: Addr, cursor: CursorWrite): Option<Addr> {
    match cursor
    case CursorWritten => Some(ip)
    case CursorLost(readsAs) => readsAs
  }

  /**
   One step. A write that fails or is cut short by a crash may leave a torn file, and a
   torn lease file still occupies its name. The lock goes with the process that holds it.
   */
  ghost function Next(s: Sys, e: Event): Sys
    requires Enabled(s, e)
  {
    match e
    case Spawn(pid, kind, cid, ifname) => s.(procs := s.procs[pid := Proc(kind, cid, ifname, Waiting)])
    case Lock(pid) => s.(holder := Some(pid), procs := Moved(s, pid, Entered))
    case List(pid) => s.(procs := Moved(s, pid, Listed(s.dir.leases.Keys)))
    case Choose(pid) =>
      (match NextFree(s.procs[pid].kind.alloc, s.procs[pid].pc.leased, s.dir.cursor)
       case Some(ip) => s.(procs := Moved(s, pid, Chosen(ip)))
       case None => s.(procs := Moved(s, pid, Done(None))))
    case WriteLease(pid, lease) =>
      var next := if lease == Written then Leased(s.procs[pid].pc.ip) else Done(None);
      LeaseWritten(s, pid, lease).(procs := Moved(s, pid, next))
    case WriteCursor(pid, cursor) =>
      var ip := s.procs[pid].pc.ip;
      s.(dir := s.dir.(cursor := CursorAfter(ip, cursor)),
         procs := Moved(s, pid, Done(if cursor == CursorWritten then Some(ip) else None)))
    case Scan(pid) => s.(procs := Moved(s, pid, Releasing(s.dir.leases.Keys)))
    case RemoveOne(pid, ip) =>
      var p := s.procs[pid];
      var rest := Moved(s, pid, Releasing(p.pc.pending - {ip}));
      if ip in s.dir.leases && ReleaseMatches(s.dir.leases[ip], p.cid, p.ifname)
      then s.(dir := s.dir.(leases := s.dir.leases - {ip}), procs := rest, log := s.log + [Removed(ip)])
      else s.(procs := rest)
    case Give(pid) =>
      var result := if s.procs[pid].pc.Done? then s.procs[pid].pc.result else None;
      s.(holder := Unlocked(s, pid), procs := Moved(s, pid, Exited(result)))
    case Crash(pid, lease, cursor) =>
      var pc := s.procs[pid].pc;
      var s' := if pc.Chosen? then LeaseWritten(s, pid, lease)
                else if pc.Leased? then s.(dir := s.dir.(cursor := CursorAfter(pc.ip, cursor)))
                else s;
      s'.(holder := Unlocked(s, pid), procs := Moved(s, pid, Exited(None)))
  }

  // --------------------------------------------------------------------- invariant

  /** The addresses a log leaves leased, starting from some. */
  function LiveAfter(start: set<Addr>, log: seq<Mark>): set<Addr> {
    if log == [] then start
    else
      var before := LiveAfter(start, log[..|log| - 1]);
      match log[|log| - 1]
      case Put(_, ip) => before + {ip}
      case Removed(ip) => before - {ip}
  }

  /** No lease file was ever written where one was. */
  ghost predicate NeverOverwrites(start: set<Addr>, log: seq<Mark>) {
    forall k | 0 <= k < |log| && log[k].Put? :: log[k].ip !in LiveAfter(start, log[..k])
  }

  predicate PutBy(log: seq<Mark>, pid: Pid, ip: Addr) {
    Put(pid, ip) in log
  }

  /** What a process at a given point knows about the directory and the log. */
  predicate PcOk(s: Sys, pid: Pid, pc: Pc) {
    match pc
    case Listed(leased) => leased == s.dir.leases.Keys
    case Chosen(ip) => ip !in s.dir.leases
    case Leased(ip) => PutBy(s.log, pid, ip)
    case Done(Some(ip)) => PutBy(s.log, pid, ip)
    case Exited(Some(ip)) => PutBy(s.log, pid, ip)
    case _ => true
  }

  ghost predicate Inv(start: set<Addr>, s: Sys) {
    && (forall pid | pid in s.procs :: Inside(s.procs[pid].pc) ==> s.holder == Some(pid))
    && (forall pid | pid in s.procs :: PcOk(s, pid, s.procs[pid].pc))
    && s.dir.leases.Keys == LiveAfter(start, s.log)
    && NeverOverwrites(start, s.log)
  }

  lemma LiveAfterMark(start: set<Addr>, log: seq<Mark>, m: Mark)
    ensures LiveAfter(start, log + [m])
            == if m.Put? then LiveAfter(start, log) + {m.ip} else LiveAfter(start, log) - {m.ip}
    ensures NeverOverwrites(start, log) && (m.Put? ==> m.ip !in LiveAfter(start, log)) ==>
            NeverOverwrites(start, log + [m])
  {
    assert (log + [m])[..|log|] == log;
    forall k | 0 <= k < |log|
      ensures (log + [m])[..k] == log[..k] && (log + [m])[k] == log[k]
    {
    }
  }

  /** The processes other than the mover: their knowledge survives a change made under the lock. */
  ghost predicate OthersOk(s: Sys, s': Sys, pid: Pid) {
    && s'.procs.Keys == s.procs.Keys + {pid}
    && (forall q | q in s.procs && q != pid :: s'.procs[q] == s.procs[q])
    && (forall m | m in s.log :: m in s'.log)
    && (s'.dir.leases.Keys == s.dir.leases.Keys || s.holder == Some(pid))
    && (s'.holder == s.holder || s.holder == Some(pid) || (s.holder == None && s'.holder == Some(pid)))
  }

  lemma OthersStay(start: set<Addr>, s: Sys, s': Sys, pid: Pid)
    requires Inv(start, s) && OthersOk(s, s', pid)
    requires pid in s.procs && Inside(s.procs[pid].pc) ==> s.holder == Some(pid)
    ensures forall q | q in s.procs && q != pid ::
              (Inside(s'.procs[q].pc) ==> s'.holder == Some(q)) && PcOk(s', q, s'.procs[q].pc)
  {
    hide LiveAfter, NeverOverwrites;
    forall q | q in s.procs && q != pid
      ensures (Inside(s'.procs[q].pc) ==> s'.holder == Some(q)) && PcOk(s', q, s'.procs[q].pc)
    {
      assert PcOk(s, q, s.procs[q].pc);
    }
  }

  /** The log grows by at most one mark, which matches what happened to the lease files. */
  ghost predicate LogMatches(s: Sys, s': Sys) {
    || (s'.log == s.log && s'.dir.leases.Keys == s.dir.leases.Keys)
    || exists m: Mark ::
         && s'.log == s.log + [m]
         && if m.Put? then m.ip !in s.dir.leases && s'.dir.leases.Keys == s.dir.leases.Keys + {m.ip}
            else s'.dir.leases.Keys == s.dir.leases.Keys - {m.ip}
  }

  predicate MoverOk(s': Sys, pid: Pid) {
    pid in s'.procs && (Inside(s'.procs[pid].pc) ==> s'.holder == Some(pid)) && PcOk(s', pid, s'.procs[pid].pc)
  }

  lemma StepKeepsInv(start: set<Addr>, s: Sys, s': Sys, pid: Pid)
    requires Inv(start, s) && OthersOk(s, s', pid) && MoverOk(s', pid) && LogMatches(s, s')
    ensures Inv(start, s')
  {
    OthersStay(start, s, s', pid);
    hide PcOk, LiveAfter, NeverOverwrites;
    if s'.log != s.log {
      var m: Mark :| && s'.log == s.log + [m]
                     && if m.Put? then m.ip !in s.dir.leases && s'.dir.leases.Keys == s.dir.leases.Keys + {m.ip}
                        else s'.dir.leases.Keys == s.dir.leases.Keys - {m.ip};
      LiveAfterMark(start, s.log, m);
    }
  }

  lemma LeaseWrittenOk(s: Sys, pid: Pid, lease: Write)
    requires pid in s.procs && s.procs[pid].pc.Chosen? && s.procs[pid].pc.ip !in s.dir.leases
    ensures var s' := LeaseWritten(s, pid, lease);
            && s'.procs == s.procs && s'.holder == s.holder && LogMatches(s, s')
            && (forall m | m in s.log :: m in s'.log) && (lease == Written ==> PutBy(s'.log, pid, s.procs[pid].pc.ip))
  {
    hide LeaseText;
    var m := Put(pid, s.procs[pid].pc.ip);
    var s' := LeaseWritten(s, pid, lease);
    if s'.log != s.log {
      assert s'.log == s.log + [m] && s'.log[|s.log|] == m;
    }
  }

  lemma LockKeepsInv(start: set<Addr>, s: Sys, e: Event)
    requires Enabled(s, e) && Inv(start, s) && (e.Spawn? || e.Lock? || e.Give?)
    ensures Inv(start, Next(s, e))
  {
    hide LiveAfter, NeverOverwrites;
    assert e.pid in s.procs ==> PcOk(s, e.pid, s.procs[e.pid].pc);
    assert OthersOk(s, Next(s, e), e.pid);
    assert MoverOk(Next(s, e), e.pid);
    StepKeepsInv(start, s, Next(s, e), e.pid);
  }

  lemma ReadKeepsInv(start: set<Addr>, s: Sys, e: Event)
    requires Enabled(s, e) && Inv(start, s) && (e.List? || e.Choose? || e.WriteCursor? || e.Scan?)
    ensures Inv(start, Next(s, e))
  {
    assert PcOk(s, e.pid, s.procs[e.pid].pc) && s.holder == Some(e.pid);
    hide Inv;
    assert OthersOk(s, Next(s, e), e.pid);
    assert MoverOk(Next(s, e), e.pid);
    hide Next;
    StepKeepsInv(start, s, Next(s, e), e.pid);
  }

  lemma WriteLeaseKeepsInv(start: set<Addr>, s: Sys, e: Event)
    requires Enabled(s, e) && Inv(start, s) && e.WriteLease?
    ensures Inv(start, Next(s, e))
    ensures s.procs[e.pid].pc.ip !in s.dir.leases
  {
    hide LiveAfter, NeverOverwrites, LeaseWritten;
    assert PcOk(s, e.pid, s.procs[e.pid].pc);
    LeaseWrittenOk(s, e.pid, e.lease);
    StepKeepsInv(start, s, Next(s, e), e.pid);
  }

  lemma RemoveOneKeepsInv(start: set<Addr>, s: Sys, e: Event)
    requires Enabled(s, e) && Inv(start, s) && e.RemoveOne?
    ensures Inv(start, Next(s, e))
  {
    hide LiveAfter, NeverOverwrites, ReleaseMatches;
    var s' := Next(s, e);
    if s'.log != s.log {
      assert s'.log == s.log + [Removed(e.ip)];
    }
    StepKeepsInv(start, s, s', e.pid);
  }

  lemma CrashKeepsInv(start: set<Addr>, s: Sys, e: Event)
    requires Enabled(s, e) && Inv(start, s) && e.Crash?
    ensures Inv(start, Next(s, e))
  {
    hide LiveAfter, NeverOverwrites, LeaseWritten;
    assert PcOk(s, e.pid, s.procs[e.pid].pc);
    if s.procs[e.pid].pc.Chosen? {
      LeaseWrittenOk(s, e.pid, e.lease);
    }
    StepKeepsInv(start, s, Next(s, e), e.pid);
  }

  /** Every step keeps the invariant. */
  lemma NextKeepsInv(start: set<Addr>, s: Sys, e: Event)
    requires Enabled(s, e) && Inv(start, s)
    ensures Inv(start, Next(s, e))
  {
    hide Inv, Next, Enabled;
    match e
    case WriteLease(_, _) => WriteLeaseKeepsInv(start, s, e);
    case RemoveOne(_, _) => RemoveOneKeepsInv(start, s, e);
    case Crash(_, _, _) => CrashKeepsInv(start, s, e);
    case Spawn(_, _, _, _) => LockKeepsInv(start, s, e);
    case Lock(_) => LockKeepsInv(start, s, e);
    case Give(_) => LockKeepsInv(start, s, e);
    case _ => ReadKeepsInv(start, s, e);
  }

  /**
   A crash is the write it interrupts, torn or not, and the lock given up: a process that had
   chosen an address may leave its lease file, one that had leased it its cursor, others nothing.
   */
  lemma CrashIsInterruptedWrite(s: Sys, pid: Pid, lease: Write, cursor: CursorWrite)
    requires pid in s.procs && !s.procs[pid].pc.Exited?
    ensures var s' := Next(s, Crash(pid, lease, cursor));
            && s'.procs == s.procs[pid := s.procs[pid].(pc := Exited(None))]
            && s'.holder == (if s.holder == Some(pid) then None else s.holder)
            && match s.procs[pid].pc
               case Chosen(_) =>
                 s'.dir == Next(s, WriteLease(pid, lease)).dir && s'.log == Next(s, WriteLease(pid, lease)).log
               case Leased(_) => s'.dir == Next(s, WriteCursor(pid, cursor)).dir && s'.log == s.log
               case _ => s'.dir == s.dir && s'.log == s.log
  {
    hide LeaseText;
  }

  // ------------------------------------------------------------------------- runs

  /** An interleaving: each state follows from the one before by an event that can happen. */
  ghost predicate Interleaving(states: seq<Sys>, events: seq<Event>) {
    && |states| == |events| + 1
    && states[0].holder == None && states[0].procs == map[] && states[0].log == []
    && forall k | 0 <= k < |events| :: Enabled(states[k], events[k]) && states[k + 1] == Next(states[k], events[k])
  }

  lemma {:induction false} Always(states: seq<Sys>, events: seq<Event>, k: nat)
    requires Interleaving(states, events) && k <= |events|
    ensures Inv(states[0].dir.leases.Keys, states[k])
  {
    if k == 0 {
      assert NeverOverwrites(states[0].dir.leases.Keys, []);
    } else {
      Always(states, events, k - 1);
      assert Enabled(states[k - 1], events[k - 1]) && states[k] == Next(states[k - 1], events[k - 1]);
      hide Inv, Next, Enabled, Interleaving;
      NextKeepsInv(states[0].dir.leases.Keys, states[k - 1], events[k - 1]);
    }
  }

  /** In every interleaving, whatever fails or crashes, an ADD never writes over an existing lease. */
  lemma AddNeverOverwrites(states: seq<Sys>, events: seq<Event>, k: nat)
    requires Interleaving(states, events) && k < |events| && events[k].WriteLease?
    ensures events[k].pid in states[k].procs && states[k].procs[events[k].pid].pc.Chosen?
    ensures states[k].procs[events[k].pid].pc.ip !in states[k].dir.leases
  {
    assert Enabled(states[k], events[k]);
    Always(states, events, k);
    hide Interleaving;
    WriteLeaseKeepsInv(states[0].dir.leases.Keys, states[k], events[k]);
  }

  /** No two processes are ever inside together. */
  lemma MutualExclusion(states: seq<Sys>, events: seq<Event>, k: nat, p: Pid, q: Pid)
    requires Interleaving(states, events) && k <= |events|
    requires p in states[k].procs && Inside(states[k].procs[p].pc)
    requires q in states[k].procs && Inside(states[k].procs[q].pc)
    ensures p == q
  {
    Always(states, events, k);
  }

  /** The lock is free, or its holder is inside. */
  predicate HolderInside(s: Sys) {
    match s.holder
    case None => true
    case Some(pid) => pid in s.procs && Inside(s.procs[pid].pc)
  }

  lemma NextKeepsHolder(s: Sys, e: Event)
    requires Enabled(s, e) && HolderInside(s)
    ensures HolderInside(Next(s, e))
  {
  }

  lemma {:induction false} AlwaysHolder(states: seq<Sys>, events: seq<Event>, k: nat)
    requires Interleaving(states, events) && k <= |events|
    ensures HolderInside(states[k])
  {
    if k > 0 {
      AlwaysHolder(states, events, k - 1);
      assert Enabled(states[k - 1], events[k - 1]) && states[k] == Next(states[k - 1], events[k - 1]);
      hide Next, Enabled, Interleaving;
      NextKeepsHolder(states[k - 1], events[k - 1]);
    }
  }

  /** The lock is never lost, crashes included: whoever waits can take it, or its holder can give it up. */
  lemma LockNeverLost(states: seq<Sys>, events: seq<Event>, k: nat, pid: Pid)
    requires Interleaving(states, events) && k <= |events|
    requires pid in states[k].procs && states[k].procs[pid].pc.Waiting?
    ensures match states[k].holder
            case None => Enabled(states[k], Lock(pid))
            case Some(h) => h != pid && Enabled(states[k], Give(h)) && Next(states[k], Give(h)).holder == None
  {
    AlwaysHolder(states, events, k);
  }

  lemma {:induction false} LiveUntilRemoved(start: set<Addr>, log: seq<Mark>, i: nat, j: nat, ip: Addr)
    requires i < j <= |log| && log[i].Put? && log[i].ip == ip && forall k | i < k < j :: log[k] != Removed(ip)
    ensures ip in LiveAfter(start, log[..j])
  {
    assert log[..j][..j - 1] == log[..j - 1];
    if j > i + 1 {
      LiveUntilRemoved(start, log, i, j - 1, ip);
    }
  }

  /** Two writes of a lease for one address are separated by its removal. */
  lemma WritesSeparated(start: set<Addr>, log: seq<Mark>, i: nat, j: nat)
    requires NeverOverwrites(start, log) && i < j < |log| && log[i].Put? && log[j].Put? && log[i].ip == log[j].ip
    ensures exists k :: i < k < j && log[k] == Removed(log[i].ip)
  {
    if forall k | i < k < j :: log[k] != Removed(log[i].ip) {
      LiveUntilRemoved(start, log, i, j, log[i].ip);
    }
  }

  /** One mark stands before another, and a removal of the address between them. */
  ghost predicate Separated(log: seq<Mark>, first: Mark, second: Mark, ip: Addr) {
    exists i, r, j ::
      0 <= i < r < j < |log| && log[i] == first && log[r] == Removed(ip) && log[j] == second
  }

  lemma PutsSeparated(start: set<Addr>, log: seq<Mark>, p: Pid, q: Pid, ip: Addr)
    requires NeverOverwrites(start, log) && PutBy(log, p, ip) && PutBy(log, q, ip) && p != q
    ensures Separated(log, Put(p, ip), Put(q, ip), ip) || Separated(log, Put(q, ip), Put(p, ip), ip)
  {
    hide NeverOverwrites, Separated;
    var x: nat :| x < |log| && log[x] == Put(p, ip);
    var y: nat :| y < |log| && log[y] == Put(q, ip);
    if x < y {
      PairSeparated(start, log, x, y, ip);
    } else {
      PairSeparated(start, log, y, x, ip);
    }
  }

  lemma PairSeparated(start: set<Addr>, log: seq<Mark>, i: nat, j: nat, ip: Addr)
    requires NeverOverwrites(start, log) && i < j < |log|
    requires log[i].Put? && log[j].Put? && log[i].ip == ip == log[j].ip
    ensures Separated(log, log[i], log[j], ip)
  {
    WritesSeparated(start, log, i, j);
  }

  /**
   No double allocation: when two processes have been given the same address, its lease
   file was removed between the writes of their leases.
   */
  lemma NoDoubleAllocation(states: seq<Sys>, events: seq<Event>, k: nat, p: Pid, q: Pid, ip: Addr)
    requires Interleaving(states, events) && k <= |events| && p != q
    requires p in states[k].procs && states[k].procs[p].pc == Exited(Some(ip))
    requires q in states[k].procs && states[k].procs[q].pc == Exited(Some(ip))
    ensures Separated(states[k].log, Put(p, ip), Put(q, ip), ip) || Separated(states[k].log, Put(q, ip), Put(p, ip), ip)
  {
    var s, start := states[k], states[0].dir.leases.Keys;
    Always(states, events, k);
    assert PcOk(s, p, s.procs[p].pc) && PcOk(s, q, s.procs[q].pc);
    assert PutBy(s.log, p, ip) && PutBy(s.log, q, ip) && NeverOverwrites(start, s.log);
    hide Interleaving, Inv, PcOk, NeverOverwrites;
    PutsSeparated(start, s.log, p, q, ip);
  }

  // ---------------------------------------------------------- an undisturbed ADD

  /** The steps of one ADD with nobody in between. */
  ghost function UndisturbedAdd(s: Sys, pid: Pid, f: Faults): Sys
    requires s.holder.None? && pid in s.procs && s.procs[pid].pc.Waiting? && s.procs[pid].kind.Adding?
  {
    var s3 := Next(Next(Next(s, Lock(pid)), List(pid)), Choose(pid));
    if !s3.procs[pid].pc.Chosen? then Next(s3, Give(pid))
    else
      var s4 := Next(s3, WriteLease(pid, f.lease));
      if !s4.procs[pid].pc.Leased? then Next(s4, Give(pid))
      else Next(Next(s4, WriteCursor(pid, f.cursor)), Give(pid))
  }

  /** Undisturbed, the steps of an ADD do what the command does. */
  lemma UndisturbedAddIsCommand(s: Sys, pid: Pid, ranges: seq<seq<Range>>, f: Faults)
    requires s.holder.None? && pid in s.procs && s.procs[pid].pc.Waiting? && !f.open && !f.lock && !f.list
    requires AllocatorFor(ranges).Ok? && s.procs[pid].kind == Adding(AllocatorFor(ranges).value)
    ensures var p, s' := s.procs[pid], UndisturbedAdd(s, pid, f);
            var (d, r) := AddOutcome(s.dir, ranges, p.cid, p.ifname, f);
            && s'.dir == d && s'.holder == None
            && s'.procs[pid].pc == Exited(match r case Ok(grant) => Some(grant.ip) case Err(_) => None)
  {
    hide LeaseText, AllocatorFor, FirstFree;
  }
}
