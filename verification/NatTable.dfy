/**
 The iptables `nat` table as a small program: chains of rules, the commands that
 edit them, and an interpreter saying what one packet meets in a chain.
 */
module NatTable {
  import opened Wrappers
  import opened Ipv4

  type Port = p: int | 0 <= p < 0x1_0000

  const LOOPBACK: Addr := 0x7F00_0001

  /** The chains the plugin and the daemon touch; `Dn(id)` is one container's chain. */
  datatype Chain =
    | Prerouting | Output | Postrouting
    | HostportDnat | HostportSetmark | HostportMasq
    | Dn(id: string)

  function ChainName(c: Chain): string {
    match c
    case Prerouting => "PREROUTING"
    case Output => "OUTPUT"
    case Postrouting => "POSTROUTING"
    case HostportDnat => "CNI-HOSTPORT-DNAT"
    case HostportSetmark => "CNI-HOSTPORT-SETMARK"
    case HostportMasq => "CNI-HOSTPORT-MASQ"
    case Dn(id) => "CNI-DN-" + id
  }

  predicate Builtin(c: Chain) {
    c.Prerouting? || c.Output? || c.Postrouting?
  }

  /** Jumps only ever go to a chain of smaller rank. */
  function Rank(c: Chain): nat {
    match c
    case Prerouting => 4
    case Output => 4
    case Postrouting => 4
    case HostportDnat => 3
    case Dn(_) => 2
    case HostportSetmark => 1
    case HostportMasq => 1
  }

  datatype AddrMatch = Any | Host(ip: Addr) | In(net: Ipv4Network) | NotIn(net: Ipv4Network) {
    predicate Accepts(a: Addr) {
      match this
      case Any => true
      case Host(ip) => a == ip
      case In(net) => net.Contains(a)
      case NotIn(net) => !net.Contains(a)
    }
  }

  datatype Target =
    | Return
    | Masquerade(randomFully: bool)
    | Dnat(ip: Addr, port: Port)
    | SetMark
    | Jump(chain: Chain)

  datatype Rule = Rule(
    proto: Option<string>, src: AddrMatch, dst: AddrMatch, dport: Option<Port>,
    dstLocal: bool, marked: bool, target: Target)

  type Table = map<Chain, seq<Rule>>

  datatype Packet = Packet(proto: string, src: Addr, dst: Addr, dport: Port, mark: bv32)

  // ------------------------------------------------------------- packet marks

  /** `--set-xmark 0x2000/0x2000`: clear the masked bits, then exclusive-or the value in. */
  function SetXmark(mark: bv32): bv32 {
    (mark & !0x2000) ^ 0x2000
  }

  /** `-m mark --mark 0x2000/0x2000` */
  predicate HasMark(mark: bv32) {
    mark & 0x2000 == 0x2000
  }

  /** Marking sets the tag. */
  lemma SetXmarkSets(mark: bv32)
    ensures HasMark(SetXmark(mark))
  {
  }

  /** Marking twice is marking once. */
  lemma SetXmarkIdempotent(mark: bv32)
    ensures SetXmark(SetXmark(mark)) == SetXmark(mark)
  {
  }

  /** Marking sets one bit. */
  lemma SetXmarkIsOr(mark: bv32)
    ensures SetXmark(mark) == mark | 0x2000
  {
  }

  /** Whether a packet has the tag is a matter of bit 13 alone. */
  lemma HasMarkIsOneBit(mark: bv32)
    ensures HasMark(mark) <==> (mark >> 13) & 1 == 1
    ensures HasMark(mark | 0x2000) && !HasMark(mark & !0x2000)
  {
  }

  /** Marking leaves every other bit alone. */
  lemma SetXmarkKeepsOtherBits(mark: bv32)
    ensures SetXmark(mark) & !0x2000 == mark & !0x2000
  {
  }

  // -------------------------------------------------------- packet interpreter

  /** What a packet meets: the end of the rules (or RETURN), or a terminating target. */
  datatype Outcome = Fall(p: Packet) | Dnated(p: Packet) | Masqueraded(p: Packet)

  predicate Matches(local: set<Addr>, r: Rule, p: Packet) {
    && (r.proto.Some? ==> r.proto.value == p.proto)
    && r.src.Accepts(p.src)
    && r.dst.Accepts(p.dst)
    && (r.dport.Some? ==> r.dport.value == p.dport)
    && (r.dstLocal ==> p.dst in local)
    && (r.marked ==> HasMark(p.mark))
  }

  /** Jumps in `rules` go to chains of the table of rank below `rank`. */
  predicate JumpsBelow(t: Table, rules: seq<Rule>, rank: nat) {
    forall r | r in rules && r.target.Jump? :: r.target.chain in t && Rank(r.target.chain) < rank
  }

  predicate Ranked(t: Table) {
    forall c | c in t :: JumpsBelow(t, t[c], Rank(c))
  }

  /**
   First match wins; MARK does not terminate; RETURN and the end of a chain fall
   back to the caller, which goes on with the possibly marked packet.
   */
  function Walk(t: Table, local: set<Addr>, rules: seq<Rule>, rank: nat, p: Packet): Outcome
    requires Ranked(t) && JumpsBelow(t, rules, rank)
    decreases rank, |rules|
  {
    if rules == [] then
      Fall(p)
    else if !Matches(local, rules[0], p) then
      Walk(t, local, rules[1..], rank, p)
    else
      match rules[0].target
      case Return => Fall(p)
      case Masquerade(_) => Masqueraded(p)
      case Dnat(ip, port) => Dnated(p.(dst := ip, dport := port))
      case SetMark => Walk(t, local, rules[1..], rank, p.(mark := SetXmark(p.mark)))
      case Jump(c) =>
        assert rules[0] in rules;
        var o := Walk(t, local, t[c], Rank(c), p);
        if o.Fall? then Walk(t, local, rules[1..], rank, o.p) else o
  }

  function WalkChain(t: Table, local: set<Addr>, c: Chain, p: Packet): Outcome
    requires Ranked(t) && c in t
  {
    Walk(t, local, t[c], Rank(c), p)
  }

  // ------------------------------------------------------------------ commands

  datatype Command =
    | New(c: Chain)
    | Check(c: Chain, r: Rule)
    | Append(c: Chain, r: Rule)
    | Insert(c: Chain, r: Rule)
    | Delete(c: Chain, r: Rule)
    | Flush(c: Chain)
    | DropChain(c: Chain)

  function RemoveFirst(rules: seq<Rule>, r: Rule): seq<Rule> {
    if rules == [] then []
    else if rules[0] == r then rules[1..]
    else [rules[0]] + RemoveFirst(rules[1..], r)
  }

  predicate Referenced(t: Table, c: Chain) {
    exists d | d in t :: exists r | r in t[d] :: r.target == Jump(c)
  }

  predicate TargetExists(t: Table, r: Rule) {
    r.target.Jump? ==> r.target.chain in t
  }

  /** The table after a command the backend accepts; None when it refuses. */
  function Exec(t: Table, cmd: Command): Option<Table> {
    match cmd
    case New(c) => if c in t then None else Some(t[c := []])
    case Check(c, r) => if c in t && r in t[c] then Some(t) else None
    case Append(c, r) => if c in t && TargetExists(t, r) then Some(t[c := t[c] + [r]]) else None
    case Insert(c, r) => if c in t && TargetExists(t, r) then Some(t[c := [r] + t[c]]) else None
    case Delete(c, r) => if c in t && r in t[c] then Some(t[c := RemoveFirst(t[c], r)]) else None
    case Flush(c) => if c in t then Some(t[c := []]) else None
    case DropChain(c) =>
      if c in t && !Builtin(c) && t[c] == [] && !Referenced(t, c) then Some(t - {c}) else None
  }

  /** A rule may go into a chain only if its jump goes down in rank. */
  predicate Placeable(cmd: Command) {
    (cmd.Append? || cmd.Insert?) && cmd.r.target.Jump? ==> Rank(cmd.r.target.chain) < Rank(cmd.c)
  }

  lemma {:induction false} RemoveFirstKeeps(rules: seq<Rule>, r: Rule)
    ensures forall x :: x in RemoveFirst(rules, r) ==> x in rules
    ensures forall x :: x in rules && x != r ==> x in RemoveFirst(rules, r)
    ensures multiset(RemoveFirst(rules, r)) == multiset(rules) - multiset{r}
  {
    if rules != [] {
      assert rules == [rules[0]] + rules[1..];
      if rules[0] != r {
        RemoveFirstKeeps(rules[1..], r);
      }
    }
  }

  /** No accepted command can leave a dangling or a circular jump. */
  lemma ExecKeepsRanked(t: Table, cmd: Command)
    requires Ranked(t) && Placeable(cmd) && Exec(t, cmd).Some?
    ensures Ranked(Exec(t, cmd).value)
  {
    match cmd
    case DropChain(c) => DropKeepsRanked(t, c);
    case New(c) => EditKeepsRanked(t, c, []);
    case Check(_, _) =>
    case Append(c, r) => EditKeepsRanked(t, c, t[c] + [r]);
    case Insert(c, r) => EditKeepsRanked(t, c, [r] + t[c]);
    case Delete(c, r) =>
      RemoveFirstKeeps(t[c], r);
      EditKeepsRanked(t, c, RemoveFirst(t[c], r));
    case Flush(c) => EditKeepsRanked(t, c, []);
  }

  /** A chain given rules it had, or rules that jump to lower chains. */
  lemma EditKeepsRanked(t: Table, c: Chain, rules: seq<Rule>)
    requires Ranked(t)
    requires forall r | r in rules && r.target.Jump? ::
               (c in t && r in t[c]) || (TargetExists(t, r) && Rank(r.target.chain) < Rank(c))
    ensures Ranked(t[c := rules])
  {
    var t' := t[c := rules];
    forall d, r: Rule | d in t' && r in t'[d] && r.target.Jump?
      ensures r.target.chain in t' && Rank(r.target.chain) < Rank(d)
    {
      if d in t && r in t[d] {
        assert JumpsBelow(t, t[d], Rank(d));
      }
    }
  }

  lemma DropKeepsRanked(t: Table, c: Chain)
    requires Ranked(t) && Exec(t, DropChain(c)).Some?
    ensures Ranked(t - {c})
  {
    forall d, r: Rule | d in t - {c} && r in t[d] && r.target.Jump?
      ensures r.target.chain in t - {c} && Rank(r.target.chain) < Rank(d)
    {
      assert JumpsBelow(t, t[d], Rank(d));
      assert r.target.chain == c ==> Referenced(t, c);
    }
  }

  // ------------------------------------------- checked edits, as whole steps

  /** The idempotent edits of the wrapper: create a chain, append or prepend a rule, if absent. */
  datatype Step =
    | EnsureChain(c: Chain)
    | EnsureRule(c: Chain, r: Rule)
    | InsertRule(c: Chain, r: Rule)

  predicate Satisfied(t: Table, s: Step) {
    s.c in t && (!s.EnsureChain? ==> s.r in t[s.c])
  }

  predicate CanStep(t: Table, s: Step) {
    s.EnsureChain? || Satisfied(t, s) || (s.c in t && TargetExists(t, s.r))
  }

  function DoStep(t: Table, s: Step): Table {
    if Satisfied(t, s) || !CanStep(t, s) then t
    else match s
      case EnsureChain(c) => t[c := []]
      case EnsureRule(c, r) => t[c := t[c] + [r]]
      case InsertRule(c, r) => t[c := [r] + t[c]]
  }

  /** The table after the first k steps. */
  function RunPrefix(t: Table, steps: seq<Step>, k: nat): Table
    requires k <= |steps|
  {
    if k == 0 then t else DoStep(RunPrefix(t, steps, k - 1), steps[k - 1])
  }

  function RunAll(t: Table, steps: seq<Step>): Table {
    RunPrefix(t, steps, |steps|)
  }

  predicate Feasible(t: Table, steps: seq<Step>) {
    forall k | 0 <= k < |steps| :: CanStep(RunPrefix(t, steps, k), steps[k])
  }

  lemma NextPrefix(t: Table, steps: seq<Step>, k: nat)
    requires k < |steps|
    ensures RunPrefix(t, steps, k + 1) == DoStep(RunPrefix(t, steps, k), steps[k])
    ensures Feasible(t, steps) ==> CanStep(RunPrefix(t, steps, k), steps[k])
  {
  }

  /** Steps only ever add: what one step established, no other undoes. */
  lemma StepsOnlyAdd(t: Table, s: Step, other: Step)
    ensures Satisfied(t, s) ==> Satisfied(DoStep(t, other), s)
    ensures CanStep(t, s) ==> CanStep(DoStep(t, other), s)
    ensures CanStep(t, s) ==> Satisfied(DoStep(t, s), s)
  {
  }

  lemma {:induction false} PrefixSatisfied(t: Table, steps: seq<Step>, k: nat, j: nat)
    requires j < k <= |steps| && Feasible(t, steps)
    ensures Satisfied(RunPrefix(t, steps, k), steps[j])
  {
    StepsOnlyAdd(RunPrefix(t, steps, k - 1), steps[j], steps[k - 1]);
    if j < k - 1 {
      PrefixSatisfied(t, steps, k - 1, j);
    }
  }

  lemma DoneStaysDone(t: Table, s: Step)
    requires Satisfied(t, s)
    ensures DoStep(t, s) == t
  {
  }

  /** After any executed prefix, starting over from the first step re-does nothing. */
  lemma {:induction false} RestartSkipsPrefix(t: Table, steps: seq<Step>, k: nat, j: nat)
    requires k <= |steps| && j <= |steps| && Feasible(t, steps)
    ensures RunPrefix(RunPrefix(t, steps, k), steps, j) == RunPrefix(t, steps, if j <= k then k else j)
  {
    hide *;
    var t' := RunPrefix(t, steps, k);
    if j == 0 {
      NoSteps(t', steps);
    } else {
      RestartSkipsPrefix(t, steps, k, j - 1);
      NextPrefix(t', steps, j - 1);
      if j <= k {
        PrefixSatisfied(t, steps, k, j - 1);
        DoneStaysDone(t', steps[j - 1]);
      } else {
        NextPrefix(t, steps, j - 1);
      }
    }
  }

  lemma NoSteps(t: Table, steps: seq<Step>)
    ensures RunPrefix(t, steps, 0) == t
  {
  }

  // -------------------------------------------------------- the CLI wrapper

  /**
   Success or failure of a wrapper call. The two members are what `:-` needs: a failing
   call ends its caller at once, with the same failure.
   */
  datatype Status = Pass | Fail {
    predicate IsFailure() { Fail? }

    function PropagateFailure(): Status
      requires Fail?
    {
      Fail
    }
  }

  /** One process run: it may not spawn, or it exits, perhaps with the complaint that something "exists". */
  datatype Reply = SpawnFailed | Exited(success: bool, complaint: bool)

  /**
   The wrapper over the CLI. When it is not `reliable`, any command may fail to
   spawn, and any edit may exit with an error although the table would allow it.
   */
  class Iptables {
    var table: Table
    const reliable: bool

    constructor (initial: Table, reliable: bool)
      ensures table == initial && this.reliable == reliable
    {
      this.table := initial;
      this.reliable := reliable;
    }

    method Run(cmd: Command) returns (reply: Reply)
      modifies this
      ensures reply.SpawnFailed? ==> !reliable && table == old(table)
      ensures reply.Exited? && reply.success ==> Exec(old(table), cmd) == Some(table)
      ensures reply.Exited? && !reply.success ==> table == old(table)
      ensures reply.Exited? && !reply.success && (reliable || cmd.Check? || reply.complaint) ==>
              Exec(old(table), cmd).None?
      ensures reply.Exited? && !reply.success && reliable && cmd.New? ==> reply.complaint
      ensures reply.Exited? && reply.complaint ==> cmd.New?
    {
      if !reliable {
        if * {
          return SpawnFailed;
        }
        if * {
          if !cmd.Check? {
            return Exited(false, false);
          }
        }
      }
      match Exec(table, cmd)
      case Some(t) =>
        table := t;
        reply := Exited(true, false);
      case None =>
        reply := Exited(false, cmd.New?);
    }

    /** Create a chain unless it is there. */
    method EnsureChain(c: Chain) returns (status: Status)
      modifies this
      ensures status.Pass? ==> table == DoStep(old(table), Step.EnsureChain(c))
      ensures status.Fail? ==> table == old(table) && !reliable
    {
      var out := Run(New(c));
      if out.SpawnFailed? {
        return Fail;
      }
      if out.success || out.complaint {
        return Pass;
      }
      return Fail;
    }

    /** Append a rule unless it is there: `-C`, then `-A`. */
    method EnsureRule(c: Chain, r: Rule) returns (status: Status)
      modifies this
      ensures status.Pass? ==> CanStep(old(table), Step.EnsureRule(c, r))
      ensures status.Pass? ==> table == DoStep(old(table), Step.EnsureRule(c, r))
      ensures status.Fail? ==> table == old(table)
      ensures reliable && CanStep(old(table), Step.EnsureRule(c, r)) ==> status.Pass?
    {
      var check := Run(Check(c, r));
      if check.SpawnFailed? {
        return Fail;
      }
      if check.success {
        return Pass;
      }
      var out := Run(Append(c, r));
      return if out.Exited? && out.success then Pass else Fail;
    }

    /** Put a rule at the top of a chain unless it is there: `-C`, then `-I <chain> 1`. */
    method InsertRule(c: Chain, r: Rule) returns (status: Status)
      modifies this
      ensures status.Pass? ==> CanStep(old(table), Step.InsertRule(c, r))
      ensures status.Pass? ==> table == DoStep(old(table), Step.InsertRule(c, r))
      ensures status.Fail? ==> table == old(table)
      ensures reliable && CanStep(old(table), Step.InsertRule(c, r)) ==> status.Pass?
    {
      var check := Run(Check(c, r));
      if check.SpawnFailed? {
        return Fail;
      }
      if check.success {
        return Pass;
      }
      var out := Run(Insert(c, r));
      return if out.Exited? && out.success then Pass else Fail;
    }

    /** Delete the first occurrence of a rule; a missing one is fine, and a failure goes unnoticed. */
    method DeleteRule(c: Chain, r: Rule) returns (ghost skipped: bool)
      modifies this
      ensures table == Tried(old(table), Delete(c, r), skipped)
      ensures reliable ==> !skipped
    {
      var reply := Run(Delete(c, r));
      skipped := Exec(old(table), Delete(c, r)).Some? && !(reply.Exited? && reply.success);
    }

    /** Flush and delete a chain, ignoring failures. */
    method FlushDeleteChain(c: Chain) returns (ghost skippedFlush: bool, ghost skippedDrop: bool)
      modifies this
      ensures table == Tried(Tried(old(table), Flush(c), skippedFlush), DropChain(c), skippedDrop)
      ensures reliable ==> !skippedFlush && !skippedDrop
    {
      var flush := Run(Flush(c));
      skippedFlush := Exec(old(table), Flush(c)).Some? && !(flush.Exited? && flush.success);
      ghost var flushed := table;
      var drop := Run(DropChain(c));
      skippedDrop := Exec(flushed, DropChain(c)).Some? && !(drop.Exited? && drop.success);
    }
  }

  /** A best-effort command: refused means unchanged. */
  function Attempt(t: Table, cmd: Command): Table {
    match Exec(t, cmd)
    case Some(t') => t'
    case None => t
  }

  /** A best-effort command that may also have failed to run. */
  function Tried(t: Table, cmd: Command, skipped: bool): Table {
    if skipped then t else Attempt(t, cmd)
  }

  /** The chains that all containers share, by name. */
  lemma SharedNames()
    ensures ChainName(HostportDnat) == "CNI-HOSTPORT-DNAT"
    ensures ChainName(HostportSetmark) == "CNI-HOSTPORT-SETMARK"
    ensures ChainName(HostportMasq) == "CNI-HOSTPORT-MASQ"
  {
  }

  /** The model's chains are told apart exactly by their iptables names. */
  lemma ChainNameInjective(a: Chain, b: Chain)
    requires ChainName(a) == ChainName(b)
    ensures a == b
  {
    if a.Dn? && b.Dn? {
      assert ChainName(a)[7..] == a.id && ChainName(b)[7..] == b.id;
    } else {
      assert ChainName(a)[4] == ChainName(b)[4] && ChainName(a)[0] == ChainName(b)[0];
      assert |ChainName(a)| == |ChainName(b)|;
    }
  }
}
