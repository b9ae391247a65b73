/**
 The portmap plugin: the per-container nat program it installs on ADD and
 removes on DEL, as methods over the shared table and as functions on tables.
 */
module PortMap {
  import opened Wrappers
  import opened Ipv4
  import opened NatTable

  /** The optional hostIP field; containerd sends an empty one for "none". */
  datatype HostIp = Unset | Empty | Bound(ip: Addr)

  datatype Mapping = Mapping(hostPort: Port, containerPort: Port, protocol: string, hostIp: HostIp) {
    function HostIpSome(): Option<Addr> {
      match hostIp
      case Bound(ip) => Some(ip)
      case _ => None
    }

    function DstMatch(): AddrMatch {
      match HostIpSome()
      case Some(ip) => Host(ip)
      case None => Any
    }

    /** The mapping publishes this packet's destination: on every address, or on the one it is bound to. */
    predicate Covers(p: Packet) {
      p.proto == protocol && p.dport == hostPort && (hostIp.Bound? ==> p.dst == hostIp.ip)
    }
  }

  /** One container as the plugin sees it; `id` names its chain. */
  datatype Deployment = Deployment(id: string, podIp: Addr, mappings: seq<Mapping>) {
    function Rules(): seq<Rule> {
      Program(podIp, mappings)
    }
  }

  // ------------------------------------------------------------- chain names

  predicate AsciiAlphanumeric(c: char) {
    '0' <= c <= '9' || 'A' <= c <= 'Z' || 'a' <= c <= 'z'
  }

  function Alphanumerics(s: string): string {
    if s == [] then []
    else (if AsciiAlphanumeric(s[0]) then [s[0]] else []) + Alphanumerics(s[1..])
  }

  /** The chain id: the first 16 alphanumeric characters of the container id. */
  function ChainId(containerId: string): string {
    var id := Alphanumerics(containerId);
    if |id| <= 16 then id else id[..16]
  }

  function DnChain(containerId: string): Chain {
    Dn(ChainId(containerId))
  }

  /** The i-th alphanumeric character of a container id, if there are so many. */
  function Significant(containerId: string, i: nat): Option<char> {
    var id := Alphanumerics(containerId);
    if i < |id| then Some(id[i]) else None
  }

  /** Two containers share a chain exactly if the first 16 alphanumerics of their ids agree, place by place. */
  lemma DnChainSharedIff(x: string, y: string)
    ensures DnChain(x) == DnChain(y) <==> forall i: nat | i < 16 :: Significant(x, i) == Significant(y, i)
  {
    var a, b := Alphanumerics(x), Alphanumerics(y);
    if forall i: nat | i < 16 :: Significant(x, i) == Significant(y, i) {
      assert |a| < 16 ==> Significant(x, |a|) == Significant(y, |a|);
      assert |b| < 16 ==> Significant(x, |b|) == Significant(y, |b|);
      assert forall i | 0 <= i < |ChainId(x)| :: Significant(x, i) == Some(ChainId(x)[i]);
      assert forall i | 0 <= i < |ChainId(y)| :: Significant(y, i) == Some(ChainId(y)[i]);
    } else {
      var i: nat :| i < 16 && Significant(x, i) != Significant(y, i);
      assert i < |a| ==> ChainId(x)[i] == a[i];
      assert i < |b| ==> ChainId(y)[i] == b[i];
    }
  }

  /** 0 to 9, A to Z and a to z, by their code points. */
  predicate LetterOrDigit(c: char) {
    48 <= c as int <= 57 || 65 <= c as int <= 90 || 97 <= c as int <= 122
  }

  /** The chain id of an id of letters and digits is its first 16 characters. */
  lemma ChainIdOfPlain(id: string)
    requires forall c | c in id :: LetterOrDigit(c)
    ensures ChainId(id) == if |id| <= 16 then id else id[..16]
  {
    KeptWhole(id);
  }

  lemma {:induction false} KeptWhole(id: string)
    requires forall c | c in id :: LetterOrDigit(c)
    ensures Alphanumerics(id) == id
  {
    if id != [] {
      assert id[0] in id && forall c | c in id[1..] :: c in id;
      KeptWhole(id[1..]);
      assert id == [id[0]] + id[1..];
    }
  }

  /** Any other character, wherever it stands, makes no difference. */
  lemma ChainIdDrops(a: string, c: char, b: string)
    requires !LetterOrDigit(c)
    ensures ChainId(a + [c] + b) == ChainId(a + b)
  {
    DropsOne(a, c, b);
  }

  lemma {:induction false} DropsOne(a: string, c: char, b: string)
    requires !LetterOrDigit(c)
    ensures Alphanumerics(a + [c] + b) == Alphanumerics(a + b)
  {
    if a == [] {
      assert a + [c] + b == [c] + b && ([c] + b)[1..] == b && a + b == b;
    } else {
      assert (a + [c] + b)[1..] == a[1..] + [c] + b && (a + b)[1..] == a[1..] + b;
      DropsOne(a[1..], c, b);
    }
  }

  /** A container's chain name keeps to iptables' limit of 28 characters, whatever the id. */
  lemma ChainNameFits(containerId: string)
    ensures |ChainName(DnChain(containerId))| <= 28
    ensures ChainName(DnChain(containerId)) == "CNI-DN-" + ChainId(containerId)
  {
  }

  // -------------------------------------------------------------------- rules

  const HOOK := Rule(None, Any, Any, None, true, false, Jump(HostportDnat))
  const MARK_RULE := Rule(None, Any, Any, None, false, false, SetMark)
  const MASQ_RULE := Rule(None, Any, Any, None, false, true, Masquerade(false))
  const MASQ_JUMP := Rule(None, Any, Any, None, false, false, Jump(HostportMasq))

  function DnJump(id: string): Rule {
    Rule(None, Any, Any, None, false, false, Jump(Dn(id)))
  }

  function DnatRule(m: Mapping, podIp: Addr): Rule {
    Rule(Some(m.protocol), Any, m.DstMatch(), Some(m.hostPort), false, false, Dnat(podIp, m.containerPort))
  }

  function HairpinMark(m: Mapping, podIp: Addr): Rule {
    Rule(Some(m.protocol), Host(podIp), m.DstMatch(), Some(m.hostPort), false, false, Jump(HostportSetmark))
  }

  function LocalhostMark(m: Mapping): Rule {
    Rule(Some(m.protocol), Host(LOOPBACK), Any, Some(m.hostPort), false, false, Jump(HostportSetmark))
  }

  function MappingRules(podIp: Addr, m: Mapping): (rules: seq<Rule>)
    ensures |rules| == 3
  {
    [HairpinMark(m, podIp), LocalhostMark(m), DnatRule(m, podIp)]
  }

  /** The three rules of a mapping, in full. */
  lemma MappingRulesAre(podIp: Addr, m: Mapping)
    ensures var to := if m.hostIp.Bound? then Host(m.hostIp.ip) else Any;
            MappingRules(podIp, m)
            == [ Rule(Some(m.protocol), Host(podIp), to, Some(m.hostPort), false, false, Jump(HostportSetmark)),
                 Rule(Some(m.protocol), Host(0x7F00_0001), Any, Some(m.hostPort), false, false, Jump(HostportSetmark)),
                 Rule(Some(m.protocol), Any, to, Some(m.hostPort), false, false, Dnat(podIp, m.containerPort)) ]
  {
  }

  /** The rules of all mappings, in installation order. */
  function Program(podIp: Addr, mappings: seq<Mapping>): (rules: seq<Rule>)
    ensures |rules| == 3 * |mappings|
  {
    if mappings == [] then [] else MappingRules(podIp, mappings[0]) + Program(podIp, mappings[1..])
  }

  lemma {:induction false} ProgramAt(podIp: Addr, mappings: seq<Mapping>, i: nat)
    requires i < |mappings|
    ensures Program(podIp, mappings)[3 * i..3 * i + 3] == MappingRules(podIp, mappings[i])
  {
    if i > 0 {
      ProgramAt(podIp, mappings[1..], i - 1);
      assert Program(podIp, mappings)[3 * i..3 * i + 3] == Program(podIp, mappings[1..])[3 * (i - 1)..3 * (i - 1) + 3];
    }
  }

  // -------------------------------------------------------------------- steps

  const SHARED_STEPS: seq<Step> := [
    EnsureChain(HostportDnat),
    InsertRule(Prerouting, HOOK),
    InsertRule(Output, HOOK),
    EnsureChain(HostportSetmark),
    EnsureRule(HostportSetmark, MARK_RULE),
    EnsureChain(HostportMasq),
    EnsureRule(HostportMasq, MASQ_RULE),
    InsertRule(Postrouting, MASQ_JUMP)
  ]

  /** Everything one ADD does to the table, in order. */
  function ApplySteps(d: Deployment): (steps: seq<Step>)
    ensures |steps| == 10 + |d.Rules()|
    ensures steps[..8] == SHARED_STEPS
    ensures steps[8] == EnsureChain(Dn(d.id)) && steps[9] == EnsureRule(HostportDnat, DnJump(d.id))
    ensures forall i :: 10 <= i < |steps| ==> steps[i] == EnsureRule(Dn(d.id), d.Rules()[i - 10])
  {
    SHARED_STEPS
    + [EnsureChain(Dn(d.id)), EnsureRule(HostportDnat, DnJump(d.id))]
    + seq(|d.Rules()|, i requires 0 <= i < |d.Rules()| => EnsureRule(Dn(d.id), d.Rules()[i]))
  }

  predicate HasBuiltins(t: Table) {
    Prerouting in t && Output in t && Postrouting in t
  }

  lemma {:induction false} ChainsNeverVanish(t: Table, steps: seq<Step>, k: nat, c: Chain)
    requires k <= |steps| && c in t
    ensures c in RunPrefix(t, steps, k)
  {
    if k > 0 {
      ChainsNeverVanish(t, steps, k - 1, c);
    }
  }

  lemma {:induction false} EnsuredChainExists(t: Table, steps: seq<Step>, k: nat, j: nat)
    requires j < k <= |steps| && steps[j].EnsureChain?
    ensures steps[j].c in RunPrefix(t, steps, k)
  {
    if j < k - 1 {
      EnsuredChainExists(t, steps, k - 1, j);
    }
  }

  /** In a table with the built-in chains, every step of an ADD can be done when its turn comes. */
  lemma ApplyFeasible(t: Table, d: Deployment)
    requires HasBuiltins(t)
    ensures Feasible(t, ApplySteps(d))
  {
    var steps := ApplySteps(d);
    forall k | 0 <= k < |steps|
      ensures CanStep(RunPrefix(t, steps, k), steps[k])
    {
      ChainsNeverVanish(t, steps, k, Prerouting);
      ChainsNeverVanish(t, steps, k, Output);
      ChainsNeverVanish(t, steps, k, Postrouting);
      SharedStepAt(d);
      if k > 0 { EnsuredChainExists(t, steps, k, 0); }
      if k > 3 { EnsuredChainExists(t, steps, k, 3); }
      if k > 5 { EnsuredChainExists(t, steps, k, 5); }
      if k > 8 { EnsuredChainExists(t, steps, k, 8); }
      if k >= 10 {
        RuleTargets(d.podIp, d.mappings, k - 10);
      }
    }
  }

  lemma {:induction false} RuleTargets(podIp: Addr, mappings: seq<Mapping>, i: nat)
    requires i < 3 * |mappings|
    ensures var r := Program(podIp, mappings)[i]; r.target.Jump? ==> r.target.chain == HostportSetmark
  {
    if i >= 3 {
      RuleTargets(podIp, mappings[1..], i - 3);
    }
  }

  lemma FeasibleIfBuiltins(t: Table, d: Deployment)
    ensures HasBuiltins(t) ==> Feasible(t, ApplySteps(d))
  {
    if HasBuiltins(t) {
      ApplyFeasible(t, d);
    }
  }

  lemma SharedStepAt(d: Deployment)
    ensures forall i :: 0 <= i < 8 ==> ApplySteps(d)[i] == SHARED_STEPS[i]
  {
    assert forall i :: 0 <= i < 8 ==> ApplySteps(d)[i] == ApplySteps(d)[..8][i];
  }

  lemma MappingStepAt(d: Deployment, i: nat, j: nat, k: nat)
    requires i < |d.mappings| && j < 3 && k == 10 + 3 * i + j
    ensures k < |ApplySteps(d)|
    ensures ApplySteps(d)[k] == EnsureRule(Dn(d.id), MappingRules(d.podIp, d.mappings[i])[j])
  {
    ProgramAt(d.podIp, d.mappings, i);
    assert d.Rules()[3 * i..3 * i + 3][j] == d.Rules()[k - 10];
    hide MappingRules, Program;
  }

  // ------------------------------------------------------------------ methods

  /** The k-th step of an ADD, and that it can be done when its turn comes. */
  predicate Leads(t: Table, d: Deployment, k: nat, s: Step) {
    && k < |ApplySteps(d)|
    && RunPrefix(t, ApplySteps(d), k + 1) == DoStep(RunPrefix(t, ApplySteps(d), k), s)
    && (HasBuiltins(t) ==> CanStep(RunPrefix(t, ApplySteps(d), k), s))
  }

  lemma StepLeads(t: Table, d: Deployment, k: nat, s: Step)
    requires Leads(t, d, k, s)
    ensures k < |ApplySteps(d)| && RunPrefix(t, ApplySteps(d), k + 1) == DoStep(RunPrefix(t, ApplySteps(d), k), s)
    ensures HasBuiltins(t) ==> CanStep(RunPrefix(t, ApplySteps(d), k), s)
  {
  }

  lemma SharedLeads(t: Table, d: Deployment)
    ensures Leads(t, d, 0, EnsureChain(HostportDnat)) && Leads(t, d, 1, InsertRule(Prerouting, HOOK))
    ensures Leads(t, d, 2, InsertRule(Output, HOOK)) && Leads(t, d, 3, EnsureChain(HostportSetmark))
    ensures Leads(t, d, 4, EnsureRule(HostportSetmark, MARK_RULE)) && Leads(t, d, 5, EnsureChain(HostportMasq))
    ensures Leads(t, d, 6, EnsureRule(HostportMasq, MASQ_RULE)) && Leads(t, d, 7, InsertRule(Postrouting, MASQ_JUMP))
  {
    FeasibleIfBuiltins(t, d);
    SharedStepAt(d);
    hide DoStep, CanStep;
    forall k | 0 <= k < 8
      ensures Leads(t, d, k, SHARED_STEPS[k])
    {
      NextPrefix(t, ApplySteps(d), k);
    }
  }

  /** The top chain and the hooks into it. */
  method EnsureHooks(ipt: Iptables, ghost t: Table, ghost d: Deployment) returns (status: Status, ghost k: nat)
    requires ipt.table == t
    modifies ipt
    ensures k <= 3 && ipt.table == RunPrefix(t, ApplySteps(d), k) && (status.Pass? ==> k == 3)
    ensures ipt.reliable && HasBuiltins(t) ==> status.Pass?
  {
    k := 0;
    NoSteps(t, ApplySteps(d));
    SharedLeads(t, d);
    hide *;
    StepLeads(t, d, k, EnsureChain(HostportDnat));
    :- ipt.EnsureChain(HostportDnat);
    k := k + 1;
    StepLeads(t, d, k, InsertRule(Prerouting, HOOK));
    :- ipt.InsertRule(Prerouting, HOOK);
    k := k + 1;
    StepLeads(t, d, k, InsertRule(Output, HOOK));
    :- ipt.InsertRule(Output, HOOK);
    k := k + 1;
    return Pass, k;
  }

  /** The chain that marks, and its rule. */
  method EnsureMarking(ipt: Iptables, ghost t: Table, ghost d: Deployment) returns (status: Status, ghost k: nat)
    requires ipt.table == RunPrefix(t, ApplySteps(d), 3)
    modifies ipt
    ensures k <= 5 && ipt.table == RunPrefix(t, ApplySteps(d), k) && (status.Pass? ==> k == 5)
    ensures ipt.reliable && HasBuiltins(t) ==> status.Pass?
  {
    k := 3;
    SharedLeads(t, d);
    hide *;
    StepLeads(t, d, k, EnsureChain(HostportSetmark));
    :- ipt.EnsureChain(HostportSetmark);
    k := k + 1;
    StepLeads(t, d, k, EnsureRule(HostportSetmark, MARK_RULE));
    :- ipt.EnsureRule(HostportSetmark, MARK_RULE);
    k := k + 1;
    return Pass, k;
  }

  /** The chain that masquerades what is marked, its rule, and the jump to it. */
  method EnsureMasquerading(ipt: Iptables, ghost t: Table, ghost d: Deployment) returns (status: Status, ghost k: nat)
    requires ipt.table == RunPrefix(t, ApplySteps(d), 5)
    modifies ipt
    ensures k <= 8 && ipt.table == RunPrefix(t, ApplySteps(d), k) && (status.Pass? ==> k == 8)
    ensures ipt.reliable && HasBuiltins(t) ==> status.Pass?
  {
    k := 5;
    SharedLeads(t, d);
    hide *;
    StepLeads(t, d, k, EnsureChain(HostportMasq));
    :- ipt.EnsureChain(HostportMasq);
    k := k + 1;
    StepLeads(t, d, k, EnsureRule(HostportMasq, MASQ_RULE));
    :- ipt.EnsureRule(HostportMasq, MASQ_RULE);
    k := k + 1;
    StepLeads(t, d, k, InsertRule(Postrouting, MASQ_JUMP));
    :- ipt.InsertRule(Postrouting, MASQ_JUMP);
    k := k + 1;
    return Pass, k;
  }

  /** The shared chains and the hooks into the built-in ones. */
  method EnsureTopChains(ipt: Iptables, ghost d: Deployment) returns (status: Status, ghost k: nat)
    modifies ipt
    ensures k <= 8 && ipt.table == RunPrefix(old(ipt.table), ApplySteps(d), k)
    ensures status.Pass? ==> k == 8
    ensures ipt.reliable && HasBuiltins(old(ipt.table)) ==> status.Pass?
  {
    ghost var t := ipt.table;
    NoSteps(t, ApplySteps(d));
    hide *;
    k :- EnsureHooks(ipt, t, d);
    k :- EnsureMarking(ipt, t, d);
    k :- EnsureMasquerading(ipt, t, d);
    return Pass, k;
  }

  /** Where the j-th step of mapping i leads. */
  lemma MappingPrefix(t: Table, d: Deployment, i: nat, j: nat, k: nat)
    requires i < |d.mappings| && j < 3 && k == 10 + 3 * i + j
    ensures k < |ApplySteps(d)|
    ensures var step := EnsureRule(Dn(d.id), MappingRules(d.podIp, d.mappings[i])[j]);
            && RunPrefix(t, ApplySteps(d), k + 1) == DoStep(RunPrefix(t, ApplySteps(d), k), step)
            && (HasBuiltins(t) ==> CanStep(RunPrefix(t, ApplySteps(d), k), step))
  {
    hide RunPrefix, DoStep, CanStep, Feasible, MappingRules, Program, ApplySteps, Deployment.Rules;
    FeasibleIfBuiltins(t, d);
    MappingStepAt(d, i, j, k);
    NextPrefix(t, ApplySteps(d), k);
  }

  /** The three rules of mapping i, once everything before them is there. */
  method ApplyMapping(ipt: Iptables, dn: Chain, podIp: Addr, m: Mapping,
                      ghost t: Table, ghost d: Deployment, ghost i: nat, ghost at: nat)
    returns (status: Status, ghost k: nat)
    requires i < |d.mappings| && m == d.mappings[i] && podIp == d.podIp && dn == Dn(d.id)
    requires at == 10 + 3 * i && ipt.table == RunPrefix(t, ApplySteps(d), at)
    modifies ipt
    ensures k <= |ApplySteps(d)| && ipt.table == RunPrefix(t, ApplySteps(d), k)
    ensures status.Pass? ==> k == at + 3
    ensures ipt.reliable && HasBuiltins(t) ==> status.Pass?
  {
    hide RunPrefix, DoStep, CanStep, ApplySteps, HasBuiltins, HairpinMark, LocalhostMark, DnatRule;
    k := at;
    MappingPrefix(t, d, i, 0, k);
    :- ipt.EnsureRule(dn, HairpinMark(m, podIp));
    k := k + 1;
    MappingPrefix(t, d, i, 1, k);
    :- ipt.EnsureRule(dn, LocalhostMark(m));
    k := k + 1;
    MappingPrefix(t, d, i, 2, k);
    :- ipt.EnsureRule(dn, DnatRule(m, podIp));
    k := k + 1;
    return Pass, k;
  }

  /** Where the two steps that wire up the container's chain lead. */
  lemma WiringPrefixes(t: Table, d: Deployment, k: nat)
    requires k == 8
    ensures |ApplySteps(d)| == 10 + 3 * |d.mappings|
    ensures RunPrefix(t, ApplySteps(d), k + 1) == DoStep(RunPrefix(t, ApplySteps(d), k), EnsureChain(Dn(d.id)))
    ensures RunPrefix(t, ApplySteps(d), k + 2)
            == DoStep(RunPrefix(t, ApplySteps(d), k + 1), EnsureRule(HostportDnat, DnJump(d.id)))
    ensures HasBuiltins(t) ==> CanStep(RunPrefix(t, ApplySteps(d), k + 1), EnsureRule(HostportDnat, DnJump(d.id)))
  {
    FeasibleIfBuiltins(t, d);
    NextPrefix(t, ApplySteps(d), k);
    NextPrefix(t, ApplySteps(d), k + 1);
    hide RunPrefix, DoStep, CanStep, Feasible;
  }

  /** ADD: stops at the first failing command, having done exactly the steps before it. */
  method Apply(ipt: Iptables, containerId: string, podIp: Addr, mappings: seq<Mapping>)
    returns (status: Status, ghost k: nat)
    modifies ipt
    ensures var steps := ApplySteps(Deployment(ChainId(containerId), podIp, mappings));
            k <= |steps| && ipt.table == RunPrefix(old(ipt.table), steps, k) && (status.Pass? ==> k == |steps|)
    ensures ipt.reliable && HasBuiltins(old(ipt.table)) ==> status.Pass?
  {
    ghost var t, d := ipt.table, Deployment(ChainId(containerId), podIp, mappings);
    var dn := DnChain(containerId);
    hide *;
    assert d.mappings == mappings && d.podIp == podIp && dn == Dn(d.id);
    k :- EnsureTopChains(ipt, d);
    WiringPrefixes(t, d, k);
    :- ipt.EnsureChain(dn);
    k := k + 1;
    :- ipt.EnsureRule(HostportDnat, DnJump(dn.id));
    k := k + 1;
    for i := 0 to |mappings|
      invariant k == 10 + 3 * i
      invariant ipt.table == RunPrefix(t, ApplySteps(d), k)
    {
      k :- ApplyMapping(ipt, dn, podIp, mappings[i], t, d, i, k);
    }
    return Pass, k;
  }

  /** DEL on tables: drop the jump, flush the chain, delete it. */
  function Removed(t: Table, id: string): Table {
    Attempt(Attempt(Attempt(t, Delete(HostportDnat, DnJump(id))), Flush(Dn(id))), DropChain(Dn(id)))
  }

  /** DEL on tables, some of its commands failing. */
  function RemovedBut(t: Table, id: string, skipDelete: bool, skipFlush: bool, skipDrop: bool): Table {
    var cut := Tried(t, Delete(HostportDnat, DnJump(id)), skipDelete);
    Tried(Tried(cut, Flush(Dn(id)), skipFlush), DropChain(Dn(id)), skipDrop)
  }

  method Remove(ipt: Iptables, containerId: string)
    returns (ghost skipDelete: bool, ghost skipFlush: bool, ghost skipDrop: bool)
    modifies ipt
    ensures ipt.table == RemovedBut(old(ipt.table), ChainId(containerId), skipDelete, skipFlush, skipDrop)
    ensures ipt.reliable ==> ipt.table == Removed(old(ipt.table), ChainId(containerId))
  {
    var dn := DnChain(containerId);
    skipDelete := ipt.DeleteRule(HostportDnat, DnJump(dn.id));
    skipFlush, skipDrop := ipt.FlushDeleteChain(dn);
  }

  // ------------------------------------------------------ apply, interrupted

  /** A full ADD after any executed prefix of it leaves the table one ADD would have left. */
  lemma ApplyResumes(t: Table, d: Deployment, k: nat)
    requires HasBuiltins(t) && k <= |ApplySteps(d)|
    ensures RunAll(RunPrefix(t, ApplySteps(d), k), ApplySteps(d)) == RunAll(t, ApplySteps(d))
  {
    ApplyFeasible(t, d);
    RestartSkipsPrefix(t, ApplySteps(d), k, |ApplySteps(d)|);
  }

  /** First occurrences only, in order. */
  function Dedup(rules: seq<Rule>): (r: seq<Rule>)
    ensures forall x :: x in r <==> x in rules
  {
    if rules == [] then []
    else
      var init, last := rules[..|rules| - 1], rules[|rules| - 1];
      assert rules == init + [last];
      var d := Dedup(init);
      if last in d then d else d + [last]
  }

  /** No rule is kept twice, and each is kept where it first occurs. */
  lemma {:induction false} DedupKeepsFirst(rules: seq<Rule>)
    ensures forall i, j :: 0 <= i < j < |Dedup(rules)| ==> Dedup(rules)[i] != Dedup(rules)[j]
    ensures forall i :: 0 <= i <= |rules| ==> Dedup(rules[..i]) <= Dedup(rules)
  {
    if rules != [] {
      var init := rules[..|rules| - 1];
      DedupKeepsFirst(init);
      forall i | 0 <= i <= |rules|
        ensures Dedup(rules[..i]) <= Dedup(rules)
      {
        if i < |rules| {
          assert init[..i] == rules[..i];
        } else {
          assert rules[..i] == rules;
        }
      }
    }
  }

  lemma DedupSnoc(rules: seq<Rule>, r: Rule)
    ensures Dedup(rules + [r]) == if r in Dedup(rules) then Dedup(rules) else Dedup(rules) + [r]
  {
    assert (rules + [r])[..|rules|] == rules;
  }

  /** The table of a container that is wired up: its jump last in the top chain, its own chain beside. */
  function WithContainer(t: Table, id: string, rules: seq<Rule>): Table
    requires HostportDnat in t
  {
    t[HostportDnat := t[HostportDnat] + [DnJump(id)]][Dn(id) := rules]
  }

  predicate Unused(t: Table, id: string) {
    Dn(id) !in t && !Referenced(t, Dn(id))
  }

  /** Where each private step of an ADD of a new container leads, as a whole table. */
  lemma {:induction false} ApplyShape(t: Table, d: Deployment, shared: Table, k: nat)
    requires HasBuiltins(t) && Unused(t, d.id) && 9 <= k <= |ApplySteps(d)|
    requires shared == AfterSharedSteps(t, d, 8)
    ensures HostportDnat in shared && Unused(shared, d.id)
    ensures RunPrefix(t, ApplySteps(d), k) ==
            if k == 9 then shared[Dn(d.id) := []] else WithContainer(shared, d.id, Dedup(d.Rules()[..k - 10]))
  {
    hide RunPrefix, Feasible, CanStep, DoStep, Unused, HasBuiltins, Dedup, AfterSharedSteps, Deployment.Rules,
         WithContainer;
    if k == 9 {
      ShapeWithChain(t, d, shared);
    } else {
      ApplyFeasible(t, d);
      NextPrefix(t, ApplySteps(d), k - 1);
      ApplyShape(t, d, shared, k - 1);
      if k == 10 {
        FirstJump(shared, d);
      } else {
        ShapeOfNextRule(shared, d, k - 11);
      }
    }
  }

  lemma ShapeOfNextRule(shared: Table, d: Deployment, i: nat)
    requires HostportDnat in shared && i < |d.Rules()|
    requires CanStep(WithContainer(shared, d.id, Dedup(d.Rules()[..i])), EnsureRule(Dn(d.id), d.Rules()[i]))
    ensures DoStep(WithContainer(shared, d.id, Dedup(d.Rules()[..i])), EnsureRule(Dn(d.id), d.Rules()[i]))
            == WithContainer(shared, d.id, Dedup(d.Rules()[..i + 1]))
  {
    DedupStep(WithContainer(shared, d.id, Dedup(d.Rules()[..i])), Dn(d.id), d.Rules(), i);
    hide Dedup, CanStep, DoStep;
  }

  lemma ShapeWithChain(t: Table, d: Deployment, shared: Table)
    requires HasBuiltins(t) && Unused(t, d.id) && shared == AfterSharedSteps(t, d, 8)
    ensures HostportDnat in shared && Unused(shared, d.id)
    ensures RunPrefix(t, ApplySteps(d), 9) == shared[Dn(d.id) := []]
  {
    var steps, k := ApplySteps(d), 9;
    NextPrefix(t, steps, k - 1);
    SharedStepsAvoidContainers(t, d, k - 1);
    EnsuredChainExists(t, steps, k - 1, 0);
    SharedStepAt(d);
    hide RunPrefix, Feasible;
  }

  lemma FirstJump(shared: Table, d: Deployment)
    requires HostportDnat in shared && Unused(shared, d.id)
    ensures DoStep(shared[Dn(d.id) := []], EnsureRule(HostportDnat, DnJump(d.id)))
            == WithContainer(shared, d.id, Dedup(d.Rules()[..0]))
  {
    assert DnJump(d.id) !in shared[HostportDnat];
    assert Dedup(d.Rules()[..0]) == [];
  }

  /** The table once the first k of the shared steps are done. */
  function AfterSharedSteps(t: Table, d: Deployment, k: nat): Table
    requires k <= 8
  {
    RunPrefix(t, ApplySteps(d), k)
  }

  lemma DedupStep(t: Table, c: Chain, rules: seq<Rule>, i: nat)
    requires i < |rules| && c in t && t[c] == Dedup(rules[..i])
    requires CanStep(t, EnsureRule(c, rules[i]))
    ensures DoStep(t, EnsureRule(c, rules[i])) == t[c := Dedup(rules[..i + 1])]
  {
    assert rules[..i + 1] == rules[..i] + [rules[i]];
    DedupSnoc(rules[..i], rules[i]);
  }

  lemma SharedStepAvoids(t: Table, k: nat, id: string)
    requires k < 8 && Unused(t, id)
    ensures Unused(DoStep(t, SHARED_STEPS[k]), id)
  {
  }

  lemma {:induction false} SharedStepsAvoidContainers(t: Table, d: Deployment, k: nat)
    requires k <= 8 && Unused(t, d.id)
    ensures Unused(RunPrefix(t, ApplySteps(d), k), d.id)
  {
    if k > 0 {
      SharedStepsAvoidContainers(t, d, k - 1);
      SharedStepAt(d);
      NextPrefix(t, ApplySteps(d), k - 1);
      hide RunPrefix, ApplySteps, DoStep;
      SharedStepAvoids(RunPrefix(t, ApplySteps(d), k - 1), k - 1, d.id);
    }
  }

  /** A completed ADD of a new container leaves exactly the de-duplicated rules of its mappings. */
  lemma ApplyInstallsDedup(t: Table, d: Deployment)
    requires HasBuiltins(t) && Unused(t, d.id)
    ensures var t', shared := RunAll(t, ApplySteps(d)), AfterSharedSteps(t, d, 8);
            && Dn(d.id) in t' && t'[Dn(d.id)] == Dedup(d.Rules())
            && HostportDnat in shared && HostportDnat in t'
            && t'[HostportDnat] == shared[HostportDnat] + [DnJump(d.id)]
            && t' - {HostportDnat, Dn(d.id)} == shared - {HostportDnat}
  {
    var shared := AfterSharedSteps(t, d, 8);
    ApplyShape(t, d, shared, |ApplySteps(d)|);
    assert d.Rules()[..|d.Rules()|] == d.Rules();
    hide RunPrefix, AfterSharedSteps, ApplySteps, Dedup;
    assert WithContainer(shared, d.id, Dedup(d.Rules())) - {HostportDnat, Dn(d.id)} == shared - {HostportDnat};
  }

  /** The rules of others in the three built-in chains, none of them a jump of the plugin's. */
  predicate Foreign(pre: seq<Rule>, out: seq<Rule>, post: seq<Rule>) {
    HOOK !in pre && HOOK !in out && MASQ_JUMP !in post
  }

  function Builtins(pre: seq<Rule>, out: seq<Rule>, post: seq<Rule>): Table {
    map[Prerouting := pre, Output := out, Postrouting := post]
  }

  /** The top chain and its hooks, on a table without the plugin's chains. */
  lemma HooksMade(pre: seq<Rule>, out: seq<Rule>, post: seq<Rule>, d: Deployment, k: nat)
    requires Foreign(pre, out, post) && k == 3
    ensures RunPrefix(Builtins(pre, out, post), ApplySteps(d), k)
            == map[Prerouting := [HOOK] + pre, Output := [HOOK] + out, Postrouting := post, HostportDnat := []]
  {
    var t0 := Builtins(pre, out, post);
    SharedLeads(t0, d);
    NoSteps(t0, ApplySteps(d));
    hide RunPrefix, ApplySteps, DoStep, Leads;
    NewChain(t0, d, 0, t0, HostportDnat);
    var t1 := t0[HostportDnat := []];
    Inserts(t0, d, 1, t1, Prerouting, HOOK);
    Inserts(t0, d, 2, t1[Prerouting := [HOOK] + pre], Output, HOOK);
  }

  /** The shared steps on a table without the plugin's chains, in full. */
  lemma SharedStepsMake(pre: seq<Rule>, out: seq<Rule>, post: seq<Rule>, d: Deployment)
    requires Foreign(pre, out, post)
    ensures var hook := Rule(None, Any, Any, None, true, false, Jump(HostportDnat));
            AfterSharedSteps(Builtins(pre, out, post), d, 8)
            == map[Prerouting := [hook] + pre, Output := [hook] + out,
                   Postrouting := [Rule(None, Any, Any, None, false, false, Jump(HostportMasq))] + post,
                   HostportDnat := [],
                   HostportSetmark := [Rule(None, Any, Any, None, false, false, SetMark)],
                   HostportMasq := [Rule(None, Any, Any, None, false, true, Masquerade(false))]]
  {
    SharedLeads(Builtins(pre, out, post), d);
    hide *;
    SharedMadeAt(pre, out, post, d, 3);
    AfterShared(Builtins(pre, out, post), d, 8);
  }

  lemma AfterShared(t: Table, d: Deployment, k: nat)
    requires k <= 8
    ensures AfterSharedSteps(t, d, k) == RunPrefix(t, ApplySteps(d), k)
  {
  }

  lemma SharedMadeAt(pre: seq<Rule>, out: seq<Rule>, post: seq<Rule>, d: Deployment, k: nat)
    requires Foreign(pre, out, post) && k == 3
    requires var t0 := Builtins(pre, out, post);
             && Leads(t0, d, k, EnsureChain(HostportSetmark))
             && Leads(t0, d, k + 1, EnsureRule(HostportSetmark, MARK_RULE))
             && Leads(t0, d, k + 2, EnsureChain(HostportMasq))
             && Leads(t0, d, k + 3, EnsureRule(HostportMasq, MASQ_RULE))
             && Leads(t0, d, k + 4, InsertRule(Postrouting, MASQ_JUMP))
    ensures var hook := Rule(None, Any, Any, None, true, false, Jump(HostportDnat));
            RunPrefix(Builtins(pre, out, post), ApplySteps(d), k + 5)
            == map[Prerouting := [hook] + pre, Output := [hook] + out,
                   Postrouting := [Rule(None, Any, Any, None, false, false, Jump(HostportMasq))] + post,
                   HostportDnat := [],
                   HostportSetmark := [Rule(None, Any, Any, None, false, false, SetMark)],
                   HostportMasq := [Rule(None, Any, Any, None, false, true, Masquerade(false))]]
  {
    var t0 := Builtins(pre, out, post);
    hide RunPrefix, ApplySteps, Leads, Builtins;
    HooksMade(pre, out, post, d, k);
    MarkingMade(t0, d, k, RunPrefix(t0, ApplySteps(d), k));
  }

  /** The marking and masquerading chains, and the jump to the latter. */
  lemma MarkingMade(t0: Table, d: Deployment, k: nat, t: Table)
    requires k + 5 <= |ApplySteps(d)| && RunPrefix(t0, ApplySteps(d), k) == t
    requires HostportSetmark !in t && HostportMasq !in t && Postrouting in t && MASQ_JUMP !in t[Postrouting]
    requires Leads(t0, d, k, EnsureChain(HostportSetmark))
    requires Leads(t0, d, k + 1, EnsureRule(HostportSetmark, MARK_RULE))
    requires Leads(t0, d, k + 2, EnsureChain(HostportMasq)) && Leads(t0, d, k + 3, EnsureRule(HostportMasq, MASQ_RULE))
    requires Leads(t0, d, k + 4, InsertRule(Postrouting, MASQ_JUMP))
    ensures RunPrefix(t0, ApplySteps(d), k + 5)
            == t[HostportSetmark := [MARK_RULE]][HostportMasq := [MASQ_RULE]]
                [Postrouting := [MASQ_JUMP] + t[Postrouting]]
  {
    hide RunPrefix, ApplySteps, DoStep, Leads;
    NewChain(t0, d, k, t, HostportSetmark);
    FirstRule(t0, d, k + 1, t[HostportSetmark := []], HostportSetmark, MARK_RULE);
    var t5 := t[HostportSetmark := []][HostportSetmark := [MARK_RULE]];
    NewChain(t0, d, k + 2, t5, HostportMasq);
    FirstRule(t0, d, k + 3, t5[HostportMasq := []], HostportMasq, MASQ_RULE);
    var t7 := t5[HostportMasq := []][HostportMasq := [MASQ_RULE]];
    Inserts(t0, d, k + 4, t7, Postrouting, MASQ_JUMP);
  }

  lemma NewChain(t0: Table, d: Deployment, k: nat, t: Table, c: Chain)
    requires Leads(t0, d, k, EnsureChain(c)) && RunPrefix(t0, ApplySteps(d), k) == t && c !in t
    ensures RunPrefix(t0, ApplySteps(d), k + 1) == t[c := []]
  {
  }

  lemma FirstRule(t0: Table, d: Deployment, k: nat, t: Table, c: Chain, r: Rule)
    requires Leads(t0, d, k, EnsureRule(c, r)) && RunPrefix(t0, ApplySteps(d), k) == t
    requires c in t && t[c] == [] && TargetExists(t, r)
    ensures RunPrefix(t0, ApplySteps(d), k + 1) == t[c := [r]]
  {
    assert [] + [r] == [r];
  }

  lemma Inserts(t0: Table, d: Deployment, k: nat, t: Table, c: Chain, r: Rule)
    requires Leads(t0, d, k, InsertRule(c, r)) && RunPrefix(t0, ApplySteps(d), k) == t
    requires c in t && r !in t[c] && TargetExists(t, r)
    ensures RunPrefix(t0, ApplySteps(d), k + 1) == t[c := [r] + t[c]]
  {
  }

  /** The whole table that one ADD makes of a table without the plugin's chains. */
  lemma FreshAdd(pre: seq<Rule>, out: seq<Rule>, post: seq<Rule>, d: Deployment)
    requires Foreign(pre, out, post)
    requires forall r | r in pre + out + post :: r.target != Jump(Dn(d.id))
    ensures var hook := Rule(None, Any, Any, None, true, false, Jump(HostportDnat));
            RunAll(Builtins(pre, out, post), ApplySteps(d))
            == map[Prerouting := [hook] + pre, Output := [hook] + out,
                   Postrouting := [Rule(None, Any, Any, None, false, false, Jump(HostportMasq))] + post,
                   HostportDnat := [Rule(None, Any, Any, None, false, false, Jump(Dn(d.id)))],
                   HostportSetmark := [Rule(None, Any, Any, None, false, false, SetMark)],
                   HostportMasq := [Rule(None, Any, Any, None, false, true, Masquerade(false))],
                   Dn(d.id) := Dedup(d.Rules())]
  {
    var t0 := Builtins(pre, out, post);
    UnusedAtFirst(pre, out, post, d.id);
    hide *;
    SharedStepsMake(pre, out, post, d);
    ApplyInstallsDedup(t0, d);
    var shared, t, jump := AfterSharedSteps(t0, d, 8), RunAll(t0, ApplySteps(d)), DnJump(d.id);
    JumpIs(d.id);
    PutTogether(t, shared, d.id);
    assert [] + [jump] == [jump];
    assert t == shared[HostportDnat := [jump]][Dn(d.id) := Dedup(d.Rules())];
  }

  lemma UnusedAtFirst(pre: seq<Rule>, out: seq<Rule>, post: seq<Rule>, id: string)
    requires forall r | r in pre + out + post :: r.target != Jump(Dn(id))
    ensures Unused(Builtins(pre, out, post), id) && HasBuiltins(Builtins(pre, out, post))
  {
    var t0 := Builtins(pre, out, post);
    assert forall c, r: Rule | c in t0 && r in t0[c] :: r in pre + out + post;
  }

  lemma JumpIs(id: string)
    ensures DnJump(id) == Rule(None, Any, Any, None, false, false, Jump(Dn(id)))
  {
  }

  /** A table that is another but for the top chain and one container's chain. */
  lemma PutTogether(t: Table, shared: Table, id: string)
    requires HostportDnat in t && Dn(id) in t && HostportDnat in shared && Dn(id) !in shared
    requires t - {HostportDnat, Dn(id)} == shared - {HostportDnat}
    ensures t == shared[HostportDnat := t[HostportDnat]][Dn(id) := t[Dn(id)]]
  {
    var rest := t - {HostportDnat, Dn(id)};
    assert forall c | c in t && c != HostportDnat && c != Dn(id) :: c in rest && t[c] == rest[c];
    assert forall c | c in shared && c != HostportDnat :: c in rest && shared[c] == rest[c];
  }

  // ------------------------------------------------------------------- remove

  lemma {:induction false} RemoveFirstBetween(before: seq<Rule>, r: Rule, after: seq<Rule>)
    requires r !in before
    ensures RemoveFirst(before + [r] + after, r) == before + after
  {
    if before == [] {
      assert before + [r] + after == [r] + after;
      assert before + after == after;
    } else {
      assert (before + [r] + after)[1..] == before[1..] + [r] + after;
      RemoveFirstBetween(before[1..], r, after);
      assert before + after == [before[0]] + (before[1..] + after);
    }
  }

  /** Only the top chain refers to the container's chain, and only once. */
  predicate WiredOnce(t: Table, id: string, before: seq<Rule>, after: seq<Rule>) {
    && Dn(id) in t && HostportDnat in t
    && t[HostportDnat] == before + [DnJump(id)] + after
    && (forall r | r in before + after + t[Dn(id)] :: r.target != Jump(Dn(id)))
    && (forall c | c in t && c != HostportDnat :: forall r | r in t[c] :: r.target != Jump(Dn(id)))
  }

  /** DEL takes out one container wherever its jump stands; all else keeps its place. */
  lemma RemoveAnywhere(t: Table, id: string, before: seq<Rule>, after: seq<Rule>)
    requires WiredOnce(t, id, before, after)
    ensures Removed(t, id) == t[HostportDnat := before + after] - {Dn(id)}
    ensures Unused(Removed(t, id), id) && Removed(Removed(t, id), id) == Removed(t, id)
  {
    NoOtherJump(t, id, before, after);
    var cut := Attempt(t, Delete(HostportDnat, DnJump(id)));
    assert DnJump(id) in t[HostportDnat];
    assert cut == t[HostportDnat := before + after];
    var flushed := Attempt(cut, Flush(Dn(id)));
    assert flushed == cut[Dn(id) := []];
    forall c, r: Rule | c in flushed && r in flushed[c]
      ensures r.target != Jump(Dn(id))
    {
      if c == HostportDnat {
        assert r in before + after + t[Dn(id)];
      }
    }
    assert !Referenced(flushed, Dn(id));
    assert flushed - {Dn(id)} == t[HostportDnat := before + after] - {Dn(id)};
    RemovedUnused(Removed(t, id), id);
  }

  /** Nothing leads into rules of the container any more. */
  predicate Inert(t: Table, id: string) {
    (HostportDnat in t ==> DnJump(id) !in t[HostportDnat]) || (Dn(id) in t ==> t[Dn(id)] == [])
  }

  /**
   A DEL with failing commands leaves all other chains and jumps alone, and disconnects a
   wired container exactly unless both the deletion of its jump and the flush failed.
   */
  lemma FaultyRemove(t: Table, id: string, before: seq<Rule>, after: seq<Rule>,
                     skipDelete: bool, skipFlush: bool, skipDrop: bool)
    requires WiredOnce(t, id, before, after) && t[Dn(id)] != []
    ensures var t' := RemovedBut(t, id, skipDelete, skipFlush, skipDrop);
            && (Inert(t', id) <==> !(skipDelete && skipFlush))
            && t' - {HostportDnat, Dn(id)} == t - {HostportDnat, Dn(id)}
            && HostportDnat in t' && t'[HostportDnat] == (if skipDelete then t[HostportDnat] else before + after)
            && (Unused(t', id) <==> !skipDelete && !skipFlush && !skipDrop)
  {
    NoOtherJump(t, id, before, after);
    FaultyTable(t, id, before, after, skipDelete, skipFlush, skipDrop);
    var cut := if skipDelete then t else t[HostportDnat := before + after];
    var flushed := if skipFlush then cut else cut[Dn(id) := []];
    hide RemovedBut;
    if skipDelete {
      assert DnJump(id) in flushed[HostportDnat] && Referenced(flushed, Dn(id));
    } else if !skipFlush && !skipDrop {
      RemoveAnywhere(t, id, before, after);
    }
  }

  lemma NoOtherJump(t: Table, id: string, before: seq<Rule>, after: seq<Rule>)
    requires WiredOnce(t, id, before, after)
    ensures DnJump(id) !in before && DnJump(id) !in before + after && DnJump(id) in t[HostportDnat]
    ensures RemoveFirst(t[HostportDnat], DnJump(id)) == before + after
  {
    forall r | r in before + after
      ensures r != DnJump(id)
    {
      assert r in before + after + t[Dn(id)];
    }
    assert forall r | r in before :: r in before + after;
    RemoveFirstBetween(before, DnJump(id), after);
  }

  /** The whole table after a DEL with failing commands. */
  lemma FaultyTable(t: Table, id: string, before: seq<Rule>, after: seq<Rule>,
                    skipDelete: bool, skipFlush: bool, skipDrop: bool)
    requires WiredOnce(t, id, before, after) && t[Dn(id)] != []
    ensures var cut := if skipDelete then t else t[HostportDnat := before + after];
            var flushed := if skipFlush then cut else cut[Dn(id) := []];
            RemovedBut(t, id, skipDelete, skipFlush, skipDrop)
            == if skipDelete || skipFlush || skipDrop then flushed else Removed(t, id)
  {
    NoOtherJump(t, id, before, after);
    var cut := Tried(t, Delete(HostportDnat, DnJump(id)), skipDelete);
    var flushed := Tried(cut, Flush(Dn(id)), skipFlush);
    if skipDelete {
      assert DnJump(id) in flushed[HostportDnat] && Referenced(flushed, Dn(id));
    }
  }

  lemma RemovedUnused(t: Table, id: string)
    requires Unused(t, id)
    ensures Removed(t, id) == t
  {
    assert HostportDnat in t ==> DnJump(id) !in t[HostportDnat];
  }

  /** A DEL of one container takes away the chain and the jump of another exactly if they share the chain. */
  lemma DelTakesSharedChain(t: Table, x: string, y: string, before: seq<Rule>, after: seq<Rule>)
    requires WiredOnce(t, ChainId(x), before, after)
    requires DnChain(y) in t && DnJump(ChainId(y)) in t[HostportDnat]
    ensures var t' := Removed(t, ChainId(x));
            && HostportDnat in t'
            && (DnChain(y) !in t' <==> DnChain(x) == DnChain(y))
            && (DnJump(ChainId(y)) !in t'[HostportDnat] <==> DnChain(x) == DnChain(y))
            && (DnChain(y) in t' ==> t'[DnChain(y)] == t[DnChain(y)])
  {
    RemoveAnywhere(t, ChainId(x), before, after);
    hide ChainId, Removed;
    forall r | r in before + after
      ensures r != DnJump(ChainId(x))
    {
      assert r in before + after + t[Dn(ChainId(x))];
    }
  }

  lemma RemovedEmptyChain(t: Table, id: string)
    requires Unused(t, id)
    ensures Removed(t[Dn(id) := []], id) == t
  {
    var t' := t[Dn(id) := []];
    assert HostportDnat in t' ==> t'[HostportDnat] == t[HostportDnat] && DnJump(id) !in t[HostportDnat];
    assert !Referenced(t', Dn(id));
    assert t' - {Dn(id)} == t;
  }

  lemma RemovedContainer(t: Table, id: string, rules: seq<Rule>)
    requires HostportDnat in t && Unused(t, id)
    requires forall r | r in rules :: r.target != Jump(Dn(id))
    ensures Removed(WithContainer(t, id, rules), id) == t
  {
    var t' := WithContainer(t, id, rules);
    var top := t[HostportDnat];
    assert t'[HostportDnat] == top + [DnJump(id)] + [];
    assert forall r | r in top :: r.target != Jump(Dn(id));
    RemoveAnywhere(t', id, top, []);
    assert top + [] == top;
    assert t'[HostportDnat := top] - {Dn(id)} == t;
  }

  /** The shared steps never touch a container's chain nor the order of the top chain. */
  lemma {:induction false} SharedStepsKeepContainers(t: Table, d: Deployment, k: nat)
    requires k <= 8
    ensures var t' := AfterSharedSteps(t, d, k);
            && (forall id :: Dn(id) in t' <==> Dn(id) in t)
            && (forall id :: Dn(id) in t ==> t'[Dn(id)] == t[Dn(id)])
            && (HostportDnat in t ==> HostportDnat in t' && t'[HostportDnat] == t[HostportDnat])
  {
    if k > 0 {
      SharedStepsKeepContainers(t, d, k - 1);
      SharedStepAt(d);
    }
  }

  lemma NoRuleLoopsBack(d: Deployment)
    ensures forall r | r in d.Rules() :: r.target.Jump? ==> r.target.chain == HostportSetmark
  {
    forall r | r in d.Rules() && r.target.Jump?
      ensures r.target.chain == HostportSetmark
    {
      var i :| 0 <= i < |d.Rules()| && d.Rules()[i] == r;
      RuleTargets(d.podIp, d.mappings, i);
    }
  }

  /**
   DEL undoes any executed prefix of an ADD: only the shared chains and hooks
   stay, and a second DEL changes nothing.
   */
  lemma RemoveUndoesApply(t: Table, d: Deployment, k: nat)
    requires HasBuiltins(t) && Unused(t, d.id) && k <= |ApplySteps(d)|
    ensures var t' := Removed(RunPrefix(t, ApplySteps(d), k), d.id);
            && t' == AfterSharedSteps(t, d, if k <= 8 then k else 8)
            && Removed(t', d.id) == t'
            && Unused(t', d.id)
  {
    if k <= 8 {
      SharedStepsAvoidContainers(t, d, k);
      RemovedUnused(RunPrefix(t, ApplySteps(d), k), d.id);
    } else {
      var shared := AfterSharedSteps(t, d, 8);
      ApplyShape(t, d, shared, k);
      if k == 9 {
        RemovedEmptyChain(shared, d.id);
      } else {
        NoRuleLoopsBack(d);
        RemovedContainer(shared, d.id, Dedup(d.Rules()[..k - 10]));
      }
      RemovedUnused(shared, d.id);
    }
  }
}
