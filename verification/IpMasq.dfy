/**
 The daemon's source-NAT rules: four rules appended to POSTROUTING in order, with
 a fallback for backends without `--random-fully`, re-asserted on every tick.
 */
module IpMasq {
  import opened Wrappers
  import opened Ipv4
  import opened NatTable

  const MULTICAST := Ipv4Network(0xE000_0000, 4)

  /** FLANNEL_NETWORK, and this node's FLANNEL_SUBNET. */
  datatype Nets = Nets(network: Ipv4Network, subnet: Ipv4Network)

  function MasqRules(n: Nets): (rules: seq<Rule>)
    ensures |rules| == 4
  {
    [ Rule(None, In(n.network), In(n.network), None, false, false, Return),
      Rule(None, In(n.network), NotIn(MULTICAST), None, false, false, Masquerade(true)),
      Rule(None, NotIn(n.network), In(n.subnet), None, false, false, Return),
      Rule(None, NotIn(n.network), In(n.network), None, false, false, Masquerade(true)) ]
  }

  function Stripped(r: Rule): Rule {
    if r.target.Masquerade? then r.(target := Masquerade(false)) else r
  }

  /** r is the i-th rule, perhaps in its fallback form. */
  predicate IsKind(n: Nets, i: nat, r: Rule)
    requires i < 4
  {
    r == MasqRules(n)[i] || r == Stripped(MasqRules(n)[i])
  }

  predicate IsMasqRule(n: Nets, r: Rule) {
    exists i | 0 <= i < 4 :: IsKind(n, i, r)
  }

  predicate Has(n: Nets, rules: seq<Rule>, i: nat)
    requires i < 4
  {
    exists r | r in rules :: IsKind(n, i, r)
  }

  /** Every masquerading rule stands behind the RETURN that exempts local traffic from it. */
  predicate Ordered(n: Nets, rules: seq<Rule>) {
    forall k | 0 <= k < |rules| ::
      && (IsKind(n, 1, rules[k]) ==> MasqRules(n)[0] in rules[..k])
      && (IsKind(n, 3, rules[k]) ==> MasqRules(n)[2] in rules[..k])
  }

  /** 224.0.0.0 to 239.255.255.255. */
  predicate IsMulticast(a: Addr) {
    0xE000_0000 <= a <= 0xEFFF_FFFF
  }

  lemma MulticastIs(a: Addr)
    ensures MULTICAST.Contains(a) <==> IsMulticast(a)
  {
    MulticastBlock();
    ContainsIsInterval(MULTICAST, a);
  }

  lemma MulticastBlock()
    ensures MULTICAST.Network() == 0xE000_0000 && MULTICAST.Broadcast() == 0xEFFF_FFFF
  {
    assert Pow2(4) == 16;
    Pow2Adds(4, 4);
    Pow2Adds(8, 8);
    Pow2Adds(16, 8);
    Pow2Adds(24, 4);
  }

  /**
   The intended table: pod to anything but pods and multicast is masqueraded, outside
   to a remote pod is masqueraded, pod to pod and outside to a local pod never are.
   */
  predicate Intended(n: Nets, src: Addr, dst: Addr) {
    if n.network.Contains(src) then !n.network.Contains(dst) && !IsMulticast(dst)
    else n.network.Contains(dst) && !n.subnet.Contains(dst)
  }

  // ------------------------------------------------------------ chain verdict

  /** Ordered rules never masquerade what is not intended. */
  lemma {:induction false} NeverTooMuch(t: Table, local: set<Addr>, n: Nets, rules: seq<Rule>, k: nat, p: Packet)
    requires k <= |rules| && forall r | r in rules :: IsMasqRule(n, r)
    requires Ranked(t) && JumpsBelow(t, rules[k..], 4)
    requires Ordered(n, rules)
    requires forall r | r in rules[..k] :: !Matches(local, r, p)
    ensures var o := Walk(t, local, rules[k..], 4, p);
            (o == Masqueraded(p) && Intended(n, p.src, p.dst)) || o == Fall(p)
    decreases |rules| - k
  {
    MulticastIs(p.dst);
    hide Ipv4Network.Contains, IsMulticast;
    if k < |rules| {
      var r := rules[k];
      assert r in rules && rules[k..][0] == r && rules[k..][1..] == rules[k + 1..];
      assert rules[..k + 1] == rules[..k] + [r];
      if !Matches(local, r, p) {
        NeverTooMuch(t, local, n, rules, k + 1, p);
      }
    }
  }

  /** With all rules in place, everything intended is masqueraded, in any order of the rules. */
  lemma {:induction false} NeverTooLittle(t: Table, local: set<Addr>, n: Nets, rules: seq<Rule>, p: Packet)
    requires Ranked(t) && JumpsBelow(t, rules, 4)
    requires forall r | r in rules :: IsMasqRule(n, r)
    requires Intended(n, p.src, p.dst) && Has(n, rules, if n.network.Contains(p.src) then 1 else 3)
    ensures Walk(t, local, rules, 4, p) == Masqueraded(p)
  {
    MulticastIs(p.dst);
    hide Ipv4Network.Contains, IsMulticast;
    var i := if n.network.Contains(p.src) then 1 else 3;
    var r := rules[0];
    assert r in rules;
    if !Matches(local, r, p) {
      var x :| x in rules && IsKind(n, i, x);
      assert Matches(local, x, p);
      assert x in rules[1..];
      assert forall y | y in rules[1..] :: y in rules;
      NeverTooLittle(t, local, n, rules[1..], p);
    }
  }

  predicate HasAll(n: Nets, rules: seq<Rule>) {
    forall i | 0 <= i < 4 :: Has(n, rules, i)
  }

  /** What the daemon's part of POSTROUTING does to a packet: nothing unintended, and all that is once complete. */
  lemma ChainVerdict(t: Table, local: set<Addr>, n: Nets, rules: seq<Rule>, p: Packet)
    requires Ranked(t) && JumpsBelow(t, rules, 4)
    requires (forall r | r in rules :: IsMasqRule(n, r)) && Ordered(n, rules)
    ensures var o := Walk(t, local, rules, 4, p);
            && (o == Masqueraded(p) || o == Fall(p))
            && (o.Masqueraded? ==> Intended(n, p.src, p.dst))
            && (HasAll(n, rules) ==> (o.Masqueraded? <==> Intended(n, p.src, p.dst)))
  {
    assert rules[0..] == rules;
    NeverTooMuch(t, local, n, rules, 0, p);
    if HasAll(n, rules) && Intended(n, p.src, p.dst) {
      NeverTooLittle(t, local, n, rules, p);
    }
  }

  /**
   The verdict of the complete chain, by the addresses: traffic from a pod is masqueraded
   unless it goes to a pod or to 224.0.0.0 through 239.255.255.255, other traffic if it goes
   to a pod of another node.
   */
  lemma VerdictInPlainTerms(t: Table, local: set<Addr>, n: Nets, rules: seq<Rule>, p: Packet)
    requires Ranked(t) && JumpsBelow(t, rules, 4)
    requires (forall r | r in rules :: IsMasqRule(n, r)) && Ordered(n, rules) && HasAll(n, rules)
    ensures var fromPod := n.network.Network() <= p.src <= n.network.Broadcast();
            var toPod := n.network.Network() <= p.dst <= n.network.Broadcast();
            var toLocalPod := n.subnet.Network() <= p.dst <= n.subnet.Broadcast();
            Walk(t, local, rules, 4, p)
            == if fromPod && !toPod && !(0xE000_0000 <= p.dst <= 0xEFFF_FFFF) then Masqueraded(p)
               else if !fromPod && toPod && !toLocalPod then Masqueraded(p)
               else Fall(p)
  {
    assert rules[0..] == rules;
    ContainsIsInterval(n.network, p.src);
    ContainsIsInterval(n.network, p.dst);
    ContainsIsInterval(n.subnet, p.dst);
    hide Ipv4Network.Contains, Walk, Has, Ordered;
    NeverTooMuch(t, local, n, rules, 0, p);
    if Intended(n, p.src, p.dst) {
      NeverTooLittle(t, local, n, rules, p);
    }
  }

  // ------------------------------------------------------------------- ensure

  lemma AppendKeepsOrder(n: Nets, rules: seq<Rule>, i: nat, r: Rule)
    requires i < 4 && IsKind(n, i, r) && Ordered(n, rules)
    requires i == 1 ==> MasqRules(n)[0] in rules
    requires i == 3 ==> MasqRules(n)[2] in rules
    ensures Ordered(n, rules + [r])
  {
    var longer := rules + [r];
    forall k | 0 <= k < |longer|
      ensures IsKind(n, 1, longer[k]) ==> MasqRules(n)[0] in longer[..k]
      ensures IsKind(n, 3, longer[k]) ==> MasqRules(n)[2] in longer[..k]
    {
      if k < |rules| {
        assert longer[..k] == rules[..k] && longer[k] == rules[k];
      } else {
        assert longer[..k] == rules && longer[k] == r;
        MasqRulesDiffer(n, i, r);
      }
    }
  }

  lemma MasqRulesDiffer(n: Nets, i: nat, r: Rule)
    requires i < 4 && IsKind(n, i, r)
    ensures forall j | 0 <= j < 4 && j != i :: !IsKind(n, j, r)
  {
  }

  /** With nothing failing a tick is these steps. */
  function MasqSteps(n: Nets): (steps: seq<Step>)
    ensures |steps| == 4
  {
    seq(4, i requires 0 <= i < 4 => EnsureRule(Postrouting, MasqRules(n)[i]))
  }

  /** The commands for one rule that fail though the table would allow them. */
  datatype RuleFaults = RuleFaults(check: bool, append: bool, checkStripped: bool, appendStripped: bool)

  const NO_RULE_FAULTS := RuleFaults(false, false, false, false)

  /** What seeing to one rule leaves and reports: `-C`, then `-A`, then the same without `--random-fully`. */
  function RuleSeenTo(t: Table, n: Nets, i: nat, f: RuleFaults): (Table, Status)
    requires i < 4
  {
    var rule := MasqRules(n)[i];
    if f.check then (t, Fail)
    else if Satisfied(t, EnsureRule(Postrouting, rule)) then (t, Pass)
    else if Postrouting in t && !f.append then (DoStep(t, EnsureRule(Postrouting, rule)), Pass)
    else if rule.target.Return? || f.checkStripped then (t, Fail)
    else if Satisfied(t, EnsureRule(Postrouting, Stripped(rule))) then (t, Pass)
    else if Postrouting in t && !f.appendStripped then (DoStep(t, EnsureRule(Postrouting, Stripped(rule))), Pass)
    else (t, Fail)
  }

  /** What a tick leaves and reports: the rules in order, stopping at the first that fails. */
  function SeenTo(t: Table, n: Nets, fs: seq<RuleFaults>): (Table, Status)
    requires |fs| <= 4
  {
    if fs == [] then (t, Pass)
    else
      var i := |fs| - 1;
      var (before, status) := SeenTo(t, n, fs[..i]);
      if status.Fail? then (before, Fail) else RuleSeenTo(before, n, i, fs[i])
  }

  predicate Faultless(fs: seq<RuleFaults>) {
    forall i | 0 <= i < |fs| :: fs[i] == NO_RULE_FAULTS
  }

  method EnsureMasqRule(ipt: Iptables, n: Nets, i: nat) returns (status: Status, ghost f: RuleFaults)
    requires i < 4
    modifies ipt
    ensures (ipt.table, status) == RuleSeenTo(old(ipt.table), n, i, f)
    ensures ipt.reliable ==> f == NO_RULE_FAULTS
  {
    hide MasqRules, Stripped;
    var rule := MasqRules(n)[i];
    MasqTarget(n, i);
    f := NO_RULE_FAULTS;
    var check := ipt.Run(Check(Postrouting, rule));
    if check.SpawnFailed? {
      f := f.(check := true);
      return Fail, f;
    }
    if check.success {
      return Pass, f;
    }
    var out := ipt.Run(Append(Postrouting, rule));
    if out.Exited? && out.success {
      return Pass, f;
    }
    f := f.(append := !ipt.reliable);
    if !rule.target.Masquerade? {
      return Fail, f;
    }
    var again := ipt.Run(Check(Postrouting, Stripped(rule)));
    if again.SpawnFailed? {
      f := f.(checkStripped := true);
      return Fail, f;
    }
    if again.success {
      return Pass, f;
    }
    var fallback := ipt.Run(Append(Postrouting, Stripped(rule)));
    if fallback.Exited? && fallback.success {
      return Pass, f;
    }
    f := f.(appendStripped := !ipt.reliable);
    return Fail, f;
  }

  lemma MasqTarget(n: Nets, i: nat)
    requires i < 4
    ensures MasqRules(n)[i].target.Return? || MasqRules(n)[i].target.Masquerade?
    ensures !Stripped(MasqRules(n)[i]).target.Jump?
  {
  }

  /** One tick of the daemon. */
  method Ensure(ipt: Iptables, n: Nets) returns (status: Status, ghost fs: seq<RuleFaults>)
    modifies ipt
    ensures |fs| <= 4 && (ipt.table, status) == SeenTo(old(ipt.table), n, fs)
    ensures status.Pass? ==> |fs| == 4
    ensures ipt.reliable ==> Faultless(fs)
  {
    fs := [];
    for i := 0 to 4
      invariant |fs| == i && (ipt.table, Pass) == SeenTo(old(ipt.table), n, fs)
      invariant ipt.reliable ==> Faultless(fs)
    {
      ghost var f;
      status, f := EnsureMasqRule(ipt, n, i);
      assert (fs + [f])[..i] == fs;
      fs := fs + [f];
      if status.Fail? {
        return;
      }
    }
    return Pass, fs;
  }

  /** At most one rule is appended, of the wanted kind; after success one is there, and failure changes nothing. */
  lemma RuleSeenToMeans(t: Table, n: Nets, i: nat, f: RuleFaults)
    requires i < 4
    ensures var (t', status) := RuleSeenTo(t, n, i, f);
            && (status.Fail? ==> t' == t)
            && (status.Pass? ==> Postrouting in t && Has(n, t'[Postrouting], i))
            && (t' == t || exists r | IsKind(n, i, r) :: t' == t[Postrouting := t[Postrouting] + [r]])
  {
    var rule := MasqRules(n)[i];
    MasqTarget(n, i);
    assert IsKind(n, i, rule) && IsKind(n, i, Stripped(rule));
  }

  /**
   Whatever fails in a tick, rules are only appended, and their order stays right; when it
   passes all four are there. Without failures it passes, and leaves what its steps leave.
   */
  lemma {:induction false} SeenToMeans(t: Table, n: Nets, fs: seq<RuleFaults>)
    requires |fs| <= 4
    ensures var (t', status) := SeenTo(t, n, fs);
            && t'.Keys == t.Keys && (forall c | c in t && c != Postrouting :: t'[c] == t[c])
            && (Postrouting in t ==> Grown(n, t[Postrouting], t'[Postrouting]))
            && (status.Pass? && fs != [] ==>
                  Postrouting in t && forall j | 0 <= j < |fs| :: Has(n, t'[Postrouting], j))
  {
    if fs != [] {
      var i := |fs| - 1;
      SeenToMeans(t, n, fs[..i]);
      hide Grown, Has, RuleSeenTo, IsKind;
      var (before, status) := SeenTo(t, n, fs[..i]);
      if status.Pass? {
        RuleSeenToMeans(before, n, i, fs[i]);
        if Postrouting in t {
          RuleAdded(n, t, before, RuleSeenTo(before, n, i, fs[i]).0, i);
        }
      }
    }
  }

  lemma {:induction false} FaultlessTick(t: Table, n: Nets, fs: seq<RuleFaults>)
    requires |fs| <= 4 && Faultless(fs) && Postrouting in t
    ensures Postrouting in SeenTo(t, n, fs).0
    ensures SeenTo(t, n, fs) == (RunPrefix(t, MasqSteps(n), |fs|), Pass)
  {
    hide MasqRules, Stripped, MasqSteps;
    if fs == [] {
      NoSteps(t, MasqSteps(n));
    } else {
      var i := |fs| - 1;
      assert fs[i] == NO_RULE_FAULTS;
      FaultlessTick(t, n, fs[..i]);
      NextMasqStep(n, t, i);
      MasqTarget(n, i);
    }
  }

  lemma NextMasqStep(n: Nets, t: Table, i: nat)
    requires i < 4
    ensures RunPrefix(t, MasqSteps(n), i + 1)
            == DoStep(RunPrefix(t, MasqSteps(n), i), EnsureRule(Postrouting, MasqRules(n)[i]))
  {
    NextPrefix(t, MasqSteps(n), i);
  }

  lemma RuleAdded(n: Nets, start: Table, before: Table, after: Table, i: nat)
    requires i < 4 && Postrouting in start && Postrouting in before && Grown(n, start[Postrouting], before[Postrouting])
    requires forall j | 0 <= j < i :: Has(n, before[Postrouting], j)
    requires || after == before
             || exists r | IsKind(n, i, r) :: after == before[Postrouting := before[Postrouting] + [r]]
    ensures Postrouting in after && Grown(n, start[Postrouting], after[Postrouting])
    ensures forall j | 0 <= j < i :: Has(n, after[Postrouting], j)
    ensures after.Keys == before.Keys && forall c | c in after && c != Postrouting :: after[c] == before[c]
  {
    if after != before {
      hide Grown, Has, IsKind;
      AppendedRule(n, start[Postrouting], before[Postrouting], after[Postrouting], i);
    }
  }

  /** Masquerading rules were appended, and a right order stayed right. */
  predicate Grown(n: Nets, start: seq<Rule>, now: seq<Rule>) {
    && start <= now
    && (forall r | r in now[|start|..] :: IsMasqRule(n, r))
    && (Ordered(n, start) ==> Ordered(n, now))
  }

  lemma AppendedRule(n: Nets, start: seq<Rule>, before: seq<Rule>, after: seq<Rule>, i: nat)
    requires i < 4 && Grown(n, start, before)
    requires forall j | 0 <= j < i :: Has(n, before, j)
    requires exists r | IsKind(n, i, r) :: after == before + [r]
    ensures Grown(n, start, after)
    ensures forall j | 0 <= j < i :: Has(n, after, j)
  {
    var r :| IsKind(n, i, r) && after == before + [r];
    assert after[|start|..] == before[|start|..] + [r];
    forall j | 0 <= j < i
      ensures Has(n, after, j)
    {
      assert Has(n, before, j);
      var x :| x in before && IsKind(n, j, x);
      assert x in after;
    }
    if Ordered(n, before) {
      assert i == 1 ==> Has(n, before, 0);
      assert i == 3 ==> Has(n, before, 2);
      AppendKeepsOrder(n, before, i, r);
    }
  }
}
