/**
 What packets meet in the chains the portmap plugin builds: the meaning of one
 container's rules, of the top chain that jumps to all of them, and of the hooks.
 */
module Dispatch {
  import opened Wrappers
  import opened Ipv4
  import opened NatTable
  import opened PortMap

  /** The packet with the tag set. */
  function Marked(p: Packet): Packet {
    p.(mark := SetXmark(p.mark))
  }

  // --------------------------------------- the rules of one container's chain

  /** A container's rule: it DNATs, or it jumps to the marking chain. */
  predicate ContainerRule(r: Rule) {
    !r.marked && !r.dstLocal && (r.target.Dnat? || r.target == Jump(HostportSetmark))
  }

  predicate Hits(r: Rule, p: Packet) {
    Matches({}, r, p)
  }

  /** The meaning of container rules without the table: mark and go on, or DNAT and stop. */
  function Meaning(rules: seq<Rule>, p: Packet): Outcome {
    if rules == [] then Fall(p)
    else if !Hits(rules[0], p) then Meaning(rules[1..], p)
    else
      match rules[0].target
      case Dnat(ip, port) => Dnated(p.(dst := ip, dport := port))
      case _ => Meaning(rules[1..], Marked(p))
  }

  predicate MarksWork(t: Table) {
    && HostportSetmark in t && t[HostportSetmark] != []
    && forall r | r in t[HostportSetmark] :: r == MARK_RULE
  }

  lemma {:induction false} MarkRulesWalk(t: Table, local: set<Addr>, rules: seq<Rule>, p: Packet)
    requires Ranked(t) && forall r | r in rules :: r == MARK_RULE
    requires JumpsBelow(t, rules, 1)
    ensures Walk(t, local, rules, 1, p) == Fall(if rules == [] then p else Marked(p))
  {
    if rules != [] {
      assert rules[0] in rules && forall r | r in rules[1..] :: r in rules;
      MarkRulesWalk(t, local, rules[1..], Marked(p));
      SetXmarkIdempotent(p.mark);
    }
  }

  lemma {:induction false} ContainerWalk(t: Table, local: set<Addr>, rules: seq<Rule>, p: Packet)
    requires Ranked(t) && MarksWork(t) && JumpsBelow(t, rules, 2)
    requires forall r | r in rules :: ContainerRule(r)
    ensures Walk(t, local, rules, 2, p) == Meaning(rules, p)
  {
    if rules != [] {
      assert rules[0] in rules;
      assert Matches(local, rules[0], p) == Hits(rules[0], p);
      ContainerWalk(t, local, rules[1..], p);
      if rules[0].target.Jump? {
        MarkRulesWalk(t, local, t[HostportSetmark], p);
        ContainerWalk(t, local, rules[1..], Marked(p));
      }
    }
  }

  lemma {:induction false} MeaningConcat(a: seq<Rule>, b: seq<Rule>, p: Packet)
    ensures Meaning(a + b, p) == var o := Meaning(a, p); if o.Fall? then Meaning(b, o.p) else o
  {
    if a == [] {
      assert a + b == b;
    } else {
      assert (a + b)[1..] == a[1..] + b;
      MeaningConcat(a[1..], b, p);
      MeaningConcat(a[1..], b, Marked(p));
    }
  }

  /** Whether a container rule hits does not depend on the mark. */
  lemma HitsIgnoresMark(r: Rule, p: Packet)
    requires ContainerRule(r)
    ensures Hits(r, Marked(p)) == Hits(r, p)
  {
  }

  /** Falling through has at most marked the packet, and has if a hitting rule was among them. */
  lemma {:induction false} FallOnlyMarks(rules: seq<Rule>, p: Packet)
    requires Meaning(rules, p).Fall? && forall r | r in rules :: ContainerRule(r)
    ensures Meaning(rules, p).p == p || Meaning(rules, p).p == Marked(p)
    ensures forall r | r in rules && Hits(r, p) :: !r.target.Dnat? && Meaning(rules, p).p == Marked(p)
  {
    if rules != [] {
      assert rules[0] in rules && forall r | r in rules[1..] :: r in rules;
      SetXmarkIdempotent(p.mark);
      if Hits(rules[0], p) {
        FallOnlyMarks(rules[1..], Marked(p));
        forall r | r in rules && Hits(r, p)
          ensures !r.target.Dnat?
        {
          HitsIgnoresMark(r, p);
        }
      } else {
        FallOnlyMarks(rules[1..], p);
      }
    }
  }

  /** A rule that was there before does nothing to a packet that got past it. */
  lemma SeenBefore(rules: seq<Rule>, r: Rule, p: Packet)
    requires r in rules && Meaning(rules, p).Fall? && forall x | x in rules :: ContainerRule(x)
    ensures Meaning([r], Meaning(rules, p).p) == Fall(Meaning(rules, p).p)
  {
    FallOnlyMarks(rules, p);
    HitsIgnoresMark(r, p);
    SetXmarkIdempotent(p.mark);
    assert [r][1..] == [];
  }

  /** Checking for a rule before appending it never changes what packets meet. */
  lemma {:induction false} DedupTransparent(rules: seq<Rule>, p: Packet)
    requires forall r | r in rules :: ContainerRule(r)
    ensures Meaning(Dedup(rules), p) == Meaning(rules, p)
  {
    if rules != [] {
      var init, last := rules[..|rules| - 1], rules[|rules| - 1];
      assert rules == init + [last];
      assert last in rules && forall r | r in init :: r in rules;
      assert [last][1..] == [] && rules[..|rules| - 1] == init;
      hide Meaning, Hits;
      DedupTransparent(init, p);
      MeaningConcat(init, [last], p);
      MeaningConcat(Dedup(init), [last], p);
      if last in init && Meaning(init, p).Fall? {
        SeenBefore(init, last, p);
      }
    }
  }

  // ------------------------------------------------- one container, by mapping

  /** The localhost mark rule of mapping i, if among the first n rules, hits the packet, whatever the hostIP. */
  predicate StrayAt(mappings: seq<Mapping>, n: nat, i: nat, p: Packet)
    requires i < |mappings|
  {
    3 * i + 1 < n && p.src == 0x7F00_0001 && mappings[i].protocol == p.proto && mappings[i].hostPort == p.dport
  }

  /** The hairpin mark rule of mapping i, if among the first n rules, hits the packet. */
  predicate HairpinAt(podIp: Addr, mappings: seq<Mapping>, n: nat, i: nat, p: Packet)
    requires i < |mappings|
  {
    3 * i < n && p.src == podIp && mappings[i].Covers(p)
  }

  predicate MarksAt(podIp: Addr, mappings: seq<Mapping>, n: nat, i: nat, p: Packet)
    requires i < |mappings|
  {
    StrayAt(mappings, n, i, p) || HairpinAt(podIp, mappings, n, i, p)
  }

  /** Some marking rule among the first n hits the packet. */
  predicate RulesMark(podIp: Addr, mappings: seq<Mapping>, n: nat, p: Packet) {
    exists i | 0 <= i < |mappings| :: MarksAt(podIp, mappings, n, i, p)
  }

  /** The DNAT rule of mapping i is among the first n rules and hits the packet. */
  predicate TakesAt(mappings: seq<Mapping>, n: nat, i: nat, p: Packet)
    requires i < |mappings|
  {
    3 * i + 2 < n && mappings[i].Covers(p)
  }

  /** The first n rules DNAT the packet. */
  predicate RulesTake(mappings: seq<Mapping>, n: nat, p: Packet) {
    exists i | 0 <= i < |mappings| :: TakesAt(mappings, n, i, p)
  }

  lemma {:induction false} ProgramIsContainerRules(podIp: Addr, mappings: seq<Mapping>)
    ensures forall r | r in Program(podIp, mappings) :: ContainerRule(r)
  {
    if mappings != [] {
      ProgramIsContainerRules(podIp, mappings[1..]);
    }
  }

  lemma HairpinMeaning(podIp: Addr, m: Mapping, p: Packet)
    ensures Meaning([HairpinMark(m, podIp)], p) == Fall(if HairpinAt(podIp, [m], 1, 0, p) then Marked(p) else p)
  {
  }

  lemma LocalhostMeaning(m: Mapping, p: Packet)
    ensures Meaning([LocalhostMark(m)], p) == Fall(if StrayAt([m], 2, 0, p) then Marked(p) else p)
    ensures Meaning([LocalhostMark(m)], Marked(p)) == Fall(Marked(p))
  {
    SetXmarkIdempotent(p.mark);
  }

  lemma DnatMisses(podIp: Addr, m: Mapping, p: Packet)
    requires !m.Covers(p)
    ensures Meaning([DnatRule(m, podIp)], p) == Fall(p) && Meaning([DnatRule(m, podIp)], Marked(p)) == Fall(Marked(p))
  {
  }

  /** The marking rules of one mapping. */
  lemma MarkRulesMeaning(podIp: Addr, m: Mapping, p: Packet)
    ensures Meaning([HairpinMark(m, podIp), LocalhostMark(m)], p)
            == Fall(if MarksAt(podIp, [m], 2, 0, p) then Marked(p) else p)
  {
    var first, second := [HairpinMark(m, podIp)], [LocalhostMark(m)];
    assert first + second == [HairpinMark(m, podIp), LocalhostMark(m)];
    HairpinMeaning(podIp, m, p);
    LocalhostMeaning(m, p);
    hide Meaning;
    MeaningConcat(first, second, p);
  }

  lemma MissedMapping(podIp: Addr, m: Mapping, k: nat, p: Packet)
    requires k <= 3 && !TakesAt([m], k, 0, p)
    ensures Meaning(MappingRules(podIp, m)[..k], p)
            == Fall(if MarksAt(podIp, [m], k, 0, p) then Marked(p) else p)
  {
    var rules := MappingRules(podIp, m);
    if k == 0 {
      assert rules[..k] == [];
    } else if k == 1 {
      assert rules[..k] == [HairpinMark(m, podIp)];
      HairpinMeaning(podIp, m, p);
    } else {
      var marks := [HairpinMark(m, podIp), LocalhostMark(m)];
      assert rules[..2] == marks && rules[..3] == marks + [DnatRule(m, podIp)];
      MarkRulesMeaning(podIp, m, p);
      assert MarksAt(podIp, [m], k, 0, p) <==> MarksAt(podIp, [m], 2, 0, p);
      if k == 3 {
        DnatMisses(podIp, m, p);
        hide Meaning, MarksAt, Mapping.Covers;
        MeaningConcat(marks, [DnatRule(m, podIp)], p);
      }
    }
  }

  lemma ProgramSplit(podIp: Addr, mappings: seq<Mapping>, n: nat)
    requires mappings != [] && n <= 3 * |mappings|
    ensures var k := if n <= 3 then n else 3;
            Program(podIp, mappings)[..n]
            == MappingRules(podIp, mappings[0])[..k] + Program(podIp, mappings[1..])[..n - k]
  {
  }

  /** A packet the first n rules do not take goes through, and is marked exactly when a marking rule hits it. */
  lemma {:induction false} ContainerMisses(podIp: Addr, mappings: seq<Mapping>, n: nat, p: Packet)
    requires n <= 3 * |mappings| && !RulesTake(mappings, n, p)
    ensures Meaning(Program(podIp, mappings)[..n], p) == Fall(if RulesMark(podIp, mappings, n, p) then Marked(p) else p)
  {
    if mappings != [] {
      var first, rest := mappings[0], mappings[1..];
      var k := if n <= 3 then n else 3;
      var head, tail := MappingRules(podIp, first)[..k], Program(podIp, rest)[..n - k];
      ProgramSplit(podIp, mappings, n);
      MarkIrrelevant(podIp, rest, n - k, p);
      TakesSplit(mappings, n, p);
      MarksSplit(podIp, mappings, n, p);
      hide RulesTake, RulesMark, MarksAt, TakesAt, Meaning, MappingRules, Program;
      MissedMapping(podIp, first, k, p);
      MeaningConcat(head, tail, p);
      ContainerMisses(podIp, rest, n - k, p);
      ContainerMisses(podIp, rest, n - k, Marked(p));
      SetXmarkIdempotent(p.mark);
    }
  }

  lemma TakesSplit(mappings: seq<Mapping>, n: nat, p: Packet)
    requires mappings != []
    ensures var k := if n <= 3 then n else 3;
            RulesTake(mappings, n, p) <==> TakesAt([mappings[0]], k, 0, p) || RulesTake(mappings[1..], n - k, p)
  {
    var k, rest := if n <= 3 then n else 3, mappings[1..];
    if RulesTake(mappings, n, p) {
      var i :| 0 <= i < |mappings| && TakesAt(mappings, n, i, p);
      if i > 0 {
        assert TakesAt(rest, n - k, i - 1, p);
      }
    }
    if RulesTake(rest, n - k, p) {
      var i :| 0 <= i < |rest| && TakesAt(rest, n - k, i, p);
      assert TakesAt(mappings, n, i + 1, p);
    }
    if TakesAt([mappings[0]], k, 0, p) {
      assert TakesAt(mappings, n, 0, p);
    }
  }

  lemma MarksSplit(podIp: Addr, mappings: seq<Mapping>, n: nat, p: Packet)
    requires mappings != []
    ensures var k := if n <= 3 then n else 3;
            RulesMark(podIp, mappings, n, p) <==>
              MarksAt(podIp, [mappings[0]], k, 0, p) || RulesMark(podIp, mappings[1..], n - k, p)
  {
    var k, rest := if n <= 3 then n else 3, mappings[1..];
    if RulesMark(podIp, mappings, n, p) {
      var i :| 0 <= i < |mappings| && MarksAt(podIp, mappings, n, i, p);
      if i > 0 {
        assert MarksAt(podIp, rest, n - k, i - 1, p);
      }
    }
    if RulesMark(podIp, rest, n - k, p) {
      var i :| 0 <= i < |rest| && MarksAt(podIp, rest, n - k, i, p);
      assert MarksAt(podIp, mappings, n, i + 1, p);
    }
    if MarksAt(podIp, [mappings[0]], k, 0, p) {
      assert MarksAt(podIp, mappings, n, 0, p);
    }
  }

  /** The packet as the target pod receives it; 0x7F00_0001 is 127.0.0.1. */
  function Delivered(podIp: Addr, port: Port, p: Packet): Packet {
    (if p.src == podIp || p.src == 0x7F00_0001 then Marked(p) else p).(dst := podIp, dport := port)
  }

  /**
   A packet the first n rules take is DNATed to the pod, marked exactly if it comes from the
   pod itself or from loopback, even if other rules of the program are not there yet.
   */
  lemma {:induction false} ContainerHits(podIp: Addr, mappings: seq<Mapping>, n: nat, p: Packet, port: Port)
    requires n <= 3 * |mappings| && RulesTake(mappings, n, p)
    requires forall m | m in mappings && m.Covers(p) :: m.containerPort == port
    ensures Meaning(Program(podIp, mappings)[..n], p) == Dnated(Delivered(podIp, port, p))
  {
    hide *;
    TakesNeedsThree(mappings, n, p);
    TakesSplit(mappings, n, p);
    ProgramSplit(podIp, mappings, n);
    var first, rest := mappings[0], mappings[1..];
    MeaningConcat(MappingRules(podIp, first)[..3], Program(podIp, rest)[..n - 3], p);
    TakesFirst(first, p);
    assert first in mappings;
    if first.Covers(p) {
      HitMapping(podIp, first, p);
    } else {
      var q := MissedWhole(podIp, first, p, port);
      MarkIrrelevant(podIp, rest, n - 3, p);
      forall m: Mapping | m in rest && m.Covers(q)
        ensures m.containerPort == port
      {
        CoversMarked(m, p);
        assert m in mappings;
      }
      ContainerHits(podIp, rest, n - 3, q, port);
    }
  }

  lemma TakesFirst(m: Mapping, p: Packet)
    ensures TakesAt([m], 3, 0, p) <==> m.Covers(p)
  {
  }

  lemma CoversMarked(m: Mapping, p: Packet)
    ensures m.Covers(Marked(p)) <==> m.Covers(p)
  {
  }

  lemma TakesNeedsThree(mappings: seq<Mapping>, n: nat, p: Packet)
    requires RulesTake(mappings, n, p)
    ensures mappings != [] && n >= 3
  {
  }

  /** A mapping that does not cover the packet at most marks it, and only if it comes from loopback. */
  lemma MissedWhole(podIp: Addr, m: Mapping, p: Packet, port: Port) returns (q: Packet)
    requires !m.Covers(p)
    ensures Meaning(MappingRules(podIp, m)[..3], p) == Fall(q) && (q == p || q == Marked(p))
    ensures Delivered(podIp, port, q) == Delivered(podIp, port, p)
  {
    MissedMapping(podIp, m, 3, p);
    SetXmarkIdempotent(p.mark);
    q := if MarksAt(podIp, [m], 3, 0, p) then Marked(p) else p;
    hide Meaning;
  }

  lemma HitMapping(podIp: Addr, m: Mapping, p: Packet)
    requires m.Covers(p)
    ensures Meaning(MappingRules(podIp, m)[..3], p) == Dnated(Delivered(podIp, m.containerPort, p))
  {
    var marks, q := [HairpinMark(m, podIp), LocalhostMark(m)], Delivered(podIp, m.containerPort, p);
    assert MappingRules(podIp, m)[..3] == marks + [DnatRule(m, podIp)];
    MarkRulesMeaning(podIp, m, p);
    DnatHits(podIp, m, p);
    assert MarksAt(podIp, [m], 2, 0, p) <==> p.src == podIp || p.src == 0x7F00_0001;
    hide Meaning, Mapping.Covers, MarksAt;
    MeaningConcat(marks, [DnatRule(m, podIp)], p);
  }

  lemma DnatHits(podIp: Addr, m: Mapping, p: Packet)
    requires m.Covers(p)
    ensures Meaning([DnatRule(m, podIp)], p) == Dnated(p.(dst := podIp, dport := m.containerPort))
    ensures Meaning([DnatRule(m, podIp)], Marked(p)) == Dnated(Marked(p).(dst := podIp, dport := m.containerPort))
  {
  }

  /**
   One mapping, in plain terms: a packet of its protocol to its hostPort, on the address it is
   bound to if it is, goes to the pod's containerPort, tagged exactly if it comes from the pod
   or from 127.0.0.1; other packets go on as they are, but for those from 127.0.0.1 to that
   port, which are tagged whatever their destination. Tagging sets bit 0x2000.
   */
  lemma MappingInPlainTerms(podIp: Addr, m: Mapping, p: Packet)
    ensures var o, there := Meaning(MappingRules(podIp, m)[..3], p), p.proto == m.protocol && p.dport == m.hostPort;
            if there && (m.hostIp.Bound? ==> p.dst == m.hostIp.ip) then
              o == Dnated(p.(dst := podIp, dport := m.containerPort,
                             mark := if p.src == podIp || p.src == 0x7F00_0001 then p.mark | 0x2000 else p.mark))
            else
              o == Fall(p.(mark := if there && p.src == 0x7F00_0001 then p.mark | 0x2000 else p.mark))
  {
    SetXmarkIsOr(p.mark);
    assert m.Covers(p)
           <==> p.proto == m.protocol && p.dport == m.hostPort && (m.hostIp.Bound? ==> p.dst == m.hostIp.ip);
    assert MarksAt(podIp, [m], 3, 0, p) <==>
        (p.src == 0x7F00_0001 && p.proto == m.protocol && p.dport == m.hostPort) || (p.src == podIp && m.Covers(p));
    hide Meaning, SetXmark, MarksAt;
    if m.Covers(p) {
      HitMapping(podIp, m, p);
    } else {
      MissedMapping(podIp, m, 3, p);
    }
  }

  /** Two mappings of one container on one port, bound to different addresses: each gets its own packets. */
  lemma TwoBoundMappings(podIp: Addr, m: Mapping, k: Mapping, p: Packet)
    requires m.protocol == k.protocol == p.proto && m.hostPort == k.hostPort == p.dport
    requires m.hostIp.Bound? && k.hostIp.Bound? && m.hostIp.ip != k.hostIp.ip
    ensures var o := Meaning(Program(podIp, [m, k]), p);
            && (p.dst == m.hostIp.ip ==> o.Dnated? && o.p.dst == podIp && o.p.dport == m.containerPort)
            && (p.dst == k.hostIp.ip ==> o.Dnated? && o.p.dst == podIp && o.p.dport == k.containerPort)
            && (p.dst != m.hostIp.ip && p.dst != k.hostIp.ip ==> o.Fall?)
  {
    var mappings := [m, k];
    assert Program(podIp, mappings)[..6] == Program(podIp, mappings);
    assert RulesTake(mappings, 6, p) <==> p.dst == m.hostIp.ip || p.dst == k.hostIp.ip by {
      assert TakesAt(mappings, 6, 0, p) <==> p.dst == m.hostIp.ip;
      assert TakesAt(mappings, 6, 1, p) <==> p.dst == k.hostIp.ip;
    }
    hide Meaning, Program, RulesTake, RulesMark;
    if p.dst == m.hostIp.ip {
      ContainerHits(podIp, mappings, 6, p, m.containerPort);
    } else if p.dst == k.hostIp.ip {
      ContainerHits(podIp, mappings, 6, p, k.containerPort);
    } else {
      ContainerMisses(podIp, mappings, 6, p);
    }
  }

  // ------------------------------------------------- the top chain and hooks

  /** A container whose jump stands in the top chain, with the first n of its rules installed. */
  datatype Wired = Wired(d: Deployment, n: nat) {
    predicate Takes(p: Packet) {
      RulesTake(d.mappings, n, p)
    }

    predicate Marks(p: Packet) {
      RulesMark(d.podIp, d.mappings, n, p)
    }
  }

  predicate Installed(t: Table, w: Wired) {
    Dn(w.d.id) in t && w.n <= |w.d.Rules()| && t[Dn(w.d.id)] == Dedup(w.d.Rules()[..w.n])
  }

  function Jumps(ws: seq<Wired>): seq<Rule> {
    if ws == [] then [] else [DnJump(ws[0].d.id)] + Jumps(ws[1..])
  }

  predicate TopChainOf(t: Table, ws: seq<Wired>) {
    && Ranked(t)
    && (ws != [] ==> MarksWork(t))
    && forall w | w in ws :: Installed(t, w)
  }

  /** The packet after the marking rules of these containers. */
  function Passing(ws: seq<Wired>, p: Packet): Packet {
    if exists w | w in ws :: w.Marks(p) then Marked(p) else p
  }

  lemma {:induction false} JumpsAreBelow(t: Table, ws: seq<Wired>)
    requires TopChainOf(t, ws)
    ensures JumpsBelow(t, Jumps(ws), 3)
  {
    if ws != [] {
      assert ws[0] in ws && forall w | w in ws[1..] :: w in ws;
      JumpsAreBelow(t, ws[1..]);
    }
  }

  lemma ChainOfContainer(t: Table, local: set<Addr>, w: Wired, p: Packet)
    requires Ranked(t) && MarksWork(t) && Installed(t, w)
    ensures WalkChain(t, local, Dn(w.d.id), p) == Meaning(w.d.Rules()[..w.n], p)
  {
    var rules := w.d.Rules()[..w.n];
    ProgramIsContainerRules(w.d.podIp, w.d.mappings);
    assert forall r | r in rules :: r in w.d.Rules();
    assert JumpsBelow(t, Dedup(rules), 2) by {
      assert JumpsBelow(t, t[Dn(w.d.id)], Rank(Dn(w.d.id)));
    }
    hide Walk, Meaning, MarksWork, Ranked, ContainerRule, Dedup, Deployment.Rules, JumpsBelow;
    DedupTransparent(rules, p);
    ContainerWalk(t, local, Dedup(rules), p);
  }

  lemma MarkIrrelevant(podIp: Addr, mappings: seq<Mapping>, n: nat, p: Packet)
    ensures RulesTake(mappings, n, Marked(p)) <==> RulesTake(mappings, n, p)
    ensures RulesMark(podIp, mappings, n, Marked(p)) <==> RulesMark(podIp, mappings, n, p)
  {
    assert forall m: Mapping :: m.Covers(Marked(p)) <==> m.Covers(p);
    forall i | 0 <= i < |mappings|
      ensures TakesAt(mappings, n, i, Marked(p)) <==> TakesAt(mappings, n, i, p)
      ensures MarksAt(podIp, mappings, n, i, Marked(p)) <==> MarksAt(podIp, mappings, n, i, p)
    {
    }
  }

  /** Marking changes nothing about which containers take or mark the packet, and marking twice is marking once. */
  lemma MarkIrrelevantToAll(ws: seq<Wired>, p: Packet)
    ensures forall w | w in ws :: w.Takes(Marked(p)) <==> w.Takes(p)
    ensures Passing(ws, Marked(p)) == Marked(Passing(ws, p)) == Marked(p)
  {
    forall w | w in ws
      ensures w.Takes(Marked(p)) <==> w.Takes(p)
      ensures w.Marks(Marked(p)) <==> w.Marks(p)
    {
      MarkIrrelevant(w.d.podIp, w.d.mappings, w.n, p);
    }
    SetXmarkIdempotent(p.mark);
  }

  lemma PassingOneMore(ws: seq<Wired>, k: nat, p: Packet)
    requires k < |ws|
    ensures Passing(ws[..k + 1], p) == Passing([ws[k]], Passing(ws[..k], p))
  {
    var init, more := ws[..k], ws[..k + 1];
    assert more == init + [ws[k]];
    MarkIrrelevantToAll([ws[k]], p);
    hide Wired.Marks;
    if exists w | w in more :: w.Marks(p) {
      var w :| w in more && w.Marks(p);
      assert w in init || w in [ws[k]];
    }
    assert forall w | w in init || w in [ws[k]] :: w in more;
  }

  /** A packet enters the first container's chain, and goes on behind it if it falls through. */
  lemma FirstChain(t: Table, local: set<Addr>, ws: seq<Wired>, p: Packet)
    requires TopChainOf(t, ws) && ws != [] && ws[0].n <= |ws[0].d.Rules()|
    requires JumpsBelow(t, Jumps(ws), 3) && JumpsBelow(t, Jumps(ws[1..]), 3)
    ensures var w, o := ws[0], Meaning(ws[0].d.Rules()[..ws[0].n], p);
            Walk(t, local, Jumps(ws), 3, p) == if o.Fall? then Walk(t, local, Jumps(ws[1..]), 3, o.p) else o
  {
    var w := ws[0];
    assert w in ws && Jumps(ws)[0] == DnJump(w.d.id) && Jumps(ws)[1..] == Jumps(ws[1..]);
    assert Dn(w.d.id) in t;
    hide Meaning, Deployment.Rules, MarksWork, Jumps;
    ChainOfContainer(t, local, w, p);
  }

  /** The first container's chain, if it does not take the packet. */
  lemma FirstMisses(t: Table, local: set<Addr>, ws: seq<Wired>, p: Packet)
    requires TopChainOf(t, ws) && ws != [] && !ws[0].Takes(p)
    requires JumpsBelow(t, Jumps(ws), 3) && JumpsBelow(t, Jumps(ws[1..]), 3)
    ensures Walk(t, local, Jumps(ws), 3, p) == Walk(t, local, Jumps(ws[1..]), 3, Passing([ws[0]], p))
  {
    var w := ws[0];
    assert w in ws && w.n <= 3 * |w.d.mappings|;
    assert Passing([w], p) == if w.Marks(p) then Marked(p) else p;
    hide Walk, Meaning, Jumps, TopChainOf, RulesTake, RulesMark, Program;
    FirstChain(t, local, ws, p);
    ContainerMisses(w.d.podIp, w.d.mappings, w.n, p);
  }

  /** As long as no container takes it, a packet goes on to the next one, marked if some marking rule hit it. */
  lemma {:induction false} TopReaches(t: Table, local: set<Addr>, ws: seq<Wired>, k: nat, p: Packet)
    requires TopChainOf(t, ws) && JumpsBelow(t, Jumps(ws), 3)
    requires k <= |ws| && forall i | 0 <= i < k :: !ws[i].Takes(p)
    ensures TopChainOf(t, ws[k..]) && JumpsBelow(t, Jumps(ws[k..]), 3)
    ensures Walk(t, local, Jumps(ws), 3, p) == Walk(t, local, Jumps(ws[k..]), 3, Passing(ws[..k], p))
  {
    assert forall w | w in ws[k..] :: w in ws;
    JumpsAreBelow(t, ws[k..]);
    if k == 0 {
      assert ws[k..] == ws && ws[..k] == [];
    } else {
      var q := Passing(ws[..k - 1], p);
      TopReaches(t, local, ws, k - 1, p);
      MarkIrrelevantToAll(ws, p);
      PassingOneMore(ws, k - 1, p);
      assert ws[k - 1..][0] == ws[k - 1] && ws[k - 1..][1..] == ws[k..];
      assert !ws[k - 1].Takes(q) by {
        assert ws[k - 1] in ws;
      }
      hide Wired.Takes, Wired.Marks, TopChainOf, Walk, Jumps;
      FirstMisses(t, local, ws[k - 1..], q);
    }
  }

  /** No container takes the packet: it passes the top chain, marked exactly if some marking rule hits it. */
  lemma TopMisses(t: Table, local: set<Addr>, ws: seq<Wired>, p: Packet)
    requires TopChainOf(t, ws) && JumpsBelow(t, Jumps(ws), 3)
    requires forall w | w in ws :: !w.Takes(p)
    ensures Walk(t, local, Jumps(ws), 3, p) == Fall(Passing(ws, p))
  {
    TopReaches(t, local, ws, |ws|, p);
    assert ws[|ws|..] == [] && ws[..|ws|] == ws;
  }

  /** The first container that takes the packet gets it, whatever else stands in the top chain. */
  lemma TopHits(t: Table, local: set<Addr>, ws: seq<Wired>, k: nat, p: Packet, port: Port)
    requires TopChainOf(t, ws) && JumpsBelow(t, Jumps(ws), 3)
    requires k < |ws| && ws[k].Takes(p)
    requires forall m | m in ws[k].d.mappings && m.Covers(p) :: m.containerPort == port
    requires forall i | 0 <= i < k :: !ws[i].Takes(p)
    ensures Walk(t, local, Jumps(ws), 3, p) == Dnated(Delivered(ws[k].d.podIp, port, Passing(ws[..k], p)))
  {
    TopReaches(t, local, ws, k, p);
    MarkIrrelevantToAll(ws, p);
    assert ws[k..][0] == ws[k] && ws[k] in ws;
    assert forall m: Mapping :: m.Covers(Marked(p)) <==> m.Covers(p);
    hide Walk, Jumps, TopChainOf, Wired.Takes, Wired.Marks, Mapping.Covers;
    FirstHits(t, local, ws[k..], Passing(ws[..k], p), port);
  }

  lemma FirstHits(t: Table, local: set<Addr>, ws: seq<Wired>, p: Packet, port: Port)
    requires TopChainOf(t, ws) && JumpsBelow(t, Jumps(ws), 3)
    requires ws != [] && ws[0].Takes(p)
    requires forall m | m in ws[0].d.mappings && m.Covers(p) :: m.containerPort == port
    ensures Walk(t, local, Jumps(ws), 3, p) == Dnated(Delivered(ws[0].d.podIp, port, p))
  {
    var w := ws[0];
    assert w in ws && w.n <= 3 * |w.d.mappings|;
    assert forall v | v in ws[1..] :: v in ws;
    JumpsAreBelow(t, ws[1..]);
    hide Walk, Meaning, Jumps, TopChainOf, RulesTake, Program, Mapping.Covers;
    FirstChain(t, local, ws, p);
    ContainerHits(w.d.podIp, w.d.mappings, w.n, p, port);
  }

  /**
   Two containers that publish one port on different addresses, in either order of the top
   chain: each gets exactly the packets for its own address, and the others pass.
   */
  lemma TwoBoundContainers(t: Table, local: set<Addr>, v: Wired, w: Wired, m: Mapping, k: Mapping, p: Packet)
    requires TopChainOf(t, [v, w]) && JumpsBelow(t, Jumps([v, w]), 3)
    requires v.d.mappings == [m] && w.d.mappings == [k] && v.n == w.n == 3
    requires m.protocol == k.protocol == p.proto && m.hostPort == k.hostPort == p.dport
    requires m.hostIp.Bound? && k.hostIp.Bound? && m.hostIp.ip != k.hostIp.ip
    ensures var o := Walk(t, local, Jumps([v, w]), 3, p);
            && (p.dst == m.hostIp.ip ==> o.Dnated? && o.p.dst == v.d.podIp && o.p.dport == m.containerPort)
            && (p.dst == k.hostIp.ip ==> o.Dnated? && o.p.dst == w.d.podIp && o.p.dport == k.containerPort)
            && (p.dst != m.hostIp.ip && p.dst != k.hostIp.ip ==> o.Fall?)
  {
    var ws := [v, w];
    TakesOne(v, m, p);
    TakesOne(w, k, p);
    hide Walk, Jumps, TopChainOf, Wired.Takes, Wired.Marks;
    if p.dst == m.hostIp.ip {
      TopHits(t, local, ws, 0, p, m.containerPort);
    } else if p.dst == k.hostIp.ip {
      TopHits(t, local, ws, 1, p, k.containerPort);
    } else {
      TopMisses(t, local, ws, p);
    }
  }

  lemma TakesOne(w: Wired, m: Mapping, p: Packet)
    requires w.d.mappings == [m] && w.n == 3
    ensures w.Takes(p) <==> m.Covers(p)
  {
    assert TakesAt(w.d.mappings, 3, 0, p) <==> m.Covers(p);
  }

  /** The first hook, if no container takes the packet. */
  lemma FirstHookMisses(t: Table, local: set<Addr>, rules: seq<Rule>, ws: seq<Wired>, p: Packet)
    requires TopChainOf(t, ws) && JumpsBelow(t, rules, 4)
    requires rules != [] && rules[0] == HOOK && JumpsBelow(t, rules[1..], 4)
    requires HostportDnat in t && t[HostportDnat] == Jumps(ws) && forall w | w in ws :: !w.Takes(p)
    ensures Walk(t, local, rules, 4, p) == Walk(t, local, rules[1..], 4, if p.dst in local then Passing(ws, p) else p)
  {
    JumpsAreBelow(t, ws);
    TopMisses(t, local, ws, p);
    hide Wired.Takes, Passing, Jumps;
  }

  lemma {:induction false} HookedMisses(t: Table, local: set<Addr>, hooks: seq<Rule>, others: seq<Rule>,
                                        ws: seq<Wired>, p: Packet)
    requires TopChainOf(t, ws) && JumpsBelow(t, hooks + others, 4) && JumpsBelow(t, others, 4)
    requires forall r | r in hooks :: r == HOOK
    requires hooks != [] ==> HostportDnat in t && t[HostportDnat] == Jumps(ws)
    requires forall w | w in ws :: !w.Takes(p)
    ensures Walk(t, local, hooks + others, 4, p)
            == Walk(t, local, others, 4, if hooks != [] && p.dst in local then Passing(ws, p) else p)
  {
    if hooks == [] {
      assert hooks + others == others;
    } else {
      var all, rest := hooks + others, hooks[1..] + others;
      assert hooks[0] in hooks && forall r | r in hooks[1..] :: r in hooks;
      assert all[0] == HOOK && all[1..] == rest;
      assert forall r | r in rest :: r in all;
      var q := if p.dst in local then Passing(ws, p) else p;
      FirstHookMisses(t, local, all, ws, p);
      MarkIrrelevantToAll(ws, p);
      SetXmarkIdempotent(p.mark);
      hide Walk, Wired.Takes, Wired.Marks, TopChainOf, Jumps;
      HookedMisses(t, local, hooks[1..], others, ws, q);
    }
  }

  // ------------------------------------------------------------ POSTROUTING

  predicate MasqWorks(t: Table) {
    && HostportMasq in t && t[HostportMasq] != []
    && forall r | r in t[HostportMasq] :: r == MASQ_RULE
  }

  lemma {:induction false} UnmarkedPassesMasq(t: Table, local: set<Addr>, rules: seq<Rule>, p: Packet)
    requires Ranked(t) && JumpsBelow(t, rules, 1) && !HasMark(p.mark)
    requires forall r | r in rules :: r == MASQ_RULE
    ensures Walk(t, local, rules, 1, p) == Fall(p)
  {
    if rules != [] {
      assert rules[0] in rules && forall r | r in rules[1..] :: r in rules;
      UnmarkedPassesMasq(t, local, rules[1..], p);
    }
  }

  /**
   The masquerade jumps first, then the daemon's rules: marked packets are masqueraded,
   others meet the daemon's rules.
   */
  lemma {:induction false} PostroutingWalk(t: Table, local: set<Addr>, jumps: seq<Rule>, others: seq<Rule>, p: Packet)
    requires Ranked(t) && JumpsBelow(t, jumps + others, 4) && JumpsBelow(t, others, 4)
    requires forall r | r in jumps :: r == MASQ_JUMP
    requires jumps != [] ==> MasqWorks(t)
    ensures Walk(t, local, jumps + others, 4, p)
            == if jumps != [] && HasMark(p.mark) then Masqueraded(p) else Walk(t, local, others, 4, p)
  {
    if jumps == [] {
      assert jumps + others == others;
    } else {
      var all, rest := jumps + others, jumps[1..] + others;
      assert jumps[0] in jumps && forall r | r in jumps[1..] :: r in jumps;
      assert all[0] == MASQ_JUMP && all[1..] == rest;
      assert forall r | r in rest :: r in all;
      if HasMark(p.mark) {
        assert t[HostportMasq][0] in t[HostportMasq];
      } else {
        UnmarkedPassesMasq(t, local, t[HostportMasq], p);
        PostroutingWalk(t, local, jumps[1..], others, p);
      }
    }
  }
}
