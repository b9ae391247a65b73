/**
 POSTROUTING over whole runs: the portmap jump stands before the daemon's rules, hairpin
 and loopback hostPort traffic is masqueraded exactly while the jump is there, and nothing
 else is masqueraded that should not be, unless others flush the chain at a wrong moment.
 */
module PostRuns {
  import opened Wrappers
  import opened Ipv4
  import opened NatTable
  import opened PortMap
  import opened Dispatch
  import opened IpMasq
  import opened NatSystem
  import opened NatRuns

  // ------------------------------------------------- precedence, in every run

  /** In every interleaving, every masquerade jump stands before every rule of the daemon. */
  lemma JumpsPrecedeDaemonRules(w: World, events: seq<Event>)
    requires w.Valid()
    ensures var s := After(w, events);
            && Postrouting in s.table
            && var post := s.table[Postrouting];
               forall i, j | && 0 <= i < |post| && post[i] == MASQ_JUMP
                             && 0 <= j < |post| && IsMasqRule(w.nets, post[j]) :: i < j
  {
    Always(w, events);
    hide ContainersOk, NoStrayChains, TopOk, HooksOk, Ranked;
    PrecedenceInChain(w.nets, After(w, events).table);
  }

  lemma PrecedenceInChain(n: Nets, t: Table)
    requires PostOk(n, t)
    ensures var post := t[Postrouting];
            forall i, j | 0 <= i < |post| && 0 <= j < |post| && post[i] == MASQ_JUMP && IsMasqRule(n, post[j]) :: i < j
  {
    var post := t[Postrouting];
    var k :| 0 <= k <= |post| && JumpsThenDaemon(n, post, k);
    assert !IsMasqRule(n, MASQ_JUMP);
    hide IsMasqRule;
    forall i | 0 <= i < k
      ensures post[i] == MASQ_JUMP
    {
      assert post[..k][i] in post[..k];
    }
    forall i | k <= i < |post|
      ensures IsMasqRule(n, post[i])
    {
      assert post[k..][i - k] in post[k..];
    }
  }

  /** The rules behind the leading masquerade jumps. */
  function DaemonPart(rules: seq<Rule>): seq<Rule> {
    if rules != [] && rules[0] == MASQ_JUMP then DaemonPart(rules[1..]) else rules
  }

  lemma {:induction false} DaemonPartIs(n: Nets, rules: seq<Rule>, k: nat)
    requires k <= |rules| && JumpsThenDaemon(n, rules, k)
    ensures DaemonPart(rules) == rules[k..]
  {
    if k > 0 {
      assert rules[0] == rules[..k][0] && rules[0] in rules[..k];
      assert rules[1..][..k - 1] == rules[..k][1..] && rules[1..][k - 1..] == rules[k..];
      assert forall r | r in rules[..k][1..] :: r in rules[..k];
      DaemonPartIs(n, rules[1..], k - 1);
    } else if rules != [] {
      assert rules[0] in rules[k..];
    }
  }

  /** What a packet meets in POSTROUTING: the mark first, then the daemon's rules. */
  lemma PostroutingMeaning(w: World, s: Sys, local: set<Addr>, p: Packet)
    requires Inv(w, s)
    ensures Ranked(s.table) && JumpsBelow(s.table, DaemonPart(s.table[Postrouting]), 4)
    ensures forall r | r in DaemonPart(s.table[Postrouting]) :: IsMasqRule(w.nets, r)
    ensures WalkChain(s.table, local, Postrouting, p)
            == if MASQ_JUMP in s.table[Postrouting] && HasMark(p.mark) then Masqueraded(p)
               else Walk(s.table, local, DaemonPart(s.table[Postrouting]), 4, p)
  {
    hide ContainersOk, NoStrayChains, TopOk, HooksOk;
    PostroutingInTable(w.nets, s.table, local, p);
  }

  lemma PostroutingInTable(n: Nets, t: Table, local: set<Addr>, p: Packet)
    requires Ranked(t) && SharedOk(t) && PostOk(n, t)
    ensures JumpsBelow(t, DaemonPart(t[Postrouting]), 4)
    ensures forall r | r in DaemonPart(t[Postrouting]) :: IsMasqRule(n, r)
    ensures WalkChain(t, local, Postrouting, p)
            == if MASQ_JUMP in t[Postrouting] && HasMark(p.mark) then Masqueraded(p)
               else Walk(t, local, DaemonPart(t[Postrouting]), 4, p)
  {
    var post := t[Postrouting];
    var k :| 0 <= k <= |post| && JumpsThenDaemon(n, post, k);
    DaemonPartIs(n, post, k);
    var jumps, rest := post[..k], post[k..];
    assert post == jumps + rest;
    assert JumpsBelow(t, jumps + rest, 4) by {
      assert JumpsBelow(t, post, Rank(Postrouting));
    }
    assert JumpsBelow(t, rest, 4) by {
      assert forall r | r in rest :: r in post;
    }
    assert MASQ_JUMP in post <==> jumps != [] by {
      if jumps != [] {
        assert jumps[0] in jumps && jumps[0] in post;
      }
      assert !IsMasqRule(n, MASQ_JUMP);
    }
    PostroutingWalk(t, local, jumps, rest, p);
  }

  // -------------------------------------------------- hostPort traffic, out again

  /**
   A hostPort connection, from the hook to POSTROUTING, in every run: it reaches its pod;
   from the pod itself or from loopback, or if a rule in front marked it, it is then
   masqueraded as long as the jump stands; otherwise its mark is untouched and only the
   daemon's rules count.
   */
  lemma HostPortConnection(w: World, events: seq<Event>, c: Chain, local: set<Addr>, id: string, i: nat, p: Packet)
    requires w.Valid() && Hooked(c) && NonOverlapping(After(w, events).procs) && Unhaunted(After(w, events), id, p)
    requires var procs := After(w, events).procs;
             id in procs && Settled(procs[id]) && i < |procs[id].d.mappings| && procs[id].d.mappings[i].Covers(p)
    requires p.dst in local && !HasMark(p.mark)
    ensures Ranked(After(w, events).table) && c in After(w, events).table && Postrouting in After(w, events).table
    ensures var s := After(w, events);
            var t, d, q := s.table, s.procs[id].d, Arrived(s, id, i, p);
            var out := WalkChain(t, local, Postrouting, q);
            && WalkChain(t, local, c, p) == Dnated(q)
            && q.dst == d.podIp && q.dport == d.mappings[i].containerPort && q.src == p.src
            && (HasMark(q.mark) <==> ComesBack(d, p) || MarkedInFront(s, id, p))
            && (HasMark(q.mark) && MASQ_JUMP in t[Postrouting] ==> out == Masqueraded(q))
            && (!HasMark(q.mark) ==>
                  q.mark == p.mark && JumpsBelow(t, DaemonPart(t[Postrouting]), 4)
                  && out == Walk(t, local, DaemonPart(t[Postrouting]), 4, q))
  {
    Always(w, events);
    var s := After(w, events);
    TableHasBuiltins(w, s.table);
    hide Inv, After, NonOverlapping, Unhaunted, Mapping.Covers, Arrived, ComesBack, WalkChain, Ranked;
    DeliveredInState(w, s, c, local, id, i, p);
    PostroutingMeaning(w, s, local, Arrived(s, id, i, p));
    ArrivedHow(s, id, i, p);
  }

  /**
   The same in plain terms, for every run: a packet of the mapping's protocol to its hostPort,
   at a local address and at the one the mapping is bound to if it is, goes to the pod's
   containerPort; bit 0x2000 of its mark is set exactly if it comes from the pod or from
   127.0.0.1, or a rule in front set it, and nothing else about it changes.
   */
  lemma DeliveredInPlainTerms(w: World, events: seq<Event>, c: Chain, local: set<Addr>, id: string, i: nat, p: Packet)
    requires w.Valid() && Hooked(c) && NonOverlapping(After(w, events).procs) && Unhaunted(After(w, events), id, p)
    requires var procs := After(w, events).procs; id in procs && Settled(procs[id]) && i < |procs[id].d.mappings|
    requires var m := After(w, events).procs[id].d.mappings[i];
             p.proto == m.protocol && p.dport == m.hostPort && (m.hostIp.Bound? ==> p.dst == m.hostIp.ip)
    requires p.dst in local
    ensures var s := After(w, events);
            var d := s.procs[id].d;
            && Ranked(s.table) && c in s.table
            && WalkChain(s.table, local, c, p)
               == Dnated(p.(dst := d.podIp, dport := d.mappings[i].containerPort,
                            mark := if p.src == d.podIp || p.src == 0x7F00_0001 || MarkedInFront(s, id, p)
                                    then p.mark | 0x2000 else p.mark))
  {
    var s := After(w, events);
    Always(w, events);
    assert s.procs[id].d.mappings[i].Covers(p);
    hide *;
    DeliveredInState(w, s, c, local, id, i, p);
    ArrivedInPlainTerms(s, id, i, p);
  }

  lemma ArrivedInPlainTerms(s: Sys, id: string, i: nat, p: Packet)
    requires id in s.procs && i < |s.procs[id].d.mappings|
    ensures var d := s.procs[id].d;
            Arrived(s, id, i, p)
            == p.(dst := d.podIp, dport := d.mappings[i].containerPort,
                  mark := if p.src == d.podIp || p.src == 0x7F00_0001 || MarkedInFront(s, id, p)
                          then p.mark | 0x2000 else p.mark)
  {
    hide MarkedInFront, SetXmark;
    SetXmarkIsOr(p.mark);
    SetXmarkIdempotent(p.mark);
  }

  lemma ArrivedHow(s: Sys, id: string, i: nat, p: Packet)
    requires id in s.procs && i < |s.procs[id].d.mappings| && !HasMark(p.mark)
    ensures var d, q := s.procs[id].d, Arrived(s, id, i, p);
            && q.dst == d.podIp && q.dport == d.mappings[i].containerPort && q.src == p.src
            && (HasMark(q.mark) <==> ComesBack(d, p) || MarkedInFront(s, id, p))
            && (!HasMark(q.mark) ==> q.mark == p.mark)
  {
    hide MarkedInFront;
    SetXmarkSets(p.mark);
    SetXmarkSets(Marked(p).mark);
  }

  /** A packet that reached its pod from the pod itself or from loopback. */
  predicate ComesBack(d: Deployment, p: Packet) {
    p.src == d.podIp || p.src == 0x7F00_0001
  }

  /** A packet that no container's reachable rules take is never DNATed by the plugin, in any run. */
  lemma UnpublishedTraffic(w: World, events: seq<Event>, c: Chain, local: set<Addr>, p: Packet)
    requires w.Valid() && Hooked(c) && Unpublished(After(w, events).procs, p)
    ensures var s := After(w, events);
            && Ranked(s.table) && c in s.table && JumpsBelow(s.table, OthersIn(w, c), 4)
            && WalkChain(s.table, local, c, p)
               == Walk(s.table, local, OthersIn(w, c), 4,
                       if HOOK in s.table[c] && p.dst in local && MarkedInState(s, p) then Marked(p) else p)
  {
    Always(w, events);
    hide After, Inv, Unpublished;
    UnpublishedInState(w, After(w, events), c, local, p);
  }

  // ------------------------------------------------------------- one event

  /** What an event can do to POSTROUTING: a jump in front, a daemon rule behind, or a flush. */
  lemma PostroutingMoves(w: World, s: Sys, e: Event)
    requires Inv(w, s)
    ensures Postrouting in s.table && Postrouting in Next(w, s, e).table
    ensures var post, post' := s.table[Postrouting], Next(w, s, e).table[Postrouting];
            || post' == post
            || (e.PluginStep? && post' == [MASQ_JUMP] + post)
            || (&& e.TickStep? && s.ticker.At? && s.ticker.i < 4
                && exists r | IsKind(w.nets, s.ticker.i, r) :: post' == post + [r])
            || (e.FlushPostrouting? && post' == [])
    ensures !e.StartTick? && !e.TickStep? ==> Next(w, s, e).ticker == s.ticker
  {
    TableHasBuiltins(w, s.table);
    TableIsRanked(w, s.table);
    if e.PluginStep? {
      if e.id in s.procs {
        assert ContainersOk(s.table, s.procs);
        hide Inv, PluginCommand;
        PluginOnPostrouting(s, e.id, e.fault);
        PluginLeavesTicker(s, e.id, e.fault);
      }
    } else if e.TickStep? {
      if s.ticker.At? && s.ticker.i < 4 {
        TickAppends(w.nets, s.table, s.ticker.i, s.ticker.stage, e.fault);
        hide Inv, TickCommand, Ranked;
      }
    } else {
      hide Inv;
    }
  }

  lemma PluginOnPostrouting(s: Sys, id: string, fault: bool)
    requires id in s.procs && Postrouting in s.table && ContainersOk(s.table, s.procs)
    ensures var t' := PluginCommand(s, id, fault).table;
            && Postrouting in t'
            && (t'[Postrouting] == s.table[Postrouting] || t'[Postrouting] == [MASQ_JUMP] + s.table[Postrouting])
  {
    var p := s.procs[id];
    assert ContainerOk(s.table, id, p);
    if p.act.Adding? {
      SharedStepAt(p.d);
      if p.act.pc < |ApplySteps(p.d)| {
        AddOnPostrouting(s.table, p, fault);
      }
    }
    hide AddCommand;
  }

  lemma AddOnPostrouting(t: Table, p: Proc, fault: bool)
    requires Postrouting in t && p.act.Adding? && p.act.pc < |ApplySteps(p.d)|
    ensures var t' := AddCommand(t, p, fault).0;
            && Postrouting in t'
            && (t'[Postrouting] == t[Postrouting] || t'[Postrouting] == [MASQ_JUMP] + t[Postrouting])
  {
    SharedStepAt(p.d);
    var step := ApplySteps(p.d)[p.act.pc];
    hide ApplySteps;
    if p.act.pc < 8 {
      assert step == SHARED_STEPS[p.act.pc];
    }
  }

  // -------------------------------------------------------------- calm runs

  /** A tick is about to see to a masquerading rule, relying on the RETURN before it. */
  predicate Pending(ticker: Ticker) {
    ticker.At? && (ticker.i == 1 || ticker.i == 3)
  }

  /** There was no flush of POSTROUTING yet, or the last one did not happen while a masquerading rule was pending. */
  ghost predicate LastFlushOrderly(w: World, events: seq<Event>) {
    forall k | 0 <= k < |events| && events[k].FlushPostrouting? && NoFlush(events[k + 1..]) ::
      !Pending(After(w, events[..k]).ticker)
  }

  predicate NoFlush(events: seq<Event>) {
    forall k | 0 <= k < |events| :: !events[k].FlushPostrouting?
  }

  /** The tick that is under way, if any, has not left its first rule. */
  predicate AtStart(ticker: Ticker) {
    ticker.At? ==> ticker.i == 0
  }

  /** There has been no flush since some moment at which no tick had left its first rule. */
  ghost predicate UnflushedTick(w: World, events: seq<Event>) {
    exists m | 0 <= m <= |events| :: AtStart(After(w, events[..m]).ticker) && NoFlush(events[m..])
  }

  /** The order is right, and a pending masquerading rule has its RETURN in place. */
  ghost predicate Calm(w: World, s: Sys) {
    && Postrouting in s.table && Ordered(w.nets, s.table[Postrouting])
    && (s.ticker.At? ==> s.ticker.i < 4)
    && (Pending(s.ticker) ==> Has(w.nets, s.table[Postrouting], s.ticker.i - 1))
  }

  /** A tick under way has all its earlier rules in place. */
  ghost predicate Steady(w: World, s: Sys) {
    && Postrouting in s.table
    && (s.ticker.At? ==> s.ticker.i < 4 && forall j | 0 <= j < s.ticker.i :: Has(w.nets, s.table[Postrouting], j))
  }

  lemma JumpInFrontKeepsOrder(n: Nets, rules: seq<Rule>)
    requires Ordered(n, rules)
    ensures Ordered(n, [MASQ_JUMP] + rules)
    ensures forall j | 0 <= j < 4 && Has(n, rules, j) :: Has(n, [MASQ_JUMP] + rules, j)
  {
    var longer := [MASQ_JUMP] + rules;
    forall k | 0 <= k < |longer|
      ensures IsKind(n, 1, longer[k]) ==> MasqRules(n)[0] in longer[..k]
      ensures IsKind(n, 3, longer[k]) ==> MasqRules(n)[2] in longer[..k]
    {
      if k > 0 {
        assert longer[k] == rules[k - 1] && longer[..k] == [MASQ_JUMP] + rules[..k - 1];
      }
    }
    HasMore(n, rules, longer);
  }

  lemma HasMore(n: Nets, rules: seq<Rule>, more: seq<Rule>)
    requires forall r | r in rules :: r in more
    ensures forall j | 0 <= j < 4 && Has(n, rules, j) :: Has(n, more, j)
  {
    forall j | 0 <= j < 4 && Has(n, rules, j)
      ensures Has(n, more, j)
    {
      var r :| r in rules && IsKind(n, j, r);
      assert r in more;
    }
  }

  /** The tick's own account: where it goes next is right about what is in the chain. */
  lemma TickProgress(n: Nets, t: Table, i: nat, stage: TickStage, fault: bool)
    requires i < 4 && Ranked(t) && PostOk(n, t)
    requires forall j | 0 <= j < i :: Has(n, t[Postrouting], j)
    ensures var (t', ticker) := TickCommand(n, t, i, stage, fault);
            && Postrouting in t'
            && (ticker.At? ==> ticker.i < 4 && forall j | 0 <= j < ticker.i :: Has(n, t'[Postrouting], j))
            && (TickPasses(n, t, i, stage, fault) ==> HasAll(n, t'[Postrouting]))
  {
    var t' := TickCommand(n, t, i, stage, fault).0;
    TickAppends(n, t, i, stage, fault);
    HasMore(n, t[Postrouting], t'[Postrouting]);
    assert IsKind(n, i, MasqRules(n)[i]) && IsKind(n, i, Stripped(MasqRules(n)[i]));
  }

  /** The command with which `ensure` returns Ok. */
  predicate TickPasses(n: Nets, t: Table, i: nat, stage: TickStage, fault: bool)
    requires i < 4
  {
    i == 3 && !fault
    && match stage
       case Checking => Exec(t, Check(Postrouting, MasqRules(n)[i])).Some?
       case Appending => Exec(t, Append(Postrouting, MasqRules(n)[i])).Some?
       case CheckingStripped => Exec(t, Check(Postrouting, Stripped(MasqRules(n)[i]))).Some?
       case AppendingStripped => Exec(t, Append(Postrouting, Stripped(MasqRules(n)[i]))).Some?
  }

  /** The same for what a pending masquerading rule relies on. */
  lemma TickReadies(n: Nets, t: Table, i: nat, stage: TickStage, fault: bool)
    requires i < 4 && Ranked(t) && PostOk(n, t)
    requires i == 1 || i == 3 ==> Has(n, t[Postrouting], i - 1)
    ensures var (t', ticker) := TickCommand(n, t, i, stage, fault);
            && Postrouting in t' && (ticker.At? ==> ticker.i < 4)
            && (Pending(ticker) ==> Has(n, t'[Postrouting], ticker.i - 1))
  {
    var t' := TickCommand(n, t, i, stage, fault).0;
    TickAppends(n, t, i, stage, fault);
    HasMore(n, t[Postrouting], t'[Postrouting]);
    assert IsKind(n, i, MasqRules(n)[i]) && IsKind(n, i, Stripped(MasqRules(n)[i]));
  }

  lemma TickKeepsCalm(w: World, s: Sys, fault: bool)
    requires Inv(w, s) && Calm(w, s)
    ensures Calm(w, Next(w, s, TickStep(fault)))
  {
    if s.ticker.At? {
      PostroutingMoves(w, s, TickStep(fault));
      InvPost(w, s);
      TickReadies(w.nets, s.table, s.ticker.i, s.ticker.stage, fault);
      hide Inv, TickCommand, Ordered, Has, IsKind, PostOk, Ranked;
      AppendedStaysOrdered(w.nets, s.table[Postrouting], Next(w, s, TickStep(fault)).table[Postrouting], s.ticker.i);
    }
  }

  lemma InvPost(w: World, s: Sys)
    requires Inv(w, s)
    ensures Ranked(s.table) && PostOk(w.nets, s.table)
  {
  }

  lemma AppendedStaysOrdered(n: Nets, post: seq<Rule>, post': seq<Rule>, i: nat)
    requires i < 4 && Ordered(n, post) && (i == 1 || i == 3 ==> Has(n, post, i - 1))
    requires post' == post || exists r | IsKind(n, i, r) :: post' == post + [r]
    ensures Ordered(n, post')
  {
    if post' != post {
      var r :| IsKind(n, i, r) && post' == post + [r];
      AppendKeepsOrder(n, post, i, r);
    }
  }

  lemma EmptyIsOrdered(n: Nets)
    ensures Ordered(n, [])
  {
  }

  lemma StartsAtFirst(w: World, s: Sys)
    ensures var s' := Next(w, s, StartTick);
            s'.table == s.table && (s'.ticker == s.ticker || s'.ticker == At(0, Checking))
  {
  }

  lemma NextKeepsCalm(w: World, s: Sys, e: Event)
    requires Inv(w, s) && Calm(w, s) && (e.FlushPostrouting? ==> !Pending(s.ticker))
    ensures Calm(w, Next(w, s, e))
  {
    if e.TickStep? {
      TickKeepsCalm(w, s, e.fault);
    } else {
      PostroutingMoves(w, s, e);
      hide Inv, Next, Ordered, Has;
      JumpInFrontKeepsOrder(w.nets, s.table[Postrouting]);
      if e.FlushPostrouting? {
        EmptyIsOrdered(w.nets);
      } else if e.StartTick? {
        StartsAtFirst(w, s);
      }
    }
  }

  lemma InitOrderly(w: World, events: seq<Event>)
    requires LastFlushOrderly(w, events) && events != [] && !events[|events| - 1].FlushPostrouting?
    ensures LastFlushOrderly(w, events[..|events| - 1])
  {
    hide After;
    var init := events[..|events| - 1];
    forall k | 0 <= k < |init| && init[k].FlushPostrouting? && NoFlush(init[k + 1..])
      ensures !Pending(After(w, init[..k]).ticker)
    {
      assert init[..k] == events[..k];
      assert events[k + 1..] == init[k + 1..] + [events[|events| - 1]];
    }
  }

  /** An emptied chain is in order, and calm exactly if no masquerading rule is pending. */
  lemma EmptiedIsCalmIff(w: World, s: Sys)
    requires Postrouting in s.table && s.table[Postrouting] == [] && (s.ticker.At? ==> s.ticker.i < 4)
    ensures Calm(w, s) <==> !Pending(s.ticker)
  {
  }

  /** After every run whose last flush did not hit a pending masquerading rule, the order is right. */
  lemma {:induction false} CalmSinceLastFlush(w: World, events: seq<Event>)
    requires w.Valid() && LastFlushOrderly(w, events)
    ensures Calm(w, After(w, events))
  {
    if events != [] {
      var before, last := events[..|events| - 1], events[|events| - 1];
      Always(w, before);
      if last.FlushPostrouting? {
        assert NoFlush(events[|before| + 1..]);
        assert events == before + [FlushPostrouting];
        TickerInRange(w, before);
        FlushedState(w, before);
        EmptiedIsCalmIff(w, After(w, events));
      } else {
        InitOrderly(w, events);
        CalmSinceLastFlush(w, before);
        hide Inv, Calm, Next, LastFlushOrderly;
        NextKeepsCalm(w, After(w, before), last);
      }
    }
  }

  lemma NextKeepsSteady(w: World, s: Sys, e: Event)
    requires Inv(w, s) && Steady(w, s) && !e.FlushPostrouting?
    ensures Steady(w, Next(w, s, e))
  {
    hide ContainersOk, NoStrayChains, TopOk;
    PostroutingMoves(w, s, e);
    if e.TickStep? && s.ticker.At? {
      TickProgress(w.nets, s.table, s.ticker.i, s.ticker.stage, e.fault);
    } else if !e.FlushPostrouting? {
      HasMore(w.nets, s.table[Postrouting], Next(w, s, e).table[Postrouting]);
    }
  }

  /** A tick that no flush has hit since its first rule has all its earlier rules in place. */
  lemma {:induction false} SteadySince(w: World, events: seq<Event>, m: nat)
    requires w.Valid() && m <= |events| && AtStart(After(w, events[..m]).ticker) && NoFlush(events[m..])
    ensures Steady(w, After(w, events))
  {
    if m == |events| {
      assert events[..m] == events;
      Always(w, events);
      TableHasBuiltins(w, After(w, events).table);
    } else {
      var init, last := events[..|events| - 1], events[|events| - 1];
      assert init[..m] == events[..m] && events[m..] == init[m..] + [last];
      assert !events[m..][|events| - 1 - m].FlushPostrouting?;
      assert forall k | 0 <= k < |init| - m :: init[m..][k] == events[m..][k];
      SteadySince(w, init, m);
      Always(w, init);
      hide Inv, Steady, Next;
      NextKeepsSteady(w, After(w, init), last);
    }
  }

  lemma {:induction false} DaemonPartOrdered(n: Nets, rules: seq<Rule>)
    requires Ordered(n, rules)
    ensures Ordered(n, DaemonPart(rules))
    ensures HasAll(n, rules) ==> HasAll(n, DaemonPart(rules))
  {
    if rules != [] && rules[0] == MASQ_JUMP {
      var rest := rules[1..];
      forall k | 0 <= k < |rest|
        ensures IsKind(n, 1, rest[k]) ==> MasqRules(n)[0] in rest[..k]
        ensures IsKind(n, 3, rest[k]) ==> MasqRules(n)[2] in rest[..k]
      {
        assert rest[k] == rules[k + 1] && rules[..k + 1] == [MASQ_JUMP] + rest[..k];
      }
      forall j | 0 <= j < 4 && Has(n, rules, j)
        ensures Has(n, rest, j)
      {
        var r :| r in rules && IsKind(n, j, r);
        assert r in rest;
      }
      assert HasAll(n, rules) ==> HasAll(n, rest);
      DaemonPartOrdered(n, rest);
    }
  }

  /**
   In every run whose last flush did not hit a pending masquerading rule, whatever commands
   fail and whatever earlier flushes did: an unmarked packet is never masqueraded unless that
   is intended, and once all rules are there it is masqueraded exactly when intended.
   */
  lemma MasqueradesOnlyIntended(w: World, events: seq<Event>, local: set<Addr>, p: Packet)
    requires w.Valid() && LastFlushOrderly(w, events) && !HasMark(p.mark)
    ensures var t := After(w, events).table;
            && Ranked(t) && Postrouting in t
            && var out := WalkChain(t, local, Postrouting, p);
               && (out == Masqueraded(p) || out == Fall(p))
               && (out.Masqueraded? ==> Intended(w.nets, p.src, p.dst))
               && (HasAll(w.nets, t[Postrouting]) ==> (out.Masqueraded? <==> Intended(w.nets, p.src, p.dst)))
  {
    var s := After(w, events);
    Always(w, events);
    CalmSinceLastFlush(w, events);
    hide TableOk, ContainersOk, NoStrayChains, TopOk;
    PostroutingMeaning(w, s, local, p);
    DaemonPartOrdered(w.nets, s.table[Postrouting]);
    ChainVerdict(s.table, local, w.nets, DaemonPart(s.table[Postrouting]), p);
  }

  /** When `ensure` returns Ok, and no flush has come since it left its first rule, all rules are there. */
  lemma EnsureOkCompletes(w: World, events: seq<Event>, fault: bool)
    requires w.Valid() && UnflushedTick(w, events)
    requires var s := After(w, events);
             s.ticker.At? && s.ticker.i < 4 && TickPasses(w.nets, s.table, s.ticker.i, s.ticker.stage, fault)
    ensures var s' := After(w, events + [TickStep(fault)]);
            s'.ticker.Resting? && Complete(w.nets, s'.table)
  {
    hide After, Inv, Next, Complete;
    Always(w, events);
    var m: nat :| m <= |events| && AtStart(After(w, events[..m]).ticker) && NoFlush(events[m..]);
    SteadySince(w, events, m);
    AfterOne(w, events, TickStep(fault));
    PassingTick(w, After(w, events), fault);
  }

  lemma PassingTick(w: World, s: Sys, fault: bool)
    requires Inv(w, s) && Steady(w, s) && s.ticker.At? && s.ticker.i < 4
    requires TickPasses(w.nets, s.table, s.ticker.i, s.ticker.stage, fault)
    ensures Next(w, s, TickStep(fault)).ticker.Resting? && Complete(w.nets, Next(w, s, TickStep(fault)).table)
  {
    TableIsRanked(w, s.table);
    hide ContainersOk, NoStrayChains, TopOk, HooksOk, SharedOk, Ranked;
    TickProgress(w.nets, s.table, s.ticker.i, s.ticker.stage, fault);
  }

  ghost predicate Complete(n: Nets, t: Table) {
    Postrouting in t && HasAll(n, t[Postrouting])
  }

  ghost predicate JumpThere(t: Table) {
    Postrouting in t && MASQ_JUMP in t[Postrouting]
  }

  lemma CompleteUntilFlush(w: World, s: Sys, e: Event)
    requires Inv(w, s) && Complete(w.nets, s.table) && !e.FlushPostrouting?
    ensures Complete(w.nets, Next(w, s, e).table)
  {
    hide Inv, Next;
    PostroutingMoves(w, s, e);
    HasMore(w.nets, s.table[Postrouting], Next(w, s, e).table[Postrouting]);
  }

  /** Complete after k events, and not flushed since, the chain is complete. */
  lemma {:induction false} CompleteSince(w: World, events: seq<Event>, k: nat)
    requires w.Valid() && k <= |events| && Complete(w.nets, After(w, events[..k]).table)
    requires forall j | k <= j < |events| :: !events[j].FlushPostrouting?
    ensures Complete(w.nets, After(w, events).table)
  {
    if k == |events| {
      assert events[..k] == events;
    } else {
      var init := events[..|events| - 1];
      assert init[..k] == events[..k];
      CompleteSince(w, init, k);
      Always(w, init);
      CompleteUntilFlush(w, After(w, init), events[|events| - 1]);
    }
  }

  /**
   From an Ok return of `ensure` that no flush has hit since its first rule, until the next
   flush, whatever else happens and fails: an unmarked packet is masqueraded exactly if that
   is intended, for all addresses. Of earlier flushes only the last one matters.
   */
  lemma ExactSinceOk(w: World, events: seq<Event>, k: nat, fault: bool, local: set<Addr>, p: Packet)
    requires w.Valid() && k < |events| && events[k] == TickStep(fault)
    requires UnflushedTick(w, events[..k]) && NoFlush(events[k..]) && LastFlushOrderly(w, events)
    requires var s := After(w, events[..k]);
             s.ticker.At? && s.ticker.i < 4 && TickPasses(w.nets, s.table, s.ticker.i, s.ticker.stage, fault)
    requires !HasMark(p.mark)
    ensures var t := After(w, events).table;
            && Ranked(t) && Postrouting in t
            && WalkChain(t, local, Postrouting, p) == if Intended(w.nets, p.src, p.dst) then Masqueraded(p) else Fall(p)
  {
    hide *;
    NoFlushFrom(events, k);
    assert events[..k + 1] == events[..k] + [TickStep(fault)];
    EnsureOkCompletes(w, events[..k], fault);
    CompleteSince(w, events, k + 1);
    MasqueradesOnlyIntended(w, events, local, p);
  }

  lemma NoFlushFrom(events: seq<Event>, k: nat)
    requires k <= |events| && NoFlush(events[k..])
    ensures forall j | k <= j < |events| :: !events[j].FlushPostrouting?
  {
    assert forall j | k <= j < |events| :: events[j] == events[k..][j - k];
  }

  /** The masquerade jump stays until a flush. */
  lemma JumpUntilFlush(w: World, s: Sys, e: Event)
    requires Inv(w, s) && JumpThere(s.table) && !e.FlushPostrouting?
    ensures JumpThere(Next(w, s, e).table)
  {
    hide Inv, Next;
    PostroutingMoves(w, s, e);
  }

  /** There after k events, and not flushed since, the jump is there. */
  lemma {:induction false} JumpSince(w: World, events: seq<Event>, k: nat)
    requires w.Valid() && k <= |events| && JumpThere(After(w, events[..k]).table)
    requires forall j | k <= j < |events| :: !events[j].FlushPostrouting?
    ensures JumpThere(After(w, events).table)
  {
    if k == |events| {
      assert events[..k] == events;
    } else {
      var init := events[..|events| - 1];
      assert init[..k] == events[..k];
      JumpSince(w, init, k);
      Always(w, init);
      JumpUntilFlush(w, After(w, init), events[|events| - 1]);
    }
  }

  /** An ADD that gets past its insertion leaves the masquerade jump in place. */
  lemma JumpInserted(t: Table, p: Proc, fault: bool)
    requires p.act.Adding? && p.act.pc == 7 < |ApplySteps(p.d)| && Postrouting in t
    requires AddCommand(t, p, fault).1.act == Adding(8, false)
    ensures var t' := AddCommand(t, p, fault).0; Postrouting in t' && MASQ_JUMP in t'[Postrouting]
  {
    SharedStepAt(p.d);
    assert ApplySteps(p.d)[7] == InsertRule(Postrouting, MASQ_JUMP);
  }

  lemma StepTo(w: World, events: seq<Event>, k: nat)
    requires k < |events|
    ensures After(w, events[..k + 1]) == Next(w, After(w, events[..k]), events[k])
  {
    assert events[..k + 1][..k] == events[..k];
  }

  /** Event k is the command with which the container's ADD gets past its eighth step. */
  ghost predicate PassesInsertion(w: World, events: seq<Event>, k: nat, id: string)
    requires k < |events|
  {
    var s := After(w, events[..k]);
    && events[k].PluginStep? && events[k].id == id
    && id in s.procs && s.procs[id].act.Adding? && s.procs[id].act.pc == 7
    && 7 < |ApplySteps(s.procs[id].d)|
    && AddCommand(s.table, s.procs[id], events[k].fault).1.act == Adding(8, false)
  }

  lemma InsertionLeavesJump(w: World, events: seq<Event>, k: nat, id: string)
    requires w.Valid() && k < |events| && PassesInsertion(w, events, k, id)
    ensures JumpThere(After(w, events[..k + 1]).table)
  {
    var s, e := After(w, events[..k]), events[k];
    Always(w, events[..k]);
    TableHasBuiltins(w, s.table);
    StepTo(w, events, k);
    hide Inv, After, AddCommand, ApplySteps, PluginCommand;
    JumpInserted(s.table, s.procs[id], e.fault);
    AddingTable(s, id, e.fault);
  }

  lemma AddingTable(s: Sys, id: string, fault: bool)
    requires id in s.procs && s.procs[id].act.Adding? && s.procs[id].act.pc < |ApplySteps(s.procs[id].d)|
    ensures PluginCommand(s, id, fault).table == AddCommand(s.table, s.procs[id], fault).0
  {
    hide AddCommand;
  }

  /**
   In every run, hairpin and loopback traffic to a published port is masqueraded if no
   flush has happened since the container's own ADD passed its eighth command.
   */
  lemma MasqueradedSinceInsertion(w: World, events: seq<Event>, k: nat, c: Chain, local: set<Addr>, id: string, i: nat,
                                  p: Packet)
    requires w.Valid() && Hooked(c) && NonOverlapping(After(w, events).procs) && Unhaunted(After(w, events), id, p)
    requires var procs := After(w, events).procs;
             && id in procs && Settled(procs[id]) && i < |procs[id].d.mappings| && procs[id].d.mappings[i].Covers(p)
             && ComesBack(procs[id].d, p)
    requires p.dst in local && !HasMark(p.mark)
    requires k < |events| && PassesInsertion(w, events, k, id)
    requires forall j | k < j < |events| :: !events[j].FlushPostrouting?
    ensures Ranked(After(w, events).table) && c in After(w, events).table && Postrouting in After(w, events).table
    ensures var t, q := After(w, events).table, Arrived(After(w, events), id, i, p);
            WalkChain(t, local, c, p) == Dnated(q) && WalkChain(t, local, Postrouting, q) == Masqueraded(q)
  {
    hide PassesInsertion, NonOverlapping, Unhaunted, WalkChain, Ranked, Mapping.Covers, After;
    InsertionLeavesJump(w, events, k, id);
    JumpSince(w, events, k + 1);
    HostPortConnection(w, events, c, local, id, i, p);
  }

  /**
   In every run whose last flush did not hit a pending masquerading rule, for a pod of the
   local subnet: hairpin and loopback traffic to its published port is masqueraded exactly
   if the masquerade jump is there.
   */
  lemma MasqueradedIffJump(w: World, events: seq<Event>, c: Chain, local: set<Addr>, id: string, i: nat, p: Packet)
    requires w.Valid() && LastFlushOrderly(w, events)
    requires Hooked(c) && NonOverlapping(After(w, events).procs) && Unhaunted(After(w, events), id, p)
    requires var procs := After(w, events).procs;
             && id in procs && Settled(procs[id]) && i < |procs[id].d.mappings| && procs[id].d.mappings[i].Covers(p)
             && ComesBack(procs[id].d, p)
             && w.nets.network.Contains(procs[id].d.podIp) && w.nets.subnet.Contains(procs[id].d.podIp)
    requires p.dst in local && !HasMark(p.mark) && !w.nets.network.Contains(0x7F00_0001)
    ensures Ranked(After(w, events).table) && c in After(w, events).table && Postrouting in After(w, events).table
    ensures var t, q := After(w, events).table, Arrived(After(w, events), id, i, p);
            && WalkChain(t, local, c, p) == Dnated(q)
            && WalkChain(t, local, Postrouting, q)
               == if MASQ_JUMP in t[Postrouting] then Masqueraded(q) else Fall(q)
  {
    var s := After(w, events);
    var q := Arrived(s, id, i, p);
    HostPortConnection(w, events, c, local, id, i, p);
    Always(w, events);
    CalmSinceLastFlush(w, events);
    assert !Intended(w.nets, q.src, q.dst);
    hide NonOverlapping, Unhaunted, Settled, Mapping.Covers, After, Hooked, Intended;
    DaemonVerdict(w, s, local, q);
  }

  /** What the rules behind the jumps do in a calm state. */
  lemma DaemonVerdict(w: World, s: Sys, local: set<Addr>, p: Packet)
    requires Inv(w, s) && Calm(w, s) && !Intended(w.nets, p.src, p.dst)
    ensures Ranked(s.table) && Postrouting in s.table
    ensures WalkChain(s.table, local, Postrouting, p)
            == if MASQ_JUMP in s.table[Postrouting] && HasMark(p.mark) then Masqueraded(p) else Fall(p)
  {
    hide TableOk, ContainersOk, NoStrayChains, TopOk, Intended;
    PostroutingMeaning(w, s, local, p);
    DaemonPartOrdered(w.nets, s.table[Postrouting]);
    ChainVerdict(s.table, local, w.nets, DaemonPart(s.table[Postrouting]), p);
  }

  // --------------------------------- exactly which flushes break the order

  ghost predicate OrderedNow(w: World, s: Sys) {
    Postrouting in s.table && Ordered(w.nets, s.table[Postrouting])
  }

  lemma {:induction false} TickerInRange(w: World, events: seq<Event>)
    ensures After(w, events).ticker.At? ==> After(w, events).ticker.i < 4
  {
    if events != [] {
      TickerInRange(w, events[..|events| - 1]);
      TickerStays(w, After(w, events[..|events| - 1]), events[|events| - 1]);
    }
  }

  lemma TickerStays(w: World, s: Sys, e: Event)
    requires s.ticker.At? ==> s.ticker.i < 4
    ensures Next(w, s, e).ticker.At? ==> Next(w, s, e).ticker.i < 4
  {
    hide PluginCommand;
    if e.PluginStep? && e.id in s.procs {
      PluginLeavesTicker(s, e.id, e.fault);
    }
  }

  lemma PluginLeavesTicker(s: Sys, id: string, fault: bool)
    requires id in s.procs
    ensures PluginCommand(s, id, fault).ticker == s.ticker
  {
  }

  lemma {:induction false} CalmSurvives(w: World, events: seq<Event>, more: seq<Event>)
    requires w.Valid() && Calm(w, After(w, events)) && NoFlush(more)
    ensures Calm(w, After(w, events + more))
  {
    if more == [] {
      assert events + more == events;
    } else {
      var init, last := more[..|more| - 1], more[|more| - 1];
      assert events + more == (events + init) + [last];
      CalmSurvives(w, events, init);
      Always(w, events + init);
      AfterOne(w, events + init, last);
      hide Inv, Calm, Next, After;
      NextKeepsCalm(w, After(w, events + init), last);
    }
  }

  /** Without the RETURN before it, a masquerading rule is not there, in either form. */
  lemma NoRuleWithoutReturn(n: Nets, rules: seq<Rule>, i: nat)
    requires Ordered(n, rules) && (i == 1 || i == 3) && !Has(n, rules, i - 1)
    ensures MasqRules(n)[i] !in rules && Stripped(MasqRules(n)[i]) !in rules && MasqRules(n)[i - 1] !in rules
  {
    var back := MasqRules(n)[i - 1];
    assert IsKind(n, i - 1, back) && back !in rules;
    assert forall k | 0 <= k < |rules| :: back !in rules[..k];
  }

  /** Appending a masquerading rule without its RETURN breaks the order. */
  lemma AppendBreaks(n: Nets, rules: seq<Rule>, i: nat, r: Rule)
    requires (i == 1 || i == 3) && IsKind(n, i, r) && MasqRules(n)[i - 1] !in rules
    ensures !Ordered(n, rules + [r])
  {
    var longer := rules + [r];
    assert longer[|rules|] == r && longer[..|rules|] == rules;
  }

  /** A pending masquerading rule without its RETURN: the tick, if nothing fails, breaks the order. */
  lemma PendingBreaks(w: World, s: Sys)
    requires Pending(s.ticker) && OrderedNow(w, s) && !Has(w.nets, s.table[Postrouting], s.ticker.i - 1)
    ensures var s1 := Next(w, s, TickStep(false));
            !OrderedNow(w, s1) || !OrderedNow(w, Next(w, s1, TickStep(false)))
  {
    var n, post, i := w.nets, s.table[Postrouting], s.ticker.i;
    var rule := MasqRules(n)[i];
    NoRuleWithoutReturn(n, post, i);
    AppendBreaks(n, post, i, rule);
    AppendBreaks(n, post, i, Stripped(rule));
    hide Ordered, Has;
    var s1 := Next(w, s, TickStep(false));
    if s.ticker.stage.Checking? {
      assert s1 == s.(ticker := At(i, Appending));
    } else if s.ticker.stage.CheckingStripped? {
      assert s1 == s.(ticker := At(i, AppendingStripped));
    }
  }

  lemma NotCalmBreaks(w: World, events: seq<Event>) returns (more: seq<Event>)
    requires w.Valid() && !Calm(w, After(w, events))
    ensures NoFlush(more) && !OrderedNow(w, After(w, events + more))
  {
    var s := After(w, events);
    Always(w, events);
    TableHasBuiltins(w, s.table);
    TickerInRange(w, events);
    hide Inv, After;
    if !OrderedNow(w, s) {
      more := [];
      assert events + more == events;
    } else {
      PendingBreaks(w, s);
      AfterOne(w, events, TickStep(false));
      AfterOne(w, events + [TickStep(false)], TickStep(false));
      hide OrderedNow, Next;
      if !OrderedNow(w, Next(w, s, TickStep(false))) {
        more := [TickStep(false)];
      } else {
        more := [TickStep(false)] + [TickStep(false)];
        assert events + more == events + [TickStep(false)] + [TickStep(false)];
      }
    }
  }

  /** In any reachable state: the order survives every continuation without a flush exactly if the state is calm. */
  lemma OrderSurvivesIffCalm(w: World, events: seq<Event>)
    requires w.Valid()
    ensures (forall more | NoFlush(more) :: OrderedNow(w, After(w, events + more))) <==> Calm(w, After(w, events))
  {
    if Calm(w, After(w, events)) {
      forall more | NoFlush(more)
        ensures OrderedNow(w, After(w, events + more))
      {
        CalmSurvives(w, events, more);
      }
    } else {
      var more := NotCalmBreaks(w, events);
    }
  }

  /**
   Exactly which flushes are harmless. After any run, a flush leaves the order right in every
   continuation without another flush, whatever fails in it, exactly if no masquerading rule
   was pending.
   */
  lemma FlushHarmlessIffNotPending(w: World, events: seq<Event>)
    requires w.Valid()
    ensures (forall more | NoFlush(more) :: OrderedNow(w, After(w, events + [FlushPostrouting] + more)))
            <==> !Pending(After(w, events).ticker)
  {
    TickerInRange(w, events);
    hide After, Next, Inv;
    FlushedState(w, events);
    EmptiedIsCalmIff(w, After(w, events + [FlushPostrouting]));
    OrderSurvivesIffCalm(w, events + [FlushPostrouting]);
  }

  lemma FlushedState(w: World, events: seq<Event>)
    requires w.Valid()
    ensures var s := After(w, events);
            After(w, events + [FlushPostrouting]) == s.(table := s.table[Postrouting := []])
  {
    Always(w, events);
    TableHasBuiltins(w, After(w, events).table);
    hide Inv, After;
    AfterOne(w, events, FlushPostrouting);
  }

  // -------------------------------------------- what a disorderly flush does

  /** What the RETURN before a masquerading rule exempts: pod to pod, and outside to local pod. */
  predicate Exempt(n: Nets, i: nat, p: Packet) {
    && n.network.Contains(p.dst)
    && if i == 1 then n.network.Contains(p.src) && !IsMulticast(p.dst)
       else !n.network.Contains(p.src) && n.subnet.Contains(p.dst)
  }

  /**
   A flush while a masquerading rule waits for its check leaves that rule alone in the
   chain, once it is appended: what its RETURN exempts is masqueraded, though not intended.
   */
  lemma PendingFlushMasquerades(w: World, events: seq<Event>, i: nat, local: set<Addr>, p: Packet)
    requires w.Valid() && (i == 1 || i == 3) && After(w, events).ticker == At(i, Checking)
    requires !HasMark(p.mark) && Exempt(w.nets, i, p)
    ensures var t := After(w, events + [FlushPostrouting] + [TickStep(false)] + [TickStep(false)]).table;
            && Ranked(t) && Postrouting in t && t[Postrouting] == [MasqRules(w.nets)[i]]
            && WalkChain(t, local, Postrouting, p) == Masqueraded(p)
            && !Intended(w.nets, p.src, p.dst)
  {
    var flushed := events + [FlushPostrouting];
    var s, last := After(w, flushed), flushed + [TickStep(false)] + [TickStep(false)];
    hide *;
    RankedAfter(w, last);
    RankedAfter(w, events);
    FlushedState(w, events);
    AfterOne(w, flushed, TickStep(false));
    AfterOne(w, flushed + [TickStep(false)], TickStep(false));
    CheckThenAppend(w, s, i);
    assert [] + [MasqRules(w.nets)[i]] == [MasqRules(w.nets)[i]];
    OneRuleWalk(w, After(w, last).table, local, i, p);
    ExemptIsNotIntended(w.nets, i, p);
  }

  lemma RankedAfter(w: World, events: seq<Event>)
    requires w.Valid()
    ensures Ranked(After(w, events).table)
  {
    Always(w, events);
  }

  lemma ExemptIsNotIntended(n: Nets, i: nat, p: Packet)
    requires (i == 1 || i == 3) && Exempt(n, i, p)
    ensures !Intended(n, p.src, p.dst)
  {
  }

  lemma OneRuleWalk(w: World, t: Table, local: set<Addr>, i: nat, p: Packet)
    requires (i == 1 || i == 3) && Exempt(w.nets, i, p)
    requires Ranked(t) && Postrouting in t && t[Postrouting] == [MasqRules(w.nets)[i]]
    ensures WalkChain(t, local, Postrouting, p) == Masqueraded(p)
  {
    MulticastIs(p.dst);
    hide Ipv4Network.Contains, IsMulticast;
    assert Matches(local, MasqRules(w.nets)[i], p);
  }

  /**
   No event, whoever causes it, takes a tick back: it stays at its rule, going on in the order of
   the four commands, goes on to the next rule from its check, or is over. Only StartTick starts one.
   */
  lemma TickNeverGoesBack(w: World, s: Sys, e: Event)
    requires s.ticker.At? && s.ticker.i < 4
    ensures var next := Next(w, s, e).ticker;
            || next == s.ticker || next.Resting? || next == At(s.ticker.i + 1, Checking)
            || (next.At? && next.i == s.ticker.i && Place(next.stage) == Place(s.ticker.stage) + 1)
    ensures !e.TickStep? ==> Next(w, s, e).ticker == s.ticker
  {
  }

  function Place(stage: TickStage): nat {
    match stage case Checking => 0 case Appending => 1 case CheckingStripped => 2 case AppendingStripped => 3
  }

  /** An absent rule of a tick is found missing and then appended. */
  lemma CheckThenAppend(w: World, s: Sys, i: nat)
    requires i < 4 && s.ticker == At(i, Checking)
    requires Postrouting in s.table && MasqRules(w.nets)[i] !in s.table[Postrouting]
    ensures Next(w, Next(w, s, TickStep(false)), TickStep(false))
            == s.(table := s.table[Postrouting := s.table[Postrouting] + [MasqRules(w.nets)[i]]],
                  ticker := NextRule(i))
  {
    assert Next(w, s, TickStep(false)) == s.(ticker := At(i, Appending));
  }

  lemma TurnPasses(w: World, s: Sys, i: nat)
    requires i < 3 && s.ticker == At(i, Checking) && Postrouting in s.table
    ensures var s' := Next(w, s, TickStep(false));
            if MasqRules(w.nets)[i] in s.table[Postrouting] then s'.ticker == At(i + 1, Checking)
            else Next(w, s', TickStep(false)).ticker == At(i + 1, Checking)
  {
    if MasqRules(w.nets)[i] !in s.table[Postrouting] {
      CheckThenAppend(w, s, i);
    }
  }

  /** Every rule of a tick gets its turn in some run without a flush. */
  lemma {:induction false} TurnReached(w: World, i: nat) returns (events: seq<Event>)
    requires w.Valid() && i < 4
    ensures NoFlush(events) && After(w, events).ticker == At(i, Checking)
  {
    if i == 0 {
      events := [] + [StartTick];
      AfterOne(w, [], StartTick);
    } else {
      var before := TurnReached(w, i - 1);
      var s := After(w, before);
      Always(w, before);
      TableHasBuiltins(w, s.table);
      hide Inv, After, Next;
      AfterOne(w, before, TickStep(false));
      AfterOne(w, before + [TickStep(false)], TickStep(false));
      TurnPasses(w, s, i - 1);
      if MasqRules(w.nets)[i - 1] in s.table[Postrouting] {
        events := before + [TickStep(false)];
      } else {
        events := before + [TickStep(false)] + [TickStep(false)];
      }
    }
  }

  /** The daemon's rules in a chain keep their verdict when more are appended: the first match stays first. */
  lemma {:induction false} VerdictSurvivesAppend(t: Table, t': Table, local: set<Addr>, rules: seq<Rule>,
                                                 more: seq<Rule>, p: Packet)
    requires Ranked(t) && Ranked(t') && JumpsBelow(t, rules, 4) && JumpsBelow(t', rules + more, 4)
    requires forall r | r in rules :: !r.target.Jump? && !r.target.SetMark?
    requires Walk(t, local, rules, 4, p) == Masqueraded(p)
    ensures Walk(t', local, rules + more, 4, p) == Masqueraded(p)
  {
    assert rules != [];
    assert rules[0] in rules && forall r | r in rules[1..] :: r in rules;
    assert (rules + more)[1..] == rules[1..] + more && (rules + more)[0] == rules[0];
    assert forall r | r in rules[1..] + more :: r in rules + more;
    if !Matches(local, rules[0], p) {
      VerdictSurvivesAppend(t, t', local, rules[1..], more, p);
    }
  }

  /**
   Ticks never repair a chain: in any state, whatever is masqueraded goes on being
   masqueraded until the chain is flushed.
   */
  lemma OnlyAFlushRepairs(w: World, s: Sys, e: Event, local: set<Addr>, p: Packet)
    requires Inv(w, s) && !HasMark(p.mark) && !e.FlushPostrouting?
    requires Ranked(s.table) && Postrouting in s.table && WalkChain(s.table, local, Postrouting, p) == Masqueraded(p)
    ensures var t' := Next(w, s, e).table;
            Ranked(t') && Postrouting in t' && WalkChain(t', local, Postrouting, p) == Masqueraded(p)
  {
    var s' := Next(w, s, e);
    NextKeepsInv(w, s, e);
    PostroutingMoves(w, s, e);
    hide Inv, Next, WalkChain;
    PostroutingMeaning(w, s, local, p);
    PostroutingMeaning(w, s', local, p);
    DaemonPartGrows(w.nets, s.table[Postrouting], s'.table[Postrouting], s);
    var rules, longer := DaemonPart(s.table[Postrouting]), DaemonPart(s'.table[Postrouting]);
    LongerChainVerdict(w.nets, s.table, s'.table, local, rules, longer, p);
  }

  lemma LongerChainVerdict(n: Nets, t: Table, t': Table, local: set<Addr>, rules: seq<Rule>, longer: seq<Rule>,
                           p: Packet)
    requires Ranked(t) && Ranked(t') && JumpsBelow(t, rules, 4) && JumpsBelow(t', longer, 4)
    requires rules <= longer && forall r | r in rules :: IsMasqRule(n, r)
    requires Walk(t, local, rules, 4, p) == Masqueraded(p)
    ensures Walk(t', local, longer, 4, p) == Masqueraded(p)
  {
    assert longer == rules + longer[|rules|..];
    assert forall r | IsMasqRule(n, r) :: !r.target.Jump? && !r.target.SetMark?;
    VerdictSurvivesAppend(t, t', local, rules, longer[|rules|..], p);
  }

  lemma {:induction false} DaemonPartAppend(rules: seq<Rule>, r: Rule)
    requires r != MASQ_JUMP
    ensures DaemonPart(rules + [r]) == DaemonPart(rules) + [r]
  {
    if rules != [] && rules[0] == MASQ_JUMP {
      assert (rules + [r])[1..] == rules[1..] + [r];
      DaemonPartAppend(rules[1..], r);
    }
  }

  lemma DaemonPartGrows(n: Nets, post: seq<Rule>, post': seq<Rule>, s: Sys)
    requires
      || post' == post
      || post' == [MASQ_JUMP] + post
      || (s.ticker.At? && s.ticker.i < 4 && exists r | IsKind(n, s.ticker.i, r) :: post' == post + [r])
    ensures DaemonPart(post) <= DaemonPart(post')
  {
    if post' == [MASQ_JUMP] + post {
      assert post'[1..] == post;
    } else if post' != post {
      var r :| IsKind(n, s.ticker.i, r) && post' == post + [r];
      DaemonPartAppend(post, r);
    }
  }
}
