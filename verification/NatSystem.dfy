/**
 The node's nat table under all its writers at once: any number of portmap ADDs and
 DELs, the daemon's ip-masq ticks and flushes by others, interleaved one iptables
 command at a time, with failing commands. Events that cannot happen in a state
 leave it as it is, so every event list is a run.
 */
module NatSystem {
  import opened Wrappers
  import opened Ipv4
  import opened NatTable
  import opened PortMap
  import opened IpMasq

  /** What a container's plugin process is doing; `absent` says its last check found nothing. */
  datatype Act = Idle | Adding(pc: nat, absent: bool) | Deleting(stage: nat)

  /**
   One container known to the node; `done` is how many steps of its ADD have ever been
   done. A DEL may have `cut` its jump and `flushed` its chain, and may be `over` although
   something is left of it, for a DEL takes no notice of failing commands.
   */
  datatype Proc = Proc(d: Deployment, done: nat, act: Act, cut: bool, flushed: bool, over: bool)

  datatype TickStage = Checking | Appending | CheckingStripped | AppendingStripped

  datatype Ticker = Resting | At(i: nat, stage: TickStage)

  datatype Sys = Sys(table: Table, procs: map<string, Proc>, ticker: Ticker)

  /** The daemon's networks, and the rules other programs keep in the hooked chains. */
  datatype World = World(nets: Nets, preOthers: seq<Rule>, outOthers: seq<Rule>) {
    predicate Valid() {
      forall r | r in preOthers + outOthers :: !r.target.Jump?
    }
  }

  datatype Event =
    | StartAdd(d: Deployment)
    | StartDel(id: string)
    | PluginStep(id: string, fault: bool)
    | StartTick
    | TickStep(fault: bool)
    | FlushPostrouting

  // ---------------------------------------------------------------- one event

  function Started(d: Deployment): Proc {
    Proc(d, 0, Adding(0, false), false, false, false)
  }

  function Advance(p: Proc, pc: nat): Proc {
    p.(done := if p.done <= pc then pc + 1 else p.done,
       act := if pc + 1 == |ApplySteps(p.d)| then Idle else Adding(pc + 1, false))
  }

  function Abort(p: Proc): Proc {
    p.(act := Idle)
  }

  /** The command that makes a step's change. */
  function Edit(s: Step): Command {
    match s
    case EnsureChain(c) => New(c)
    case EnsureRule(c, r) => Append(c, r)
    case InsertRule(c, r) => Insert(c, r)
  }

  /** One command of an ADD. */
  function AddCommand(t: Table, p: Proc, fault: bool): (Table, Proc)
    requires p.act.Adding? && p.act.pc < |ApplySteps(p.d)|
  {
    var pc, step := p.act.pc, ApplySteps(p.d)[p.act.pc];
    if fault then
      (t, Abort(p))
    else if step.EnsureChain? then
      (Attempt(t, Edit(step)), Advance(p, pc))
    else if !p.act.absent then
      (t, if Exec(t, Check(step.c, step.r)).Some? then Advance(p, pc) else p.(act := Adding(pc, true)))
    else
      match Exec(t, Edit(step))
      case Some(t') => (t', Advance(p, pc))
      case None => (t, Abort(p))
  }

  /** The three commands of a DEL. */
  function DelCommand(id: string, stage: nat): Command {
    if stage == 0 then Delete(HostportDnat, DnJump(id))
    else if stage == 1 then Flush(Dn(id))
    else DropChain(Dn(id))
  }

  function DelTable(t: Table, id: string, stage: nat, fault: bool): Table {
    Tried(t, DelCommand(id, stage), fault)
  }

  /** What a DEL's first or second command does to the container. */
  function DelProgress(p: Proc, stage: nat, fault: bool): Proc {
    if stage == 0 then p.(act := Deleting(1), cut := p.cut || !fault)
    else p.(act := Deleting(2), flushed := p.flushed || !fault)
  }

  /** After its last command a container is forgotten if its chain is gone; otherwise what is left of it stays. */
  function DelEnd(t: Table, procs: map<string, Proc>, id: string): map<string, Proc>
    requires id in procs
  {
    if Dn(id) in t then procs[id := procs[id].(act := Idle, over := true)] else procs - {id}
  }

  function PluginCommand(s: Sys, id: string, fault: bool): Sys
    requires id in s.procs
  {
    var p := s.procs[id];
    match p.act
    case Idle => s
    case Adding(pc, _) =>
      if pc >= |ApplySteps(p.d)| then s
      else
        var (t, p') := AddCommand(s.table, p, fault);
        s.(table := t, procs := s.procs[id := p'])
    case Deleting(stage) =>
      var t := DelTable(s.table, id, stage, fault);
      s.(table := t, procs := if stage < 2 then s.procs[id := DelProgress(p, stage, fault)] else DelEnd(t, s.procs, id))
  }

  function NextRule(i: nat): Ticker {
    if i >= 3 then Resting else At(i + 1, Checking)
  }

  /** One command of a tick. A failing append falls back to the stripped rule, if there is one. */
  function TickCommand(n: Nets, t: Table, i: nat, stage: TickStage, fault: bool): (Table, Ticker)
    requires i < 4
  {
    var rule := MasqRules(n)[i];
    match stage
    case Checking =>
      if fault then (t, Resting)
      else (t, if Exec(t, Check(Postrouting, rule)).Some? then NextRule(i) else At(i, Appending))
    case Appending =>
      var out := Exec(t, Append(Postrouting, rule));
      if !fault && out.Some? then (out.value, NextRule(i))
      else (t, if rule.target.Masquerade? then At(i, CheckingStripped) else Resting)
    case CheckingStripped =>
      if fault then (t, Resting)
      else (t, if Exec(t, Check(Postrouting, Stripped(rule))).Some? then NextRule(i) else At(i, AppendingStripped))
    case AppendingStripped =>
      var out := Exec(t, Append(Postrouting, Stripped(rule)));
      if !fault && out.Some? then (out.value, NextRule(i)) else (t, Resting)
  }

  function Next(w: World, s: Sys, e: Event): Sys {
    match e
    case StartAdd(d) =>
      if d.id !in s.procs then s.(procs := s.procs[d.id := Started(d)])
      else if s.procs[d.id].act.Idle? && !s.procs[d.id].over && s.procs[d.id].d == d then
        s.(procs := s.procs[d.id := s.procs[d.id].(act := Adding(0, false))])
      else s
    case StartDel(id) =>
      if id in s.procs && s.procs[id].act.Idle? then s.(procs := s.procs[id := s.procs[id].(act := Deleting(0))]) else s
    case PluginStep(id, fault) => if id in s.procs then PluginCommand(s, id, fault) else s
    case StartTick => if s.ticker.Resting? then s.(ticker := At(0, Checking)) else s
    case TickStep(fault) =>
      if s.ticker.Resting? || s.ticker.i >= 4 then s
      else
        var (t, ticker) := TickCommand(w.nets, s.table, s.ticker.i, s.ticker.stage, fault);
        s.(table := t, ticker := ticker)
    case FlushPostrouting => s.(table := Attempt(s.table, Flush(Postrouting)))
  }

  function Initial(w: World): Sys {
    Sys(map[Prerouting := w.preOthers, Output := w.outOthers, Postrouting := []], map[], Resting)
  }

  function After(w: World, events: seq<Event>): Sys {
    if events == [] then Initial(w)
    else Next(w, After(w, events[..|events| - 1]), events[|events| - 1])
  }

  lemma AfterOne(w: World, events: seq<Event>, e: Event)
    ensures After(w, events + [e]) == Next(w, After(w, events), e)
  {
    assert (events + [e])[..|events|] == events;
  }

  // ---------------------------------------------------------------- invariant

  /** rules is any number of copies of r, then tail. */
  ghost predicate LedBy(rules: seq<Rule>, r: Rule, tail: seq<Rule>) {
    && |tail| <= |rules| && rules[|rules| - |tail|..] == tail
    && forall i | 0 <= i < |rules| - |tail| :: rules[i] == r
  }

  ghost predicate HooksOk(w: World, t: Table) {
    && HasBuiltins(t)
    && LedBy(t[Prerouting], HOOK, w.preOthers)
    && LedBy(t[Output], HOOK, w.outOthers)
  }

  ghost predicate SharedOk(t: Table) {
    && (HostportSetmark in t ==> forall r | r in t[HostportSetmark] :: r == MARK_RULE)
    && (HostportMasq in t ==> forall r | r in t[HostportMasq] :: r == MASQ_RULE)
  }

  /** Masquerade jumps first, then rules of the daemon; a jump is never to an empty chain. */
  ghost predicate PostOk(n: Nets, t: Table) {
    && Postrouting in t
    && (exists k | 0 <= k <= |t[Postrouting]| :: JumpsThenDaemon(n, t[Postrouting], k))
    && (MASQ_JUMP in t[Postrouting] ==> HostportMasq in t && t[HostportMasq] != [])
  }

  ghost predicate JumpsThenDaemon(n: Nets, rules: seq<Rule>, k: nat)
    requires k <= |rules|
  {
    && (forall r | r in rules[..k] :: r == MASQ_JUMP)
    && (forall r | r in rules[k..] :: IsMasqRule(n, r))
  }

  ghost predicate ProcOk(id: string, p: Proc) {
    && p.d.id == id && p.done <= |ApplySteps(p.d)|
    && (p.act.Adding? ==> p.act.pc <= p.done && p.act.pc < |ApplySteps(p.d)|)
    && (p.act.Deleting? ==> p.act.stage <= 2)
    && (p.act.Adding? ==> !p.over) && (!p.act.Deleting? && !p.over ==> !p.cut && !p.flushed)
  }

  /** What a check found missing from the container's own chains, or from the top chain, still is. */
  ghost predicate CheckFresh(t: Table, p: Proc) {
    p.act.Adding? && p.act.absent && 9 <= p.act.pc < |ApplySteps(p.d)| ==> !Satisfied(t, ApplySteps(p.d)[p.act.pc])
  }

  /** Every shared step a process has been through, but for the flushable masquerade jump, is still in effect. */
  ghost predicate ProgressOk(t: Table, p: Proc) {
    forall j | 0 <= j < 7 && j < p.done :: Satisfied(t, SHARED_STEPS[j])
  }

  ghost predicate ChainUp(p: Proc) {
    p.done >= 9
  }

  ghost predicate JumpUp(p: Proc) {
    p.done >= 10 && !p.cut
  }

  function RulesUp(p: Proc): nat {
    if p.flushed || p.done <= 10 then 0 else p.done - 10
  }

  function Content(p: Proc): seq<Rule>
    requires p.done <= |ApplySteps(p.d)|
  {
    Dedup(p.d.Rules()[..RulesUp(p)])
  }

  /** One container's chain holds exactly the rules its process got to, and its jump is there if it should be. */
  ghost predicate ContainerOk(t: Table, id: string, p: Proc) {
    && ProcOk(id, p) && CheckFresh(t, p) && ProgressOk(t, p)
    && (ChainUp(p) ==> Dn(id) in t && t[Dn(id)] == Content(p))
    && (JumpUp(p) ==> HostportDnat in t && DnJump(id) in t[HostportDnat])
  }

  ghost predicate ContainersOk(t: Table, procs: map<string, Proc>) {
    forall id | id in procs :: ContainerOk(t, id, procs[id])
  }

  ghost predicate NoStrayChains(t: Table, procs: map<string, Proc>) {
    forall id | Dn(id) in t :: id in procs && ChainUp(procs[id])
  }

  ghost predicate IsJumpOf(r: Rule, procs: map<string, Proc>) {
    && r.target.Jump? && r.target.chain.Dn? && r == DnJump(r.target.chain.id)
    && r.target.chain.id in procs && JumpUp(procs[r.target.chain.id])
  }

  ghost predicate Distinct(rules: seq<Rule>) {
    forall i, j | 0 <= i < j < |rules| :: rules[i] != rules[j]
  }

  /** The top chain jumps once to each container that is wired up, and to nothing else. */
  ghost predicate TopOk(t: Table, procs: map<string, Proc>) {
    HostportDnat in t ==> Distinct(t[HostportDnat]) && forall r | r in t[HostportDnat] :: IsJumpOf(r, procs)
  }

  ghost predicate TableOk(w: World, t: Table) {
    w.Valid() && Ranked(t) && HooksOk(w, t) && SharedOk(t) && PostOk(w.nets, t)
  }

  ghost predicate Inv(w: World, s: Sys) {
    && TableOk(w, s.table)
    && ContainersOk(s.table, s.procs) && NoStrayChains(s.table, s.procs) && TopOk(s.table, s.procs)
  }

  lemma InitialInv(w: World)
    requires w.Valid()
    ensures Inv(w, Initial(w))
  {
    var t := Initial(w).table;
    assert JumpsThenDaemon(w.nets, t[Postrouting], 0);
    assert Ranked(t) by {
      forall c | c in t
        ensures JumpsBelow(t, t[c], Rank(c))
      {
        assert forall r | r in t[c] :: r in w.preOthers + w.outOthers;
      }
    }
  }

  // ------------------------------------------------- the shared steps of an ADD

  /** Commands that only add to the shared part of the table keep everything said about containers. */
  lemma SharedEditKeeps(w: World, s: Sys, j: nat, t': Table)
    requires Inv(w, s) && j < 8
    requires Exec(s.table, Edit(SHARED_STEPS[j])) == Some(t')
    requires j == 7 ==> HostportMasq in s.table && s.table[HostportMasq] != []
    ensures Inv(w, s.(table := t')) && Satisfied(t', SHARED_STEPS[j])
  {
    var t, step := s.table, SHARED_STEPS[j];
    ExecKeepsRanked(t, Edit(step));
    forall id | id in s.procs
      ensures ContainerOk(t', id, s.procs[id])
    {
      SharedEditFrame(t, j, t', id, s.procs[id]);
    }
    TopAfterSharedEdit(t, j, t', s.procs);
    PostAfterSharedEdit(w.nets, t, j, t');
    HooksAfterSharedEdit(w, t, j, t');
  }

  lemma AddingKeepsSatisfied(t: Table, step: Step, t': Table, other: Step)
    requires Exec(t, Edit(step)) == Some(t') && Satisfied(t, other)
    ensures Satisfied(t', other)
  {
  }

  lemma SharedEditFrame(t: Table, j: nat, t': Table, id: string, p: Proc)
    requires j < 8 && Exec(t, Edit(SHARED_STEPS[j])) == Some(t') && ContainerOk(t, id, p)
    ensures ContainerOk(t', id, p)
  {
    forall i | 0 <= i < 7 && i < p.done
      ensures Satisfied(t', SHARED_STEPS[i])
    {
      AddingKeepsSatisfied(t, SHARED_STEPS[j], t', SHARED_STEPS[i]);
    }
  }

  lemma TopAfterSharedEdit(t: Table, j: nat, t': Table, procs: map<string, Proc>)
    requires j < 8 && Exec(t, Edit(SHARED_STEPS[j])) == Some(t')
    requires TopOk(t, procs) && NoStrayChains(t, procs)
    ensures TopOk(t', procs) && NoStrayChains(t', procs)
  {
    if j == 0 {
      assert t' == t[HostportDnat := []];
    } else {
      assert HostportDnat in t' <==> HostportDnat in t;
      assert HostportDnat in t ==> t'[HostportDnat] == t[HostportDnat];
    }
  }

  lemma PostAfterSharedEdit(n: Nets, t: Table, j: nat, t': Table)
    requires PostOk(n, t) && j < 8 && Exec(t, Edit(SHARED_STEPS[j])) == Some(t')
    requires j == 7 ==> HostportMasq in t && t[HostportMasq] != []
    ensures PostOk(n, t')
  {
    var k :| 0 <= k <= |t[Postrouting]| && JumpsThenDaemon(n, t[Postrouting], k);
    if j == 7 {
      var rules := t'[Postrouting];
      assert rules == [MASQ_JUMP] + t[Postrouting];
      assert rules[..k + 1] == [MASQ_JUMP] + t[Postrouting][..k] && rules[k + 1..] == t[Postrouting][k..];
      assert JumpsThenDaemon(n, rules, k + 1);
    } else {
      assert t'[Postrouting] == t[Postrouting];
      assert JumpsThenDaemon(n, t'[Postrouting], k);
    }
  }

  lemma HooksAfterSharedEdit(w: World, t: Table, j: nat, t': Table)
    requires HooksOk(w, t) && SharedOk(t) && j < 8 && Exec(t, Edit(SHARED_STEPS[j])) == Some(t')
    ensures HooksOk(w, t') && SharedOk(t')
  {
    if j == 1 {
      LedByOneMore(t[Prerouting], HOOK, w.preOthers);
    } else if j == 2 {
      LedByOneMore(t[Output], HOOK, w.outOthers);
    }
  }

  lemma LedByOneMore(rules: seq<Rule>, r: Rule, tail: seq<Rule>)
    requires LedBy(rules, r, tail)
    ensures LedBy([r] + rules, r, tail)
  {
    var longer := [r] + rules;
    assert longer[|longer| - |tail|..] == rules[|rules| - |tail|..];
  }

  // ------------------------------------------------ the private steps of an ADD

  /** A process may change its bookkeeping as long as what it stands for in the table stays the same. */
  lemma ProcMoves(w: World, s: Sys, id: string, p': Proc)
    requires Inv(w, s) && id in s.procs && ContainerOk(s.table, id, p')
    requires ChainUp(p') == ChainUp(s.procs[id]) && JumpUp(p') == JumpUp(s.procs[id])
    ensures Inv(w, s.(procs := s.procs[id := p']))
  {
    hide TableOk, ContainerOk;
    var procs' := s.procs[id := p'];
    forall other | other in procs'
      ensures ContainerOk(s.table, other, procs'[other])
    {
      assert other != id ==> ContainerOk(s.table, other, s.procs[other]);
    }
    assert forall r | IsJumpOf(r, s.procs) :: IsJumpOf(r, procs');
  }

  ghost predicate AtStep(s: Sys, id: string, pc: nat) {
    id in s.procs && s.procs[id].act.Adding? && s.procs[id].act.pc == pc && ContainerOk(s.table, id, s.procs[id])
  }

  /** The state after an ADD's next step, whatever made its change. */
  function Stepped(s: Sys, id: string, pc: nat, t': Table): Sys
    requires id in s.procs
  {
    s.(table := t', procs := s.procs[id := Advance(s.procs[id], pc)])
  }

  lemma SharedAdvance(w: World, s: Sys, id: string, pc: nat)
    requires Inv(w, s) && AtStep(s, id, pc) && pc < 8 && Satisfied(s.table, SHARED_STEPS[pc])
    ensures Inv(w, Stepped(s, id, pc, s.table))
  {
    SharedAdvanceContainer(s.table, id, s.procs[id], pc);
    hide TableOk, ContainerOk, ContainersOk, NoStrayChains, TopOk;
    ProcMoves(w, s, id, Advance(s.procs[id], pc));
  }

  lemma SharedAdvanceContainer(t: Table, id: string, p: Proc, pc: nat)
    requires ContainerOk(t, id, p) && p.act.Adding? && p.act.pc == pc < 8 && Satisfied(t, SHARED_STEPS[pc])
    ensures ContainerOk(t, id, Advance(p, pc))
    ensures ChainUp(Advance(p, pc)) == ChainUp(p) && JumpUp(Advance(p, pc)) == JumpUp(p)
  {
  }

  /** Private steps done before are still in effect. */
  lemma PrivateStepsHold(s: Sys, id: string, pc: nat)
    requires AtStep(s, id, pc) && 8 <= pc < s.procs[id].done
    ensures Satisfied(s.table, ApplySteps(s.procs[id].d)[pc])
  {
    var p := s.procs[id];
    if pc >= 10 {
      assert p.d.Rules()[pc - 10] == p.d.Rules()[..RulesUp(p)][pc - 10];
    }
  }

  lemma PrivateAgain(w: World, s: Sys, id: string, pc: nat)
    requires Inv(w, s) && AtStep(s, id, pc) && 8 <= pc < s.procs[id].done
    ensures Inv(w, Stepped(s, id, pc, s.table))
  {
    AgainContainer(s.table, id, s.procs[id], pc);
    hide TableOk, ContainerOk, ContainersOk, TopOk, NoStrayChains;
    ProcMoves(w, s, id, Advance(s.procs[id], pc));
  }

  lemma AgainContainer(t: Table, id: string, p: Proc, pc: nat)
    requires ContainerOk(t, id, p) && p.act.Adding? && p.act.pc == pc && 8 <= pc < p.done
    ensures ContainerOk(t, id, Advance(p, pc))
    ensures ChainUp(Advance(p, pc)) == ChainUp(p) && JumpUp(Advance(p, pc)) == JumpUp(p)
  {
  }

  /** Changing one container's chain, or its jump, does not bear on another. */
  lemma ElsewhereFrame(t: Table, t': Table, other: string, p: Proc, id: string)
    requires other != id && ContainerOk(t, other, p)
    requires forall c | c != Dn(id) && c != HostportDnat :: (c in t' <==> c in t) && (c in t ==> t'[c] == t[c])
    requires HostportDnat in t <==> HostportDnat in t'
    requires HostportDnat in t ==> forall r | r != DnJump(id) :: r in t'[HostportDnat] <==> r in t[HostportDnat]
    ensures ContainerOk(t', other, p)
  {
    forall j | 0 <= j < 7 && j < p.done
      ensures Satisfied(t', SHARED_STEPS[j])
    {
      assert Satisfied(t, SHARED_STEPS[j]);
    }
  }

  /** A change to one container's chain or jump keeps the shared part of the table as it should be. */
  lemma PrivateTableFrame(w: World, t: Table, t': Table, id: string)
    requires TableOk(w, t) && Ranked(t')
    requires forall c | c != Dn(id) && c != HostportDnat :: (c in t' <==> c in t) && (c in t ==> t'[c] == t[c])
    ensures TableOk(w, t')
  {
    var k :| 0 <= k <= |t[Postrouting]| && JumpsThenDaemon(w.nets, t[Postrouting], k);
    assert JumpsThenDaemon(w.nets, t'[Postrouting], k);
  }

  lemma PrivateChange(w: World, s: Sys, t': Table, id: string, p': Proc)
    requires Inv(w, s) && Ranked(t')
    requires forall c | c != Dn(id) && c != HostportDnat ::
               (c in t' <==> c in s.table) && (c in s.table ==> t'[c] == s.table[c])
    requires HostportDnat in s.table <==> HostportDnat in t'
    requires HostportDnat in s.table ==> forall r | r != DnJump(id) ::
             r in t'[HostportDnat] <==> r in s.table[HostportDnat]
    requires HostportDnat in s.table ==> Distinct(t'[HostportDnat]) && (DnJump(id) in t'[HostportDnat] ==> JumpUp(p'))
    requires ContainerOk(t', id, p') && (Dn(id) in t' ==> ChainUp(p'))
    ensures Inv(w, Sys(t', s.procs[id := p'], s.ticker))
  {
    hide TableOk, ContainersOk, NoStrayChains, TopOk, ContainerOk, Ranked, Distinct, JumpUp, ChainUp;
    PrivateTableFrame(w, s.table, t', id);
    PrivateContainers(s.table, t', s.procs, id, p');
    PrivateTop(s.table, t', s.procs, id, p');
    PrivateChains(s.table, t', s.procs, id, p');
  }

  lemma PrivateContainers(t: Table, t': Table, procs: map<string, Proc>, id: string, p': Proc)
    requires ContainersOk(t, procs) && ContainerOk(t', id, p')
    requires forall c | c != Dn(id) && c != HostportDnat :: (c in t' <==> c in t) && (c in t ==> t'[c] == t[c])
    requires HostportDnat in t <==> HostportDnat in t'
    requires HostportDnat in t ==> forall r | r != DnJump(id) :: r in t'[HostportDnat] <==> r in t[HostportDnat]
    ensures ContainersOk(t', procs[id := p'])
  {
    hide ContainerOk;
    forall other | other in procs && other != id
      ensures ContainerOk(t', other, procs[other])
    {
      ElsewhereFrame(t, t', other, procs[other], id);
    }
  }

  lemma PrivateTop(t: Table, t': Table, procs: map<string, Proc>, id: string, p': Proc)
    requires TopOk(t, procs) && (HostportDnat in t <==> HostportDnat in t')
    requires HostportDnat in t ==> forall r | r != DnJump(id) :: r in t'[HostportDnat] <==> r in t[HostportDnat]
    requires HostportDnat in t ==> Distinct(t'[HostportDnat]) && (DnJump(id) in t'[HostportDnat] ==> JumpUp(p'))
    ensures TopOk(t', procs[id := p'])
  {
    hide Distinct, JumpUp;
    assert forall r | IsJumpOf(r, procs) && r != DnJump(id) :: IsJumpOf(r, procs[id := p']);
  }

  lemma PrivateChains(t: Table, t': Table, procs: map<string, Proc>, id: string, p': Proc)
    requires NoStrayChains(t, procs) && (Dn(id) in t' ==> ChainUp(p'))
    requires forall c | c != Dn(id) && c != HostportDnat :: c in t' <==> c in t
    ensures NoStrayChains(t', procs[id := p'])
  {
    hide ChainUp;
  }

  lemma SharedProgress(t: Table, t': Table, p: Proc)
    requires ProgressOk(t, p)
    requires forall c | c in t && !c.Dn? && c != HostportDnat :: c in t' && t'[c] == t[c]
    requires HostportDnat in t ==> HostportDnat in t'
    ensures forall j | 0 <= j < 7 && j < p.done :: Satisfied(t', SHARED_STEPS[j])
  {
    forall j | 0 <= j < 7 && j < p.done
      ensures Satisfied(t', SHARED_STEPS[j])
    {
      assert Satisfied(t, SHARED_STEPS[j]);
    }
  }

  /** A container after a private step done for the first time. */
  lemma NextContainerOk(t: Table, t': Table, id: string, p: Proc, pc: nat)
    requires ContainerOk(t, id, p) && p.act.Adding? && p.act.pc == pc == p.done && 8 <= pc
    requires forall c | c in t && !c.Dn? && c != HostportDnat :: c in t' && t'[c] == t[c]
    requires HostportDnat in t ==> HostportDnat in t'
    requires Dn(id) in t' && t'[Dn(id)] == Dedup(p.d.Rules()[..if pc < 10 then 0 else pc - 9])
    requires pc >= 9 ==> HostportDnat in t' && DnJump(id) in t'[HostportDnat]
    ensures ContainerOk(t', id, Advance(p, pc))
  {
    SharedProgress(t, t', p);
  }

  lemma NewChainOk(t: Table, id: string, p: Proc)
    requires Ranked(t) && ContainerOk(t, id, p) && p.act.Adding? && p.act.pc == 8 == p.done && Dn(id) !in t
    ensures var t', p' := t[Dn(id) := []], Advance(p, 8);
            Ranked(t') && ContainerOk(t', id, p') && ChainUp(p') && !JumpUp(p')
  {
    ExecKeepsRanked(t, New(Dn(id)));
    hide Ranked;
    NextContainerOk(t, t[Dn(id) := []], id, p, 8);
  }

  lemma ChainCreated(w: World, s: Sys, id: string, pc: nat)
    requires Inv(w, s) && AtStep(s, id, pc) && pc == 8 == s.procs[id].done
    ensures Dn(id) !in s.table
    ensures Inv(w, Stepped(s, id, pc, s.table[Dn(id) := []]))
  {
    hide TableOk, ContainerOk, Ranked, ContainersOk;
    var t', p := s.table[Dn(id) := []], s.procs[id];
    TableIsRanked(w, s.table);
    NewChainOk(s.table, id, p);
    hide NoStrayChains;
    assert HostportDnat in s.table ==> Distinct(s.table[HostportDnat]) && DnJump(id) !in s.table[HostportDnat] by {
      if HostportDnat in s.table {
        JumpAbsent(s, id);
      }
    }
    PrivateChange(w, s, t', id, Advance(p, pc));
  }

  /** A container that never got to its jump has none in the top chain. */
  lemma JumpAbsent(s: Sys, id: string)
    requires TopOk(s.table, s.procs) && id in s.procs && !JumpUp(s.procs[id]) && HostportDnat in s.table
    ensures DnJump(id) !in s.table[HostportDnat]
    ensures Distinct(s.table[HostportDnat] + [DnJump(id)])
  {
    assert !IsJumpOf(DnJump(id), s.procs);
  }

  lemma NewJumpOk(t: Table, id: string, p: Proc)
    requires Ranked(t) && ContainerOk(t, id, p) && p.act.Adding? && p.act.pc == 9 == p.done && HostportDnat in t
    ensures var t' := t[HostportDnat := t[HostportDnat] + [DnJump(id)]];
            Ranked(t') && ContainerOk(t', id, Advance(p, 9)) && ChainUp(Advance(p, 9)) && JumpUp(Advance(p, 9))
  {
    var t' := t[HostportDnat := t[HostportDnat] + [DnJump(id)]];
    assert t'[Dn(id)] == Dedup(p.d.Rules()[..0]);
    ExecKeepsRanked(t, Append(HostportDnat, DnJump(id)));
    hide Ranked, Dedup;
    NextContainerOk(t, t', id, p, 9);
  }

  lemma JumpAppended(w: World, s: Sys, id: string, pc: nat)
    requires Inv(w, s) && AtStep(s, id, pc) && pc == 9 == s.procs[id].done && HostportDnat in s.table
    ensures DnJump(id) !in s.table[HostportDnat]
    ensures Inv(w, Stepped(s, id, pc, s.table[HostportDnat := s.table[HostportDnat] + [DnJump(id)]]))
  {
    hide TableOk, ContainerOk, Ranked, NoStrayChains, ContainersOk, Distinct;
    TableIsRanked(w, s.table);
    JumpAbsent(s, id);
    NewJumpOk(s.table, id, s.procs[id]);
    hide TopOk;
    PrivateChange(w, s, s.table[HostportDnat := s.table[HostportDnat] + [DnJump(id)]], id, Advance(s.procs[id], pc));
  }

  lemma RanksAfterRule(t: Table, d: Deployment, i: nat)
    requires Ranked(t) && i < |d.Rules()| && CanStep(t, EnsureRule(Dn(d.id), d.Rules()[i]))
    ensures Ranked(DoStep(t, EnsureRule(Dn(d.id), d.Rules()[i])))
  {
    var r := d.Rules()[i];
    NoRuleLoopsBack(d);
    if !Satisfied(t, EnsureRule(Dn(d.id), r)) {
      ExecKeepsRanked(t, Append(Dn(d.id), r));
    }
  }

  lemma TableIsRanked(w: World, t: Table)
    requires TableOk(w, t)
    ensures Ranked(t)
  {
  }

  lemma NewRuleOk(t: Table, t': Table, id: string, p: Proc, i: nat)
    requires ContainerOk(t, id, p) && p.act.Adding? && p.act.pc == i + 10 == p.done && i < |p.d.Rules()|
    requires t' == t[Dn(id) := Dedup(p.d.Rules()[..i + 1])]
    ensures ContainerOk(t', id, Advance(p, i + 10)) && ChainUp(Advance(p, i + 10)) && JumpUp(Advance(p, i + 10))
    ensures HostportDnat in t && DnJump(id) in t[HostportDnat]
  {
    JumpStands(t, id, p);
    hide Dedup, Deployment.Rules;
    NextContainerOk(t, t', id, p, i + 10);
  }

  lemma RuleInstalled(w: World, s: Sys, id: string, i: nat, t': Table)
    requires Inv(w, s) && AtStep(s, id, i + 10) && s.procs[id].done == i + 10 && i < |s.procs[id].d.Rules()|
    requires Ranked(t') && t' == s.table[Dn(id) := Dedup(s.procs[id].d.Rules()[..i + 1])]
    ensures Inv(w, Stepped(s, id, i + 10, t'))
  {
    hide TableOk, ContainerOk, Ranked, NoStrayChains, ContainersOk, Dedup, Deployment.Rules, JumpUp;
    NewRuleOk(s.table, t', id, s.procs[id], i);
    PrivateChange(w, s, t', id, Advance(s.procs[id], i + 10));
  }

  lemma JumpStands(t: Table, id: string, p: Proc)
    requires ContainerOk(t, id, p) && p.act.Adding? && p.done >= 10
    ensures HostportDnat in t && DnJump(id) in t[HostportDnat] && Dn(id) in t && p.d.id == id
    ensures JumpUp(Advance(p, p.done)) && ChainUp(Advance(p, p.done))
  {
  }

  /** Any command an ADD issues keeps the invariant. */
  lemma AddKeepsInv(w: World, s: Sys, id: string, fault: bool)
    requires Inv(w, s) && id in s.procs && s.procs[id].act.Adding?
    ensures s.procs[id].act.pc < |ApplySteps(s.procs[id].d)| && Inv(w, PluginCommand(s, id, fault))
  {
    hide *;
    InvContainer(w, s, id);
    var p := s.procs[id];
    var pc := p.act.pc;
    AddingMeans(s, id);
    var (t', p') := AddCommand(s.table, p, fault);
    AddingCommand(s, id, fault);
    if p' == Advance(p, pc) {
      if pc < 8 {
        SharedCommand(w, s, id, pc, fault);
      } else if pc < p.done {
        PrivateCommandAgain(w, s, id, pc, fault);
      } else {
        PrivateCommandFirst(w, s, id, pc, fault);
      }
    } else {
      BookkeepingOnly(s.table, id, p, fault);
      ProcMoves(w, s, id, p');
    }
  }

  /** When its turn comes the table refuses no step of an ADD, whatever has happened before. */
  lemma NothingRefused(w: World, s: Sys, id: string)
    requires Inv(w, s) && id in s.procs && s.procs[id].act.Adding?
    ensures var p := s.procs[id]; p.act.pc < |ApplySteps(p.d)| && CanStep(s.table, ApplySteps(p.d)[p.act.pc])
  {
    var p := s.procs[id];
    var t, pc := s.table, p.act.pc;
    assert ContainerOk(t, id, p) && HasBuiltins(t);
    hide Inv, CheckFresh, Content;
    if pc < 8 {
      assert ApplySteps(p.d)[pc] == SHARED_STEPS[pc];
      forall j | 0 <= j < pc
        ensures Satisfied(t, SHARED_STEPS[j])
      {
      }
      SharedCanStep(t, pc);
    } else {
      SharedChainsUp(t, p);
      if pc > 9 {
        assert ApplySteps(p.d)[pc] == EnsureRule(Dn(id), p.d.Rules()[pc - 10]);
        RuleTargets(p.d, pc - 10);
      }
    }
  }

  lemma SharedCanStep(t: Table, pc: nat)
    requires HasBuiltins(t) && pc < 8 && forall j | 0 <= j < pc :: Satisfied(t, SHARED_STEPS[j])
    ensures CanStep(t, SHARED_STEPS[pc])
  {
    assert pc > 0 ==> Satisfied(t, SHARED_STEPS[0]);
    assert pc > 3 ==> Satisfied(t, SHARED_STEPS[3]);
    assert pc > 5 ==> Satisfied(t, SHARED_STEPS[5]);
  }

  lemma SharedChainsUp(t: Table, p: Proc)
    requires ProgressOk(t, p) && p.done >= 7
    ensures HostportDnat in t && HostportSetmark in t
  {
    assert Satisfied(t, SHARED_STEPS[0]) && Satisfied(t, SHARED_STEPS[3]);
  }

  lemma RuleTargets(d: Deployment, i: nat)
    requires i < |d.Rules()|
    ensures d.Rules()[i].target.Jump? ==> d.Rules()[i].target.chain == HostportSetmark
  {
    var k, j := i / 3, i % 3;
    ProgramAt(d.podIp, d.mappings, k);
    hide Program;
    assert d.Rules()[i] == d.Rules()[3 * k..3 * k + 3][j];
  }

  lemma InvContainer(w: World, s: Sys, id: string)
    requires Inv(w, s) && id in s.procs
    ensures ContainerOk(s.table, id, s.procs[id])
  {
  }

  lemma AddingMeans(s: Sys, id: string)
    requires id in s.procs && s.procs[id].act.Adding? && ContainerOk(s.table, id, s.procs[id])
    ensures s.procs[id].act.pc < |ApplySteps(s.procs[id].d)| && s.procs[id].act.pc <= s.procs[id].done
    ensures AtStep(s, id, s.procs[id].act.pc)
  {
  }

  lemma AddingCommand(s: Sys, id: string, fault: bool)
    requires id in s.procs && s.procs[id].act.Adding? && s.procs[id].act.pc < |ApplySteps(s.procs[id].d)|
    ensures var (t', p') := AddCommand(s.table, s.procs[id], fault);
            && PluginCommand(s, id, fault) == s.(table := t', procs := s.procs[id := p'])
            && (p' == Advance(s.procs[id], s.procs[id].act.pc) ==>
                  PluginCommand(s, id, fault) == Stepped(s, id, s.procs[id].act.pc, t'))
  {
    hide AddCommand;
  }

  /** A check that finds nothing, or a failing command, leaves the table alone. */
  lemma BookkeepingOnly(t: Table, id: string, p: Proc, fault: bool)
    requires ContainerOk(t, id, p) && p.act.Adding?
    ensures var (t', p') := AddCommand(t, p, fault);
            p' != Advance(p, p.act.pc) ==>
              t' == t && ContainerOk(t, id, p') && ChainUp(p') == ChainUp(p) && JumpUp(p') == JumpUp(p)
  {
  }

  /** A shared step that is over was in effect already, or its command was carried out. */
  lemma SharedCommandDoes(t: Table, id: string, p: Proc, fault: bool)
    requires ContainerOk(t, id, p) && p.act.Adding? && p.act.pc < 8
    requires AddCommand(t, p, fault).1 == Advance(p, p.act.pc)
    ensures var t', step := AddCommand(t, p, fault).0, SHARED_STEPS[p.act.pc];
            if t' == t then Satisfied(t, step) else Exec(t, Edit(step)) == Some(t')
    ensures p.act.pc == 7 ==> Satisfied(t, SHARED_STEPS[6])
  {
    SharedStepAt(p.d);
    assert ApplySteps(p.d)[p.act.pc] == SHARED_STEPS[p.act.pc];
    hide ApplySteps;
  }

  lemma SharedCommand(w: World, s: Sys, id: string, pc: nat, fault: bool)
    requires Inv(w, s) && AtStep(s, id, pc) && pc < 8
    requires AddCommand(s.table, s.procs[id], fault).1 == Advance(s.procs[id], pc)
    ensures Inv(w, Stepped(s, id, pc, AddCommand(s.table, s.procs[id], fault).0))
  {
    hide TableOk, ContainersOk, NoStrayChains, TopOk, AddCommand;
    var t' := AddCommand(s.table, s.procs[id], fault).0;
    SharedCommandDoes(s.table, id, s.procs[id], fault);
    hide ContainerOk;
    if t' != s.table {
      SharedEditKeeps(w, s, pc, t');
      SharedContainerStays(s, id, pc, t');
    }
    SharedAdvance(w, s.(table := t'), id, pc);
  }

  lemma SharedContainerStays(s: Sys, id: string, pc: nat, t': Table)
    requires AtStep(s, id, pc) && pc < 8 && Exec(s.table, Edit(SHARED_STEPS[pc])) == Some(t')
    ensures ContainerOk(t', id, s.procs[id])
  {
    SharedEditFrame(s.table, pc, t', id, s.procs[id]);
  }

  lemma PrivateCommandAgain(w: World, s: Sys, id: string, pc: nat, fault: bool)
    requires Inv(w, s) && AtStep(s, id, pc) && 8 <= pc < s.procs[id].done
    requires AddCommand(s.table, s.procs[id], fault).1 == Advance(s.procs[id], pc)
    ensures Inv(w, Stepped(s, id, pc, AddCommand(s.table, s.procs[id], fault).0))
  {
    hide TableOk, ContainerOk, ContainersOk, NoStrayChains, TopOk, AddCommand;
    PrivateStepsHold(s, id, pc);
    PrivateAgain(w, s, id, pc);
    NothingToEdit(s.table, id, s.procs[id], fault);
  }

  /** A private step that is in effect is found so, and its command edits nothing. */
  lemma NothingToEdit(t: Table, id: string, p: Proc, fault: bool)
    requires ContainerOk(t, id, p) && p.act.Adding? && p.act.pc >= 8 && Satisfied(t, ApplySteps(p.d)[p.act.pc])
    requires AddCommand(t, p, fault).1 == Advance(p, p.act.pc)
    ensures AddCommand(t, p, fault).0 == t
  {
  }

  lemma PrivateCommandFirst(w: World, s: Sys, id: string, pc: nat, fault: bool)
    requires Inv(w, s) && AtStep(s, id, pc) && 8 <= pc == s.procs[id].done
    requires AddCommand(s.table, s.procs[id], fault).1 == Advance(s.procs[id], pc)
    ensures Inv(w, Stepped(s, id, pc, AddCommand(s.table, s.procs[id], fault).0))
  {
    hide TableOk, ContainerOk, ContainersOk, NoStrayChains, TopOk, AddCommand;
    if pc == 8 {
      ChainCreated(w, s, id, pc);
      NewChainCommand(s.table, id, s.procs[id], fault);
    } else if pc == 9 {
      FirstJumpCommand(w, s, id, pc, fault);
    } else {
      FirstRuleCommandOk(w, s, id, pc, fault);
    }
  }

  lemma FirstJumpCommand(w: World, s: Sys, id: string, pc: nat, fault: bool)
    requires Inv(w, s) && AtStep(s, id, pc) && 9 == pc == s.procs[id].done
    requires AddCommand(s.table, s.procs[id], fault).1 == Advance(s.procs[id], pc)
    ensures Inv(w, Stepped(s, id, pc, AddCommand(s.table, s.procs[id], fault).0))
  {
    hide TableOk, ContainerOk, ContainersOk, NoStrayChains, AddCommand;
    TopChainStands(s.table, id, s.procs[id]);
    JumpAbsent(s, id);
    JumpCommand(s.table, id, s.procs[id], fault);
    JumpAppended(w, s, id, pc);
  }

  lemma FirstRuleCommandOk(w: World, s: Sys, id: string, pc: nat, fault: bool)
    requires Inv(w, s) && AtStep(s, id, pc) && 10 <= pc == s.procs[id].done
    requires AddCommand(s.table, s.procs[id], fault).1 == Advance(s.procs[id], pc)
    ensures Inv(w, Stepped(s, id, pc, AddCommand(s.table, s.procs[id], fault).0))
  {
    hide *;
    InvIsRanked(w, s);
    AtStepMeans(s, id, pc);
    RuleCommandRanked(s.table, id, s.procs[id], fault);
    RuleInstalled(w, s, id, pc - 10, AddCommand(s.table, s.procs[id], fault).0);
  }

  lemma InvIsRanked(w: World, s: Sys)
    requires Inv(w, s)
    ensures Ranked(s.table)
  {
  }

  lemma AtStepMeans(s: Sys, id: string, pc: nat)
    requires AtStep(s, id, pc)
    ensures id in s.procs && ContainerOk(s.table, id, s.procs[id])
    ensures s.procs[id].act.Adding? && s.procs[id].act.pc == pc < |ApplySteps(s.procs[id].d)|
  {
  }

  /** The rule of a container's own chain, appended: jumps still go downwards. */
  lemma RuleCommandRanked(t: Table, id: string, p: Proc, fault: bool)
    requires Ranked(t) && ContainerOk(t, id, p) && p.act.Adding? && 10 <= p.act.pc == p.done
    requires p.act.pc < |ApplySteps(p.d)| && AddCommand(t, p, fault).1 == Advance(p, p.act.pc)
    ensures p.act.pc - 10 < |p.d.Rules()| && Ranked(AddCommand(t, p, fault).0)
    ensures AddCommand(t, p, fault).0 == t[Dn(id) := Dedup(p.d.Rules()[..p.act.pc - 9])]
  {
    FirstRuleCommand(t, id, p, fault);
    assert p.act.pc - 10 < |p.d.Rules()|;
    hide Ranked, ContainerOk, AddCommand, DoStep, CanStep, Dedup, Deployment.Rules;
    RanksAfterRule(t, p.d, p.act.pc - 10);
  }

  lemma NewChainCommand(t: Table, id: string, p: Proc, fault: bool)
    requires ContainerOk(t, id, p) && p.act.Adding? && 8 == p.act.pc == p.done
    requires AddCommand(t, p, fault).1 == Advance(p, p.act.pc)
    ensures Dn(id) !in t ==> AddCommand(t, p, fault).0 == t[Dn(id) := []]
  {
  }

  lemma JumpCommand(t: Table, id: string, p: Proc, fault: bool)
    requires ContainerOk(t, id, p) && p.act.Adding? && 9 == p.act.pc == p.done
    requires HostportDnat in t && DnJump(id) !in t[HostportDnat]
    requires AddCommand(t, p, fault).1 == Advance(p, p.act.pc)
    ensures AddCommand(t, p, fault).0 == t[HostportDnat := t[HostportDnat] + [DnJump(id)]]
  {
  }

  lemma TopChainStands(t: Table, id: string, p: Proc)
    requires ContainerOk(t, id, p) && p.done > 0
    ensures HostportDnat in t
  {
    assert Satisfied(t, SHARED_STEPS[0]);
  }

  lemma FirstRuleCommand(t: Table, id: string, p: Proc, fault: bool)
    requires ContainerOk(t, id, p) && p.act.Adding? && 10 <= p.act.pc == p.done
    requires AddCommand(t, p, fault).1 == Advance(p, p.act.pc)
    ensures var i := p.act.pc - 10;
            var step, t' := EnsureRule(Dn(id), p.d.Rules()[i]), AddCommand(t, p, fault).0;
            && p.d.id == id && CanStep(t, step) && t' == DoStep(t, step)
                && t' == t[Dn(id) := Dedup(p.d.Rules()[..i + 1])]
  {
    DedupStep(t, Dn(id), p.d.Rules(), p.act.pc - 10);
  }

  // ------------------------------------------------------------------- DEL

  lemma DistinctTail(rules: seq<Rule>)
    requires Distinct(rules) && rules != []
    ensures Distinct(rules[1..]) && rules[0] !in rules[1..]
  {
  }

  lemma DistinctCons(r: Rule, rules: seq<Rule>)
    requires Distinct(rules) && r !in rules
    ensures Distinct([r] + rules)
  {
    var longer := [r] + rules;
    assert forall j | 1 <= j < |longer| :: longer[j] == rules[j - 1];
  }

  lemma {:induction false} RemoveFirstDistinct(rules: seq<Rule>, r: Rule)
    requires Distinct(rules)
    ensures Distinct(RemoveFirst(rules, r)) && r !in RemoveFirst(rules, r)
  {
    if rules != [] {
      DistinctTail(rules);
      hide Distinct;
      if rules[0] != r {
        RemoveFirstKeeps(rules[1..], r);
        RemoveFirstDistinct(rules[1..], r);
        DistinctCons(rules[0], RemoveFirst(rules[1..], r));
      }
    }
  }

  /** What deleting the jump does to the table. */
  lemma JumpDeletion(t: Table, procs: map<string, Proc>, id: string)
    requires Ranked(t) && TopOk(t, procs) && id in procs && ContainerOk(t, id, procs[id])
    requires procs[id].act == Deleting(0)
    ensures var t' := DelTable(t, id, 0, false);
            && Ranked(t') && ContainerOk(t', id, DelProgress(procs[id], 0, false))
            && (forall c | c != HostportDnat :: (c in t' <==> c in t) && (c in t ==> t'[c] == t[c]))
            && (HostportDnat in t <==> HostportDnat in t')
            && (HostportDnat in t ==> Distinct(t'[HostportDnat]) && DnJump(id) !in t'[HostportDnat])
            && (HostportDnat in t ==> forall r | r != DnJump(id) :: r in t'[HostportDnat] <==> r in t[HostportDnat])
  {
    var t' := DelTable(t, id, 0, false);
    hide ContainerOk;
    if HostportDnat in t && DnJump(id) in t[HostportDnat] {
      RemoveFirstKeeps(t[HostportDnat], DnJump(id));
      RemoveFirstDistinct(t[HostportDnat], DnJump(id));
      ExecKeepsRanked(t, Delete(HostportDnat, DnJump(id)));
    }
    hide Ranked, TopOk;
    WithoutJumpOk(t, t', id, procs[id]);
  }

  lemma WithoutJumpOk(t: Table, t': Table, id: string, p: Proc)
    requires ContainerOk(t, id, p) && p.act == Deleting(0)
    requires forall c | c != HostportDnat :: (c in t' <==> c in t) && (c in t ==> t'[c] == t[c])
    requires HostportDnat in t <==> HostportDnat in t'
    ensures ContainerOk(t', id, DelProgress(p, 0, false))
  {
    SharedProgress(t, t', p);
  }

  /** A DEL's command that fails changes what the process has tried, and nothing else. */
  lemma DelCommandFails(w: World, s: Sys, id: string)
    requires Inv(w, s) && id in s.procs && s.procs[id].act.Deleting? && s.procs[id].act.stage < 2
    ensures Inv(w, PluginCommand(s, id, true))
  {
    var p' := DelProgress(s.procs[id], s.procs[id].act.stage, true);
    assert ContainerOk(s.table, id, s.procs[id]);
    hide TableOk, ContainerOk, ContainersOk, NoStrayChains, TopOk, JumpUp;
    FailedDelOk(s.table, id, s.procs[id]);
    ProcMoves(w, s, id, p');
    assert PluginCommand(s, id, true) == s.(procs := s.procs[id := p']);
  }

  lemma FailedDelOk(t: Table, id: string, p: Proc)
    requires ContainerOk(t, id, p) && p.act.Deleting? && p.act.stage < 2
    ensures var p' := DelProgress(p, p.act.stage, true);
            ContainerOk(t, id, p') && ChainUp(p') == ChainUp(p) && JumpUp(p') == JumpUp(p)
  {
  }

  lemma JumpDeleted(w: World, s: Sys, id: string)
    requires Inv(w, s) && id in s.procs && s.procs[id].act == Deleting(0)
    ensures Inv(w, PluginCommand(s, id, false))
  {
    hide TableOk, ContainerOk, Ranked, TopOk, DelTable;
    TableIsRanked(w, s.table);
    JumpDeletion(s.table, s.procs, id);
    PrivateChange(w, s, DelTable(s.table, id, 0, false), id, DelProgress(s.procs[id], 0, false));
  }

  /** What flushing the container's chain does to the table. */
  lemma ChainFlush(t: Table, procs: map<string, Proc>, id: string)
    requires Ranked(t) && TopOk(t, procs) && NoStrayChains(t, procs) && id in procs && ContainerOk(t, id, procs[id])
    requires procs[id].act == Deleting(1)
    ensures var t', p' := DelTable(t, id, 1, false), DelProgress(procs[id], 1, false);
            && Ranked(t') && ContainerOk(t', id, p')
            && (forall c | c != Dn(id) :: (c in t' <==> c in t) && (c in t ==> t'[c] == t[c]))
            && (Dn(id) in t' ==> ChainUp(p'))
            && (HostportDnat in t ==> Distinct(t[HostportDnat]) && (DnJump(id) in t[HostportDnat] ==> JumpUp(p')))
  {
    var t' := DelTable(t, id, 1, false);
    if Dn(id) in t {
      ExecKeepsRanked(t, Flush(Dn(id)));
    }
    hide Ranked;
    FlushedOk(t, t', id, procs[id]);
  }

  lemma FlushedOk(t: Table, t': Table, id: string, p: Proc)
    requires ContainerOk(t, id, p) && p.act == Deleting(1)
    requires t' == if Dn(id) in t then t[Dn(id) := []] else t
    ensures ContainerOk(t', id, DelProgress(p, 1, false))
  {
    assert Content(DelProgress(p, 1, false)) == [];
    SharedProgress(t, t', p);
  }

  lemma ChainFlushed(w: World, s: Sys, id: string)
    requires Inv(w, s) && id in s.procs && s.procs[id].act == Deleting(1)
    ensures Inv(w, PluginCommand(s, id, false))
  {
    hide TableOk, ContainerOk, Ranked, TopOk, DelTable;
    TableIsRanked(w, s.table);
    ChainFlush(s.table, s.procs, id);
    PrivateChange(w, s, DelTable(s.table, id, 1, false), id, DelProgress(s.procs[id], 1, false));
  }

  /** Once its jump is gone nothing refers to a container's chain. */
  lemma Unreferenced(w: World, s: Sys, id: string)
    requires Inv(w, s) && (id in s.procs ==> !JumpUp(s.procs[id]))
    ensures !Referenced(s.table, Dn(id))
  {
    hide HooksOk, PostOk, SharedOk, ContainersOk, NoStrayChains, JumpUp;
    forall c, r: Rule | c in s.table && r in s.table[c]
      ensures r.target != Jump(Dn(id))
    {
      assert JumpsBelow(s.table, s.table[c], Rank(c));
      if c == HostportDnat {
        assert IsJumpOf(r, s.procs);
      } else if Builtin(c) {
        BuiltinRefersToShared(w, s.table, c, r);
      }
    }
  }

  lemma BuiltinRefersToShared(w: World, t: Table, c: Chain, r: Rule)
    requires w.Valid() && HooksOk(w, t) && PostOk(w.nets, t)
    requires Builtin(c) && c in t && r in t[c]
    ensures r.target.Jump? ==> !r.target.chain.Dn?
  {
    if c == Prerouting {
      LedByElements(t[c], HOOK, w.preOthers);
      assert r == HOOK || r in w.preOthers + w.outOthers;
    } else if c == Output {
      LedByElements(t[c], HOOK, w.outOthers);
      assert r == HOOK || r in w.preOthers + w.outOthers;
    } else {
      PostElements(w.nets, t);
    }
  }

  lemma LedByElements(rules: seq<Rule>, r: Rule, tail: seq<Rule>)
    requires LedBy(rules, r, tail)
    ensures forall x | x in rules :: x == r || x in tail
  {
    forall x | x in rules
      ensures x == r || x in tail
    {
      var i :| 0 <= i < |rules| && rules[i] == x;
      if i >= |rules| - |tail| {
        assert x == rules[|rules| - |tail|..][i - (|rules| - |tail|)];
      }
    }
  }

  lemma PostElements(n: Nets, t: Table)
    requires PostOk(n, t)
    ensures forall r | r in t[Postrouting] :: r == MASQ_JUMP || IsMasqRule(n, r)
  {
    var k :| 0 <= k <= |t[Postrouting]| && JumpsThenDaemon(n, t[Postrouting], k);
    assert t[Postrouting] == t[Postrouting][..k] + t[Postrouting][k..];
  }

  /** What the last command of a DEL does to the table: the chain goes, or nothing changes. */
  lemma ChainDrop(t: Table, procs: map<string, Proc>, id: string, fault: bool)
    requires Ranked(t) && TopOk(t, procs) && NoStrayChains(t, procs) && id in procs && ContainerOk(t, id, procs[id])
    requires procs[id].act == Deleting(2)
    ensures var t' := DelTable(t, id, 2, fault);
            if Dn(id) in t' then t' == t
            else Ranked(t') && t' == t - {Dn(id)} && !JumpUp(procs[id]) && TopOk(t, procs - {id})
  {
    if Dn(id) in t && DelTable(t, id, 2, fault) != t {
      ExecKeepsRanked(t, DropChain(Dn(id)));
      assert HostportDnat in t ==> DnJump(id) !in t[HostportDnat];
    }
    assert forall r | IsJumpOf(r, procs) && r != DnJump(id) :: IsJumpOf(r, procs - {id});
  }

  /** The end of a DEL, whether or not anything is left of the container. */
  lemma DelEnded(w: World, s: Sys, id: string, fault: bool)
    requires Inv(w, s) && id in s.procs && s.procs[id].act == Deleting(2)
    ensures Inv(w, PluginCommand(s, id, fault))
  {
    hide TableOk, ContainerOk, Ranked, TopOk, DelTable;
    TableIsRanked(w, s.table);
    ChainDrop(s.table, s.procs, id, fault);
    var t' := DelTable(s.table, id, 2, fault);
    if Dn(id) in t' {
      LeftoverOk(s.table, id, s.procs[id]);
      ProcMoves(w, s, id, s.procs[id].(act := Idle, over := true));
    } else {
      DroppedFrame(w, s, id, t');
    }
  }

  lemma LeftoverOk(t: Table, id: string, p: Proc)
    requires ContainerOk(t, id, p) && p.act == Deleting(2)
    ensures ContainerOk(t, id, p.(act := Idle, over := true))
  {
  }

  lemma DroppedFrame(w: World, s: Sys, id: string, t': Table)
    requires Inv(w, s) && Ranked(t') && t' == s.table - {Dn(id)}
    requires TopOk(s.table, s.procs - {id})
    ensures Inv(w, Sys(t', s.procs - {id}, s.ticker))
  {
    hide TableOk, ContainerOk, ContainersOk, Ranked, Distinct, IsJumpOf, ChainUp;
    PrivateTableFrame(w, s.table, t', id);
    DroppedContainers(s.table, t', s.procs, id);
  }

  lemma DroppedContainers(t: Table, t': Table, procs: map<string, Proc>, id: string)
    requires ContainersOk(t, procs) && t' == t - {Dn(id)}
    ensures ContainersOk(t', procs - {id})
  {
    hide ContainerOk;
    forall other | other in procs - {id}
      ensures ContainerOk(t', other, procs[other])
    {
      ElsewhereFrame(t, t', other, procs[other], id);
    }
  }

  // ---------------------------------------------- ticks, flushes and all events

  lemma PostChangeContainer(t: Table, post: seq<Rule>, id: string, p: Proc)
    requires ContainerOk(t, id, p)
    ensures ContainerOk(t[Postrouting := post], id, p)
  {
    hide Content, Dedup;
    forall j | 0 <= j < 7 && j < p.done
      ensures Satisfied(t[Postrouting := post], SHARED_STEPS[j])
    {
      assert Satisfied(t, SHARED_STEPS[j]);
    }
  }

  /** A change to POSTROUTING alone does not bear on any container. */
  lemma PostChange(w: World, s: Sys, post: seq<Rule>, ticker: Ticker)
    requires Inv(w, s)
    requires var t' := s.table[Postrouting := post]; Ranked(t') && PostOk(w.nets, t')
    ensures Inv(w, Sys(s.table[Postrouting := post], s.procs, ticker))
  {
    var t' := s.table[Postrouting := post];
    hide PostOk, Ranked, Dedup, Distinct, ContainerOk;
    forall id | id in s.procs
      ensures ContainerOk(t', id, s.procs[id])
    {
      PostChangeContainer(s.table, post, id, s.procs[id]);
    }
  }

  lemma PostAppend(n: Nets, t: Table, r: Rule)
    requires Ranked(t) && PostOk(n, t) && IsMasqRule(n, r)
    ensures var t' := t[Postrouting := t[Postrouting] + [r]]; Ranked(t') && PostOk(n, t')
    ensures Exec(t, Append(Postrouting, r)) == Some(t[Postrouting := t[Postrouting] + [r]])
  {
    var t' := t[Postrouting := t[Postrouting] + [r]];
    var k :| 0 <= k <= |t[Postrouting]| && JumpsThenDaemon(n, t[Postrouting], k);
    assert t'[Postrouting][..k] == t[Postrouting][..k] && t'[Postrouting][k..] == t[Postrouting][k..] + [r];
    assert JumpsThenDaemon(n, t'[Postrouting], k);
    ExecKeepsRanked(t, Append(Postrouting, r));
  }

  lemma PostFlush(n: Nets, t: Table)
    requires Ranked(t) && PostOk(n, t)
    ensures var t' := t[Postrouting := []]; Ranked(t') && PostOk(n, t')
  {
    var t' := t[Postrouting := []];
    assert JumpsThenDaemon(n, t'[Postrouting], 0);
    ExecKeepsRanked(t, Flush(Postrouting));
  }

  /** A tick command leaves the table alone or appends one of the daemon's rules. */
  lemma TickAppends(n: Nets, t: Table, i: nat, stage: TickStage, fault: bool)
    requires i < 4 && Ranked(t) && PostOk(n, t)
    ensures var t' := TickCommand(n, t, i, stage, fault).0;
            t' == t || exists r | IsKind(n, i, r) :: t' == t[Postrouting := t[Postrouting] + [r]]
  {
    assert IsKind(n, i, MasqRules(n)[i]) && IsKind(n, i, Stripped(MasqRules(n)[i]));
  }

  lemma TickKeepsInv(w: World, s: Sys, fault: bool)
    requires Inv(w, s)
    ensures Inv(w, Next(w, s, TickStep(fault)))
  {
    if s.ticker.At? && s.ticker.i < 4 {
      var (t', ticker) := TickCommand(w.nets, s.table, s.ticker.i, s.ticker.stage, fault);
      TickAppends(w.nets, s.table, s.ticker.i, s.ticker.stage, fault);
      if t' == s.table {
        assert s.table[Postrouting := s.table[Postrouting]] == s.table;
        PostChange(w, s, s.table[Postrouting], ticker);
      } else {
        var r :| IsKind(w.nets, s.ticker.i, r) && t' == s.table[Postrouting := s.table[Postrouting] + [r]];
        PostAppend(w.nets, s.table, r);
        PostChange(w, s, s.table[Postrouting] + [r], ticker);
      }
    }
  }

  lemma StartKeepsInv(w: World, s: Sys, e: Event)
    requires Inv(w, s) && (e.StartAdd? || e.StartDel?)
    ensures Inv(w, Next(w, s, e))
  {
    hide Inv, ContainerOk;
    var id := if e.StartAdd? then e.d.id else e.id;
    if id in s.procs {
      var p := s.procs[id];
      var p' := p.(act := if e.StartAdd? then Adding(0, false) else Deleting(0));
      if p.act.Idle? && (e.StartAdd? ==> !p.over) {
        InvContainer(w, s, id);
        StartedContainer(s.table, id, p, p');
        ProcMoves(w, s, id, p');
      }
    } else if e.StartAdd? {
      NewContainer(w, s, e.d);
    }
  }

  lemma StartedContainer(t: Table, id: string, p: Proc, p': Proc)
    requires ContainerOk(t, id, p) && p.act.Idle?
    requires (!p.over && p' == p.(act := Adding(0, false))) || p' == p.(act := Deleting(0))
    ensures ContainerOk(t, id, p') && ChainUp(p') == ChainUp(p) && JumpUp(p') == JumpUp(p)
  {
  }

  lemma StartedOk(t: Table, d: Deployment)
    ensures ContainerOk(t, d.id, Started(d)) && !ChainUp(Started(d)) && !JumpUp(Started(d))
  {
  }

  lemma NewContainer(w: World, s: Sys, d: Deployment)
    requires Inv(w, s) && d.id !in s.procs
    ensures Inv(w, s.(procs := s.procs[d.id := Started(d)]))
  {
    var procs' := s.procs[d.id := Started(d)];
    StartedOk(s.table, d);
    hide TableOk, ContainerOk, Started;
    forall id | id in procs'
      ensures ContainerOk(s.table, id, procs'[id])
    {
      assert id != d.id ==> ContainerOk(s.table, id, s.procs[id]);
    }
    assert forall r | IsJumpOf(r, s.procs) :: IsJumpOf(r, procs');
  }

  lemma NextKeepsInv(w: World, s: Sys, e: Event)
    requires Inv(w, s)
    ensures Inv(w, Next(w, s, e))
  {
    hide Inv, PluginCommand, TickCommand;
    match e
    case StartAdd(_) => StartKeepsInv(w, s, e);
    case StartDel(_) => StartKeepsInv(w, s, e);
    case PluginStep(id, fault) =>
      if id in s.procs {
        PluginKeepsInv(w, s, id, fault);
      }
    case StartTick => TickerFree(w, s, At(0, Checking));
    case TickStep(fault) => TickKeepsInv(w, s, fault);
    case FlushPostrouting => FlushKeepsInv(w, s);
  }

  lemma TickerFree(w: World, s: Sys, ticker: Ticker)
    requires Inv(w, s)
    ensures Inv(w, s.(ticker := ticker))
  {
  }

  lemma FlushKeepsInv(w: World, s: Sys)
    requires Inv(w, s)
    ensures Postrouting in s.table && Inv(w, s.(table := s.table[Postrouting := []]))
  {
    PostFlush(w.nets, s.table);
    PostChange(w, s, [], s.ticker);
  }

  lemma PluginKeepsInv(w: World, s: Sys, id: string, fault: bool)
    requires Inv(w, s) && id in s.procs
    ensures Inv(w, PluginCommand(s, id, fault))
  {
    hide TableOk, Dedup, NoStrayChains, TopOk, AddCommand, DelTable;
    match s.procs[id].act
    case Idle =>
    case Adding(_, _) => AddKeepsInv(w, s, id, fault);
    case Deleting(stage) =>
      assert ContainerOk(s.table, id, s.procs[id]);
      if stage == 2 {
        DelEnded(w, s, id, fault);
      } else if fault {
        DelCommandFails(w, s, id);
      } else if stage == 0 {
        JumpDeleted(w, s, id);
      } else {
        ChainFlushed(w, s, id);
      }
  }

  /** The invariant holds after every run. */
  lemma {:induction false} Always(w: World, events: seq<Event>)
    requires w.Valid()
    ensures Inv(w, After(w, events))
  {
    if events == [] {
      InitialInv(w);
    } else {
      Always(w, events[..|events| - 1]);
      NextKeepsInv(w, After(w, events[..|events| - 1]), events[|events| - 1]);
    }
  }
}
