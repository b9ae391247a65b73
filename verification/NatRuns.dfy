/**
 What packets see after any run of the nat table's writers: hostPort traffic reaches the
 right pod unless a DEL left rules in front of it, other traffic is left alone, and a
 container is gone exactly when none of its DEL's commands was lost.
 */
module NatRuns {
  import opened Wrappers
  import opened Ipv4
  import opened NatTable
  import opened PortMap
  import opened Dispatch
  import opened IpMasq
  import opened NatSystem

  // ------------------------------------------------- the top chain of a state

  /** What of a container still stands: once its chain is flushed, none of its mappings. */
  function Standing(p: Proc): Deployment {
    if p.flushed then p.d.(mappings := []) else p.d
  }

  /** Packets can get to the container's rules. */
  ghost predicate Reachable(p: Proc) {
    JumpUp(p) && !p.flushed
  }

  /** The containers the top chain jumps to, in its order. */
  ghost function WiredOf(procs: map<string, Proc>, rules: seq<Rule>): seq<Wired>
    requires forall r | r in rules :: IsJumpOf(r, procs)
  {
    if rules == [] then []
    else
      assert IsJumpOf(rules[0], procs);
      var p := procs[rules[0].target.chain.id];
      [Wired(Standing(p), RulesUp(p))] + WiredOf(procs, rules[1..])
  }

  /** w stands for a container whose jump is up. */
  ghost predicate Stands(procs: map<string, Proc>, w: Wired) {
    && w.d.id in procs && JumpUp(procs[w.d.id])
    && w == Wired(Standing(procs[w.d.id]), RulesUp(procs[w.d.id]))
  }

  lemma WiredInstalled(t: Table, id: string, p: Proc)
    requires ContainerOk(t, id, p) && JumpUp(p)
    ensures p.d.id == id && Installed(t, Wired(Standing(p), RulesUp(p)))
  {
  }

  lemma JumpContainer(t: Table, procs: map<string, Proc>, r: Rule)
    requires ContainersOk(t, procs) && IsJumpOf(r, procs)
    ensures var id := r.target.chain.id;
            var w := Wired(Standing(procs[id]), RulesUp(procs[id]));
            r == DnJump(id) && w.d.id == id && Installed(t, w) && Stands(procs, w)
  {
    var id := r.target.chain.id;
    assert ContainerOk(t, id, procs[id]);
    hide ContainerOk, Installed, RulesUp;
    WiredInstalled(t, id, procs[id]);
  }

  lemma {:induction false} WiredContainers(t: Table, procs: map<string, Proc>, rules: seq<Rule>)
    requires ContainersOk(t, procs)
    requires forall r | r in rules :: IsJumpOf(r, procs)
    ensures forall w | w in WiredOf(procs, rules) :: Stands(procs, w) && Installed(t, w)
  {
    if rules != [] {
      hide ContainerOk, ContainersOk, Installed, RulesUp, JumpUp, Standing;
      JumpContainer(t, procs, rules[0]);
      assert forall r | r in rules[1..] :: r in rules;
      WiredContainers(t, procs, rules[1..]);
    }
  }

  lemma {:induction false} JumpsOfWired(t: Table, procs: map<string, Proc>, rules: seq<Rule>)
    requires ContainersOk(t, procs)
    requires forall r | r in rules :: IsJumpOf(r, procs)
    ensures Jumps(WiredOf(procs, rules)) == rules
  {
    if rules != [] {
      hide ContainersOk, IsJumpOf, WiredOf, Jumps;
      assert rules[0] in rules && forall r | r in rules[1..] :: r in rules;
      JumpsOfWired(t, procs, rules[1..]);
      FirstEntryJump(t, procs, rules);
      assert rules == [rules[0]] + rules[1..];
    }
  }

  lemma FirstEntryJump(t: Table, procs: map<string, Proc>, rules: seq<Rule>)
    requires ContainersOk(t, procs) && rules != []
    requires forall r | r in rules :: IsJumpOf(r, procs)
    ensures Jumps(WiredOf(procs, rules)) == [rules[0]] + Jumps(WiredOf(procs, rules[1..]))
  {
    hide ContainersOk, Installed, RulesUp, JumpUp, Standing, Stands;
    JumpContainer(t, procs, rules[0]);
    var p, rest := procs[rules[0].target.chain.id], WiredOf(procs, rules[1..]);
    var w := Wired(Standing(p), RulesUp(p));
    assert WiredOf(procs, rules) == [w] + rest;
    hide WiredOf, IsJumpOf;
    assert ([w] + rest)[0] == w && ([w] + rest)[1..] == rest;
  }

  lemma {:induction false} JumpsAt(ws: seq<Wired>)
    ensures |Jumps(ws)| == |ws| && forall i | 0 <= i < |ws| :: Jumps(ws)[i] == DnJump(ws[i].d.id)
  {
    if ws != [] {
      JumpsAt(ws[1..]);
    }
  }

  lemma WiredOfJumps(t: Table, procs: map<string, Proc>, rules: seq<Rule>)
    requires ContainersOk(t, procs)
    requires forall r | r in rules :: IsJumpOf(r, procs)
    ensures var ws := WiredOf(procs, rules);
            && Jumps(ws) == rules && |ws| == |rules|
            && (forall w | w in ws :: Stands(procs, w) && Installed(t, w))
            && (forall i | 0 <= i < |rules| :: rules[i] == DnJump(ws[i].d.id))
  {
    hide ContainersOk, IsJumpOf, Stands, Installed, WiredOf, Jumps;
    WiredContainers(t, procs, rules);
    JumpsOfWired(t, procs, rules);
    JumpsAt(WiredOf(procs, rules));
  }

  /** The top chain of every reachable state is one the dispatch theory speaks about. */
  lemma TopIsWired(w: World, s: Sys)
    requires Inv(w, s) && HostportDnat in s.table
    ensures forall r | r in s.table[HostportDnat] :: IsJumpOf(r, s.procs)
    ensures var ws := WiredOf(s.procs, s.table[HostportDnat]);
            && TopChainOf(s.table, ws) && Jumps(ws) == s.table[HostportDnat] && |ws| == |s.table[HostportDnat]|
            && (forall x | x in ws :: Stands(s.procs, x))
            && forall i | 0 <= i < |ws| :: s.table[HostportDnat][i] == DnJump(ws[i].d.id)
  {
    hide TableOk, NoStrayChains;
    TableIsRanked(w, s.table);
    WiredOfJumps(s.table, s.procs, s.table[HostportDnat]);
    var ws := WiredOf(s.procs, s.table[HostportDnat]);
    if ws != [] {
      assert Stands(s.procs, ws[0]);
      MarksUp(w, s, ws[0].d.id);
    }
  }

  lemma MarksUp(w: World, s: Sys, id: string)
    requires Inv(w, s) && id in s.procs && JumpUp(s.procs[id])
    ensures MarksWork(s.table)
  {
    assert SharedOk(s.table) && JumpUp(s.procs[id]);
    hide Inv, ContainerOk, TableOk, NoStrayChains, TopOk;
    assert ContainersOk(s.table, s.procs);
    SharedUp(s, id, 4);
  }

  /** The one place of a wired container in the top chain. */
  lemma WiredIndex(w: World, s: Sys, id: string) returns (k: nat)
    requires Inv(w, s) && id in s.procs && JumpUp(s.procs[id])
    ensures HostportDnat in s.table && forall r | r in s.table[HostportDnat] :: IsJumpOf(r, s.procs)
    ensures var ws := WiredOf(s.procs, s.table[HostportDnat]);
            && k < |ws| && ws[k] == Wired(Standing(s.procs[id]), RulesUp(s.procs[id])) && ws[k].d.id == id
            && forall j | 0 <= j < |ws| && j != k :: ws[j].d.id != id
  {
    hide TableOk, NoStrayChains;
    assert ContainerOk(s.table, id, s.procs[id]);
    var top := s.table[HostportDnat];
    WiredOfJumps(s.table, s.procs, top);
    k :| 0 <= k < |top| && top[k] == DnJump(id);
    var ws := WiredOf(s.procs, top);
    assert Stands(s.procs, ws[k]);
    forall j | 0 <= j < |ws| && j != k
      ensures ws[j].d.id != id
    {
      assert if j < k then top[j] != top[k] else top[k] != top[j];
    }
  }

  lemma TableHasBuiltins(w: World, t: Table)
    requires TableOk(w, t)
    ensures HasBuiltins(t)
  {
  }

  lemma SharedUp(s: Sys, id: string, j: nat)
    requires ContainersOk(s.table, s.procs) && id in s.procs && j < 7 && j < s.procs[id].done
    ensures Satisfied(s.table, SHARED_STEPS[j])
  {
    assert ContainerOk(s.table, id, s.procs[id]);
  }

  // --------------------------------------------------------------- delivery

  /** A container whose last ADD completed and that no process is working on. */
  ghost predicate Settled(p: Proc) {
    p.act.Idle? && !p.over && p.done == |ApplySteps(p.d)|
  }

  predicate Overlap(a: Mapping, b: Mapping) {
    && a.protocol == b.protocol && a.hostPort == b.hostPort
    && (a.hostIp.Bound? && b.hostIp.Bound? ==> a.hostIp.ip == b.hostIp.ip)
  }

  /** Mappings overlap exactly if some packet is for both. */
  lemma OverlapIffShared(a: Mapping, b: Mapping)
    ensures Overlap(a, b) <==> exists p: Packet :: a.Covers(p) && b.Covers(p)
  {
    if Overlap(a, b) {
      var dst := if a.hostIp.Bound? then a.hostIp.ip else if b.hostIp.Bound? then b.hostIp.ip else 0;
      var p := Packet(a.protocol, 0, dst, a.hostPort, 0);
      assert a.Covers(p) && b.Covers(p);
    }
  }

  /** No two mappings of containers that no DEL has ended, nor two of one container, publish the same. */
  ghost predicate NonOverlapping(procs: map<string, Proc>) {
    forall x, y, i, j | && x in procs && 0 <= i < |procs[x].d.mappings|
                        && y in procs && 0 <= j < |procs[y].d.mappings|
                        && (x != y || i != j) && (x != y ==> !procs[x].over && !procs[y].over) ::
      !Overlap(procs[x].d.mappings[i], procs[y].d.mappings[j])
  }

  /** Packets get to rules of the container that DNAT this one. */
  ghost predicate TakenBy(p: Proc, packet: Packet) {
    Reachable(p) && RulesTake(p.d.mappings, RulesUp(p), packet)
  }

  /** Packets get to rules of the container that mark this one. */
  ghost predicate MarkedBy(p: Proc, packet: Packet) {
    Reachable(p) && RulesMark(p.d.podIp, p.d.mappings, RulesUp(p), packet)
  }

  /** A container that a DEL has ended, but not disconnected, takes the packet. */
  ghost predicate Haunts(p: Proc, packet: Packet) {
    p.over && TakenBy(p, packet)
  }

  /** Its rules send the packet to this address and port. */
  ghost predicate SendsTo(p: Proc, packet: Packet, podIp: Addr, port: Port) {
    && p.d.podIp == podIp
    && exists i ::
         && 0 <= i < |p.d.mappings| && TakesAt(p.d.mappings, RulesUp(p), i, packet)
         && p.d.mappings[i].containerPort == port
  }

  /** a stands somewhere before b. */
  predicate InOrder(rules: seq<Rule>, a: Rule, b: Rule) {
    rules != [] && ((rules[0] == a && b in rules[1..]) || InOrder(rules[1..], a, b))
  }

  lemma {:induction false} InOrderAt(rules: seq<Rule>, i: nat, j: nat)
    requires i < j < |rules|
    ensures InOrder(rules, rules[i], rules[j])
  {
    if i > 0 {
      InOrderAt(rules[1..], i - 1, j - 1);
    }
  }

  lemma {:induction false} InOrderIndices(rules: seq<Rule>, a: Rule, b: Rule) returns (i: nat, j: nat)
    requires InOrder(rules, a, b)
    ensures i < j < |rules| && rules[i] == a && rules[j] == b
  {
    if rules[0] == a && b in rules[1..] {
      i := 0;
      j :| 1 <= j < |rules| && rules[j] == b;
    } else {
      i, j := InOrderIndices(rules[1..], a, b);
      i, j := i + 1, j + 1;
    }
  }

  /** One container's jump stands before another's in the top chain. */
  predicate Before(t: Table, x: string, y: string) {
    HostportDnat in t && InOrder(t[HostportDnat], DnJump(x), DnJump(y))
  }

  /** Nothing a DEL left behind stands in front of the container and takes the packet. */
  ghost predicate Unhaunted(s: Sys, id: string, packet: Packet) {
    forall x | x in s.procs && Haunts(s.procs[x], packet) :: !Before(s.table, x, id)
  }

  /** The first leftover in front that takes the packet, if there is one, sends it where mapping i would. */
  ghost predicate Undiverted(s: Sys, id: string, i: nat, packet: Packet)
    requires id in s.procs && i < |s.procs[id].d.mappings|
  {
    var d := s.procs[id].d;
    forall x | && x in s.procs && Haunts(s.procs[x], packet) && Before(s.table, x, id)
               && (forall y | y in s.procs && Haunts(s.procs[y], packet) :: !Before(s.table, y, x)) ::
      SendsTo(s.procs[x], packet, d.podIp, d.mappings[i].containerPort)
  }

  /** Some marking rule of a container in front hits the packet. */
  ghost predicate MarkedInFront(s: Sys, id: string, packet: Packet) {
    exists x | x in s.procs :: MarkedBy(s.procs[x], packet) && Before(s.table, x, id)
  }

  /** What arrives at the pod: marked if it comes from the pod itself or from loopback, or was marked in front. */
  ghost function Arrived(s: Sys, id: string, i: nat, packet: Packet): Packet
    requires id in s.procs && i < |s.procs[id].d.mappings|
  {
    var d := s.procs[id].d;
    Delivered(d.podIp, d.mappings[i].containerPort, if MarkedInFront(s, id, packet) then Marked(packet) else packet)
  }

  predicate Hooked(c: Chain) {
    c.Prerouting? || c.Output?
  }

  function OthersIn(w: World, c: Chain): seq<Rule> {
    if c.Prerouting? then w.preOthers else w.outOthers
  }

  /** A hooked chain: its hook jumps, then the rules of others. */
  lemma HookedSplit(w: World, t: Table, c: Chain)
    requires TableOk(w, t) && Hooked(c)
    ensures c in t && |OthersIn(w, c)| <= |t[c]|
    ensures var k := |t[c]| - |OthersIn(w, c)|;
            && t[c] == t[c][..k] + OthersIn(w, c) && (forall r | r in t[c][..k] :: r == HOOK)
            && JumpsBelow(t, t[c], 4) && JumpsBelow(t, OthersIn(w, c), 4)
            && (HOOK in t[c] ==> t[c][..k] != [] && t[c][0] == HOOK && HostportDnat in t)
  {
    var k := |t[c]| - |OthersIn(w, c)|;
    assert t[c] == t[c][..k] + t[c][k..];
    assert JumpsBelow(t, t[c], Rank(c));
    hide PostOk, SharedOk;
    forall r | r in OthersIn(w, c)
      ensures r in t[c] && !r.target.Jump?
    {
      assert r in t[c][k..] && r in w.preOthers + w.outOthers;
    }
  }

  /** The wired containers of a state, as the top chain lists them. */
  ghost predicate Lists(s: Sys, ws: seq<Wired>) {
    && HostportDnat in s.table && |ws| == |s.table[HostportDnat]|
    && (forall x | x in ws :: Stands(s.procs, x))
    && (forall i | 0 <= i < |ws| :: s.table[HostportDnat][i] == DnJump(ws[i].d.id))
    && forall i, j | 0 <= i < j < |ws| :: ws[i].d.id != ws[j].d.id
  }

  /** What an entry of the top chain does to a packet is what its container does. */
  lemma EntryIsContainer(s: Sys, ws: seq<Wired>, j: nat, p: Packet)
    requires Lists(s, ws) && j < |ws|
    ensures ws[j].d.id in s.procs
    ensures ws[j].Takes(p) <==> TakenBy(s.procs[ws[j].d.id], p)
    ensures ws[j].Marks(p) <==> MarkedBy(s.procs[ws[j].d.id], p)
    ensures ws[j].Takes(p) ==> ws[j].d == s.procs[ws[j].d.id].d && ws[j].n == RulesUp(s.procs[ws[j].d.id])
  {
    hide Wired.Takes, Wired.Marks;
    StandingDoes(s.procs, ws[j], p);
  }

  /** Being in front is having the smaller index. */
  lemma FrontIsIndex(s: Sys, ws: seq<Wired>, i: nat, j: nat)
    requires Lists(s, ws) && i < |ws| && j < |ws|
    ensures Before(s.table, ws[i].d.id, ws[j].d.id) <==> i < j
  {
    hide Stands;
    var top := s.table[HostportDnat];
    if i < j {
      InOrderAt(top, i, j);
    }
    if Before(s.table, ws[i].d.id, ws[j].d.id) {
      var x, y := InOrderIndices(top, top[i], top[j]);
      assert ws[x].d.id == ws[i].d.id && ws[y].d.id == ws[j].d.id;
    }
  }

  /** A container with a jump is an entry of the top chain. */
  lemma ContainerIsEntry(w: World, s: Sys, ws: seq<Wired>, id: string) returns (k: nat)
    requires Inv(w, s) && Lists(s, ws) && id in s.procs && JumpUp(s.procs[id])
    ensures k < |ws| && ws[k].d.id == id
  {
    hide TableOk, NoStrayChains, TopOk, Lists;
    assert ContainerOk(s.table, id, s.procs[id]);
    var top := s.table[HostportDnat];
    k :| 0 <= k < |top| && top[k] == DnJump(id);
    assert Lists(s, ws);
    IndexOfJump(s, ws, k, id);
  }

  lemma IndexOfJump(s: Sys, ws: seq<Wired>, k: nat, id: string)
    requires Lists(s, ws) && k < |s.table[HostportDnat]| && s.table[HostportDnat][k] == DnJump(id)
    ensures k < |ws| && ws[k].d.id == id
  {
  }

  /** The least index of a container that takes the packet. */
  lemma FirstTaker(ws: seq<Wired>, k: nat, p: Packet) returns (m: nat)
    requires k < |ws| && ws[k].Takes(p)
    ensures m <= k && ws[m].Takes(p) && forall j | 0 <= j < m :: !ws[j].Takes(p)
  {
    m := 0;
    while !ws[m].Takes(p)
      invariant m <= k && forall j | 0 <= j < m :: !ws[j].Takes(p)
      decreases k - m
    {
      m := m + 1;
    }
  }

  /** The first container in the top chain that takes a packet gets it, complete or not, ended or not. */
  lemma FirstTakerWins(w: World, s: Sys, local: set<Addr>, ws: seq<Wired>, m: nat, i: nat, p: Packet)
    requires Inv(w, s) && NonOverlapping(s.procs) && Lists(s, ws)
    requires forall r | r in s.table[HostportDnat] :: IsJumpOf(r, s.procs)
    requires ws == WiredOf(s.procs, s.table[HostportDnat])
    requires m < |ws| && i < |ws[m].d.mappings| && TakesAt(ws[m].d.mappings, ws[m].n, i, p)
    requires forall j | 0 <= j < m :: !ws[j].Takes(p)
    ensures Ranked(s.table)
    ensures WalkChain(s.table, local, HostportDnat, p)
            == Dnated(Delivered(ws[m].d.podIp, ws[m].d.mappings[i].containerPort, Passing(ws[..m], p)))
  {
    assert ws[m].Takes(p);
    EntryIsContainer(s, ws, m, p);
    OwnMapping(s.procs, ws[m].d.id, i, p);
    TopIsWired(w, s);
    TableIsRanked(w, s.table);
    hide Inv, Lists, NonOverlapping, IsJumpOf, Wired.Takes, Mapping.Covers;
    JumpsAreBelow(s.table, ws);
    TopHits(s.table, local, ws, m, p, ws[m].d.mappings[i].containerPort);
  }

  lemma SettledIsWhole(w: World, s: Sys, id: string)
    requires Inv(w, s) && id in s.procs && Settled(s.procs[id])
    ensures var p := s.procs[id];
            Reachable(p) && Standing(p) == p.d && RulesUp(p) == |p.d.Rules()| && p.d.id == id
  {
    assert ContainerOk(s.table, id, s.procs[id]);
  }

  /** What the top chain DNATs, the hook into it DNATs. */
  lemma HookDelivers(w: World, t: Table, c: Chain, local: set<Addr>, p: Packet)
    requires TableOk(w, t) && Hooked(c) && c in t && HOOK in t[c] && HostportDnat in t && p.dst in local
    requires WalkChain(t, local, HostportDnat, p).Dnated?
    ensures WalkChain(t, local, c, p) == WalkChain(t, local, HostportDnat, p)
  {
    HookedSplit(w, t, c);
  }

  /** A packet for a settled container: entry k is the container's, entry m the first to take the packet. */
  ghost predicate Contested(s: Sys, ws: seq<Wired>, k: nat, m: nat, j: nat, id: string, p: Packet) {
    && Lists(s, ws) && m <= k < |ws| && ws[k].d.id == id && ws[k].Takes(p)
    && j < |ws[m].d.mappings| && TakesAt(ws[m].d.mappings, ws[m].n, j, p)
    && forall n | 0 <= n < m :: !ws[n].Takes(p)
  }

  lemma Contest(w: World, s: Sys, id: string, i: nat, p: Packet) returns (ws: seq<Wired>, k: nat, m: nat, j: nat)
    requires Inv(w, s) && NonOverlapping(s.procs)
    requires id in s.procs && Settled(s.procs[id]) && i < |s.procs[id].d.mappings|
    requires s.procs[id].d.mappings[i].Covers(p)
    ensures Contested(s, ws, k, m, j, id, p)
    ensures forall r | r in s.table[HostportDnat] :: IsJumpOf(r, s.procs)
    ensures ws == WiredOf(s.procs, s.table[HostportDnat])
  {
    SettledIsWhole(w, s, id);
    assert TakesAt(s.procs[id].d.mappings, RulesUp(s.procs[id]), i, p);
    TopIsListed(w, s, id);
    hide Inv, NonOverlapping, IsJumpOf, Settled, Wired.Takes, Mapping.Covers;
    ws := WiredOf(s.procs, s.table[HostportDnat]);
    k := ContainerIsEntry(w, s, ws, id);
    EntryIsContainer(s, ws, k, p);
    m := FirstTaker(ws, k, p);
    j := TakingMapping(ws[m], p);
  }

  lemma TakingMapping(w: Wired, p: Packet) returns (j: nat)
    requires w.Takes(p)
    ensures j < |w.d.mappings| && TakesAt(w.d.mappings, w.n, j, p)
  {
    j :| 0 <= j < |w.d.mappings| && TakesAt(w.d.mappings, w.n, j, p);
  }

  lemma TopIsListed(w: World, s: Sys, id: string)
    requires Inv(w, s) && id in s.procs && JumpUp(s.procs[id])
    ensures HostportDnat in s.table && forall r | r in s.table[HostportDnat] :: IsJumpOf(r, s.procs)
    ensures Lists(s, WiredOf(s.procs, s.table[HostportDnat]))
  {
    hide *;
    TopIsDistinct(w, s, id);
    TopIsWired(w, s);
    var top, ws := s.table[HostportDnat], WiredOf(s.procs, s.table[HostportDnat]);
    ListsIfDistinct(s, ws);
  }

  lemma TopIsDistinct(w: World, s: Sys, id: string)
    requires Inv(w, s) && id in s.procs && JumpUp(s.procs[id])
    ensures HostportDnat in s.table && Distinct(s.table[HostportDnat])
  {
    assert ContainerOk(s.table, id, s.procs[id]);
  }

  lemma ListsIfDistinct(s: Sys, ws: seq<Wired>)
    requires HostportDnat in s.table && Distinct(s.table[HostportDnat]) && |ws| == |s.table[HostportDnat]|
    requires forall x | x in ws :: Stands(s.procs, x)
    requires forall i | 0 <= i < |ws| :: s.table[HostportDnat][i] == DnJump(ws[i].d.id)
    ensures Lists(s, ws)
  {
    hide Stands;
    var top := s.table[HostportDnat];
    forall i, j | 0 <= i < j < |ws|
      ensures ws[i].d.id != ws[j].d.id
    {
      assert top[i] != top[j];
    }
  }

  /** Whoever takes the packet in front of a live publisher is a leftover. */
  lemma FrontTakerHaunts(s: Sys, ws: seq<Wired>, n: nat, k: nat, i: nat, p: Packet)
    requires NonOverlapping(s.procs) && Lists(s, ws) && n < k < |ws| && ws[n].Takes(p)
    requires ws[k].d.id in s.procs && !s.procs[ws[k].d.id].over
    requires i < |s.procs[ws[k].d.id].d.mappings| && s.procs[ws[k].d.id].d.mappings[i].Covers(p)
    ensures ws[n].d.id in s.procs && Haunts(s.procs[ws[n].d.id], p)
  {
    EntryIsContainer(s, ws, n, p);
    var x := ws[n].d.id;
    if !s.procs[x].over {
      LivePublishers(s.procs, x, ws[k].d.id, i, p);
    }
  }

  /** In front of the container, the packet is marked exactly by what stands there. */
  lemma PassingInFront(w: World, s: Sys, ws: seq<Wired>, k: nat, p: Packet)
    requires Inv(w, s) && Lists(s, ws) && k < |ws|
    ensures Passing(ws[..k], p) == if MarkedInFront(s, ws[k].d.id, p) then Marked(p) else p
  {
    hide Inv, Wired.Marks, TakenBy, RulesMark;
    if MarkedInFront(s, ws[k].d.id, p) {
      var x :| x in s.procs && MarkedBy(s.procs[x], p) && Before(s.table, x, ws[k].d.id);
      var n := ContainerIsEntry(w, s, ws, x);
      FrontIsIndex(s, ws, n, k);
      EntryIsContainer(s, ws, n, p);
      assert ws[n] == ws[..k][n];
    }
    if v: Wired :| v in ws[..k] && v.Marks(p) {
      var n: nat :| n < k && ws[n] == v;
      FrontIsIndex(s, ws, n, k);
      EntryIsContainer(s, ws, n, p);
    }
  }

  /**
   In every reachable state, a locally addressed packet for a published port is DNATed to
   the publishing container's pod IP and containerPort, and marked exactly if it comes from
   that pod itself or from loopback, or a marking rule in front of the container hits it,
   unless a DEL whose commands failed has left rules in front of it that take the packet.
   */
  lemma DeliveredInState(w: World, s: Sys, c: Chain, local: set<Addr>, id: string, i: nat, p: Packet)
    requires Inv(w, s) && Hooked(c) && NonOverlapping(s.procs) && Unhaunted(s, id, p)
    requires id in s.procs && Settled(s.procs[id]) && i < |s.procs[id].d.mappings|
    requires s.procs[id].d.mappings[i].Covers(p) && p.dst in local
    ensures Ranked(s.table) && c in s.table && WalkChain(s.table, local, c, p) == Dnated(Arrived(s, id, i, p))
  {
    hide Inv, NonOverlapping, WalkChain, Mapping.Covers, Wired.Takes, Haunts, Lists, IsJumpOf;
    HookInPlace(w, s, c, id);
    var ws, k, m, j := Contest(w, s, id, i, p);
    if m < k {
      FrontTakerHaunts(s, ws, m, k, i, p) by {
        TakesSomewhere(ws[m], j, p);
      }
      FrontIsIndex(s, ws, m, k);
    }
    FirstTakerWins(w, s, local, ws, m, j, p);
    SameMapping(s, ws, k, j, i, p);
    PassingInFront(w, s, ws, k, p);
    HookDelivers(w, s.table, c, local, p);
  }

  lemma TakesSomewhere(w: Wired, j: nat, p: Packet)
    requires j < |w.d.mappings| && TakesAt(w.d.mappings, w.n, j, p)
    ensures w.Takes(p)
  {
  }

  /** The mapping that takes the packet is the only one of the container that covers it. */
  lemma SameMapping(s: Sys, ws: seq<Wired>, k: nat, j: nat, i: nat, p: Packet)
    requires NonOverlapping(s.procs) && Lists(s, ws) && k < |ws|
    requires j < |ws[k].d.mappings| && TakesAt(ws[k].d.mappings, ws[k].n, j, p)
    requires ws[k].d.id in s.procs && i < |s.procs[ws[k].d.id].d.mappings|
    requires s.procs[ws[k].d.id].d.mappings[i].Covers(p)
    ensures ws[k].d == s.procs[ws[k].d.id].d && ws[k].d.mappings[j] == s.procs[ws[k].d.id].d.mappings[i]
  {
    TakesSomewhere(ws[k], j, p);
    EntryIsContainer(s, ws, k, p);
    OwnMapping(s.procs, ws[k].d.id, i, p);
  }

  /**
   Exactly when a completed container gets its packets although ADDs and DELs may have
   failed part of the way: the packet is always DNATed, and reaches the container's address
   and port exactly if the first leftover in front of it that takes the packet, if there is
   one, sends it there too.
   */
  lemma DeliveredIffUndiverted(w: World, s: Sys, c: Chain, local: set<Addr>, id: string, i: nat, p: Packet)
    requires Inv(w, s) && Hooked(c) && NonOverlapping(s.procs) && p.dst in local
    requires id in s.procs && Settled(s.procs[id]) && i < |s.procs[id].d.mappings|
    requires s.procs[id].d.mappings[i].Covers(p)
    ensures Ranked(s.table) && c in s.table
    ensures var out, d := WalkChain(s.table, local, c, p), s.procs[id].d;
            && out.Dnated?
            && (out.p.dst == d.podIp && out.p.dport == d.mappings[i].containerPort <==> Undiverted(s, id, i, p))
  {
    hide Inv, NonOverlapping, WalkChain, Mapping.Covers, Undiverted, Lists, IsJumpOf;
    HookInPlace(w, s, c, id);
    var ws, k, m, j := Contest(w, s, id, i, p);
    FirstTakerWins(w, s, local, ws, m, j, p);
    HookDelivers(w, s.table, c, local, p);
    UndivertedIffTaker(w, s, ws, k, m, j, id, i, p);
  }

  /** If leftovers in front take the packet, it goes where the first of them sends it. */
  lemma DivertedToFirst(w: World, s: Sys, c: Chain, local: set<Addr>, id: string, i: nat, x: string, p: Packet)
    requires Inv(w, s) && Hooked(c) && NonOverlapping(s.procs) && p.dst in local
    requires id in s.procs && Settled(s.procs[id]) && i < |s.procs[id].d.mappings|
    requires s.procs[id].d.mappings[i].Covers(p)
    requires x in s.procs && Haunts(s.procs[x], p) && Before(s.table, x, id)
    requires forall y | y in s.procs && Haunts(s.procs[y], p) :: !Before(s.table, y, x)
    ensures Ranked(s.table) && c in s.table
    ensures var out := WalkChain(s.table, local, c, p);
            out.Dnated? && SendsTo(s.procs[x], p, out.p.dst, out.p.dport)
  {
    hide Inv, NonOverlapping, WalkChain, Mapping.Covers, Lists, IsJumpOf, Haunts, SendsTo, Wired.Takes, Before;
    HookInPlace(w, s, c, id);
    var ws, k, m, j := Contest(w, s, id, i, p);
    FirstTakerWins(w, s, local, ws, m, j, p);
    HookDelivers(w, s.table, c, local, p);
    HaunterInFront(w, s, ws, k, m, x, p);
    TakesSomewhere(ws[m], j, p);
    FrontTakerHaunts(s, ws, m, k, i, p);
    SendsWhere(s, ws, m, j, p, ws[m].d.podIp, ws[m].d.mappings[j].containerPort);
  }

  /** Whether the packet is diverted is decided by the first entry that takes it. */
  lemma UndivertedIffTaker(w: World, s: Sys, ws: seq<Wired>, k: nat, m: nat, j: nat, id: string, i: nat, p: Packet)
    requires Inv(w, s) && NonOverlapping(s.procs) && Contested(s, ws, k, m, j, id, p)
    requires id in s.procs && Settled(s.procs[id]) && i < |s.procs[id].d.mappings|
    requires s.procs[id].d.mappings[i].Covers(p)
    ensures var d := s.procs[id].d;
            && ws[m].d.podIp == d.podIp && ws[m].d.mappings[j].containerPort == d.mappings[i].containerPort
               <==> Undiverted(s, id, i, p)
  {
    hide Inv, NonOverlapping, Mapping.Covers, Wired.Takes, Lists, Haunts, SendsTo;
    var d := s.procs[id].d;
    TakesSomewhere(ws[m], j, p);
    forall x | x in s.procs && Haunts(s.procs[x], p) && Before(s.table, x, id)
      ensures m < k && (x == ws[m].d.id || Before(s.table, ws[m].d.id, x))
    {
      HaunterInFront(w, s, ws, k, m, x, p);
    }
    if m == k {
      SameMapping(s, ws, k, j, i, p);
    } else {
      var y := ws[m].d.id;
      FrontTakerHaunts(s, ws, m, k, i, p);
      FrontIsIndex(s, ws, m, k);
      forall x | x in s.procs && Haunts(s.procs[x], p)
        ensures !Before(s.table, x, y)
      {
        NoHaunterBefore(w, s, ws, m, x, p);
      }
      SendsWhere(s, ws, m, j, p, d.podIp, d.mappings[i].containerPort);
    }
  }

  /** A leftover that takes the packet in front of entry k is the first taker, or stands behind it. */
  lemma HaunterInFront(w: World, s: Sys, ws: seq<Wired>, k: nat, m: nat, x: string, p: Packet)
    requires Inv(w, s) && Lists(s, ws) && m <= k < |ws| && forall n | 0 <= n < m :: !ws[n].Takes(p)
    requires x in s.procs && Haunts(s.procs[x], p) && Before(s.table, x, ws[k].d.id)
    ensures m < k && (x == ws[m].d.id || Before(s.table, ws[m].d.id, x))
  {
    hide Inv, Wired.Takes, RulesTake, JumpUp;
    assert JumpUp(s.procs[x]);
    var h := ContainerIsEntry(w, s, ws, x);
    EntryIsContainer(s, ws, h, p);
    FrontIsIndex(s, ws, h, k);
    FrontIsIndex(s, ws, m, h);
  }

  lemma NoHaunterBefore(w: World, s: Sys, ws: seq<Wired>, m: nat, x: string, p: Packet)
    requires Inv(w, s) && Lists(s, ws) && m < |ws| && forall n | 0 <= n < m :: !ws[n].Takes(p)
    requires x in s.procs && Haunts(s.procs[x], p)
    ensures !Before(s.table, x, ws[m].d.id)
  {
    hide Inv, Wired.Takes, RulesTake;
    var h := ContainerIsEntry(w, s, ws, x);
    EntryIsContainer(s, ws, h, p);
    FrontIsIndex(s, ws, h, m);
  }

  /** A container sends a packet to one place only. */
  lemma SendsWhere(s: Sys, ws: seq<Wired>, m: nat, j: nat, p: Packet, podIp: Addr, port: Port)
    requires NonOverlapping(s.procs) && Lists(s, ws) && m < |ws|
    requires j < |ws[m].d.mappings| && TakesAt(ws[m].d.mappings, ws[m].n, j, p)
    ensures ws[m].d.id in s.procs
    ensures SendsTo(s.procs[ws[m].d.id], p, podIp, port)
            <==> ws[m].d.podIp == podIp && ws[m].d.mappings[j].containerPort == port
  {
    TakesSomewhere(ws[m], j, p);
    EntryIsContainer(s, ws, m, p);
    var q := s.procs[ws[m].d.id];
    OwnMapping(s.procs, ws[m].d.id, j, p);
    hide NonOverlapping, Lists, Mapping.Covers;
    assert forall i | 0 <= i < |q.d.mappings| && TakesAt(q.d.mappings, RulesUp(q), i, p) ::
        q.d.mappings[i] in q.d.mappings && q.d.mappings[i].Covers(p);
  }

  /** Once an ADD has completed, the hooked chains begin with the hook. */
  lemma HookInPlace(w: World, s: Sys, c: Chain, id: string)
    requires Inv(w, s) && Hooked(c) && id in s.procs && Settled(s.procs[id])
    ensures TableOk(w, s.table) && c in s.table && HOOK in s.table[c] && HostportDnat in s.table
  {
    hide ContainersOk, NoStrayChains, TopOk, Ranked;
    SharedUp(s, id, if c.Prerouting? then 1 else 2);
    SharedUp(s, id, 0);
  }

  lemma LivePublishers(procs: map<string, Proc>, x: string, id: string, i: nat, p: Packet)
    requires NonOverlapping(procs) && x in procs && id in procs && x != id && !procs[x].over && !procs[id].over
    requires i < |procs[id].d.mappings| && procs[id].d.mappings[i].Covers(p)
    ensures !TakenBy(procs[x], p)
  {
    forall j | 0 <= j < |procs[x].d.mappings|
      ensures !procs[x].d.mappings[j].Covers(p)
    {
      assert !Overlap(procs[x].d.mappings[j], procs[id].d.mappings[i]);
    }
  }

  lemma OwnMapping(procs: map<string, Proc>, id: string, i: nat, p: Packet)
    requires NonOverlapping(procs) && id in procs && i < |procs[id].d.mappings| && procs[id].d.mappings[i].Covers(p)
    ensures forall m | m in procs[id].d.mappings && m.Covers(p) :: m == procs[id].d.mappings[i]
  {
    forall m: Mapping | m in procs[id].d.mappings && m.Covers(p)
      ensures m == procs[id].d.mappings[i]
    {
      var j :| 0 <= j < |procs[id].d.mappings| && procs[id].d.mappings[j] == m;
      assert Overlap(procs[id].d.mappings[j], procs[id].d.mappings[i]);
    }
  }

  /** No container takes the packet. */
  ghost predicate Unpublished(procs: map<string, Proc>, p: Packet) {
    forall id | id in procs :: !TakenBy(procs[id], p)
  }

  /** Some marking rule that packets get to hits the packet. */
  ghost predicate MarkedInState(s: Sys, p: Packet) {
    exists id | id in s.procs :: MarkedBy(s.procs[id], p)
  }

  /**
   A packet that no container's reachable rules take is left to the rules of others: no DNAT
   happens, and it is marked exactly if a marking rule hits it all the same.
   */
  lemma UnpublishedInState(w: World, s: Sys, c: Chain, local: set<Addr>, p: Packet)
    requires Inv(w, s) && Hooked(c) && Unpublished(s.procs, p)
    ensures Ranked(s.table) && c in s.table && JumpsBelow(s.table, OthersIn(w, c), 4)
    ensures WalkChain(s.table, local, c, p)
            == Walk(s.table, local, OthersIn(w, c), 4,
                    if HOOK in s.table[c] && p.dst in local && MarkedInState(s, p) then Marked(p) else p)
  {
    var t := s.table;
    HookedSplit(w, t, c);
    var hooks := t[c][..|t[c]| - |OthersIn(w, c)|];
    if hooks == [] {
      assert HOOK !in t[c];
      assert t[c] == OthersIn(w, c);
    } else {
      assert hooks[0] in hooks;
      assert HOOK in t[c];
      TopIsWired(w, s);
      var ws := WiredOf(s.procs, t[HostportDnat]);
      hide TableOk, ContainersOk, NoStrayChains, TopOk;
      forall x | x in ws
        ensures !x.Takes(p)
      {
        StandingDoes(s.procs, x, p);
      }
      MarksMatch(w, s, p);
      HookedMisses(t, local, hooks, OthersIn(w, c), ws, p);
    }
  }

  /** What an entry standing for a container does to a packet is what the container does. */
  lemma StandingDoes(procs: map<string, Proc>, x: Wired, p: Packet)
    requires Stands(procs, x)
    ensures x.d.id in procs
    ensures x.Takes(p) <==> TakenBy(procs[x.d.id], p)
    ensures x.Marks(p) <==> MarkedBy(procs[x.d.id], p)
    ensures x.Takes(p) ==> x.d == procs[x.d.id].d && x.n == RulesUp(procs[x.d.id])
  {
  }

  lemma MarksMatch(w: World, s: Sys, p: Packet)
    requires Inv(w, s) && HostportDnat in s.table
    ensures forall r | r in s.table[HostportDnat] :: IsJumpOf(r, s.procs)
    ensures Passing(WiredOf(s.procs, s.table[HostportDnat]), p) == if MarkedInState(s, p) then Marked(p) else p
  {
    hide TableOk, NoStrayChains, ContainersOk, TopOk, RulesMark, JumpUp, RulesUp, Stands;
    TopIsWired(w, s);
    var ws := WiredOf(s.procs, s.table[HostportDnat]);
    if MarkedInState(s, p) {
      var id :| id in s.procs && MarkedBy(s.procs[id], p);
      var k := WiredIndex(w, s, id);
      assert ws[k] in ws && ws[k].d.id == id;
      StandingDoes(s.procs, ws[k], p);
    }
    if x: Wired :| x in ws && x.Marks(p) {
      StandingDoes(s.procs, x, p);
    }
  }

  // ------------------------------------------------------------------- removal

  /** In every run, a container that is not known has no chain, and nothing refers to it. */
  lemma UnknownContainerIsGone(w: World, events: seq<Event>, id: string)
    requires w.Valid() && id !in After(w, events).procs
    ensures Unused(After(w, events).table, id)
  {
    Always(w, events);
    Unreferenced(w, After(w, events), id);
  }

  /**
   In every run, the table holds of a known container exactly what the commands done for
   it amount to: its chain from its ninth step, its jump from its tenth until a deletion
   of it succeeds, and its rules as far as its ADD got until a flush succeeds.
   */
  lemma KnownContainerIsExact(w: World, events: seq<Event>, id: string)
    requires w.Valid() && id in After(w, events).procs
    ensures var s := After(w, events);
            var p := s.procs[id];
            && p.done <= |ApplySteps(p.d)|
            && (Dn(id) in s.table <==> ChainUp(p))
            && (HostportDnat in s.table && DnJump(id) in s.table[HostportDnat] <==> JumpUp(p))
            && (Dn(id) in s.table ==> s.table[Dn(id)] == Content(p))
  {
    Always(w, events);
    var s := After(w, events);
    hide TableOk;
    assert ContainerOk(s.table, id, s.procs[id]);
    if HostportDnat in s.table && DnJump(id) in s.table[HostportDnat] {
      assert IsJumpOf(DnJump(id), s.procs);
    }
  }

  /**
   When a DEL ends, in any run, the container is gone exactly if there was no chain, or the
   last command did not fail, the jump had been deleted and the chain was empty.
   */
  lemma DelEndsGoneIff(w: World, events: seq<Event>, id: string, fault: bool)
    requires w.Valid() && id in After(w, events).procs && After(w, events).procs[id].act == Deleting(2)
    ensures var p, s' := After(w, events).procs[id], Next(w, After(w, events), PluginStep(id, fault));
            && p.done <= |ApplySteps(p.d)|
            && (Unused(s'.table, id) <==> id !in s'.procs)
            && (Unused(s'.table, id) <==> !ChainUp(p) || (!fault && !JumpUp(p) && Content(p) == []))
            && (id in s'.procs ==> s'.procs[id] == p.(act := Idle, over := true))
  {
    var s := After(w, events);
    Always(w, events);
    KnownContainerIsExact(w, events, id);
    hide *;
    NextKeepsInv(w, s, PluginStep(id, fault));
    LastPluginCommand(w, s, id, fault);
    LastCommand(s.table, id, fault);
    if id !in Next(w, s, PluginStep(id, fault)).procs {
      Unreferenced(w, Next(w, s, PluginStep(id, fault)), id);
    }
    if !JumpUp(s.procs[id]) {
      Unreferenced(w, s, id);
    }
    UnusedMeans(Next(w, s, PluginStep(id, fault)).table, id);
  }

  lemma UnusedMeans(t: Table, id: string)
    ensures Unused(t, id) <==> Dn(id) !in t && !Referenced(t, Dn(id))
  {
  }

  lemma LastPluginCommand(w: World, s: Sys, id: string, fault: bool)
    requires id in s.procs && s.procs[id].act == Deleting(2)
    ensures var t', s' := DelTable(s.table, id, 2, fault), Next(w, s, PluginStep(id, fault));
            && s'.table == t' && (id in s'.procs <==> Dn(id) in t')
            && (id in s'.procs ==> s'.procs[id] == s.procs[id].(act := Idle, over := true))
  {
    hide DelTable;
  }

  /** The chain goes exactly if the command does not fail, the chain is empty and nothing refers to it. */
  lemma LastCommand(t: Table, id: string, fault: bool)
    ensures var t' := DelTable(t, id, 2, fault);
            Dn(id) in t' <==> Dn(id) in t && (fault || t[Dn(id)] != [] || Referenced(t, Dn(id)))
    ensures HostportDnat in t && DnJump(id) in t[HostportDnat] ==> Referenced(t, Dn(id))
  {
  }

  /** A DEL of a completed container, each of its commands failing or not. */
  function DelEvents(id: string, cutFails: bool, flushFails: bool, dropFails: bool): seq<Event> {
    [StartDel(id), PluginStep(id, cutFails), PluginStep(id, flushFails), PluginStep(id, dropFails)]
  }

  /**
   A DEL in any reachable state leaves the container's rules reachable exactly if both the
   deletion of its jump and the flush failed, and nothing at all exactly if no command failed.
   */
  lemma DelOutcome(w: World, events: seq<Event>, id: string, cutFails: bool, flushFails: bool, dropFails: bool)
    requires w.Valid() && id in After(w, events).procs && Settled(After(w, events).procs[id])
    requires After(w, events).procs[id].d.mappings != []
    ensures var s' := After(w, events + DelEvents(id, cutFails, flushFails, dropFails));
            && (id in s'.procs && Reachable(s'.procs[id]) <==> cutFails && flushFails)
            && (Unused(s'.table, id) <==> !cutFails && !flushFails && !dropFails)
            && (id in s'.procs ==>
                  var p, p' := After(w, events).procs[id], s'.procs[id]; p'.over && p'.done == p.done && p'.d == p.d)
  {
    var s, del := After(w, events), DelEvents(id, cutFails, flushFails, dropFails);
    var p := s.procs[id];
    var p2 := p.(act := Deleting(2), cut := !cutFails, flushed := !flushFails);
    Always(w, events);
    assert ContainerOk(s.table, id, p);
    assert !p.cut && !p.flushed;
    FourEvents(w, events, del);
    var three := events + del[..3];
    ThreeCommands(w, s, id, cutFails, flushFails);
    RulesLeft(p2);
    hide After, Next, Inv, ContainerOk, ApplySteps, Content;
    DelEndsGoneIff(w, three, id, dropFails);
  }

  lemma FourEvents(w: World, events: seq<Event>, more: seq<Event>)
    requires |more| == 4
    ensures After(w, events + more[..3]) == Next(w, Next(w, Next(w, After(w, events), more[0]), more[1]), more[2])
    ensures After(w, events + more) == Next(w, After(w, events + more[..3]), more[3])
  {
    hide Next, After;
    AfterOne(w, events, more[0]);
    AfterOne(w, events + [more[0]], more[1]);
    AfterOne(w, events + [more[0]] + [more[1]], more[2]);
    assert events + more[..3] == events + [more[0]] + [more[1]] + [more[2]];
    AfterOne(w, events + more[..3], more[3]);
    assert events + more == events + more[..3] + [more[3]];
  }

  lemma ThreeCommands(w: World, s: Sys, id: string, cutFails: bool, flushFails: bool)
    requires id in s.procs && s.procs[id].act.Idle? && !s.procs[id].cut && !s.procs[id].flushed
    ensures var s3 := Next(w, Next(w, Next(w, s, StartDel(id)), PluginStep(id, cutFails)), PluginStep(id, flushFails));
            id in s3.procs && s3.procs[id] == s.procs[id].(act := Deleting(2), cut := !cutFails, flushed := !flushFails)
  {
    hide DelTable;
  }

  /** Whether a container whose ADD completed has rules left. */
  lemma RulesLeft(p: Proc)
    requires p.done == |ApplySteps(p.d)| && p.d.mappings != []
    ensures Content(p) == [] <==> p.flushed
  {
    if p.flushed {
      assert p.d.Rules()[..0] == [];
    } else {
      var rules := p.d.Rules()[..RulesUp(p)];
      assert rules == p.d.Rules();
      DedupKeepsFirst(rules);
      assert rules[..1][..0] == [];
      assert Dedup(rules[..1]) == [rules[0]] && Dedup(rules[..1]) <= Dedup(rules);
    }
  }

  // --------------------------------------------------- what becomes of the others

  /** A command of another container's plugin leaves this one's chain and jump alone. */
  lemma PluginOnOthers(w: World, s: Sys, id: string, fault: bool, x: string)
    requires Inv(w, s) && id in s.procs && x != id
    ensures OthersSame(s.table, PluginCommand(s, id, fault).table, id, x)
  {
    var p := s.procs[id];
    assert ContainerOk(s.table, id, p);
    hide Inv, ContainerOk, AddCommand, DelTable, OthersSame;
    SameIsSame(s.table, id, x);
    if p.act.Adding? && p.act.pc < |ApplySteps(p.d)| {
      assert p.d.id == id by {
        ContainerNamed(s.table, id, p);
      }
      AddOnOthers(s.table, p, fault, x);
    } else if p.act.Deleting? {
      DelOnOthers(s.table, id, p.act.stage, fault, x);
    }
  }

  /** The chain of x stays, and the top chain does but for the jump of id. */
  predicate OthersSame(t: Table, t': Table, id: string, x: string) {
    && (Dn(x) in t' <==> Dn(x) in t) && (Dn(x) in t ==> t'[Dn(x)] == t[Dn(x)])
    && (HostportDnat in t ==>
          && HostportDnat in t'
          && (|| t'[HostportDnat] == t[HostportDnat]
              || t'[HostportDnat] == t[HostportDnat] + [DnJump(id)]
              || t'[HostportDnat] == RemoveFirst(t[HostportDnat], DnJump(id))))
    && (HostportDnat in t' && HostportDnat !in t ==> t'[HostportDnat] == [])
  }

  lemma SameIsSame(t: Table, id: string, x: string)
    ensures OthersSame(t, t, id, x)
  {
  }

  lemma ContainerNamed(t: Table, id: string, p: Proc)
    requires ContainerOk(t, id, p)
    ensures p.d.id == id
  {
  }

  lemma AddOnOthers(t: Table, p: Proc, fault: bool, x: string)
    requires p.act.Adding? && p.act.pc < |ApplySteps(p.d)| && x != p.d.id
    ensures OthersSame(t, AddCommand(t, p, fault).0, p.d.id, x)
  {
    var t' := AddCommand(t, p, fault).0;
    if t' != t {
      var step := ApplySteps(p.d)[p.act.pc];
      assert Exec(t, Edit(step)) == Some(t');
      SharedStepAt(p.d);
      if p.act.pc < 8 {
        assert step == SHARED_STEPS[p.act.pc];
      }
      hide AddCommand, ApplySteps;
    }
  }

  lemma DelOnOthers(t: Table, id: string, stage: nat, fault: bool, x: string)
    requires x != id
    ensures OthersSame(t, DelTable(t, id, stage, fault), id, x)
  {
  }

  lemma {:induction false} RemoveFirstOrder(rules: seq<Rule>, r: Rule, a: Rule, b: Rule)
    requires a != r && b != r
    ensures a in RemoveFirst(rules, r) <==> a in rules
    ensures InOrder(RemoveFirst(rules, r), a, b) <==> InOrder(rules, a, b)
  {
    if rules != [] && rules[0] != r {
      var rest := RemoveFirst(rules[1..], r);
      RemoveFirstOrder(rules[1..], r, a, b);
      RemoveFirstOrder(rules[1..], r, b, a);
      assert ([rules[0]] + rest)[1..] == rest;
    }
  }

  lemma {:induction false} AppendOrder(rules: seq<Rule>, r: Rule, a: Rule, b: Rule)
    requires a != r && b != r
    ensures InOrder(rules + [r], a, b) <==> InOrder(rules, a, b)
  {
    if rules != [] {
      assert (rules + [r])[1..] == rules[1..] + [r];
      AppendOrder(rules[1..], r, a, b);
    } else {
      assert [] + [r] == [r] && [r][1..] == [];
    }
  }

  /** Two containers' chains, jumps and the order of the jumps are as before. */
  ghost predicate Unmoved(t: Table, t': Table, x: string, y: string) {
    && (Dn(x) in t' <==> Dn(x) in t) && (Dn(x) in t ==> t'[Dn(x)] == t[Dn(x)])
    && (Wired1(t', x) <==> Wired1(t, x))
    && (Before(t', x, y) <==> Before(t, x, y))
  }

  predicate Wired1(t: Table, x: string) {
    HostportDnat in t && DnJump(x) in t[HostportDnat]
  }

  lemma EventLeavesOthers(w: World, s: Sys, e: Event, x: string, y: string)
    requires Inv(w, s) && (e.PluginStep? ==> e.id != x && e.id != y)
    ensures Unmoved(s.table, Next(w, s, e).table, x, y)
  {
    hide Inv;
    if e.PluginStep? && e.id in s.procs {
      PluginOnOthers(w, s, e.id, e.fault, x);
      if HostportDnat in s.table {
        var top, r := s.table[HostportDnat], DnJump(e.id);
        RemoveFirstOrder(top, r, DnJump(x), DnJump(y));
        AppendOrder(top, r, DnJump(x), DnJump(y));
      }
    }
  }

  /**
   Over any stretch of any run, whatever the other containers' ADDs and DELs do and however
   their commands fail, two containers whose plugin takes no step keep their chains, their
   jumps and the order of their jumps.
   */
  lemma {:induction false} OthersUnmoved(w: World, events: seq<Event>, k: nat, x: string, y: string)
    requires w.Valid() && k <= |events|
    requires forall j | k <= j < |events| && events[j].PluginStep? :: events[j].id != x && events[j].id != y
    ensures Unmoved(After(w, events[..k]).table, After(w, events).table, x, y)
  {
    if k == |events| {
      assert events[..k] == events;
    } else {
      var init := events[..|events| - 1];
      assert init[..k] == events[..k];
      OthersUnmoved(w, init, k, x, y);
      Always(w, init);
      EventLeavesOthers(w, After(w, init), events[|events| - 1], x, y);
    }
  }

  // ----------------------------------------- the ADD of the method, run alone

  /** n commands of one plugin process, nobody else running and nothing failing. */
  function Solo(w: World, s: Sys, id: string, n: nat): Sys {
    if n == 0 then s else Next(w, Solo(w, s, id, n - 1), PluginStep(id, false))
  }

  /** The state of an ADD about to take step pc, having done the steps before it. */
  ghost predicate SoloAt(s: Sys, s': Sys, id: string, pc: nat)
    requires id in s.procs
  {
    var steps := ApplySteps(s.procs[id].d);
    && pc <= |steps| && s'.table == RunPrefix(s.table, steps, pc)
    && id in s'.procs
    && s'.procs[id] == s.procs[id].(act := if pc == |steps| then Idle else Adding(pc, false),
                                    done := if s.procs[id].done <= pc then pc else s.procs[id].done)
  }

  lemma SoloStart(w: World, s: Sys, id: string, n: nat, pc: nat)
    requires id in s.procs && s.procs[id].act == Adding(0, false) && n == 0 == pc
    ensures SoloAt(s, Solo(w, s, id, n), id, pc)
  {
    assert s.procs[id := s.procs[id]] == s.procs;
  }

  /** The state after a step of an undisturbed ADD is as the next step expects. */
  lemma SoloNext(s: Sys, s1: Sys, s2: Sys, id: string, pc: nat)
    requires id in s.procs && SoloAt(s, s1, id, pc) && pc < |ApplySteps(s.procs[id].d)|
    requires s2 == s1.(table := DoStep(s1.table, ApplySteps(s1.procs[id].d)[pc]),
             procs := s1.procs[id := Advance(s1.procs[id], pc)])
    ensures SoloAt(s, s2, id, pc + 1)
  {
    NextPrefix(s.table, ApplySteps(s.procs[id].d), pc);
    hide DoStep, RunPrefix;
  }

  /** One or two commands make one step. */
  lemma SoloStep(w: World, s: Sys, id: string, n: nat, pc: nat) returns (m: nat)
    requires id in s.procs && Feasible(s.table, ApplySteps(s.procs[id].d))
    requires SoloAt(s, Solo(w, s, id, n), id, pc) && pc < |ApplySteps(s.procs[id].d)|
    ensures SoloAt(s, Solo(w, s, id, m), id, pc + 1)
  {
    hide Feasible, DoStep, CanStep, RunPrefix, Advance, Next;
    var s1 := Solo(w, s, id, n);
    var p := s1.procs[id];
    NextPrefix(s.table, ApplySteps(p.d), pc);
    m := StepEvents(w, s1, id);
    SoloNext(s, s1, Solo(w, s1, id, m), id, pc);
    SoloMore(w, s, id, n, m);
    m := n + m;
  }

  lemma {:induction false} SoloMore(w: World, s: Sys, id: string, n: nat, m: nat)
    ensures Solo(w, s, id, n + m) == Solo(w, Solo(w, s, id, n), id, m)
  {
    hide Next;
    if m > 0 {
      SoloMore(w, s, id, n, m - 1);
    }
  }

  lemma StepEvents(w: World, s: Sys, id: string) returns (m: nat)
    requires id in s.procs && s.procs[id].act.Adding? && !s.procs[id].act.absent
    requires var p := s.procs[id]; p.act.pc < |ApplySteps(p.d)| && CanStep(s.table, ApplySteps(p.d)[p.act.pc])
    ensures var p := s.procs[id];
            Solo(w, s, id, m) ==
            s.(table := DoStep(s.table, ApplySteps(p.d)[p.act.pc]), procs := s.procs[id := Advance(p, p.act.pc)])
  {
    var p := s.procs[id];
    StepCommands(s.table, p);
    var (t1, p1) := AddCommand(s.table, p, false);
    var s1 := s.(table := t1, procs := s.procs[id := p1]);
    hide DoStep, CanStep, AddCommand, Advance;
    assert Solo(w, s, id, 1) == s1 by {
      assert Solo(w, s, id, 0) == s;
    }
    if (t1, p1) == (DoStep(s.table, ApplySteps(p.d)[p.act.pc]), Advance(p, p.act.pc)) {
      m := 1;
    } else {
      m := 2;
      assert Solo(w, s, id, 2) == Next(w, s1, PluginStep(id, false));
      var (t2, p2) := AddCommand(t1, p1, false);
      assert s1.procs[id := p2] == s.procs[id := p2];
    }
  }

  /** The one or two commands of a step that can be done. */
  lemma StepCommands(t: Table, p: Proc)
    requires p.act.Adding? && !p.act.absent && p.act.pc < |ApplySteps(p.d)| && CanStep(t, ApplySteps(p.d)[p.act.pc])
    ensures var after := (DoStep(t, ApplySteps(p.d)[p.act.pc]), Advance(p, p.act.pc));
            var (t2, p2) := AddCommand(t, p, false);
            || (t2, p2) == after
            || (p2 == p.(act := Adding(p.act.pc, true)) && AddCommand(t2, p2, false) == after)
  {
  }

  /** Run alone, an ADD's process leaves exactly the table the Apply method leaves. */
  lemma SoloAddIsApply(w: World, s: Sys, id: string) returns (n: nat)
    requires id in s.procs && s.procs[id].act == Adding(0, false) && !s.procs[id].over
    requires s.procs[id].done <= |ApplySteps(s.procs[id].d)| && HasBuiltins(s.table)
    ensures var s' := Solo(w, s, id, n);
            && s'.table == RunAll(s.table, ApplySteps(s.procs[id].d))
            && id in s'.procs && Settled(s'.procs[id]) && s'.procs[id].d == s.procs[id].d
  {
    hide RunPrefix, HasBuiltins;
    n := SoloUpTo(w, s, id, |ApplySteps(s.procs[id].d)|);
  }

  lemma {:induction false} SoloUpTo(w: World, s: Sys, id: string, pc: nat) returns (n: nat)
    requires id in s.procs && s.procs[id].act == Adding(0, false)
    requires pc <= |ApplySteps(s.procs[id].d)| && HasBuiltins(s.table)
    ensures SoloAt(s, Solo(w, s, id, n), id, pc)
  {
    if pc == 0 {
      n := 0;
      SoloStart(w, s, id, n, pc);
    } else {
      ApplyFeasible(s.table, s.procs[id].d);
      hide *;
      n := SoloUpTo(w, s, id, pc - 1);
      n := SoloStep(w, s, id, n, pc - 1);
    }
  }

  /**
   In every run, each command of an ADD that does not fail gets it on: from the check of a step
   to its edit or to the next step, from the edit to the next step, from the last step to the end.
   So only failing commands keep an ADD from completing, whatever the others do meanwhile.
   */
  lemma AddGetsOn(w: World, events: seq<Event>, id: string)
    requires w.Valid() && id in After(w, events).procs && After(w, events).procs[id].act.Adding?
    ensures var p, procs := After(w, events).procs[id], After(w, events + [PluginStep(id, false)]).procs;
            && id in procs
            && (|| (!p.act.absent && procs[id].act == Adding(p.act.pc, true))
                || (p.act.pc + 1 < |ApplySteps(p.d)| && procs[id].act == Adding(p.act.pc + 1, false))
                || (p.act.pc + 1 == |ApplySteps(p.d)| && Settled(procs[id])))
  {
    var s := After(w, events);
    Always(w, events);
    NothingRefused(w, s, id);
    AfterOne(w, events, PluginStep(id, false));
    assert Ranked(s.table);
    hide *;
    InvContainer(w, s, id);
    CommandGetsOn(w, s, id);
  }

  lemma EditPossible(t: Table, step: Step)
    requires Ranked(t) && CanStep(t, step) && !step.EnsureChain?
    ensures Exec(t, Edit(step)).Some?
  {
    if Satisfied(t, step) {
      assert JumpsBelow(t, t[step.c], Rank(step.c));
    }
  }

  lemma CommandGetsOn(w: World, s: Sys, id: string)
    requires id in s.procs && s.procs[id].act.Adding? && ContainerOk(s.table, id, s.procs[id]) && Ranked(s.table)
    requires var p := s.procs[id]; p.act.pc < |ApplySteps(p.d)| && CanStep(s.table, ApplySteps(p.d)[p.act.pc])
    ensures var p, procs := s.procs[id], Next(w, s, PluginStep(id, false)).procs;
            && id in procs
            && (|| (!p.act.absent && procs[id].act == Adding(p.act.pc, true))
                || (p.act.pc + 1 < |ApplySteps(p.d)| && procs[id].act == Adding(p.act.pc + 1, false))
                || (p.act.pc + 1 == |ApplySteps(p.d)| && Settled(procs[id])))
  {
    var p := s.procs[id];
    if !ApplySteps(p.d)[p.act.pc].EnsureChain? {
      EditPossible(s.table, ApplySteps(p.d)[p.act.pc]);
    }
    hide Exec, CanStep, CheckFresh, ProgressOk, ChainUp, JumpUp;
  }

  /**
   An ADD whose pc-th step fails, at its first command or, if that found the rule absent, at its
   second, is over: the steps before it are done, the table is as after them, and nothing is retried.
   */
  lemma FailedAddIsPrefix(w: World, s: Sys, id: string, pc: nat) returns (n: nat)
    requires id in s.procs && s.procs[id].act == Adding(0, false) && !s.procs[id].over
    requires pc < |ApplySteps(s.procs[id].d)| && HasBuiltins(s.table)
    ensures Ended(s, Next(w, Solo(w, s, id, n), PluginStep(id, true)), id, pc)
    ensures var step := ApplySteps(s.procs[id].d)[pc];
            !step.EnsureChain? && !Satisfied(RunPrefix(s.table, ApplySteps(s.procs[id].d), pc), step) ==>
              Ended(s, Next(w, Solo(w, s, id, n + 1), PluginStep(id, true)), id, pc)
  {
    n := SoloUpTo(w, s, id, pc);
    hide RunPrefix;
  }

  /** The ADD that started in s is over with the steps before pc done, in this run or before. */
  ghost predicate Ended(s: Sys, s': Sys, id: string, pc: nat)
    requires id in s.procs && pc <= |ApplySteps(s.procs[id].d)|
  {
    && s'.table == RunPrefix(s.table, ApplySteps(s.procs[id].d), pc)
    && id in s'.procs
    && s'.procs[id] == s.procs[id].(act := Idle, done := if s.procs[id].done <= pc then pc else s.procs[id].done)
  }

  // ------------------------------------------------------ such a leftover, in a run

  function Steps(id: string, n: nat): seq<Event> {
    seq(n, i requires 0 <= i < n => PluginStep(id, false))
  }

  lemma {:induction false} SoloEvents(w: World, events: seq<Event>, id: string, n: nat)
    ensures After(w, events + Steps(id, n)) == Solo(w, After(w, events), id, n)
  {
    if n == 0 {
      assert events + Steps(id, n) == events;
    } else {
      hide Next, After;
      SoloEvents(w, events, id, n - 1);
      assert events + Steps(id, n) == events + Steps(id, n - 1) + [PluginStep(id, false)];
      AfterOne(w, events + Steps(id, n - 1), PluginStep(id, false));
    }
  }

  predicate Concerns(e: Event, id: string) {
    match e
    case StartAdd(d) => d.id == id
    case StartDel(x) => x == id
    case PluginStep(x, _) => x == id
    case _ => false
  }

  lemma OneKnown(w: World, s: Sys, e: Event, id: string, x: string)
    requires Concerns(e, id) && x != id
    ensures var procs' := Next(w, s, e).procs;
            (x in procs' <==> x in s.procs) && (x in procs' ==> procs'[x] == s.procs[x])
  {
    hide AddCommand, DelTable;
  }

  /** What one container's plugin does leaves the others as known. */
  lemma {:induction false} OthersKnown(w: World, events: seq<Event>, more: seq<Event>, id: string, x: string)
    requires (forall e | e in more :: Concerns(e, id)) && x != id
    ensures var procs, procs' := After(w, events).procs, After(w, events + more).procs;
            (x in procs' <==> x in procs) && (x in procs ==> procs'[x] == procs[x])
  {
    if more == [] {
      assert events + more == events;
    } else {
      var init, last := more[..|more| - 1], more[|more| - 1];
      assert events + more == (events + init) + [last] && last in more;
      assert forall e | e in init :: e in more;
      OthersKnown(w, events, init, id, x);
      AfterOne(w, events + init, last);
      hide *;
      assert Concerns(last, id);
      OneKnown(w, After(w, events + init), last, id, x);
    }
  }

  /** A new container's ADD can run to its end, and its jump is then the last of the top chain. */
  lemma AddCompletes(w: World, events: seq<Event>, d: Deployment) returns (more: seq<Event>)
    requires w.Valid() && d.id !in After(w, events).procs
    ensures forall e | e in more :: Concerns(e, d.id)
    ensures var s := After(w, events + more);
            && d.id in s.procs && Settled(s.procs[d.id]) && s.procs[d.id].d == d
            && HostportDnat in s.table && s.table[HostportDnat] != []
            && s.table[HostportDnat][|s.table[HostportDnat]| - 1] == DnJump(d.id)
  {
    var s := After(w, events);
    Always(w, events);
    UnknownContainerIsGone(w, events, d.id);
    TableHasBuiltins(w, s.table);
    AfterOne(w, events, StartAdd(d));
    var s1 := After(w, events + [StartAdd(d)]);
    assert s1.table == s.table && s1.procs[d.id] == Started(d);
    hide Inv, After, Solo, Settled, HasBuiltins;
    var n := SoloAddIsApply(w, s1, d.id);
    SoloEvents(w, events + [StartAdd(d)], d.id, n);
    ApplyInstallsDedup(s.table, d);
    more := [StartAdd(d)] + Steps(d.id, n);
    assert events + more == events + [StartAdd(d)] + Steps(d.id, n);
  }

  /**
   Two containers publish the same, one after the other: the ADD of the first completes, the
   first two commands of its DEL fail, the ADD of the second completes. From then on the
   second's packets go to the first one's address.
   */
  lemma LeftoverDiverts(w: World, first: Deployment, second: Deployment, c: Chain, local: set<Addr>, p: Packet)
    returns (events: seq<Event>)
    requires w.Valid() && first.id != second.id && Hooked(c) && p.dst in local
    requires |first.mappings| == 1 && second.mappings == first.mappings && first.mappings[0].Covers(p)
    ensures var s := After(w, events);
            && second.id in s.procs && Settled(s.procs[second.id]) && s.procs[second.id].d == second
            && NonOverlapping(s.procs) && Ranked(s.table) && c in s.table
            && var out := WalkChain(s.table, local, c, p); out.Dnated? && out.p.dst == first.podIp
  {
    events := RivalsCome(w, first, second);
    Always(w, events);
    hide After, Settled, WalkChain, Inv, Mapping.Covers, Reachable, NonOverlapping, Ranked;
    TwoPublishers(w, After(w, events), first, second, c, local, p);
  }

  lemma RivalsCome(w: World, first: Deployment, second: Deployment) returns (events: seq<Event>)
    requires w.Valid() && first.id != second.id && |first.mappings| == 1 && second.mappings == first.mappings
    ensures Rivals(After(w, events), first, second)
  {
    hide *;
    var gone := LeftoverComes(w, first);
    var more := AddCompletes(w, gone, second);
    forall x | x != second.id
      ensures x in After(w, gone + more).procs <==> x in After(w, gone).procs
      ensures x in After(w, gone).procs ==> After(w, gone + more).procs[x] == After(w, gone).procs[x]
    {
      OthersKnown(w, gone, more, second.id, x);
    }
    events := gone + more;
    AreRivals(After(w, events), first, second);
  }

  lemma AreRivals(s: Sys, first: Deployment, second: Deployment)
    requires first.id != second.id && |first.mappings| == 1 && second.mappings == first.mappings
    requires forall x :: x in s.procs <==> x == first.id || x == second.id
    requires s.procs[first.id].d == first && s.procs[second.id].d == second
    requires s.procs[first.id].over && Reachable(s.procs[first.id])
    requires s.procs[first.id].done == |ApplySteps(first)| && Settled(s.procs[second.id])
    requires HostportDnat in s.table && s.table[HostportDnat] != []
    requires s.table[HostportDnat][|s.table[HostportDnat]| - 1] == DnJump(second.id)
    ensures Rivals(s, first, second)
  {
  }

  /** A container whose ADD completed and whose DEL failed in its first two commands, and nobody else. */
  lemma LeftoverComes(w: World, d: Deployment) returns (events: seq<Event>)
    requires w.Valid() && d.mappings != []
    ensures var procs := After(w, events).procs;
            && (forall x :: x in procs <==> x == d.id) && procs[d.id].d == d
            && procs[d.id].over && Reachable(procs[d.id]) && procs[d.id].done == |ApplySteps(d)|
  {
    var add := AddCompletes(w, [], d);
    assert [] + add == add;
    hide After, Inv, DelEvents, ApplySteps, Reachable;
    DelOutcome(w, add, d.id, true, true, false);
    events := add + DelEvents(d.id, true, true, false);
    forall x | x != d.id
      ensures x !in After(w, events).procs
    {
      OthersKnownTwice(w, add, d.id, x);
    }
  }

  lemma OthersKnownTwice(w: World, add: seq<Event>, id: string, x: string)
    requires (forall e | e in add :: Concerns(e, id)) && x != id
    ensures x !in After(w, add + DelEvents(id, true, true, false)).procs
  {
    assert [] + add == add;
    OthersKnown(w, [], add, id, x);
    OthersKnown(w, add, DelEvents(id, true, true, false), id, x);
  }

  /** A complete leftover and a complete container with the same mapping, the latter last in the top chain. */
  ghost predicate Rivals(s: Sys, first: Deployment, second: Deployment) {
    && first.id != second.id && |first.mappings| == 1 && second.mappings == first.mappings
    && s.procs.Keys == {first.id, second.id} && s.procs[first.id].d == first && s.procs[second.id].d == second
    && s.procs[first.id].over && Reachable(s.procs[first.id])
    && s.procs[first.id].done == |ApplySteps(first)| && Settled(s.procs[second.id])
    && HostportDnat in s.table && s.table[HostportDnat] != []
    && s.table[HostportDnat][|s.table[HostportDnat]| - 1] == DnJump(second.id)
  }

  lemma RivalsAre(s: Sys, first: Deployment, second: Deployment)
    requires Rivals(s, first, second)
    ensures first.id in s.procs && second.id in s.procs && forall y | y in s.procs :: y == first.id || y == second.id
    ensures s.procs[first.id].d == first && s.procs[second.id].d == second && Settled(s.procs[second.id])
    ensures |first.mappings| == 1 && second.mappings == first.mappings
    ensures first.id != second.id && JumpUp(s.procs[first.id]) && HostportDnat in s.table
    ensures var top := s.table[HostportDnat]; top != [] && top[|top| - 1] == DnJump(second.id)
  {
  }

  lemma RivalsHaunt(s: Sys, first: Deployment, second: Deployment, p: Packet)
    requires Rivals(s, first, second) && first.mappings[0].Covers(p)
    ensures NonOverlapping(s.procs) && Haunts(s.procs[first.id], p) && !Haunts(s.procs[second.id], p)
  {
    hide Mapping.Covers;
    assert TakesAt(first.mappings, RulesUp(s.procs[first.id]), 0, p);
  }

  lemma RivalInFront(w: World, s: Sys, first: Deployment, second: Deployment)
    requires Inv(w, s) && Rivals(s, first, second)
    ensures Before(s.table, first.id, second.id) && !Before(s.table, first.id, first.id)
  {
    hide *;
    RivalsAre(s, first, second);
    TopIsListed(w, s, first.id);
    var top, ws := s.table[HostportDnat], WiredOf(s.procs, s.table[HostportDnat]);
    var h := ContainerIsEntry(w, s, ws, first.id);
    IndexOfJump(s, ws, |top| - 1, second.id);
    FrontIsIndex(s, ws, h, h);
    FrontIsIndex(s, ws, h, |top| - 1);
    ListedLength(s, ws);
  }

  lemma ListedLength(s: Sys, ws: seq<Wired>)
    requires Lists(s, ws)
    ensures HostportDnat in s.table && |ws| == |s.table[HostportDnat]|
  {
  }

  lemma TwoPublishers(w: World, s: Sys, first: Deployment, second: Deployment, c: Chain, local: set<Addr>, p: Packet)
    requires Inv(w, s) && Rivals(s, first, second) && Hooked(c) && p.dst in local && first.mappings[0].Covers(p)
    ensures NonOverlapping(s.procs) && Ranked(s.table) && c in s.table
    ensures var out := WalkChain(s.table, local, c, p); out.Dnated? && out.p.dst == first.podIp
  {
    hide *;
    RivalsAre(s, first, second);
    RivalsHaunt(s, first, second, p);
    RivalInFront(w, s, first, second);
    assert forall y | y in s.procs :: y == first.id || y == second.id;
    DivertedToFirst(w, s, c, local, second.id, 0, first.id, p);
    var out := WalkChain(s.table, local, c, p);
    SendsToItsPod(s.procs[first.id], p, out.p.dst, out.p.dport);
  }

  lemma SendsToItsPod(q: Proc, p: Packet, podIp: Addr, port: Port)
    requires SendsTo(q, p, podIp, port)
    ensures podIp == q.d.podIp
  {
  }
}
