/**
 Checks that are answered wrongly: a `-C` that exits nonzero although the rule is there, so
 that the wrapper adds a second copy. What packets meet survives that, and so does the shape
 of the table; the one copy per rule, and with it a DEL's one `-D`, does not.
 */
module FalseChecks {
  import opened Wrappers
  import opened Ipv4
  import opened NatTable
  import opened PortMap
  import opened Dispatch
  import opened IpMasq
  import opened NatSystem

  /** The table after a step that is done although its rule is there already. */
  function Repeated(t: Table, s: Step): Table
    requires s.c in t
  {
    match s
    case EnsureChain(_) => t
    case EnsureRule(c, r) => t[c := t[c] + [r]]
    case InsertRule(c, r) => t[c := [r] + t[c]]
  }

  /** In a container's chain: another copy changes nothing for any packet. */
  lemma RepeatedRuleHarmless(rules: seq<Rule>, r: Rule, p: Packet)
    requires r in rules && forall x | x in rules :: ContainerRule(x)
    ensures Meaning(rules + [r], p) == Meaning(rules, p)
  {
    assert (rules + [r])[..|rules|] == rules;
    DedupTransparent(rules, p);
    DedupTransparent(rules + [r], p);
  }

  /** In the top chain: another jump to a container that is wired already changes nothing for any packet. */
  lemma RepeatedJumpHarmless(t: Table, local: set<Addr>, ws: seq<Wired>, w: Wired, p: Packet)
    requires TopChainOf(t, ws) && w in ws && JumpsBelow(t, Jumps(ws), 3) && JumpsBelow(t, Jumps(ws + [w]), 3)
    requires forall x, m, n | x in ws && m in x.d.mappings && n in x.d.mappings && m.Covers(p) && n.Covers(p) ::
               m.containerPort == n.containerPort
    ensures Walk(t, local, Jumps(ws + [w]), 3, p) == Walk(t, local, Jumps(ws), 3, p)
  {
    if exists i | 0 <= i < |ws| :: ws[i].Takes(p) {
      var k := FirstTaking(ws, p);
      SameTaker(t, local, ws, w, k, p);
    } else {
      var longer := ws + [w];
      assert forall x :: x in longer <==> x in ws;
      hide Walk, Jumps, Wired.Takes, Wired.Marks;
      TopMisses(t, local, ws, p);
      TopMisses(t, local, longer, p);
    }
  }

  lemma SameTaker(t: Table, local: set<Addr>, ws: seq<Wired>, w: Wired, k: nat, p: Packet)
    requires TopChainOf(t, ws) && w in ws && JumpsBelow(t, Jumps(ws), 3) && JumpsBelow(t, Jumps(ws + [w]), 3)
    requires k < |ws| && ws[k].Takes(p) && forall i | 0 <= i < k :: !ws[i].Takes(p)
    requires forall m, n | m in ws[k].d.mappings && n in ws[k].d.mappings && m.Covers(p) && n.Covers(p) ::
               m.containerPort == n.containerPort
    ensures Walk(t, local, Jumps(ws + [w]), 3, p) == Walk(t, local, Jumps(ws), 3, p)
  {
    var longer := ws + [w];
    var i :| 0 <= i < |ws[k].d.mappings| && TakesAt(ws[k].d.mappings, ws[k].n, i, p);
    var port := ws[k].d.mappings[i].containerPort;
    assert longer[..k] == ws[..k] && longer[k] == ws[k] && forall x | x in longer :: x in ws;
    hide Walk, Jumps, Wired.Takes, Wired.Marks, Mapping.Covers;
    TopHits(t, local, ws, k, p, port);
    TopHits(t, local, longer, k, p, port);
  }

  lemma FirstTaking(ws: seq<Wired>, p: Packet) returns (k: nat)
    requires exists i | 0 <= i < |ws| :: ws[i].Takes(p)
    ensures k < |ws| && ws[k].Takes(p) && forall i | 0 <= i < k :: !ws[i].Takes(p)
  {
    k := 0;
    while !ws[k].Takes(p)
      invariant k < |ws| && forall i | 0 <= i < k :: !ws[i].Takes(p)
      invariant exists i | k <= i < |ws| :: ws[i].Takes(p)
      decreases |ws| - k
    {
      k := k + 1;
    }
  }

  /** In the daemon's rules: another copy keeps the order, and changes nothing for any packet. */
  lemma RepeatedMasqRuleHarmless(n: Nets, t: Table, local: set<Addr>, rules: seq<Rule>, r: Rule, p: Packet)
    requires r in rules && forall x | x in rules :: IsMasqRule(n, x)
    requires Ranked(t) && JumpsBelow(t, rules, 4) && JumpsBelow(t, rules + [r], 4)
    ensures Ordered(n, rules) ==> Ordered(n, rules + [r])
    ensures Walk(t, local, rules + [r], 4, p) == Walk(t, local, rules, 4, p)
  {
    if Ordered(n, rules) {
      var longer := rules + [r];
      forall k | 0 <= k < |longer|
        ensures IsKind(n, 1, longer[k]) ==> MasqRules(n)[0] in longer[..k]
        ensures IsKind(n, 3, longer[k]) ==> MasqRules(n)[2] in longer[..k]
      {
        var j: nat;
        if k < |rules| {
          j := k;
        } else {
          j :| j < |rules| && rules[j] == r;
        }
        assert rules[j] == longer[k] && rules[..j] == longer[..k][..j];
      }
    }
    FirstMatchStays(n, t, local, rules, [r], p);
  }

  lemma {:induction false} FirstMatchStays(n: Nets, t: Table, local: set<Addr>, rules: seq<Rule>, more: seq<Rule>,
                                           p: Packet)
    requires (forall x | x in rules :: IsMasqRule(n, x)) && (forall x | x in more :: IsMasqRule(n, x))
    requires forall x | x in more && Matches(local, x, p) :: exists y | y in rules :: Matches(local, y, p)
    requires Ranked(t) && JumpsBelow(t, rules, 4) && JumpsBelow(t, rules + more, 4)
    ensures Walk(t, local, rules + more, 4, p) == Walk(t, local, rules, 4, p)
  {
    assert forall x | IsMasqRule(n, x) :: !x.target.Jump? && !x.target.SetMark?;
    if rules == [] {
      assert rules + more == more;
      NothingMatches(t, local, more, p);
    } else {
      assert rules[0] in rules && forall x | x in rules[1..] :: x in rules;
      assert (rules + more)[0] == rules[0] && (rules + more)[1..] == rules[1..] + more;
      assert forall x | x in rules[1..] + more :: x in rules + more;
      if !Matches(local, rules[0], p) {
        assert forall y | y in rules && Matches(local, y, p) :: y in rules[1..];
        FirstMatchStays(n, t, local, rules[1..], more, p);
      }
    }
  }

  lemma {:induction false} NothingMatches(t: Table, local: set<Addr>, rules: seq<Rule>, p: Packet)
    requires Ranked(t) && JumpsBelow(t, rules, 4) && forall r | r in rules :: !Matches(local, r, p)
    ensures Walk(t, local, rules, 4, p) == Fall(p)
  {
    if rules != [] {
      assert rules[0] in rules && forall r | r in rules[1..] :: r in rules;
      NothingMatches(t, local, rules[1..], p);
    }
  }

  /** Hooks first, masquerade jumps before the daemon's rules, jumps downwards: repeated steps of any ADD keep it. */
  lemma RepeatedStepKeepsTable(w: World, t: Table, d: Deployment, i: nat)
    requires TableOk(w, t) && i < |ApplySteps(d)| && Satisfied(t, ApplySteps(d)[i])
    ensures TableOk(w, Repeated(t, ApplySteps(d)[i]))
  {
    var s := ApplySteps(d)[i];
    StepsKnown(d, i);
    hide ApplySteps, Ranked, HooksOk, SharedOk, PostOk;
    RankedRepeat(t, s);
    RepeatKeepsHooks(w, t, s, d.id);
    RepeatKeepsShared(t, s, d.id);
    RepeatKeepsPost(w.nets, t, s, d.id);
  }

  /** One of the steps of an ADD. */
  predicate StepOf(s: Step, id: string) {
    || s in SHARED_STEPS || s == EnsureChain(Dn(id)) || s == EnsureRule(HostportDnat, DnJump(id))
    || (s.EnsureRule? && s.c == Dn(id))
  }

  lemma LedByMore(rules: seq<Rule>, r: Rule, tail: seq<Rule>)
    requires LedBy(rules, r, tail)
    ensures LedBy([r] + rules, r, tail)
  {
    var longer := [r] + rules;
    assert longer[|longer| - |tail|..] == rules[|rules| - |tail|..];
  }

  lemma RepeatKeepsHooks(w: World, t: Table, s: Step, id: string)
    requires HooksOk(w, t) && Satisfied(t, s) && StepOf(s, id)
    ensures HooksOk(w, Repeated(t, s))
  {
    LedByMore(t[Prerouting], HOOK, w.preOthers);
    LedByMore(t[Output], HOOK, w.outOthers);
    hide LedBy;
    forall c | c in t && (c.Prerouting? || c.Output?)
      ensures Repeated(t, s)[c] == t[c] || Repeated(t, s)[c] == [HOOK] + t[c]
    {
    }
  }

  lemma RepeatKeepsShared(t: Table, s: Step, id: string)
    requires SharedOk(t) && Satisfied(t, s) && StepOf(s, id)
    ensures SharedOk(Repeated(t, s))
  {
  }

  lemma RepeatKeepsPost(n: Nets, t: Table, s: Step, id: string)
    requires PostOk(n, t) && Satisfied(t, s) && StepOf(s, id)
    ensures PostOk(n, Repeated(t, s))
  {
    var t' := Repeated(t, s);
    hide IsMasqRule;
    var k :| 0 <= k <= |t[Postrouting]| && JumpsThenDaemon(n, t[Postrouting], k);
    if s == InsertRule(Postrouting, MASQ_JUMP) {
      assert t'[Postrouting][..k + 1] == [MASQ_JUMP] + t[Postrouting][..k];
      assert t'[Postrouting][k + 1..] == t[Postrouting][k..];
      assert JumpsThenDaemon(n, t'[Postrouting], k + 1);
    } else {
      assert t'[Postrouting] == t[Postrouting];
    }
  }

  lemma StepsKnown(d: Deployment, i: nat)
    requires i < |ApplySteps(d)|
    ensures StepOf(ApplySteps(d)[i], d.id)
  {
    SharedStepAt(d);
  }

  lemma RankedRepeat(t: Table, s: Step)
    requires Ranked(t) && Satisfied(t, s)
    ensures Ranked(Repeated(t, s))
  {
  }

  function Count(rules: seq<Rule>, r: Rule): nat {
    if rules == [] then 0 else (if rules[0] == r then 1 else 0) + Count(rules[1..], r)
  }

  lemma {:induction false} CountsIn(rules: seq<Rule>, r: Rule)
    ensures r in rules <==> Count(rules, r) > 0
    ensures r in RemoveFirst(rules, r) <==> Count(rules, r) > 1
  {
    if rules != [] {
      CountsIn(rules[1..], r);
    }
  }

  /** A DEL none of whose commands fails leaves nothing of a container exactly if its jump is not there twice. */
  lemma DelCompleteIffOneJump(t: Table, id: string)
    requires HostportDnat in t && Dn(id) in t
    requires forall c, r | c in t && r in t[c] && r.target == Jump(Dn(id)) :: c == HostportDnat && r == DnJump(id)
    ensures Unused(Removed(t, id), id) <==> Count(t[HostportDnat], DnJump(id)) <= 1
    ensures var t' := Removed(t, id);
            Dn(id) in t' ==> t'[Dn(id)] == [] && DnJump(id) in t'[HostportDnat]
  {
    var top, j := t[HostportDnat], DnJump(id);
    CountsIn(top, j);
    var cut := Attempt(t, Delete(HostportDnat, j));
    var flushed := Attempt(cut, Flush(Dn(id)));
    RemovedIn(top, j);
    assert flushed[Dn(id)] == [] && flushed.Keys == t.Keys;
    assert j in flushed[HostportDnat] <==> Count(top, j) > 1;
    if j in flushed[HostportDnat] {
      assert Referenced(flushed, Dn(id));
    } else {
      forall c, r: Rule | c in flushed && r in flushed[c]
        ensures r.target != Jump(Dn(id))
      {
        assert c != Dn(id) ==> r in t[c];
      }
    }
  }

  lemma {:induction false} RemovedIn(rules: seq<Rule>, r: Rule)
    ensures forall x | x in RemoveFirst(rules, r) :: x in rules
  {
    if rules != [] {
      RemovedIn(rules[1..], r);
    }
  }
}
