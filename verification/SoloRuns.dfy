/**
 The interleaved commands against the methods: a tick and a DEL that nobody disturbs leave
 what `IpMasq.Ensure` and `PortMap.Remove` leave, whichever commands fail, and what a tick
 makes of an empty chain. For an ADD see `NatRuns.SoloAddIsApply` and `FailedAddIsPrefix`.
 */
module SoloRuns {
  import opened Wrappers
  import opened Ipv4
  import opened NatTable
  import opened PortMap
  import opened IpMasq
  import opened NatSystem
  import opened NatRuns

  // ---------------------------------------------------------------------- a tick

  /** Commands of the tick under way, one after the other, failing as told. */
  function Ticked(w: World, s: Sys, faults: seq<bool>): Sys {
    if faults == [] then s else Next(w, Ticked(w, s, faults[..|faults| - 1]), TickStep(faults[|faults| - 1]))
  }

  lemma {:induction false} TickedOn(w: World, s: Sys, first: seq<bool>, then_: seq<bool>)
    ensures Ticked(w, s, first + then_) == Ticked(w, Ticked(w, s, first), then_)
  {
    hide Next;
    if then_ == [] {
      assert first + then_ == first;
    } else {
      var all, k := first + then_, |then_| - 1;
      assert all[..|all| - 1] == first + then_[..k];
      TickedOn(w, s, first, then_[..k]);
    }
  }

  /** The commands issued for one rule: one to four, and which of them fail. */
  function Issued(t: Table, n: Nets, i: nat, f: RuleFaults): seq<bool>
    requires i < 4
  {
    var rule := MasqRules(n)[i];
    if f.check || Satisfied(t, EnsureRule(Postrouting, rule)) then [f.check]
    else if rule.target.Return? || (Postrouting in t && !f.append) then [false, f.append]
    else if f.checkStripped || Satisfied(t, EnsureRule(Postrouting, Stripped(rule))) then
      [false, f.append, f.checkStripped]
    else [false, f.append, false, f.appendStripped]
  }

  lemma TickedFew(w: World, s: Sys, a: bool, b: bool, c: bool, d: bool)
    ensures Ticked(w, s, []) == s
    ensures Ticked(w, s, [a]) == Next(w, s, TickStep(a))
    ensures Ticked(w, s, [a, b]) == Next(w, Ticked(w, s, [a]), TickStep(b))
    ensures Ticked(w, s, [a, b, c]) == Next(w, Ticked(w, s, [a, b]), TickStep(c))
    ensures Ticked(w, s, [a, b, c, d]) == Next(w, Ticked(w, s, [a, b, c]), TickStep(d))
  {
    hide Next;
    assert [a][..0] == [] && [a, b][..1] == [a] && [a, b, c][..2] == [a, b] && [a, b, c, d][..3] == [a, b, c];
  }

  /** A check finds the rule, or sends the tick on to append it. */
  lemma CheckTicked(w: World, s: Sys, i: nat, stripped: bool, fault: bool)
    requires i < 4 && s.ticker == At(i, if stripped then CheckingStripped else Checking)
    ensures var rule := if stripped then Stripped(MasqRules(w.nets)[i]) else MasqRules(w.nets)[i];
            Next(w, s, TickStep(fault))
            == s.(ticker := if fault then Resting
                            else if Satisfied(s.table, EnsureRule(Postrouting, rule)) then NextRule(i)
                            else At(i, if stripped then AppendingStripped else Appending))
  {
    hide MasqRules, Stripped, NextRule;
  }

  /** An append adds the rule, or sends the tick on to its stripped form, or ends it. */
  lemma AppendTicked(w: World, s: Sys, i: nat, stripped: bool, fault: bool)
    requires i < 4 && s.ticker == At(i, if stripped then AppendingStripped else Appending)
    ensures var rule := if stripped then Stripped(MasqRules(w.nets)[i]) else MasqRules(w.nets)[i];
            Next(w, s, TickStep(fault))
            == if Postrouting in s.table && !fault then
                 s.(table := s.table[Postrouting := s.table[Postrouting] + [rule]], ticker := NextRule(i))
               else s.(ticker := if rule.target.Return? || stripped then Resting else At(i, CheckingStripped))
  {
    MasqTarget(w.nets, i);
    hide MasqRules, Stripped, NextRule;
  }

  /** The commands a tick issues for one rule do what seeing to that rule does, whichever of them fail. */
  lemma RuleIsSeenTo(w: World, s: Sys, i: nat, f: RuleFaults)
    requires i < 4 && s.ticker == At(i, Checking)
    ensures var (t, status) := RuleSeenTo(s.table, w.nets, i, f);
            Ticked(w, s, Issued(s.table, w.nets, i, f))
            == s.(table := t, ticker := if status.Pass? then NextRule(i) else Resting)
  {
    var t, rule := s.table, MasqRules(w.nets)[i];
    MasqTarget(w.nets, i);
    CheckTicked(w, s, i, false, f.check);
    hide Ticked, MasqRules, Stripped, Next, NextRule;
    if f.check || Satisfied(t, EnsureRule(Postrouting, rule)) {
      TickedFew(w, s, f.check, false, false, false);
    } else {
      TickedFew(w, s, false, f.append, f.checkStripped, f.appendStripped);
      var s1 := s.(ticker := At(i, Appending));
      AppendTicked(w, s1, i, false, f.append);
      if !(rule.target.Return? || (Postrouting in t && !f.append)) {
        CheckTicked(w, s.(ticker := At(i, CheckingStripped)), i, true, f.checkStripped);
        AppendTicked(w, s.(ticker := At(i, AppendingStripped)), i, true, f.appendStripped);
        TickedFew(w, s, false, f.append, false, f.appendStripped);
      }
    }
  }

  /**
   Undisturbed, the interleaved commands of a tick do what `Ensure` does, whichever of them
   fail: the same table, the same rule reached, and the end at the first rule that fails.
   */
  lemma {:induction false} SoloTickIsEnsure(w: World, s: Sys, fs: seq<RuleFaults>) returns (faults: seq<bool>)
    requires s.ticker == At(0, Checking) && |fs| <= 4
    ensures var (t, status) := SeenTo(s.table, w.nets, fs);
            Ticked(w, s, faults)
            == s.(table := t, ticker := if status.Pass? && |fs| < 4 then At(|fs|, Checking) else Resting)
  {
    if fs == [] {
      faults := [];
    } else {
      var i := |fs| - 1;
      faults := SoloTickIsEnsure(w, s, fs[..i]);
      hide RuleSeenTo, Issued, Next;
      var before := Ticked(w, s, faults);
      if SeenTo(s.table, w.nets, fs[..i]).1.Pass? {
        RuleIsSeenTo(w, before, i, fs[i]);
        TickedOn(w, s, faults, Issued(before.table, w.nets, i, fs[i]));
        faults := faults + Issued(before.table, w.nets, i, fs[i]);
      }
    }
  }

  /** The four rules, in full; backends without `--random-fully` get them without it. */
  function FourRules(n: Nets, randomFully: bool): seq<Rule> {
    [ Rule(None, In(n.network), In(n.network), None, false, false, Return),
      Rule(None, In(n.network), NotIn(Ipv4Network(0xE000_0000, 4)), None, false, false, Masquerade(randomFully)),
      Rule(None, NotIn(n.network), In(n.subnet), None, false, false, Return),
      Rule(None, NotIn(n.network), In(n.network), None, false, false, Masquerade(randomFully)) ]
  }

  /** In an empty chain an `Ensure` without failures leaves the four rules, each asking for `--random-fully`. */
  lemma FreshTick(n: Nets, t: Table)
    requires Postrouting in t && t[Postrouting] == []
    ensures RunAll(t, MasqSteps(n)) == t[Postrouting := FourRules(n, true)]
  {
    NoSteps(t, MasqSteps(n));
    var i := 0;
    assert MasqRules(n) == FourRules(n, true) && FourRules(n, true)[..0] == [];
    assert t == t[Postrouting := []];
    hide RunPrefix;
    while i < 4
      invariant i <= 4 && RunPrefix(t, MasqSteps(n), i) == t[Postrouting := FourRules(n, true)[..i]]
      decreases 4 - i
    {
      NextMasqStep(n, t, i);
      RulesApart(n, true, i);
      i := i + 1;
    }
    assert FourRules(n, true)[..4] == FourRules(n, true);
  }

  lemma RulesApart(n: Nets, randomFully: bool, i: nat)
    requires i < 4
    ensures FourRules(n, randomFully)[i] !in FourRules(n, randomFully)[..i]
    ensures FourRules(n, randomFully)[..i + 1] == FourRules(n, randomFully)[..i] + [FourRules(n, randomFully)[i]]
  {
  }

  /** Every append that asks for `--random-fully` is refused. */
  const OLD_BACKEND: seq<RuleFaults> :=
    [NO_RULE_FAULTS, NO_RULE_FAULTS.(append := true), NO_RULE_FAULTS, NO_RULE_FAULTS.(append := true)]

  lemma OldRule(n: Nets, t: Table, i: nat)
    requires i < 4 && Postrouting in t && t[Postrouting] == FourRules(n, false)[..i]
    ensures RuleSeenTo(t, n, i, OLD_BACKEND[i]) == (t[Postrouting := FourRules(n, false)[..i + 1]], Pass)
  {
    RulesApart(n, false, i);
    assert FourRules(n, false)[i] == Stripped(MasqRules(n)[i]) && MasqRules(n)[i] !in FourRules(n, false)[..i];
  }

  /** In an empty chain a backend that refuses `--random-fully` is left with the four rules without it. */
  lemma OldBackendTick(n: Nets, t: Table)
    requires Postrouting in t && t[Postrouting] == []
    ensures SeenTo(t, n, OLD_BACKEND) == (t[Postrouting := FourRules(n, false)], Pass)
  {
    assert FourRules(n, false)[..0] == [] && OLD_BACKEND[..0] == [] && t == t[Postrouting := []];
    assert OLD_BACKEND[..4] == OLD_BACKEND && FourRules(n, false)[..4] == FourRules(n, false);
    hide FourRules, RuleSeenTo, OLD_BACKEND;
    var i := 0;
    while i < 4
      invariant i <= 4 && SeenTo(t, n, OLD_BACKEND[..i]) == (t[Postrouting := FourRules(n, false)[..i]], Pass)
      decreases 4 - i
    {
      var before := t[Postrouting := FourRules(n, false)[..i]];
      OldRule(n, before, i);
      assert before[Postrouting := FourRules(n, false)[..i + 1]] == t[Postrouting := FourRules(n, false)[..i + 1]];
      assert OLD_BACKEND[..i + 1][..i] == OLD_BACKEND[..i];
      i := i + 1;
    }
  }

  // ----------------------------------------------------------------------- a DEL

  /** Undisturbed, a DEL leaves exactly the table that `Remove` leaves, whichever of its commands fail. */
  lemma SoloDelIsRemove(w: World, events: seq<Event>, id: string, cutFails: bool, flushFails: bool, dropFails: bool)
    requires id in After(w, events).procs && After(w, events).procs[id].act.Idle?
    ensures After(w, events + DelEvents(id, cutFails, flushFails, dropFails)).table
            == RemovedBut(After(w, events).table, id, cutFails, flushFails, dropFails)
  {
    var s := After(w, events);
    FourEvents(w, events, DelEvents(id, cutFails, flushFails, dropFails));
    hide After;
    var s1 := Next(w, s, StartDel(id));
    assert s1.table == s.table && s1.procs[id].act == Deleting(0);
    hide Tried;
    var s2 := Next(w, s1, PluginStep(id, cutFails));
    assert s2.table == Tried(s.table, Delete(HostportDnat, DnJump(id)), cutFails) && s2.procs[id].act == Deleting(1);
    var s3 := Next(w, s2, PluginStep(id, flushFails));
    assert s3.table == Tried(s2.table, Flush(Dn(id)), flushFails) && s3.procs[id].act == Deleting(2);
  }
}
