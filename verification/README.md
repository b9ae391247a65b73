# flannel-rs: a Dafny model

This project models the three parts of flannel-rs that keep state over time, and the
arithmetic and text formats they rest on, and proves what each guarantees over whole runs.

**The nat table and its writers.** `NatTable.dfy` gives the nat table as a map from chains
to rule lists, the iptables commands with their success and failure conditions, a packet
interpreter (first match wins, RETURN, jumps that fall back to the caller, MARK that does not
stop, DNAT and MASQUERADE that do) and the check-then-edit wrapper as a class. `PortMap.dfy` is
the portmap plugin's program for one container and its teardown, `IpMasq.dfy` the daemon's four
rules. `Dispatch.dfy` says what packets meet in the chains the plugin builds. `NatSystem.dfy`
puts any number of ADDs and DELs, the daemon's ticks and flushes by others on one table, one
iptables command at a time, any of which may fail, and proves one invariant of every
interleaving; `NatRuns.dfy` and `PostRuns.dfy` draw the consequences for packets. `SoloRuns.dfy`
ties the single commands back to the methods, failures included, and `FalseChecks.dfy` says what a
wrongly answered check does.

**The peer controller and the kernel tables.** `Netlink.dfy` models routes, neighbours and
forwarding entries as slots of one map and the netlink operations on them, each request being
handled, refused or unanswered. `Peers.dfy` is the diff, `Controller.dfy` the reconcile pass as
a class over the socket, `Agreement.dfy` and `Reconciling.dfy` prove when memory and kernel
tables agree over passes and runs, with the exact condition under which a pass keeps agreement.
`Lease.dfy` is the publishing and reading of leases in node objects, `FullMesh.dfy` the
end-to-end forwarding result, and `MeshRuns.dfy` shows that such runs exist.

**The host-local IPAM.** `Alloc.dfy` is the subnet arithmetic and the cyclic search,
`Store.dfy` the lease directory, `HostLocal.dfy` the three commands, `IpamRuns.dfy` the
sequential runs (round robin, conservation of leases), `Bridge.dfy` the bridge plugin's
rollback, `IpamSystem.dfy` any number of processes interleaved one file operation at a time, with
failing writes and crashes, and `IpamSerial.dfy` carries the results on sequential runs over to
such processes.

**Arithmetic and text.** `Ipv4.dfy` (prefix notation of section 3.1 of RFC 4632), `Text.dfy`,
`Mac.dfy`, and `SubnetEnv.dfy`: the daemon's writer and the plugin's reader of `subnet.env`.

Code that works step by step is modelled by classes and loops, proved against specification
functions; the lemmas are about those functions and about state machines over them. A failure
the environment may cause is a parameter (`Faults`, `Fates`, `Write`) or a free choice
(`Iptables.Run` when not `reliable`), so that each statement says which failures it allows.

The vocabulary of the main results is pinned down by lemmas that speak only of constants and of the
fields of the entities, with no function of the model in between where the code has none:
`MappingInPlainTerms`, `DeliveredInPlainTerms`, `FreshAdd`, `VerdictInPlainTerms`, `FreshTick`,
`GrantMeans`, `NextFreeMeans`, `NodeToPeerMeans`, `PublishedTexts`, `VxlanAddMeans`, `RemoveMeans`,
`ForwardMeans`, `OwnerLines`, `ParsedMeans`, `ParseMacIff`.

Findings stated as lemmas, where the code does less than one would hope:
- a flush of POSTROUTING while a tick is about to see to its second or fourth rule leaves a
  masquerading rule without the RETURN before it, and only another flush repairs that; at any
  other moment a flush does no harm: `PostRuns.FlushHarmlessIffNotPending`,
  `PostRuns.PendingFlushMasquerades`, `PostRuns.OnlyAFlushRepairs`;
- a DEL whose `-D` and `-F` both fail leaves the DNAT rules its ADD got to, and they take the
  packets of the next container on that hostPort, exactly while they stand in front of it:
  `NatRuns.DelOutcome`, `NatRuns.DeliveredIffUndiverted`, `NatRuns.LeftoverDiverts`;
- a cursor write that fails can make host-local hand out an address again long before the others
  have had their turn: `IpamRuns.SweepSurvivesIff` says exactly when,
  `IpamRuns.LostCursorBreaksRoundRobin` gives a run;
- a `-C` that fails although the rule is there leaves a second copy: no packet notices, but a
  second jump outlives the next DEL: `FalseChecks.DelCompleteIffOneJump`;
- a node that takes over the CIDR of another installed node in one pass can lose its route,
  exactly if the changed peer's new entries meet another installed peer's:
  `Reconciling.PassAgreesIffNoTakeover`, `Reconciling.MovedNodeLosesRoute`;
- an add whose netlink request gets no answer, and a vxlan add whose neighbour or forwarding
  request fails, is remembered as installed: `Agreement.AddAgreesIffClean` has the exact condition;
- containers share a chain exactly if the first 16 alphanumerics of their ids agree, and then a
  DEL of one disconnects the other: `PortMap.DnChainSharedIff`, `PortMap.DelTakesSharedChain`;
- the localhost mark rule has no destination, so a loopback packet to a port published only on
  another hostIP is marked without being DNATed: `Dispatch.ContainerMisses`;
- CHECK never confirms a lease without an interface name, though DEL frees it:
  `Store.UnnamedInterfaceDiffers`.

Two comments in the repository say more than the code does. `ensure` in
crates/flanneld/src/ipmasq.rs:122-124 is said to fail only if an append fails, but a check that
cannot be spawned fails it too; the removal in crates/flanneld/src/netlink.rs:218-220 is called
best-effort, but it returns an error, having removed nothing, when the route list breaks off.
The model follows the code.

## Model

| member | source | states |
|---|---|---|
| Ipv4.ContainsIsInterval | crates/flanneld/src/subnet.rs:5-7 | a CIDR block contains exactly the addresses from its network to its broadcast address |
| Ipv4.SubnetInNetworkIsInclusion | crates/flanneld/src/subnet.rs:5-7 | the two-end-points test holds iff every address of the subnet is in the network, iff the network's prefix is no longer and the masked addresses agree |
| Ipv4.BlockFits | crates/cni-host-local/src/alloc.rs:26-33 | an aligned block never runs past the last 32-bit address |
| NatTable.Iptables.Run | crates/cni/src/iptables.rs:35-43 | one command: it is carried out and reported so, or nothing changes; only an unreliable backend refuses an edit the table allows |
| NatTable.Iptables.EnsureChain | crates/cni/src/iptables.rs:46-56 | success leaves the chain there, whether created or found ("exists"); failure changes nothing |
| NatTable.Iptables.EnsureRule | crates/cni/src/iptables.rs:59-74 | success means the rule is in the chain, appended if it was absent; failure changes nothing |
| NatTable.Iptables.InsertRule | crates/cni/src/iptables.rs:80-95 | success means the rule is in the chain, put first if it was absent; failure changes nothing |
| NatTable.Iptables.DeleteRule | crates/cni/src/iptables.rs:98-102 | deletes the first occurrence of the rule if it is there and the command does not fail, and changes nothing otherwise |
| NatTable.Iptables.FlushDeleteChain | crates/cni/src/iptables.rs:105-108 | flushes and then deletes the chain as far as the table allows and the commands do not fail |
| NatTable.ExecKeepsRanked | crates/cni-portmap/src/rules.rs:101-126 | commands whose rules jump downwards keep every jump of the table downwards, so interpreting a packet always ends |
| NatTable.StepsOnlyAdd | crates/cni/src/iptables.rs:45-95 | no ensure or insert undoes, or makes impossible, what another established |
| NatTable.RestartSkipsPrefix | crates/cni/src/iptables.rs:45-95 | running a list of such steps from its start, after any executed prefix, changes nothing until the prefix is passed |
| NatTable.SetXmarkSets | crates/cni-portmap/src/rules.rs:12-14 | the MARK rule sets the bit that the masquerade rule looks for |
| NatTable.SetXmarkKeepsOtherBits | crates/cni-portmap/src/rules.rs:12-14 | and no other bit of the mark |
| NatTable.SetXmarkIsOr | crates/cni-portmap/src/rules.rs:14 | marking a packet is setting bit 0x2000 of its mark |
| NatTable.HasMarkIsOneBit | crates/cni-portmap/src/rules.rs:14-122 | the masquerade rule's match asks for that bit alone: no other bit of the mark makes it match |
| NatTable.ChainNameInjective | crates/cni-portmap/src/rules.rs:6-24 | the model's chains differ exactly when their iptables names do |
| NatTable.SharedNames | crates/cni-portmap/src/rules.rs:6-12 | the names of the three shared chains |
| FalseChecks.RepeatedRuleHarmless | crates/cni/src/iptables.rs:59-74 | a `-C` that fails although the rule is there makes the wrapper add a copy: in a container's chain that changes nothing for any packet |
| FalseChecks.RepeatedJumpHarmless | crates/cni/src/iptables.rs:59-74 | nor does another jump to a wired container in the top chain |
| FalseChecks.RepeatedMasqRuleHarmless | crates/cni/src/iptables.rs:59-74 | nor does another copy of a rule of the daemon, and their order stays right |
| FalseChecks.RepeatedStepKeepsTable | crates/cni/src/iptables.rs:59-95 | hooks first, masquerade jumps before the daemon's rules and downward jumps survive the repetition of any step of an ADD |
| FalseChecks.DelCompleteIffOneJump | crates/cni/src/iptables.rs:97-108 | what does not survive: a DEL without failures leaves nothing of a container iff its jump is not there twice |
| PortMap.DnChainSharedIff | crates/cni-portmap/src/rules.rs:17-24 | two ids get the same chain iff their first 16 ASCII letters and digits agree, place by place |
| PortMap.ChainIdOfPlain | crates/cni-portmap/src/rules.rs:17-24 | for an id of characters 0-9, A-Z, a-z (given by code point) the chain id is its first 16 characters |
| PortMap.ChainIdDrops | crates/cni-portmap/src/rules.rs:17-24 | any other character, wherever it stands in an id, makes no difference |
| PortMap.ChainNameFits | crates/cni-portmap/src/rules.rs:16-24 | a container's chain name keeps to the limit of 28 characters, whatever the id |
| PortMap.DelTakesSharedChain | crates/cni-portmap/src/rules.rs:157-164 | a DEL takes away the chain and the jump of another container iff the two share a chain |
| PortMap.EnsureTopChains | crates/cni-portmap/src/rules.rs:101-126 | stops at the first failure having done exactly the steps before it, of the eight shared ones in order |
| PortMap.MappingRulesAre | crates/cni-portmap/src/rules.rs:33-86 | the three rules of a mapping in full: `-d` with the hostIP in the hairpin and DNAT rules exactly if it is a specific one, source 127.0.0.1 in the localhost rule |
| PortMap.ApplyMapping | crates/cni-portmap/src/rules.rs:143-153 | hairpin mark, localhost mark and DNAT rule of one mapping, in that order, up to a failure; `MappingRulesAre` says which rules these are |
| PortMap.Apply | crates/cni-portmap/src/rules.rs:129-155 | an ADD leaves the table after exactly the first k of its steps, all of them if it succeeds, and succeeds if nothing fails |
| PortMap.ApplyFeasible | crates/cni-portmap/src/rules.rs:129-155 | in a table with the built-in chains every step of an ADD can be done when its turn comes, since chains are made before they are used |
| PortMap.FreshAdd | crates/cni-portmap/src/rules.rs:101-155 | the whole table, rule by rule, that one ADD makes of a table without the plugin's chains |
| PortMap.Remove | crates/cni-portmap/src/rules.rs:160-164 | delete the jump, flush the chain, delete the chain, going on past any of the three that fails |
| PortMap.FaultyRemove | crates/cni-portmap/src/rules.rs:157-164 | a DEL with failing commands touches no other chain or jump, and disconnects the container iff not both the deletion of its jump and the flush failed; nothing of it is left iff none failed |
| PortMap.ApplyResumes | crates/cni-portmap/src/rules.rs:129-155 | any executed prefix of an ADD followed by a full ADD gives the table of one ADD |
| PortMap.ApplyInstallsDedup | crates/cni-portmap/src/rules.rs:129-155 | a new container's chain ends up as the first-occurrence de-duplication of its mappings' rules, its jump behind all others in the top chain, and everything else as the shared steps leave it |
| PortMap.DedupKeepsFirst | crates/cni/src/iptables.rs:59-74 | de-duplication keeps every rule once, in the order of first occurrences |
| PortMap.RemoveAnywhere | crates/cni-portmap/src/rules.rs:157-164 | wherever the jump stands, DEL takes out exactly the jump and the chain, keeps the order of the rest, and a second DEL changes nothing |
| PortMap.RemoveUndoesApply | crates/cni-portmap/src/rules.rs:129-164 | DEL after any executed prefix of a new container's ADD leaves only the shared steps |
| PortMap.SharedStepsKeepContainers | crates/cni-portmap/src/rules.rs:101-126 | the shared steps never touch a container's chain or the order of the top chain |
| Dispatch.DedupTransparent | crates/cni/src/iptables.rs:59-74 | leaving out a rule that is already there never changes what packets meet |
| Dispatch.ContainerHits | crates/cni-portmap/src/rules.rs:33-86 | with any first part of a container's rules in place that holds the DNAT rule of a covering mapping, a covered packet (protocol, port and, if there is a hostIP, destination) is DNATed to pod IP and containerPort, marked exactly if it comes from that pod or from 127.0.0.1 |
| Dispatch.ContainerMisses | crates/cni-portmap/src/rules.rs:33-86 | a packet whose DNAT rule is not in place, or that no mapping covers, falls through, marked exactly if a hairpin or localhost rule that is in place hits it |
| Dispatch.MappingInPlainTerms | crates/cni-portmap/src/rules.rs:26-86 | in the fields of mapping and packet: protocol and port agree and, if the mapping has a hostIP, so does the destination, iff the packet goes to pod IP and containerPort; bit 0x2000 is set exactly for the pod's own packets among these and for those from 127.0.0.1 to that port; any other packet falls through unchanged |
| Dispatch.TwoBoundMappings | crates/cni-portmap/src/rules.rs:26-32 | two mappings on one port with different hostIPs each get exactly the packets for their own address |
| Dispatch.TwoBoundContainers | crates/cni-portmap/src/rules.rs:26-32 | so do two containers, in either order of the top chain |
| Dispatch.TopHits | crates/cni-portmap/src/rules.rs:129-155 | in any top chain, the first container whose installed rules take the packet gets it, whatever stands before and behind; marked in front exactly if a marking rule there hits it |
| Dispatch.TopMisses | crates/cni-portmap/src/rules.rs:129-155 | if no container's installed rules take the packet, the top chain does no DNAT, and marks exactly if a marking rule hits it |
| Dispatch.PostroutingWalk | crates/cni-portmap/src/rules.rs:117-124 | behind the jumps, marked packets are masqueraded and unmarked ones meet the daemon's rules |
| IpMasq.EnsureMasqRule | crates/flanneld/src/ipmasq.rs:132-155 | seeing to one rule, for every pattern of failing commands: what it leaves and whether it reports success |
| IpMasq.RuleSeenToMeans | crates/flanneld/src/ipmasq.rs:132-155 | whatever fails, at most one rule is appended, the wanted one or its form without --random-fully; success means one of them is there; failure changes nothing |
| IpMasq.Ensure | crates/flanneld/src/ipmasq.rs:125-130 | a tick, for every pattern of failing commands: the four rules in order up to the first that fails, and what it leaves and reports |
| IpMasq.SeenToMeans | crates/flanneld/src/ipmasq.rs:122-155 | whatever fails in a tick, its rules are only appended and stay in order; success means all four are there; nothing else in the table changes |
| IpMasq.FaultlessTick | crates/flanneld/src/ipmasq.rs:122-155 | a tick without failures succeeds, and leaves what its steps in order leave |
| IpMasq.MulticastIs | crates/flanneld/src/ipmasq.rs:44-55 | what the second rule exempts is exactly 0xE0000000 to 0xEFFFFFFF, 224.0.0.0 through 239.255.255.255 |
| IpMasq.NeverTooMuch | crates/flanneld/src/ipmasq.rs:32-61 | ordered rules, complete or not, never masquerade pod to pod, pod to multicast or outside to local pod traffic |
| IpMasq.NeverTooLittle | crates/flanneld/src/ipmasq.rs:32-61 | with the rules in place, in any order, all intended traffic is masqueraded |
| IpMasq.ChainVerdict | crates/flanneld/src/ipmasq.rs:32-61 | an ordered chain masquerades only what is intended, and once complete exactly what is intended, for all source and destination addresses; multicast is the interval from 0xE0000000 to 0xEFFFFFFF |
| IpMasq.VerdictInPlainTerms | crates/flanneld/src/ipmasq.rs:32-61 | the complete chain's verdict on every packet by intervals of addresses alone |
| SoloRuns.SoloTickIsEnsure | crates/flanneld/src/ipmasq.rs:125-155 | run alone, the single commands of a tick do what the Ensure method does, for every pattern of failures: the same table, the same rule reached, the end at the first rule that fails |
| SoloRuns.FreshTick | crates/flanneld/src/ipmasq.rs:32-61 | in an empty chain a tick without failures leaves the four rules in full, both masquerading ones with --random-fully |
| SoloRuns.OldBackendTick | crates/flanneld/src/ipmasq.rs:138-152 | a backend that refuses --random-fully is left with the four rules without it, and the tick succeeds |
| SoloRuns.SoloDelIsRemove | crates/cni-portmap/src/rules.rs:157-164 | run alone, the single commands of a DEL leave the table the Remove method leaves, whichever of them fail |
| NatSystem.NextKeepsInv | crates/cni-portmap/src/rules.rs:101-164 | every command of every writer, those of a DEL included, failing or not, keeps the table invariant: hooks and jumps in front, each container's chain and jump exactly as the commands done for it left them, also after its DEL, one jump per wired container, nothing stray |
| NatSystem.Always | crates/cni-portmap/src/rules.rs:101-164 | the invariant holds after every interleaving of ADDs, DELs (repeated ones too), ticks and flushes, with any failures |
| NatSystem.AddKeepsInv | crates/cni-portmap/src/rules.rs:129-155 | each command an ADD issues, from a fresh start or a retry, keeps it |
| NatSystem.NothingRefused | crates/cni-portmap/src/rules.rs:101-155 | when its turn comes, whatever any writer has done before, the table allows every step of an ADD |
| NatSystem.TickKeepsInv | crates/flanneld/src/ipmasq.rs:125-155 | each command of a tick keeps it |
| NatSystem.DelEnded | crates/cni-portmap/src/rules.rs:157-164 | the last command of a DEL keeps it, whichever of the three commands failed: what is left of the container is kept track of |
| NatRuns.DeliveredInState | crates/cni-portmap/src/rules.rs:26-48 | in every reachable state a locally addressed packet for a published port is DNATed to the publishing pod, whatever the order of past ADDs and DELs, if no rules left by a failed DEL in front take it; marked exactly if it comes from the pod or loopback or a marking rule in front hits it |
| NatRuns.OverlapIffShared | crates/cni-portmap/src/rules.rs:26-32 | two mappings count as overlapping iff some packet is for both |
| NatRuns.FirstTakerWins | crates/cni-portmap/src/rules.rs:129-155 | of all containers and leftovers, complete or not, the first in the top chain whose installed rules take a packet gets it |
| NatRuns.DeliveredIffUndiverted | crates/cni-portmap/src/rules.rs:129-164 | for every settled container and all leftovers, of complete and of failed ADDs: its packet is always DNATed, and reaches its address and port iff the first leftover in front that takes the packet, if any, sends it there too |
| NatRuns.DivertedToFirst | crates/cni-portmap/src/rules.rs:129-164 | and otherwise it goes where that leftover sends it |
| NatRuns.LeftoverDiverts | crates/cni-portmap/src/rules.rs:129-164 | such a run: one container's DEL fails in its `-D` and `-F`, and the next container's packets on that port go to the first one's address |
| NatRuns.UnpublishedInState | crates/cni-portmap/src/rules.rs:26-48 | a packet that no reachable installed rule takes meets only the rules of others, marked exactly if a reachable marking rule hits it |
| NatRuns.UnknownContainerIsGone | crates/cni-portmap/src/rules.rs:129-164 | after every run a container that was never added, or whose DEL ended with nothing left, has no chain and nothing refers to it |
| NatRuns.KnownContainerIsExact | crates/cni-portmap/src/rules.rs:129-164 | after every run a known container has its chain from its ninth step, its jump from its tenth until a deletion succeeds, and the de-duplicated rules its ADD got to until a flush succeeds |
| NatRuns.DelEndsGoneIff | crates/cni-portmap/src/rules.rs:157-164 | when a DEL ends, in any run, the container is gone iff there was no chain, or the jump had been deleted, the chain was empty and its deletion did not fail |
| NatRuns.DelOutcome | crates/cni-portmap/src/rules.rs:157-164 | a DEL of a completed container leaves its rules reachable iff both the jump's deletion and the flush fail, and nothing at all iff no command fails |
| NatRuns.OthersUnmoved | crates/cni-portmap/src/rules.rs:129-164 | over any stretch of any run in which two containers take no step, others' ADDs and DELs, failing or not, leave their chains, their jumps and the order of the two |
| NatRuns.SoloAddIsApply | crates/cni-portmap/src/rules.rs:129-155 | run alone, the interleaved commands of an ADD leave the table the Apply method leaves |
| NatRuns.FailedAddIsPrefix | crates/cni-portmap/src/rules.rs:129-155 | run alone, an ADD whose k-th step fails, at its check or at its edit, is over with exactly the steps before it done |
| NatRuns.AddGetsOn | crates/cni-portmap/src/rules.rs:129-155 | in every run each command of an ADD that does not fail gets it on, to the next command or the end, so only failing commands keep an ADD from completing |
| PostRuns.HostPortConnection | crates/cni-portmap/src/rules.rs:50-86 | in every run a hostPort packet no leftover in front takes reaches its pod; it is marked iff it comes from the pod itself or loopback or a rule in front marks it, and then masqueraded despite the daemon's RETURN rules while the jump is there; unmarked, only the daemon's rules count |
| PostRuns.DeliveredInPlainTerms | crates/cni-portmap/src/rules.rs:26-86 | in every run, in the fields of mapping and packet: which packets reach the pod, and every field of what it receives |
| PostRuns.MasqueradedSinceInsertion | crates/cni-portmap/src/rules.rs:50-124 | in every run hairpin and loopback traffic to a published port is masqueraded if no flush has happened since the container's own ADD passed its eighth command |
| PostRuns.MasqueradedIffJump | crates/cni-portmap/src/rules.rs:50-124 | for a pod of the local subnet, such traffic is masqueraded iff the masquerade jump is there, unless the last flush came while the second or fourth rule was pending |
| PostRuns.UnpublishedTraffic | crates/cni-portmap/src/rules.rs:101-126 | in every run, failed ADDs and DELs included, traffic that no reachable installed rule takes sees no DNAT from the plugin |
| PostRuns.JumpsPrecedeDaemonRules | crates/cni/src/iptables.rs:76-95 | in every interleaving of single commands, every jump to the masquerade chain stands before every rule of the daemon |
| PostRuns.PostroutingMeaning | crates/flanneld/src/ipmasq.rs:32-61 | what a packet meets in POSTROUTING: the mark first, then the daemon's rules in order |
| PostRuns.PostroutingMoves | crates/flanneld/src/ipmasq.rs:132-155 | an event can only put a jump in front, a daemon rule behind, or flush |
| PostRuns.MasqueradesOnlyIntended | crates/flanneld/src/ipmasq.rs:122-155 | in every run with any failures and any earlier flushes, whose last flush did not come while the second or fourth rule was pending: an unmarked packet is masqueraded only if intended, and exactly if intended once all rules are there |
| PostRuns.CalmSinceLastFlush | crates/flanneld/src/ipmasq.rs:122-155 | in every such run the rules are in order, and a pending masquerading rule has its RETURN before it |
| PostRuns.OrderSurvivesIffCalm | crates/flanneld/src/ipmasq.rs:122-155 | in every reachable state, the order survives all continuations without a flush iff that holds |
| PostRuns.FlushHarmlessIffNotPending | crates/flanneld/src/ipmasq.rs:122-155 | after every run, one more flush leaves the order right in every continuation without a flush iff neither the second nor the fourth rule is pending |
| PostRuns.TurnReached | crates/flanneld/src/ipmasq.rs:125-130 | every rule is pending in some run, so the harmful moments do occur |
| PostRuns.TickNeverGoesBack | crates/flanneld/src/ipmasq.rs:125-155 | no event takes a tick back: it goes on through the commands for its rule, on to the next rule from its check, or is over |
| PostRuns.EnsureOkCompletes | crates/flanneld/src/ipmasq.rs:122-130 | the command with which a tick returns Ok leaves all four rules in place, if no flush came since that tick left its first rule |
| PostRuns.ExactSinceOk | crates/flanneld/src/ipmasq.rs:32-155 | from such an Ok return until the next flush, whatever else happens and fails, an unmarked packet is masqueraded exactly if intended, for all addresses; of the flushes before, only the last matters, which must not have left the order broken |
| PostRuns.CompleteUntilFlush | crates/flanneld/src/ipmasq.rs:122-155 | a complete chain stays complete under every event but a flush |
| PostRuns.JumpUntilFlush | crates/cni-portmap/src/rules.rs:117-124 | the masquerade jump stays under every event but a flush |
| PostRuns.JumpSince | crates/cni-portmap/src/rules.rs:117-124 | over any stretch of any run without a flush the masquerade jump stays |
| PostRuns.JumpInserted | crates/cni-portmap/src/rules.rs:117-124 | an ADD that gets past its eighth step leaves the jump in place |
| PostRuns.PendingFlushMasquerades | crates/flanneld/src/ipmasq.rs:125-155 | after a flush while the second rule waits for its check pod-to-pod traffic is masqueraded, after one while the fourth does traffic from outside to local pods |
| PostRuns.OnlyAFlushRepairs | crates/flanneld/src/ipmasq.rs:125-155 | a wrong verdict of the daemon's rules persists through every event that is not a flush |
| Peers.Reconcile | crates/flanneld/src/peer.rs:20-41 | the actions are the diff for some iteration orders that visit each key of both maps once, and replaying them on installed gives desired |
| Peers.DiffReplays | crates/flanneld/src/peer.rs:18-41 | for every iteration order, replaying the actions on installed gives exactly desired |
| Peers.DiffPerNode | crates/flanneld/src/peer.rs:18-41 | each node gets at most one Remove and one Add, of what is installed and desired, the Remove first |
| Peers.DiffEmptyIffEqual | crates/flanneld/src/peer.rs:18-41 | there are no actions iff the maps are equal |
| Netlink.Socket.AddRoute | crates/flanneld/src/netlink.rs:168-194 | a vxlan route via the peer's network address; an existing route stays and counts as success, as does a lost request |
| Netlink.Socket.AddHostGwRoute | crates/flanneld/src/netlink.rs:199-216 | a host-gw route via the peer's public address, likewise |
| Netlink.Socket.AddPeerL2 | crates/flanneld/src/netlink.rs:246-282 | neighbour and forwarding entry; an error only if a field does not parse, before any change |
| Netlink.Socket.DeleteRoute | crates/flanneld/src/netlink.rs:221-244 | the search through the listed routes, in any order, deletes the entry of that prefix exactly if it leaves through that interface |
| Netlink.Socket.DelHostGwRoute | crates/flanneld/src/netlink.rs:221-244 | removes the peer's route on the host interface, or fails having removed nothing |
| Netlink.Socket.DelPeer | crates/flanneld/src/netlink.rs:284-358 | removes route, neighbour and forwarding entry of the peer on the device; a field that does not parse stops it before any removal |
| Netlink.CleanAddEffect | crates/flanneld/src/netlink.rs:168-216 | a cleanly fared add puts all the peer's entries in place where free, or none, and reports which |
| Netlink.DirtyAddEffect | crates/flanneld/src/netlink.rs:259-281 | any other add into free slots reports something else than what it left in the tables |
| Netlink.VxlanAddMeans | crates/flanneld/src/netlink.rs:168-282 | entry by entry, what a vxlan add puts where nothing was, for every pattern of failures and of fields that do not parse; what was there stays |
| Netlink.HostGwAddMeans | crates/flanneld/src/netlink.rs:199-216 | a host-gw add puts at most one route, to the PodCIDR through the public address |
| Netlink.CleanRemoveEffect | crates/flanneld/src/netlink.rs:221-358 | a cleanly fared remove of an installed peer takes away exactly its entries |
| Netlink.RemoveMeans | crates/flanneld/src/netlink.rs:221-358 | a remove fails, taking nothing, iff a field it needs does not parse or the routes cannot be listed; otherwise it takes exactly the peer's entries on the device whose deletions are handled |
| Netlink.AddStaysOnDevice | crates/flanneld/src/netlink.rs:168-282 | no add ever changes entries of other interfaces |
| Netlink.RemoveStaysOnDevice | crates/flanneld/src/netlink.rs:218-358 | no remove ever changes entries of other interfaces |
| Controller.Daemon.ReconcileFromStore | crates/flanneld/src/main.rs:167-224 | the pass performs the diff's actions in order on the tables and a copy of the memory, which then replaces it |
| Controller.PerformMeans | crates/flanneld/src/main.rs:179-222 | an action settles whether its own node counts as installed, exactly if it is an add that reports success, and touches no other |
| Controller.InstalledAfterPass | crates/flanneld/src/main.rs:167-224 | whatever fails and in whatever order, exactly those desired peers count as installed that were so already or whose add reported success |
| Agreement.AddAgreesIffClean | crates/flanneld/src/main.rs:180-212 | an add nobody is in the way of keeps memory and tables in agreement iff its requests fared cleanly |
| Agreement.RemoveAgreesIffClean | crates/flanneld/src/main.rs:213-221 | a remove keeps agreement iff every delete was handled, since it leaves memory in any case |
| Agreement.MemoryDeterminesTables | crates/flanneld/src/main.rs:167-224 | under agreement the memory and the foreign entries determine the tables |
| Agreement.PassAgrees | crates/flanneld/src/main.rs:167-224 | a clean pass without takeovers keeps agreement in every iteration order |
| Reconciling.PassAgreesIffNoTakeover | crates/flanneld/src/peer.rs:25-34 | a clean pass keeps agreement in every iteration order iff no changed peer's new entries meet another installed peer's |
| Reconciling.TakeoverLosesEntry | crates/flanneld/src/peer.rs:25-34 | with a takeover, some order leaves an installed peer without one of its entries |
| Reconciling.MovingOntoHeldCidrTakesOver | crates/flanneld/src/peer.rs:25-34 | a changed node moving to the CIDR another installed node holds is such a case |
| Reconciling.MovedNodeLosesRoute | crates/flanneld/src/peer.rs:25-34 | with host-gw and no failure, a node that moves to the CIDR of a node that is gone can be left installed without its route |
| Reconciling.PassReducesMissing | crates/flanneld/src/main.rs:167-224 | with desired fixed, each successful add takes exactly one peer off the missing ones and nothing puts one back; none missing iff installed equals desired |
| Reconciling.SettledPassDoesNothing | crates/flanneld/src/main.rs:177-223 | with none missing the next pass changes nothing |
| Reconciling.RunAgrees | crates/flanneld/src/main.rs:299-319 | after every pass of every run with clean passes and no takeovers, the tables are the foreign entries and those of the installed peers |
| Reconciling.MemoryWithinDesired | crates/flanneld/src/main.rs:167-224 | after each pass of any run the memory is a part of the desired map |
| Reconciling.OtherDevicesUntouchedByRun | crates/flanneld/src/main.rs:299-319 | over any run, with any failures, entries of other interfaces never change |
| Reconciling.HostGwSeparate | crates/flanneld/src/netlink.rs:199-244 | with host-gw, peers keep apart iff their parsed CIDRs name different blocks, none of them a foreign route's |
| Reconciling.HostGwRoutesAreThoseInstalled | crates/flanneld/src/netlink.rs:199-244 | host-gw, any pattern of refused adds: after each pass memory is within desired, and the routes besides the foreign ones are exactly those of the installed peers |
| Lease.BuildPublishPatch | crates/flanneld/src/kube_mgr.rs:88-114 | the annotations published are those of `PublishPatch`, in whatever order they are inserted |
| Lease.PublishedTexts | crates/flanneld/src/kube_mgr.rs:88-114 | the exact set of annotation names, in full, and the text under each: "vxlan" or "host-gw", the public address, "true", and the VtepMAC object only with a VtepMAC |
| Lease.AppliedMeans | crates/flanneld/src/kube_mgr.rs:36-55 | publishing sets the annotations it names and changes nothing else about the node |
| Lease.OwnNodeMeans | crates/flanneld/src/kube_mgr.rs:64-83 | the own lease is the PodCIDR and the first address of kind InternalIP; there is none iff one of the two is missing |
| Lease.NodeToPeerMeans | crates/flanneld/src/kube_mgr.rs:136-156 | in the node's own fields: it is a peer iff name, PodCIDR, the public-ip annotation and, for vxlan, readable backend-data are there, and then has those very values, without a VtepMAC for host-gw |
| Lease.DesiredFromNodes | crates/flanneld/src/kube_mgr.rs:118-134 | the peers read from a list of nodes, self left out; what these are is said by `DesiredIsLast` |
| Lease.DesiredIsLast | crates/flanneld/src/kube_mgr.rs:116-156 | for any list of nodes, names repeated or missing: the desired map never holds self, and has for each other name exactly the values of the last node of that name whose fields are complete |
| Lease.PublishRoundTrip | crates/flanneld/src/kube_mgr.rs:88-156 | reading a published node gives its name, PodCIDR, public address and VtepMAC, or nothing exactly if name or PodCIDR is missing |
| Lease.PublishedMacReadBack | crates/flanneld/src/kube_mgr.rs:88-156 | for vxlan the device's six bytes come back from the published text |
| Lease.DesiredKeyed | crates/flanneld/src/kube_mgr.rs:118-134 | the desired map never holds self and files each peer, read from some node, under its own name |
| Lease.DesiredIsReadableNodes | crates/flanneld/src/kube_mgr.rs:116-156 | with unique names it holds, of the other nodes, exactly those whose fields are complete, with the values of these fields |
| Mac.MacRoundTrip | crates/flanneld/src/netlink.rs:361-371 | a published link address parses back to its bytes, exactly if there are six |
| Mac.ParseMacIff | crates/flanneld/src/netlink.rs:361-371 | a text reads as an address iff it is six hexadecimal numerals below 256 joined by colons, and then as these numbers |
| Mac.HexByteIs | crates/flanneld/src/netlink.rs:147-161 | a byte is written as its two lower-case hexadecimal digits |
| Mac.PlusSignAccepted | crates/flanneld/src/netlink.rs:361-371 | the text of an address is not unique: a plus sign in front is accepted |
| FullMesh.LookupIsLongestMatch | crates/flanneld/src/netlink.rs:172-178 | the route lookup finds exactly the longest matching route |
| FullMesh.ForwardMeans | crates/flanneld/src/netlink.rs:168-282 | a packet is sent to a node iff the longest matching route leads there entry by entry, through gateway, neighbour and forwarding entry on the device |
| FullMesh.ForwardsToInstalled | crates/flanneld/src/netlink.rs:168-282 | under agreement a pod of an installed peer is reached through route, gateway neighbour and forwarding entry at the peer's public address |
| FullMesh.DesiredOfCluster | crates/flanneld/src/kube_mgr.rs:118-156 | what a member wants installed is exactly the peers of all other members |
| FullMesh.EveryPodReachable | crates/flanneld/src/main.rs:167-224 | in a cluster of any size with disjoint CIDRs and distinct MACs, after a failure-free pass on the published nodes, every pod of every other member is forwarded to its owner |
| FullMesh.ReachableInRun | crates/flanneld/src/main.rs:299-319 | the same after each failure-free pass on the published nodes within any run of clean passes without takeovers |
| FullMesh.ReachableAfterFirstPass | crates/flanneld/src/main.rs:284-319 | and after a daemon's very first pass, if that is failure-free |
| MeshRuns.FirstPassExists | crates/flanneld/src/main.rs:284-319 | in any cluster any member can start on empty tables and complete a failure-free pass |
| MeshRuns.TwoNodesReach | crates/flanneld/src/main.rs:284-319 | an instance: two nodes with different /24 pod CIDRs, and after its first pass the one forwards to all pods of the other |
| Alloc.UsableHostsExact | crates/cni-host-local/src/alloc.rs:26-33 | the usable hosts are the open interval without the gateway, ascending, 2^(32-p)-2 of them less one if the gateway is inside, none for /31 and /32 |
| Alloc.HostCountCapped | crates/cni-host-local/src/command.rs:29-36 | under the /16 cap at most 65534 hosts are listed |
| Alloc.AcceptedConfiguration | crates/cni-host-local/src/command.rs:18-45 | accepted iff the first range has a subnet that parses, of prefix at least 16, and no gateway or one that parses; then at most 65534 usable hosts, all of the subnet, never the gateway |
| Alloc.RejectedConfiguration | crates/cni-host-local/src/command.rs:18-45 | otherwise the first thing wrong is reported: no range, the subnet, its size, the gateway |
| Alloc.DefaultGatewayInside | crates/cni-host-local/src/alloc.rs:13-16 | the default gateway is the first address and is set aside, for every prefix up to /30 |
| Alloc.NextIp | crates/cni-host-local/src/alloc.rs:35-55 | the first unleased usable host in cyclic order after the last one, from the lowest if that is absent or not usable; None iff every usable host is leased |
| Alloc.FirstFreeUnique | crates/cni-host-local/src/alloc.rs:35-55 | there is only one such host |
| Alloc.NextFreeMeans | crates/cni-host-local/src/alloc.rs:35-55 | the address found, by intervals alone: nothing free between the last one and it, or up to the end and from the start again; from the start if the last one is no usable host; None iff every address inside but the gateway is leased |
| Store.Store.Leased | crates/cni-host-local/src/store.rs:28-37 | the set of addresses with a lease file |
| Store.Store.Reserve | crates/cni-host-local/src/store.rs:45-52 | lease file, then cursor; a failed write may leave a torn file and skips the rest |
| Store.Store.Release | crates/cni-host-local/src/store.rs:54-70 | removes exactly the pair's lease files, in any directory order, or stops part of the way at one that cannot be removed |
| Store.Store.Has | crates/cni-host-local/src/store.rs:72-86 | true iff some lease file names the pair on its first two lines |
| Store.LeaseOwnerRoundTrip | crates/cni-host-local/src/store.rs:45-70 | a written lease belongs to its pair iff both texts are without newlines and the id does not end in a carriage return |
| Store.LeaseOwnerUnique | crates/cni-host-local/src/store.rs:45-70 | and then to no other pair |
| Store.OwnerLines | crates/cni-host-local/src/store.rs:54-86 | whose any lease file is, by its text: a missing line reads as empty for release but not for has, a carriage return before a newline does not count |
| Store.HasIffReleaseFrees | crates/cni-host-local/src/store.rs:54-86 | for a named interface, has holds iff release would free something |
| Store.UnnamedInterfaceDiffers | crates/cni-host-local/src/store.rs:54-86 | for an unnamed one has never finds a written lease that release frees |
| HostLocal.CmdAdd | crates/cni-host-local/src/command.rs:53-85 | the locked allocation with every error path and what each leaves behind, as `GrantMeans`, `RefusalMeans` and `TornAddMeans` spell out |
| HostLocal.GrantMeans | crates/cni-host-local/src/command.rs:53-85 | a successful ADD, from configuration and directory alone: an address strictly inside the first range's subnet and not leased before, that subnet's prefix, the named gateway or else the first address of the subnet, and on disk one more lease file with the pair's text, and the cursor |
| HostLocal.RefusalMeans | crates/cni-host-local/src/command.rs:53-85 | which error is reported when, the first thing wrong deciding; only a failing write can have changed the directory |
| HostLocal.TornAddMeans | crates/cni-host-local/src/store.rs:45-52 | what an ADD whose write failed leaves: nothing, a torn lease file, or the lease without its cursor, at an address that was free |
| HostLocal.AddSucceedsIff | crates/cni-host-local/src/command.rs:53-85 | an ADD succeeds iff the configuration is accepted, nothing fails, and a usable address is free |
| HostLocal.CmdDel | crates/cni-host-local/src/command.rs:87-97 | the locked release: Ok iff all the pair's leases are gone, otherwise only leases of the pair are |
| HostLocal.CmdCheck | crates/cni-host-local/src/command.rs:99-110 | Ok iff a lease of the pair is found |
| IpamRuns.ReuseOnlyAfterFullSweep | crates/cni-host-local/src/alloc.rs:35-55 | between two ADDs that hand out the same address, whatever fails in any command, every other usable address was handed out or found leased by an ADD after the first, up to the second, if no ADD in between lost its cursor write |
| IpamRuns.SweepSurvivesIff | crates/cni-host-local/src/store.rs:45-52 | after any run, every way of coming round to an address sees all others iff what has not been seen yet lies ahead of the cursor; so a lost cursor write does harm iff what the cursor then reads as leaves out an address not seen yet |
| IpamRuns.LostCursorBreaksRoundRobin | crates/cni-host-local/src/store.rs:45-52 | one lost cursor write from an empty directory is enough: the lowest address is handed out again without any given other one having been seen |
| IpamRuns.LeasesConserved | crates/cni-host-local/src/store.rs:45-70 | over any run of plain commands, whatever fails short of a torn lease file, a pair owns exactly what its ADDs leased since its last complete DEL |
| IpamRuns.OwnedAfterOp | crates/cni-host-local/src/command.rs:53-97 | a command, complete or not, changes only its own pair's addresses |
| IpamRuns.AddIsCommand | crates/cni-host-local/src/command.rs:53-85 | the run's ADD is the command, for every pattern of failures |
| IpamRuns.DelIsCommand | crates/cni-host-local/src/command.rs:87-97 | and its DEL is the command, whichever of the pair's files it got to |
| IpamSystem.NextKeepsInv | crates/cni-host-local/src/store.rs:22-70 | every file operation of every process, failing, torn or cut off by a crash, keeps the invariant of the locked directory |
| IpamSystem.AddNeverOverwrites | crates/cni-host-local/src/command.rs:53-85 | in every interleaving an ADD never writes over an existing lease |
| IpamSystem.NoDoubleAllocation | crates/cni-host-local/src/command.rs:53-97 | two processes given the same address are always separated by the removal of its lease file, which comes between the writes of their leases |
| IpamSystem.WritesSeparated | crates/cni-host-local/src/store.rs:45-70 | so are any two writes of a lease file for one address, torn ones included |
| IpamSystem.MutualExclusion | crates/cni-host-local/src/store.rs:22-26 | no two processes are inside the lock together |
| IpamSystem.LockNeverLost | crates/cni-host-local/src/store.rs:22-26 | in every interleaving, crashes included, the lock a process waits for is free, or its holder is inside and can give it up |
| IpamSystem.CrashIsInterruptedWrite | crates/cni-host-local/src/store.rs:45-52 | what a crash leaves is what the write it interrupts, torn or not, leaves, and the lock is given up |
| IpamSystem.UndisturbedAddIsCommand | crates/cni-host-local/src/command.rs:53-85 | undisturbed, the interleaved steps of an ADD do what the command does, faults included |
| IpamSerial.InterleavingIsSerial | crates/cni-host-local/src/command.rs:53-97 | every crash-free interleaving of ADDs and DELs, whatever fails in them, is, in the order in which they give up the lock, a sequential run of the commands on the same directory |
| IpamSerial.InterleavedRoundRobin | crates/cni-host-local/src/alloc.rs:35-55 | so round robin holds of interleaved processes, if none served between the two grants lost its cursor write |
| IpamSerial.InterleavedConservation | crates/cni-host-local/src/store.rs:45-70 | and so does conservation: whenever the lock is free a pair owns what its served ADDs leased since its last complete DEL |
| Bridge.CmdAdd | crates/cni-bridge/src/main.rs:24-51 | relays the allocation if the pod is wired; if not, gives back leases of the pair only: none if the rollback cannot be called, all if it runs without faults; leaves the directory alone if it never got to allocate |
| Bridge.IpamDel | crates/cni-bridge/src/main.rs:121-125 | the rollback removes only leases of the pair, and all of them if the delegate runs without faults |
| Bridge.RollbackUndoesAllocation | crates/cni-bridge/src/main.rs:37-50 | after a rollback the pair has no lease, and all others are as before the ADD iff the pair's texts are plain |
| Bridge.SomeRollback | crates/cni-bridge/src/main.rs:37-50 | such an ADD exists for any pair, on an empty directory and any /24 |
| Text.SplitJoin | crates/flanneld/src/netlink.rs:361-371 | splitting undoes joining when no piece holds the separator |
| Text.LinesOf | crates/cni-flannel/src/subnetenv.rs:11-35 | the lines of a text: up to each newline without one carriage return before it, and the rest if it is not empty |
| Text.StripCrMeans | crates/cni-flannel/src/subnetenv.rs:11-35 | one carriage return at the end goes, and nothing else |
| Text.DecimalRoundTrip | crates/cni-flannel/src/subnetenv.rs:11-35 | the decimal form of a number parses back to it, below the limit |
| Text.DecimalUsual | crates/flanneld/src/subnet.rs:17-24 | that form consists of decimal digits with that value, without leading zeros |
| Text.ParseUnsignedIff | crates/cni-flannel/src/subnetenv.rs:11-35 | parsing accepts exactly one or more digits, perhaps after one plus sign, whose value is below the limit, and gives that value |
| Text.TrimGivesTrimmed | crates/cni-flannel/src/subnetenv.rs:11-35 | trimming leaves no blanks at the ends, and leaves exactly the texts without such blanks alone |
| Text.TrimIff | crates/cni-flannel/src/subnetenv.rs:11-35 | trimming takes exactly the blanks off both ends |
| Text.BlanksAre | crates/cni-flannel/src/subnetenv.rs:11-35 | a blank is one of the 25 code points with the White_Space property |
| SubnetEnv.Parse | crates/cni-flannel/src/subnetenv.rs:11-35 | the reading loop gives what `ParsedMeans` and `ParsedErrIff` say of a text |
| SubnetEnv.ParsedErrIff | crates/cni-flannel/src/subnetenv.rs:11-35 | a text is refused iff some line is neither blank nor has an equals sign, or assigns to the MTU what is no unsigned 32-bit number, or network, subnet or MTU is assigned by no line |
| SubnetEnv.ParsedMeans | crates/cni-flannel/src/subnetenv.rs:11-35 | the first such line is the one reported, else the first key missing; otherwise each field is the value of the last line that assigns its key, and masquerading is off unless that is "true" |
| SubnetEnv.RenderedText | crates/flanneld/src/subnet.rs:17-24 | the file's text in full: four assignments, each ended by a newline |
| SubnetEnv.FittingTextReadsBack | crates/cni-flannel/src/subnetenv.rs:11-35 | any text of the right assignments, in any order, with blank lines, blanks around and unknown assignments, reads as those values |
| SubnetEnv.PaddedLineAssigns | crates/flanneld/src/subnet.rs:17-24 | a rendered line with blanks put around it is such an assignment |
| SubnetEnv.RoundTripIffPlain | crates/flanneld/src/subnet.rs:17-24 | the plugin reads back what the daemon rendered iff network and subnet hold no newline and no blanks at their ends |

## Left out

- The network namespace, veth and bridge netlink calls: `wire_pod` is success or failure only, and nothing is claimed about veth cleanup.
- The kube client, watcher, timers, logging and tokio: a watch event or a tick is one pass on some node list, or one run of `ensure`.
- Process spawning, delegate lookup, environment and JSON handling, error codes and texts, versions: a command's outcome is a parameter.
- Parsing of addresses and CIDRs is library code: a text is carried with what it parses to.
- iptables backend detection, `build_delegate`, name length bounds, MTU subtraction and backoff: easy.
- NatTable.Iptables.Run: a `-C` that is spawned answers correctly. What a wrong answer does to the table and to packets is in `FalseChecks`; the runs do not include such answers.
- NatSystem.Always: a container's id is not added again before its DEL is over, nor ever after a DEL that left something of it.
- NatSystem.Always: no two containers of a run share a chain; `PortMap.DnChainSharedIff` says which ids would.
- NatSystem.Always: other programs' rules are those of PREROUTING and OUTPUT at the start, without jumps; of POSTROUTING others only flush the whole chain.
- Reconciling.HostGwRoutesAreThoseInstalled: assumes that every delete is handled and every add answered; `Agreement.AddAgreesIffClean` and `Agreement.RemoveAgreesIffClean` say what happens otherwise.
- The default route: the kernel lists it without a destination, so a peer with prefix 0 would not be found for deletion. The model finds it.
- Entries left by an earlier daemon: the daemon starts with empty memory and does not prune, so runs start from the foreign entries alone.
- FullMesh.EveryPodReachable: other routes for pod addresses must be less specific than the peers' and the device's other tables free of foreign entries.
- CHECK takes no lock; it is modelled as one read of the directory, and does not appear in the interleavings.
- A lease file that cannot be read counts as empty in the code; in the model lease files can be read.
- Lease files whose names are not addresses are not modelled, nor is the text of the cursor file, only what it reads as.
- IpamRuns.LeasesConserved: for runs in which no failed lease write leaves a torn file; what such a file reads as may belong to any pair.
