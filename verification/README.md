# Galactic in Dafny

A model of the hard logic of [galactic](https://github.com/datum-cloud/galactic), a
multi-cloud networking stack of CNI plugins, node daemons and controllers, and proofs
about it. `dafny verify dfyconfig.toml` checks the whole project.

What is modelled, one module per component:

* **The SID-Argument claim** (`Instances`, `ArgumentClaim`, `ClaimProtocol`, `ClaimRuns`,
  `ClaimSurvival`, `ClaimOutcome`, `SiblingLinks`). Every CNI ADD is its own process. It takes a node-local lock,
  allocates the lowest free Argument, writes a shared BGPVRFInstance and re-reads it for
  collisions; a failed ADD deletes the instance under a second lock. `ArgumentClaim` is
  one claim against an API server that shows it anything; `ClaimProtocol` is any number
  of processes, interleaved step by step, with crashes, retries, repeated ADDs, rollbacks
  and requests that are not answered and land at any later time; `ClaimRuns` and
  `ClaimSurvival` are what that keeps over whole runs, and `ClaimOutcome` what an ADD and
  its rollback achieve.
* **Traffic policy** (`TrafficPolicy`, `PolicyMeaning`, `PolicyCompiler`): first-match
  evaluation of rules and the flattened entries the datapath walks, their agreement, and what
  a policy decides, said by blocks of addresses and counts of ports.
* **Interface activation** (`Activation`): every kernel and map call is an event of a
  log, answered arbitrarily; a monitor that reads only the log states what may happen.
* **Device ownership** (`Ownership`): veth and tap ADD, DEL and rollback on one
  attachment, with DELs landing anywhere, each in two steps.
* **Coverage** (`CoverageProtocol`, `GatewayCoverage`, `NatUplinks`, `ShardTable`,
  `Interfaces`, `Ipv4Forwarding`): the wake-up protocol between the datapath watcher, the
  readiness follower and the reconciler, the passes that compute what is missing, and the
  identity a NAT shard is programmed with.
* **The edge gate** (`EdgeGate`, `EdgeWatch`, `EdgeRoute`): the lazily opened gate table,
  the poller that turns its readings into wake-ups, and the API's transition rules.
* **IPAM and the result chain** (`Ipam`, `ResultChain`, `Advertisement`,
  `SortedStrings`): mode selection at ADD and DEL, addresses across four plugins, and
  the annotations merged into advertised prefixes.
* **NPTv6** (`Nptv6`), **Maglev** (`Maglev`, `Primes`) and **certificate reloading**
  (`CertReload`).

Code that changes things step by step is modelled by methods, classes and state machines;
calls into the kernel, the API server, the clock and random sources are parameters that
may answer anything, including failing.

## What the code does not keep

Where a promise turned out false of the code, the code is modelled as it is, a lemma gives
the input, and another says exactly when the promise holds.

* NPTv6 translation is documented as reversible. An address whose fourth word is zero
  comes back with 0xFFFF there: one's-complement arithmetic has two zeros, and the code has
  no step that makes them one. It is reversible exactly for the other addresses
  (`Nptv6.RoundTripExactly`, `Nptv6.ZeroCollides`).
* A failed ADD is documented to hand a taken-over device back and not to remove a live
  container's interface. A veth ADD deletes the predecessor's pair in order to take it
  over, so from then on the predecessor's own pair is gone whatever the rollback does
  (`Ownership.OwnDeviceExactly`, `Ownership.FailedVethAddReplacesPair`). The rollback hands
  back the new pair under the old stamp, except when the ADD failed inside `veth.Add` after
  the removal: the tracker learns of the takeover only when `Add` returns, and there is no
  pair at all (`Ownership.HandBackExactly`, `Ownership.FailedVethAddLosesPair`). A rollback
  that itself fails leaves the predecessor's tap under the failed ADD's stamp
  (`Ownership.FailedRollBackExactly`, `Ownership.FailedRollBackLosesStamp`).
* A DEL checks the owner and removes the device in two calls. When an ADD stamps the
  device in between, the DEL removes the new owner's device. That takes a DEL that looked
  at an adopted tap, or one that looked at a new pair between its creation and its stamp,
  when it has no owner yet (`Ownership.StampSafeExactly`, `Ownership.LateDelLosesTap`,
  `Ownership.EarlyDelLosesPair`). In any state, other containers' DELs can take the live
  container's device exactly when it does not carry its stamp or one has looked at it
  (`Ownership.AtRiskExactly`).
* A rollback's delete that its client gave up on and that the API server applies after the
  VRF lock was released removes an instance a sibling has claimed since. A claim survives
  exactly while no such delete of its VPC is outstanding, and no outstanding write takes the
  value from an ADD that has just created the instance anew
  (`ClaimSurvival.SurvivesExactly`, `ClaimRuns.LateDeleteBreaksClaim`).
* A write of an instance that its client gave up on and that the API server applies after
  the Argument lock was released can give two instances the same Argument, and the ADD that
  sent it does not count the instance as its own, so its rollback keeps it. Such a write is
  harmless exactly when no other instance holds its value and no ADD past its allocation is
  contradicted by it (`ClaimRuns.LandingExactly`, `ClaimRuns.LateWriteBreaksDistinct`).
* After a move, the Argument the instance left is documented to be released. A move whose
  write was applied and not answered returns before the release, and the retry finds the
  instance in its new place, so the ADD can succeed with the old value never released. Every
  value left is released exactly when no attempt ended in such a move or in a failed release
  (`ArgumentClaim.ReleasedExactly`, `ArgumentClaim.LeakingAdd`).
* An event whose List of the shards fails is consumed with nothing queued, so a shard can
  stay Ready with uplinks missing. It costs the condition exactly when nothing else makes
  the reconciler read again and its last report differs from the coverage
  (`CoverageProtocol.DropMissesExactly`, `CoverageProtocol.DroppedEventLeavesReady`).
* An uplink that is configured, gone while NAT64 is programmed, and back again runs the
  datapath without IPv4 forwarding (`NatUplinks.ProgramServesForever`,
  `NatUplinks.ReturningUplinkNotServed`). So does one that was deleted and created again
  under its name, exactly when it had been configured: unlike the gateway, the shard does
  not forget an uplink that goes (`NatUplinks.RecreatedExactly`).
* A gate that opens and closes again between two polls, with a reconcile reading it in
  between, stays advertised, whether that reading was applied before the poll or is still
  to be. In every state of every run a route ends wrong exactly when its gate changed an odd
  number of times since the reading that is applied in the end
  (`EdgeWatch.WrongExactly`, `EdgeWatch.PollMissesExactly`, `EdgeWatch.FlapIsMissed`,
  `EdgeWatch.StaleReadingIsMissed`).
* With traffic policy on, a link the master plugin left up is meant to come down before
  anything can refuse the ADD. An activation that cannot read the policy state refuses it
  without an attempt to take the link down, and is the only refusal that does so without
  having read the mode as off (`Activation.Activate`, `Activation.BlindRefusal`).
* With `address_families` set and no subnet named, turning the local-IPAM flag off makes
  CHECK and DEL refuse the config and leaves the allocation behind (`Ipam.AddThenDel`,
  `Ipam.FlagOffLeaves`).

## Model

| member | source | states |
|---|---|---|
| `Instances.LowestFreeArgument` | internal/cnibgp/argument.go:216-231 | the least Argument in range that no other instance of the router holds; an error exactly when every value is held, hence only with at least 4095 items |
| `Instances.AllocateArgument` | internal/cnibgp/bgp.go:169-183 | an instance already under the router keeps its Argument, any other gets the lowest free one |
| `Instances.ArgumentHolder` | internal/cnibgp/argument.go:185-203 | another instance of the router holding the value, and none exactly when there is none |
| `Instances.ListsViewOf` | internal/cnibgp/argument.go:185-231 | a list with unique names determines one view of the API, holding exactly its items |
| `ArgumentClaim.Pass` | internal/cnibgp/argument.go:136-160 | one turn of the claim loop: it ends with its outcome accounted for, after a List of its own, or makes exactly one more move |
| `ArgumentClaim.ReportsAfterListing` | internal/cnibgp/argument.go:136-160 | neither success nor a collision is reported before the List that follows the last write |
| `ArgumentClaim.Contend` | internal/cnibgp/argument.go:144-180 | what follows a collision: the siblings are asked where they must be, and it is refused, given up, or moved, each with its outcome accounted for |
| `ArgumentClaim.Settle` | internal/cnibgp/argument.go:151-180 | with the siblings known: refused when the instance may not be moved, given up after the third move, otherwise moved once more; both errors name a holder the last List shows |
| `ArgumentClaim.Move` | internal/cnibgp/argument.go:161-180 | a move writes the lowest free Argument the last List showed and releases exactly the one it leaves; it ends the claim when a call fails, applied or not |
| `ArgumentClaim.WriteMove` | internal/cnibgp/argument.go:168-180 | the claim goes on exactly when the write was answered and the release worked |
| `ArgumentClaim.ClaimArgument` | internal/cnibgp/argument.go:108-181 | with any writer between any two calls, and any call refused, failed or applied and not answered: success means the final List showed no other holder; at most 3 moves, with one List after each write; the values left are, in order, the values released and then the one whose move was not answered or whose release failed; nothing reused is moved without the right to; every error has its cause in what the calls met, and a collision names another instance the last List shows holding the value |
| `ArgumentClaim.MoveLost` | internal/cnibgp/argument.go:168-175 | a move applied and not answered ends the claim with the value it left unreleased |
| `ArgumentClaim.CalmClaims` | internal/cnibgp/argument.go:119-143 | where nothing fails and no other writer takes the value, the claim succeeds with its first write |
| `ArgumentClaim.ClaimsWhereFree` | internal/cnibgp/argument.go:136-160 | where nothing fails and the instance may be moved: whatever other writers do, the claim ends with the first value the List after its write shows free, after however many moves, and gives up exactly when all four were shown taken |
| `ArgumentClaim.PublishAttempts` | internal/cnibgp/bgp.go:121-148 | over all attempts of one ADD: each knows what those before created; a retry follows only a transient failure; an instance no attempt created is never moved; the values left are those released and those stuck |
| `ArgumentClaim.ReleasedExactly` | internal/cnibgp/argument.go:104-107 | over all attempts every value left was released exactly when none ended in a move applied and not answered or in a failed release |
| `ArgumentClaim.UnansweredMoveLeaks` | internal/cnibgp/argument.go:168-179 | any ADD that claims a value, fails later, loses the answer of its move and then succeeds leaves that value unreleased |
| `ArgumentClaim.LeakingAdd` | internal/cnibgp/bgp.go:121-143 | there is such an ADD, for any two instances |
| `ArgumentClaim.AskSiblings` | internal/cnibgp/argument.go:144-150 | an instance an earlier attempt created becomes movable only when no sibling was reported; an unanswered question changes nothing |
| `ArgumentClaim.Moved` | internal/cnibgp/argument.go:164-179 | a write of the lowest free value after a List of a collision, followed by the release of the value left, keeps the trace consistent |
| `SiblingLinks.FindVrf` | internal/cnibgp/resource.go:172-181 | the VRF's index, and 0 exactly when there is no such VRF |
| `SiblingLinks.EnslavedTo` | internal/plumbing/vrf/vrf.go:338-350 | exactly the names of the links enslaved to an index |
| `SiblingLinks.SiblingHostLinks` | internal/cnibgp/resource.go:165-189 | exactly the other links enslaved to the VPC's VRF, none without a VRF |
| `ClaimProtocol.NextInv` | internal/cnibgp/argument.go:108-181 | every step of every process, and every late request landing or lapsing, keeps the invariant: distinct Arguments, at most one holder of each lock, choices no other instance holds; a late write must land safely |
| `ClaimProtocol.ProcessInv` | internal/cnibgp/argument.go:108-181 | so does any one process's step, answered or not; what the steps achieve is `ClaimOutcome` |
| `ClaimProtocol.PhaseMoves` | internal/cnibgp/argument.go:113-134 | what a step may change of a process: a lock is taken only when free, a value is chosen only by allocating or moving, a rollback deletes only after it found itself alone |
| `ClaimProtocol.PairsMove` | internal/cnibgp/resource.go:112-137 | no step brings two processes into one lock, or one attachment into two ADDs |
| `ClaimProtocol.SpawnInv` | internal/cni/ops_add.go:100-112 | a new ADD keeps the invariant |
| `ClaimProtocol.WriteDistinct` | internal/cnibgp/argument.go:119-134 | writing a value no other instance holds keeps Arguments distinct and disturbs nobody's choice of another value |
| `ClaimProtocol.ArgumentsMove` | internal/cnibgp/argument.go:119-180 | after any process's step, every process's chosen or written value is still held by no other instance |
| `ClaimProtocol.LinksMove` | internal/cni/ops_add.go:100-112 | enslaving under the VRF lock, before the claim, keeps every linked process's link and every rollback's solitude |
| `ClaimProtocol.LandInv` | internal/cnibgp/argument.go:126-132 | a late delete, and a late write that lands safely, keeps the invariant |
| `ClaimProtocol.OtherRoutersInv` | internal/cnibgp/argument.go:185-203 | writers for other routers, without any lock, do not disturb it |
| `ClaimRuns.RunInv` | internal/cnibgp/argument.go:108-181 | the invariant holds in every state of every interleaving in which late writes land safely |
| `ClaimRuns.AnsweredIsBenign` | internal/cnibgp/argument.go:126-132 | in a run whose writes are all answered none lands late, whatever deletes do |
| `ClaimRuns.ArgumentsDistinct` | internal/cnibgp/argument.go:108-181 | in every such interleaving instances under the router hold pairwise distinct Arguments, and no ADD ever meets a collision |
| `ClaimRuns.LandingExactly` | internal/cnibgp/argument.go:126-132 | a write that takes effect late leaves every continuation collision-free and every Argument in place exactly when no other instance holds its value and no ADD past its allocation is contradicted |
| `ClaimRuns.SurprisedUnsteady` | internal/cnibgp/argument.go:126-142 | a late write that contradicts an ADD's choice leads to a collision or changes an Argument |
| `ClaimRuns.LateWriteBreaksDistinct` | internal/cnibgp/argument.go:126-134 | a create that lands after the Argument lock was released leaves two instances with one Argument, the ADD that sent it ended and its instance not counted as created |
| `ClaimRuns.ClaimsStep` | internal/cnibgp/resource.go:105-147 | no step but a late delete of the VPC takes the instance from an ADD that relies on it |
| `ClaimRuns.UndoIsAlone` | internal/cnibgp/resource.go:112-127 | a rollback about to delete is the only process relying on the instance |
| `ClaimRuns.ClaimKept` | internal/cnibgp/resource.go:105-147 | once an attachment has its claim, and no late delete of its VPC has landed, the shared instance exists and holds its Argument, and its link is enslaved |
| `ClaimRuns.ClaimSurvivesExactly` | internal/cnibgp/resource.go:112-133 | a reachable claim whose instance is there survives every continuation whose late writes land safely exactly when no given-up delete of its VPC is outstanding |
| `ClaimSurvival.LocksStep` | internal/cnibgp/resource.go:112-137 | the locks and the links stay in order whatever lands |
| `ClaimSurvival.GuardedStep` | internal/cnibgp/resource.go:105-147 | no step of any kind takes the instance from a claim that no late request changes and no ADD of its VPC is to move |
| `ClaimSurvival.SurvivesWhatever` | internal/cnibgp/resource.go:105-147 | in every state of every run, unsafe landings before and after included, such a claim survives everything; one whose instance a late request changes, or whose value one takes from an ADD that has just created the instance, does not |
| `ClaimSurvival.SurvivesExactly` | internal/cnibgp/resource.go:112-133 | where late writes have landed safely so far, a claim survives everything that can follow exactly when no delete of its VPC is outstanding and no outstanding write takes the value from an ADD that has just created its instance |
| `ClaimRuns.ArgumentIdentifiesVpc` | internal/cnibgp/argument.go:108-181 | two claims, with no late delete of their VPCs landed, have the same Argument exactly when they are of the same VPC |
| `ClaimRuns.StepKeepsArguments` | internal/cnibgp/bgp.go:169-183 | no step gives an existing instance another Argument |
| `ClaimRuns.ArgumentStable` | internal/cnibgp/bgp.go:169-183 | repeating an ADD keeps its Argument, over any run in which the instance is not deleted |
| `ClaimRuns.LateDeleteBreaksClaim` | internal/cnibgp/resource.go:116-147 | a delete that lands after the VRF lock was released removes an instance claimed since |
| `ClaimOutcome.RunCreatedThere` | internal/cnibgp/resource.go:105-147 | in every run in which no late delete of the VPC has landed, the instance an ADD created is there until that ADD's own rollback is past its delete |
| `ClaimOutcome.RollbackExactly` | internal/cnibgp/resource.go:112-137 | over the same runs: a rollback that found itself alone leaves its VPC without an instance exactly when its delete is answered; otherwise the instance stays as it is, and an unanswered delete is outstanding; no other instance changes |
| `ClaimOutcome.RollsBack` | internal/cnibgp/resource.go:105-137 | from every state with the VRF lock free, an ADD that created its instance, has no sibling and is between attempts or giving up reaches by its own steps alone a state where its VPC has no instance, nothing else has changed and no VPC finds its Argument held |
| `ClaimOutcome.Completes` | internal/cnibgp/argument.go:108-143 | from every state with the Argument lock free, an ADD between attempts whose value is free reaches by its own steps alone its end with that value, which its VPC's instance holds, no other instance changed |
| `ClaimOutcome.LinksExactly` | internal/cni/ops_add.go:100-112 | in every state of every run a link is enslaved exactly when an ADD of its attachment enslaved it and none has unlinked it since |
| `TrafficPolicy.Evaluate` | internal/trafficpolicy/evaluate.go:71-87 | the loop gives the first-match verdict, which `PolicyMeaning.PolicyDecides` says in terms of the packet's fields |
| `PolicyMeaning.ContainsFrom` | internal/trafficpolicy/evaluate.go:122-131 | a prefix holds, of its family, exactly 2^(bits - length) addresses, from the multiple of that at or below its own address on |
| `PolicyMeaning.ContainsExactly` | internal/trafficpolicy/evaluate.go:122-131 | a prefix holds exactly the addresses of its family in its aligned block |
| `PolicyMeaning.HoldsFamily` | internal/trafficpolicy/evaluate.go:122-131 | a prefix of length zero holds its whole family |
| `PolicyMeaning.HoldsOne` | internal/trafficpolicy/evaluate.go:122-131 | a /32 of IPv4 and a /128 of IPv6 hold their own address alone |
| `PolicyMeaning.PortsExactly` | internal/trafficpolicy/policy.go:77 | a port range holds end - start + 1 ports from its start on, and none when it starts after it ends |
| `PolicyMeaning.MatchesExactly` | internal/trafficpolicy/evaluate.go:89-140 | a packet matches exactly when it is of the family and protocol named, in one of the blocks and of the ports listed, and of the ICMP type and code given |
| `PolicyMeaning.PolicyDecides` | internal/trafficpolicy/evaluate.go:62-87 | every policy decides every packet by the first rule whose fields it meets, denies a packet of unknown path at a rule with a path met before, and denies what no rule meets |
| `PolicyMeaning.DecidesOnce` | internal/trafficpolicy/evaluate.go:62-87 | and no other verdict satisfies that |
| `PolicyMeaning.OneBlockAllowed` | internal/trafficpolicy/evaluate.go:104-106 | a policy of one rule allowing a source prefix allows exactly the packets from its block |
| `PolicyMeaning.OneRangeAllowed` | internal/trafficpolicy/evaluate.go:113-115 | and one allowing a destination port range exactly those to its ports |
| `TrafficPolicy.CompiledAgrees` | internal/trafficpolicy/compile.go:168-235 | for every policy and every one-family packet, walking the flattened entries gives the evaluator's verdict, winning rule and reason |
| `TrafficPolicy.AgreementNeedsOneFamily` | internal/trafficpolicy/compile.go:316-336 | why packets are of one family: the two agree on a packet for every policy exactly when its addresses are |
| `TrafficPolicy.MatchHasEntry` | internal/trafficpolicy/compile.go:188-235 | a matching rule has a matching entry in its product |
| `TrafficPolicy.EntryHasMatch` | internal/trafficpolicy/compile.go:188-235 | a matching entry comes from a matching rule |
| `TrafficPolicy.EntriesOfRule` | internal/trafficpolicy/compile.go:262-292 | every entry of a rule carries its index, action and path |
| `TrafficPolicy.WalkRule` | internal/trafficpolicy/compile.go:298-314 | walking one rule's block stops, skips or fails as the rule does |
| `TrafficPolicy.BlocksAgree` | internal/trafficpolicy/compile.go:168-186 | from any rule on, the rest of the entries decides as the rest of the rules does |
| `TrafficPolicy.RuleEntryCountCorrect` | internal/trafficpolicy/compile.go:83-122 | the closed-form count equals the number of entries expansion makes |
| `PolicyCompiler.AddressPairsOf` | internal/trafficpolicy/compile.go:146-164 | the nested loops give the family-compatible product |
| `PolicyCompiler.PortEntriesOf` | internal/trafficpolicy/compile.go:218-232 | the port loops give the product of the port alternatives |
| `PolicyCompiler.ExpandRuleOf` | internal/trafficpolicy/compile.go:188-235 | the loops give the rule's product form |
| `PolicyCompiler.RuleEntryCountOf` | internal/trafficpolicy/compile.go:86-122 | the counting loops give the closed form |
| `PolicyCompiler.EntryCount` | internal/trafficpolicy/compile.go:59-68 | the count is the length of the compilation |
| `PolicyCompiler.Compile` | internal/trafficpolicy/compile.go:166-186 | all entries in rule order, or an error exactly when there are over 64 rules or over 256 entries |
| `PolicyCompiler.EvaluateEntries` | internal/trafficpolicy/compile.go:298-314 | the first matching entry's verdict |
| `PolicyCompiler.Explain` | cmd/galactic-router/policy.go:145-215 | a packet of two families is refused; for any other, and every policy, the disagreement it is written to report never happens; invalid exactly over the two limits |
| `PolicyCompiler.WinnerIsFirst` | internal/trafficpolicy/evaluate.go:65-87 | the winning rule hits the packet, every earlier one passes it, and no match denies |
| `PolicyCompiler.UnreachableExact` | internal/trafficpolicy/compile.go:70-81 | no one-family packet matches a rule exactly when it counts zero entries or its port ranges hold no port |
| `PolicyCompiler.Unreachable` | internal/trafficpolicy/compile.go:73-81 | only rules no packet can satisfy, in order, and every one of them whose port ranges hold a port |
| `PolicyCompiler.Shadowed` | internal/trafficpolicy/evaluate.go:142-156 | each covered rule with its earliest cover, and no other |
| `PolicyCompiler.CatchAllCovers` | internal/trafficpolicy/evaluate.go:142-156 | a rule that gives no field hits every packet and covers every rule, and a rule covers its equal |
| `PolicyCompiler.ShadowedNeverWins` | internal/trafficpolicy/evaluate.go:142-156 | a rule reported shadowed decides no packet |
| `Activation.KeptEverywhere` | internal/cnibgp/trafficpolicy.go:46-130 | the monitor's promise before an effect holds at every place of the log |
| `Activation.UpOnlyVerified` | internal/cnibgp/trafficpolicy.go:35-45 | once the mode was read active, every bring-up comes after tp_deliver and the egress programs were read back and the row was written |
| `Activation.Quarantine` | internal/cnibgp/trafficpolicy.go:132-145 | success leaves the link down; an error leaves it gone, or not known down and not takeable down |
| `Activation.RefuseUnfencedHostOnlyPorts` | internal/cnibgp/trafficpolicy.go:198-227 | success with ports listed means tp_deliver was read back; listed and read back missing, the link is not left up |
| `Activation.EnsureLinkUp` | internal/cnibgp/trafficpolicy.go:178-196 | success leaves the link up or gone |
| `Activation.RaiseAndRestore` | internal/cnibgp/trafficpolicy.go:162-176 | success restored the host gateway after the link's last transition, or the link is gone; refused exactly when the log has an answer that refuses |
| `Activation.BringUp` | internal/cnibgp/trafficpolicy.go:156-176 | ends as an activation may end, refused exactly when the log has an answer that refuses |
| `Activation.WriteRow` | internal/cnibgp/trafficpolicy.go:91-113 | a live tenant row's non-zero token is kept, any other gets a fresh non-zero one; success wrote the row and every address |
| `Activation.VerifyEnforcement` | internal/cnibgp/trafficpolicy.go:229-247 | success read both programs back |
| `Activation.ActivateRow` | internal/cnibgp/trafficpolicy.go:87-130 | with the maps open, success wrote the row and every address and attached tp_deliver wherever the node has it; refused exactly when the log has an answer that refuses |
| `Activation.Activate` | internal/cnibgp/trafficpolicy.go:46-130 | for every outcome of every call: refused exactly when the log has an answer that refuses (a failed or unreadable call, a missing link before the row is written, an incapable node with the mode on, a mode not off with nothing registered, listed ports or an active mode without tp_deliver; a program that does not load refuses only with the mode on); a link comes up under an active policy only on a capable node with everything read back, its row written and tp_deliver attached first; a refusal leaves no unverified link up unless it could not be taken down; a refusal that has not read the mode as off leaves the link without a quarantine attempt exactly when the node is registered, the maps open and their state unreadable |
| `Activation.HealthyAdd` | internal/cnibgp/trafficpolicy.go:46-176 | where every call answers well, with the policy on or off, the ADD succeeds with its link up, the row written and read back as the mode demands, and the host gateway restored last |
| `Activation.WellNotFaulty` | internal/cnibgp/trafficpolicy.go:46-130 | no log such a world answers has a refusing answer |
| `Activation.WellExists` | internal/cnibgp/trafficpolicy.go:46-130 | there is such a world with the policy on, and one with it off |
| `Activation.BlindRefusal` | internal/cnibgp/trafficpolicy.go:66-69 | there is such a refusal of a link that is up all along |
| `Ownership.NextInv` | internal/cni/resource.go:77-88 | every benign step of ADDs, rollbacks and DELs keeps the live container's stamp on the attachment's device, or the ADD in flight able to put it back |
| `Ownership.DeviceKept` | internal/cni/ops_del.go:81-95 | in every history of benign steps, whenever no ADD is in flight the attachment's device exists and carries the latest live container's stamp |
| `Ownership.OwnDeviceExactly` | internal/cni/veth/veth.go:132-144 | the device a container completed its ADD with is still there, over any later ADDs that fail at any point, their rollbacks and DELs, exactly when it is a tap or no ADD since has removed a pair |
| `Ownership.OwnStays` | internal/cni/resource.go:77-88 | no step but a veth removal takes it |
| `Ownership.AtRiskExactly` | internal/cni/veth/veth.go:267-290 | in every state with no ADD in flight, whatever went before, other containers' DELs can take the live container's device exactly when it does not carry its stamp or one has already looked at it |
| `Ownership.StampedFromDels` | internal/cni/veth/veth.go:286-290 | a stamped device no other DEL has looked at stays through any DELs of other containers |
| `Ownership.OnlyTakeoverRemoves` | internal/cni/veth/veth.go:133-146 | the live container's device is removed by nothing but a veth ADD taking it over |
| `Ownership.HandBackExactly` | internal/cni/resource.go:77-88 | a failed ADD with a live predecessor leaves the predecessor's stamp on the device exactly when it did not fail inside veth.Add after the removal; a tap ADD always does; what a rollback does to any device is `Ownership.RollBackExactly` |
| `Ownership.RollBackExactly` | internal/cni/resource.go:77-88 | after a rollback a device remains exactly when the tracker has a prior owner to hand it back to, whose it then is, or it carries another container's stamp |
| `Ownership.NothingLeftBehind` | internal/cni/resource.go:77-88 | in every history without a failed rollback, whatever else fails and whenever DELs come: with no ADD in flight, a device that is there carries the stamp of a container an ADD of which completed |
| `Ownership.DelExactly` | internal/cni/veth/veth.go:267-290 | a DEL that is not interrupted takes its container's device and one without an owner, and leaves any other |
| `Ownership.FailedRollBackExactly` | internal/cni/resource.go:77-88 | a rollback that fails leaves the predecessor's stamp exactly when the failed ADD had not got as far as recording its takeover |
| `Ownership.StampSafeExactly` | internal/cni/tap/tap.go:108-125 | a device about to be stamped can be lost to another container's DEL, in any continuation with any further DELs, exactly when a DEL has already looked at it |
| `Ownership.StampKeeps` | internal/cni/veth/veth.go:244-301 | from a benign stamp on, the device stays the container's through every interleaving of DELs |
| `Ownership.HeldStep` | internal/cni/veth/veth.go:267-290 | a DEL that looks after the stamp removes nothing |
| `Ownership.FailedVethAddLosesPair` | internal/cni/ops_add.go:100-118 | a failure inside veth.Add after the removal is reachable, and leaves no pair |
| `Ownership.FailedVethAddReplacesPair` | internal/cni/resource.go:83-85 | a later failure is reachable, and leaves another pair under the old stamp |
| `Ownership.FailedRollBackLosesStamp` | internal/cni/resource.go:83-85 | a failed rollback is reachable, and leaves the tap with the failed ADD's stamp |
| `Ownership.LateDelLosesTap` | internal/cni/tap/tap.go:242-280 | the loss of an adopted tap to a DEL that had looked at it is reachable |
| `Ownership.EarlyDelLosesPair` | internal/cni/veth/veth.go:267-290 | so is the loss of a new pair to a DEL that looked between its creation and its stamp |
| `CoverageProtocol.NextInv` | cmd/galactic-gateway/root.go:237-253 | every write, nudge, read, publication and reconcile step, failing ones included, keeps the invariant |
| `CoverageProtocol.RunInv` | cmd/galactic-nat/root.go:187-207 | the invariant holds in every state of every interleaving |
| `CoverageProtocol.ReadinessPublished` | cmd/galactic-gateway/root.go:143-149 | no lost wake-up: with the writers idle and the follower blocked on an empty channel, readiness is published exactly as coverage is |
| `CoverageProtocol.ConditionPublished` | cmd/galactic-nat/root.go:181-207 | the same for the shard's condition, through the second channel and the work queue, unless an event was dropped since the reconciler last read |
| `CoverageProtocol.InternalCosts` | cmd/galactic-nat/root.go:187-207 | every step but a new write, a requeue or a failure brings the process nearer to rest |
| `CoverageProtocol.Converges` | cmd/galactic-gateway/root.go:237-253 | once coverage stops changing, every schedule comes to rest within a bound, and all at the same publications |
| `CoverageProtocol.ComesToRest` | cmd/galactic-gateway/root.go:237-253 | there is such a schedule from every state |
| `CoverageProtocol.ConvergesRight` | cmd/galactic-nat/root.go:181-207 | from every reachable state readiness comes to rest as coverage is, and the condition too unless an event was dropped since the reconciler last read |
| `CoverageProtocol.DropMissesExactly` | internal/controller/egressshard_controller.go:667-685 | dropping an event leaves every schedule ending with the condition right exactly when something else makes the reconciler read again or its report is already right |
| `CoverageProtocol.DroppedEventLeavesReady` | internal/controller/egressshard_controller.go:680-685 | uplinks missing, readiness withdrawn and the shard still Ready is reachable |
| `CoverageProtocol.FailureRetries` | internal/controller/egressshard_controller.go:170-192 | a reconcile that fails, before or after it reads, is started again, and then reports the coverage as it is |
| `Interfaces.Uncovered` | cmd/galactic-gateway/gateway.go:593-602 | the targets not covered, in order; empty exactly when all are covered |
| `Interfaces.Dedupe` | cmd/galactic-gateway/gateway.go:582-591 | the same names, each once, in the order of their first occurrences |
| `Interfaces.PublicReturnOverlap` | cmd/galactic-gateway/gateway.go:441-450 | the return targets that are public targets, in order |
| `GatewayCoverage.DatapathCoverage.Set` | cmd/galactic-gateway/gateway.go:492-509 | records the names and reports a change exactly when they differ |
| `GatewayCoverage.DatapathCoverage.Configure` | cmd/galactic-gateway/gateway.go:511-529 | the ready targets are the configured ones; newly configured are exactly those whose write worked |
| `GatewayCoverage.DatapathCoverage.Reconcile` | cmd/galactic-gateway/gateway.go:566-576 | one program's missing interfaces are those unconfigured or unattached, and configured since are exactly the targets whose write worked |
| `GatewayCoverage.DatapathCoverage.Pass` | cmd/galactic-gateway/gateway.go:531-579 | a failed resolution keeps everything; otherwise missing is exactly the interfaces lacking their program, once each, and configured are exactly those that were and the targets whose write worked |
| `NatUplinks.NatDatapath.SetCoverage` | cmd/galactic-nat/nat.go:115-126 | the uplinks checked and missed always belong together; a change is reported exactly when missing differs |
| `NatUplinks.NatDatapath.AdoptUplinks` | cmd/galactic-nat/nat.go:127-149 | ready is the configured uplinks; newly configured are exactly those whose writes worked, IPv4 forwarding among them with NAT64 on |
| `NatUplinks.NatDatapath.ForwardIPv4` | cmd/galactic-nat/nat.go:179-186 | NAT64 turns on exactly when every current uplink's IPv4 forwarding was written |
| `NatUplinks.NatDatapath.Program` | cmd/galactic-nat/nat.go:165-211 | forwarding first; then the row holds the identity, unless it already reads back so; an error exactly when a forwarding write failed or the row had to be written and was refused or failed, leaving the row as it was |
| `NatUplinks.NatDatapath.Clear` | cmd/galactic-nat/nat.go:213-226 | the row holds no identity, or an error left it as it was |
| `NatUplinks.NatDatapath.Programmed` | cmd/galactic-nat/nat.go:228-247 | the identity the row holds, and none when it cannot be read |
| `ShardTable.ReadsBackExactly` | internal/plumbing/ebpf/natmap/shardconfig.go:114-219 | every config that may be written reads back as it was exactly when its addresses have no zone |
| `ShardTable.WritesBack` | internal/plumbing/ebpf/natmap/shardconfig.go:114-219 | what was read may be written again, and is the same row |
| `ShardTable.WritableExactly` | internal/plumbing/ebpf/natmap/shardconfig.go:114-178 | a config may be written exactly with a native SID, at least one family, a native IPv6 address if any, and an IPv4 address and its native, aligned /96 together or neither, nor then the well-known prefix |
| `ShardTable.ShardConfigTable.Set` | internal/plumbing/ebpf/natmap/shardconfig.go:99-112 | the encoded row, or an error and the old one |
| `ShardTable.ShardConfigTable.Clear` | internal/plumbing/ebpf/natmap/shardconfig.go:180-189 | a row that reads as no configuration |
| `NatUplinks.NatDatapath.Pass` | cmd/galactic-nat/nat.go:508-542 | a failed resolution keeps everything; otherwise coverage is about the resolved uplinks, missing is exactly what the datapath, given the configured ones to run on, does not cover, and a nudge goes out exactly on a change |
| `NatUplinks.ServedForever` | cmd/galactic-nat/nat.go:132-149 | with NAT64 on and no interface created anew, every uplink run on has had its IPv4 forwarding written in every later state exactly when every configured one has now |
| `NatUplinks.ProgramServesForever` | cmd/galactic-nat/nat.go:167-189 | programming NAT64 keeps that for good exactly when no configured uplink is unresolved then |
| `NatUplinks.RecreatedExactly` | cmd/galactic-nat/nat.go:132-149 | the watcher writes an interface created anew exactly when it was not configured before |
| `NatUplinks.ReturningUplinkNotServed` | cmd/galactic-nat/nat.go:132-189 | the failing history |
| `Ipv4Forwarding.WrittenOncePerStay` | cmd/galactic-gateway/gateway.go:629-642 | in a lawful history no name is successfully written twice in one stay, at any point |
| `Ipv4Forwarding.Forwarding.Apply` | cmd/galactic-gateway/gateway.go:696-707 | writes only tracked, unconfigured targets; error-free exactly when every target is configured |
| `Ipv4Forwarding.Forwarding.Track` | cmd/galactic-gateway/gateway.go:653-679 | nothing is written while off; gone names are forgotten; error-free while on means every tracked target has been written since it last appeared, and it is error-free where every write works |
| `Ipv4Forwarding.Forwarding.Enable` | cmd/galactic-gateway/gateway.go:681-694 | turns on and writes what is left, keeping the laws, without an error where every write works |
| `EdgeGate.ClosedAtMostOnce` | cmd/galactic-router/edgegate.go:108-120 | over every history at most one table is held, the latest, and each is closed at most once |
| `EdgeGate.OpeningsSpaced` | cmd/galactic-router/edgegate.go:95-120 | any opening comes at least the reopen interval after every earlier opening and read failure |
| `EdgeGate.NothingAfterShut` | cmd/galactic-router/edgegate.go:132-141 | after Close nothing is opened or read |
| `EdgeGate.Gate.Acquire` | cmd/galactic-router/edgegate.go:95-110 | a table is at hand exactly when one was held or the wait is over and the open succeeds |
| `EdgeGate.Gate.Open` | cmd/galactic-router/edgegate.go:74-120 | open exactly when the advertisement resolves, the gate is not closed and a live read of the held table for the one masked prefix said so; the read asked for exactly what the advertisement stands for |
| `EdgeGate.ResolveExactly` | cmd/galactic-router/edgegate.go:74-90 | an advertisement resolves to a query exactly when it has one prefix, equal to its own mask, an address, and a named link with a positive index, and the query is of those |
| `EdgeGate.Gate.Unavailable` | cmd/galactic-router/edgegate.go:122-130 | a failure is reported once until the table is opened again |
| `EdgeGate.Gate.Close` | cmd/galactic-router/edgegate.go:132-141 | closed for good, the held table closed |
| `EdgeWatch.WokenExactly` | cmd/galactic-router/edgegate.go:233-246 | a wake-up goes out for exactly the new and the changed entries of this node's routers |
| `EdgeWatch.SeenExactly` | cmd/galactic-router/edgegate.go:226-248 | the snapshot holds exactly this node's entries with their readings |
| `EdgeWatch.Poll` | cmd/galactic-router/edgegate.go:206-248 | the loop computes that snapshot and those wake-ups, in list order |
| `EdgeWatch.PollTakesOver` | cmd/galactic-router/edgegate.go:226-248 | a successful poll's snapshot is every gate as it is, and it wakes nobody exactly when the last snapshot had them all so |
| `EdgeWatch.NextInv` | cmd/galactic-router/edgegate.go:200-249 | every step of polls, failed lists, reconciles that work or fail, gate changes and routes that come and go keeps the invariant, if no gate changes back to what the last successful poll saw |
| `EdgeWatch.AdvertisedIsOpen` | cmd/galactic-router/edgegate.go:181-186 | in every run of those over any number of routes, after each poll and its wake-ups every route is advertised exactly when its gate is open, and one that came or went already before the poll |
| `EdgeWatch.SettlesFinally` | cmd/galactic-router/edgegate.go:181-186 | whatever order the work left is done in, a route ends advertised or not as determined before it |
| `EdgeWatch.WrongExactly` | cmd/galactic-router/edgegate.go:200-249 | in every state of every run, with no condition on gates or routes: a route ends advertised wrongly, short of a further wake-up, exactly when no reconcile is still to read it and its gate changed an odd number of times since the reading that is applied in the end |
| `EdgeWatch.PollLeavesWrong` | cmd/galactic-router/edgegate.go:226-248 | a poll leaves it so exactly when every route is as the poll before saw it |
| `EdgeWatch.PollMissesExactly` | cmd/galactic-router/edgegate.go:233-248 | for a route that stays: once settled after a poll it is advertised wrongly exactly when the poll queued nothing, its gate changed an even number of times since the poll before, and the reading applied in the end came after an odd number |
| `EdgeWatch.FlapIsMissed` | cmd/galactic-router/edgegate.go:233-248 | such a run exists, with the reading applied before the poll |
| `EdgeWatch.StaleReadingIsMissed` | cmd/galactic-router/edgegate.go:233-248 | and one with the reading applied after it |
| `EdgeWatch.GoneIsWithdrawn` | cmd/galactic-router/edgegate.go:226-248 | a route that goes ends withdrawn, and a reconcile that fails is done again, by the gates as they are |
| `EdgeRoute.RunAdmits` | api/v1alpha1/edgeroute_types.go:59-62 | any two states of a run are related as one admitted update's are |
| `EdgeRoute.RunsAreUpdates` | api/v1alpha1/edgeroute_types.go:59-62 | one update can do exactly what some run of updates can |
| `EdgeRoute.AdmitsExactly` | api/v1alpha1/edgeroute_types.go:59-62 | an update is admitted exactly when the identity stays and a claim gives way to one of a later epoch, or to itself, released if it was |
| `EdgeRoute.ClaimAndRelease` | api/v1alpha1/edgeroute_types.go:59-62 | every route can be claimed anew at a later epoch, and the claim released |
| `EdgeRoute.ClaimStays` | api/v1alpha1/edgeroute_types.go:59-60 | a claim never disappears, its epoch never decreases, the identity never changes |
| `EdgeRoute.HolderOfEpoch` | api/v1alpha1/edgeroute_types.go:62 | in a run the holder is a function of the epoch |
| `EdgeRoute.ReleaseStays` | api/v1alpha1/edgeroute_types.go:61 | a claim released at an epoch is released in every later state of that epoch |
| `EdgeRoute.ClosedEpochMonotone` | api/v1alpha1/edgeroute_types.go:164 | closedEpoch never decreases over a run |
| `Ipam.AcceptsExactly` | internal/cniipam/config.go:147-191 | accepted are exactly the lists of well-formed entries with at most one per family |
| `Ipam.KeptExactly` | internal/cniipam/config.go:147-191 | every accepted entry is kept exactly, prefix length and gateway included |
| `Ipam.ParseAddresses` | internal/cniipam/config.go:149-191 | the loop computes that, and refuses an empty list |
| `Ipam.ParseConf` | internal/cniipam/config.go:40-114 | rewriting the config step by step gives the declarative normal form |
| `Ipam.PoolsKeptExactly` | internal/cniipam/config.go:66-113 | what an accepted config comes to: on the pool path a family's pool is kept exactly when no family is named or that family is, the default pool stands in only for none at all, families named leave at least one pool, and nothing else changes |
| `Ipam.SamePools` | internal/cniipam/allocate.go:126-139 | DEL and CHECK address exactly ADD's pools whatever the flag is at each call, except in exactly one case, where they are refused |
| `Ipam.AddThenDel` | internal/cniipam/allocate.go:96-207 | after ADD, CHECK accepts, DEL removes exactly what was stored and CHECK does not accept after that, in all but the one case; there CHECK is refused and the allocation stays |
| `Ipam.FlagOffLeaves` | internal/cniipam/config.go:40-114 | a config of that case, in every environment |
| `Ipam.Disk.Deallocate` | internal/cniipam/allocate.go:141-177 | each family is released on its own; addresses and static modes release nothing |
| `Ipam.Disk.CheckAllocation` | internal/cniipam/allocate.go:179-207 | no fault exactly when every configured family's pool opens and holds the container |
| `ResultChain.BuildCniResult` | internal/cniipam/result.go:16-41 | addresses and routes in order, no interfaces |
| `ResultChain.ResultToIpamResult` | internal/cniipam/result.go:43-78 | the last address of each family, and the routes |
| `ResultChain.AbsorbsConfigs` | internal/cniipam/result.go:64-73 | reading addresses back undoes writing them, for any mask and interface index |
| `ResultChain.CniResult.AppendIpConfigs` | internal/cnimaster/result.go:22-48 | appends one entry per family at the index, and replaces the routes when there are any |
| `ResultChain.BuildResult` | internal/cni/result.go:24-52 | the veth and the tap master's result |
| `ResultChain.InferFromPrevResult` | internal/cnibgp/prevresult.go:46-98 | the kind by the number of sandboxed interfaces, nil addresses when there are none |
| `ResultChain.EndToEnd` | internal/cnibgp/prevresult.go:33-98 | through either master and any host-side interfaces, the same addresses, gateways and routes arrive, and the kind exactly when a veth's namespace is not empty |
| `ResultChain.AdvertisementPrefixes` | internal/cnibgp/bgp.go:254-271 | one prefix for each family allocated, and no other: the IPv6 subnet first, the IPv4 address as a /32 |
| `ResultChain.AdvertisedOnce` | internal/cnibgp/bgp.go:254-271 | a result has one such list |
| `ResultChain.SamePrefixesAdvertised` | internal/cnibgp/bgp.go:254-271 | what galactic-bgp advertises at the end of the chain is what galactic-ipam's own result allocates |
| `Advertisement.PruneDead` | internal/cnibgp/bgp.go:325-351 | removes exactly the keys of containers whose namespace is gone, in whatever order the map is walked |
| `Advertisement.LiveKept` | internal/cnibgp/bgp.go:337-351 | pruning never touches a live container's keys |
| `Advertisement.GalacticKeysApart` | internal/crdnames/crdnames.go:22-39 | the four kinds of annotation keys never meet |
| `Advertisement.AllAdvertisedPrefixes` | internal/cnibgp/bgp.go:289-319 | strictly sorted, and exactly the recorded subnets, in whatever order the map is walked |
| `Advertisement.RecordsEntry` | internal/cnibgp/bgp.go:434-453 | recording changes one container's entry |
| `Advertisement.MarkedAfter` | internal/cnibgp/bgp.go:445-454 | after an ADD the no-addressing mark is there exactly when that ADD was not addressed |
| `Advertisement.Publish` | internal/cnibgp/bgp.go:430-461 | one ADD refines the reference step, container by container |
| `Advertisement.HistoryRefines` | internal/cnibgp/bgp.go:430-461 | over every history of ADDs the annotations hold exactly the reference's entries |
| `Advertisement.AdvertisedExactly` | internal/cnibgp/bgp.go:289-319 | after every ADD the prefixes are sorted, without repeats, and exactly those of recorded containers live at that ADD |
| `Advertisement.PublishDetermined` | internal/cnibgp/bgp.go:289-319 | the list does not depend on the order the annotations are walked in |
| `SortedStrings.AscendingUnique` | internal/cnibgp/bgp.go:317-318 | a set has one ascending list |
| `SortedStrings.Sort` | internal/maglev/table.go:63-65 | sorted, and a permutation of its input |
| `CertReload.NextInv` | internal/certreload/certreload.go:29-49 | every stat, lock, load and rewrite keeps every call's and the cache's versions in order |
| `CertReload.NeverOlder` | internal/certreload/certreload.go:29-49 | a served pair is, in each component, no older than the file its call stat'ed and no newer than the file is |
| `CertReload.FinalPairServed` | internal/certreload/certreload.go:27-49 | once the files stop changing, every call begun since that succeeds returns the final pair |
| `CertReload.Serves` | internal/certreload/certreload.go:29-49 | from every reachable state with the lock free a call is served the files' pair by its own steps alone, and leaves it cached |
| `CertReload.ServedFromCache` | internal/certreload/certreload.go:38-42 | with that pair cached, a call is served from the cache and does not load |
| `CertReload.OneLoader` | internal/certreload/certreload.go:38-48 | at most one call is past the lock |
| `Nptv6.Fold` | internal/plumbing/nptv6/nptv6.go:127-130 | folding carries gives the one's-complement value |
| `Nptv6.OnesComplementAdd` | internal/plumbing/nptv6/nptv6.go:133-143 | one's-complement addition |
| `Nptv6.PrefixChecksum` | internal/plumbing/nptv6/nptv6.go:115-131 | the complemented one's-complement sum of the first 48 bits |
| `Nptv6.PrefixLen` | internal/plumbing/nptv6/nptv6.go:37-57 | the shared length, exactly when both prefixes are there, IPv6, of the same length and at most 48 bits |
| `Nptv6.AdjustmentOf` | internal/plumbing/nptv6/nptv6.go:59-71 | the public prefix's checksum less the internal one's, or the same refusal |
| `Nptv6.CopyPrefixBits` | internal/plumbing/nptv6/nptv6.go:145-155 | overwrites exactly the first bits, in place, also inside a byte |
| `Nptv6.WeightExactly` | internal/plumbing/nptv6/nptv6.go:151-154 | the weight of a byte's last kept bit is 256 / 2^bits, for every count of bits |
| `Nptv6.ContainsExactly` | internal/plumbing/nptv6/nptv6.go:92-94 | a prefix of n bits holds exactly the addresses that agree with it on the first n bits |
| `Nptv6.Translate` | internal/plumbing/nptv6/nptv6.go:73-113 | refuses exactly an unsupported mapping, an IPv4 address in either form or a malformed one, and an address outside the prefix it comes from |
| `Nptv6.AdjustmentCongruent` | internal/plumbing/nptv6/nptv6.go:59-71 | the adjustment cancels what the prefixes' sums differ, in both directions |
| `Nptv6.ChecksumNeutral` | internal/plumbing/nptv6/nptv6.go:23-26 | translation keeps the address's one's-complement sum, both ways, for every prefix length up to 48 |
| `Nptv6.AddSubtract` | internal/plumbing/nptv6/nptv6.go:133-143 | subtracting what was added gives the word back, except that zero comes back as 0xFFFF |
| `Nptv6.AcceptedBack` | internal/plumbing/nptv6/nptv6.go:83-94 | the translated address is accepted the other way |
| `Nptv6.RoundTripExactly` | internal/plumbing/nptv6/nptv6.go:73-113 | translating back gives the address back exactly when its fourth word is not zero, and 0xFFFF there otherwise |
| `Nptv6.StaysIPv6` | internal/plumbing/nptv6/nptv6.go:83-86 | an IPv6 address never translates to one that reads as IPv4 |
| `Nptv6.ZeroCollides` | internal/plumbing/nptv6/nptv6.go:101-110 | two addresses with 0 and 0xFFFF there translate to the same address |
| `Primes.IsPrime` | internal/maglev/table.go:128-146 | true exactly for primes |
| `Primes.Euclid` | internal/maglev/table.go:95-108 | a prime that divides a product divides a factor, which is why a prime size is demanded |
| `Maglev.SlotsDiffer` | internal/maglev/table.go:95-108 | a backend's first size preferences are different slots |
| `Maglev.EverySlotTried` | internal/maglev/table.go:95-108 | and they are all the slots |
| `Maglev.SlotDoesNotWrap` | internal/maglev/table.go:101 | the 64-bit arithmetic does not wrap up to 2^32 slots |
| `Maglev.ProbeFinds` | internal/maglev/table.go:99-106 | while a slot is free the probing loop ends |
| `Maglev.TableBalanced` | internal/maglev/table.go:77-113 | every slot is assigned, and each backend has size/n slots, the first size%n one more |
| `Maglev.TableLaw` | internal/maglev/table.go:81-113 | the table from the hashes alone: the keys take turns in sorted order, and in each turn the key takes its first preferred slot, counted from its offset hash in steps of its skip hash, that no earlier turn took |
| `Maglev.TurnTakes` | internal/maglev/table.go:97-112 | each slot a key passed over in its turn went to an earlier turn |
| `Maglev.TryPreferences` | internal/maglev/table.go:99-106 | the innermost loop finds the next preferred free slot |
| `Maglev.ClaimSlot` | internal/maglev/table.go:97-112 | one backend's turn, in place |
| `Maglev.FillTable` | internal/maglev/table.go:81-113 | the nested loops fill the specified table |
| `Maglev.New` | internal/maglev/table.go:39-75 | refuses exactly no backends, too few slots, a size that is not prime and repeated keys |
| `Maglev.OrderDoesNotMatter` | internal/maglev/table.go:49-51 | the same backends in any order give the same table |

## Left out

- ClaimRuns.ArgumentsDistinct: for runs whose late writes land safely, as all do where every write is answered; `LandingExactly` says what any other write does.
- ClaimSurvival.SurvivesExactly: asks that an outstanding write that would take the value from an ADD that has just created the instance can do so now and leaves another value free; whether one that cannot yet ever will depends on what becomes of the other VPC's instance.
- ClaimProtocol: writers that ignore the Argument lock are for other routers here; one for the same router is covered per claim by `ArgumentClaim.ClaimArgument`. ADDs of one attachment do not overlap, since they share one host link name, but may repeat. Garbage collection's deletes are not modelled.
- ArgumentClaim.ClaimArgument: a write that is applied after its ADD has gone on is not modelled here; `ClaimProtocol` has it.
- Ownership.DeviceKept: holds for histories without the three steps `Benign` names (a failure inside `veth.Add` after the removal, a rollback that fails, a stamp on a device a DEL has looked at); each has its exact lemma and a reachable loss.
- Ownership.OwnDeviceExactly: from one completed ADD to the next, over histories without a stamp on a device a DEL has looked at, without a rollback that fails to hand back, and without the container's own DEL; `AtRiskExactly` says what those cost, in any state.
- Ownership: covers the device, not the tap's ifindex rows and Router Advertisement record, which DEL removes without an owner check.
- Activation: someone else bringing the link up or down is noticed and excused, not prevented; the addresses are numbers.
- EdgeWatch.AdvertisedIsOpen: needs that no gate changes back, before the next successful poll, to what the last one saw; `WrongExactly` needs nothing and says exactly when a route is wrong.
- EdgeWatch: a poll reads all its gates at one moment, one router has all the node's routes, and an advertisement that comes or goes reconciles its router by its own API event.
- GatewayCoverage.DatapathCoverage.Reconcile: what a program is attached to after its reconcile is given, in dispatch mode as in direct mode.
- CoverageProtocol: cancellation of the follower's context is not modelled.
- PolicyCompiler.Unreachable: asks for prefixes no longer than their family, which a prefix type ensures; a nil and an empty list are not told apart. A rule whose port ranges all start after they end is matched by nothing and not reported, as in the code; policy validation refuses it.
- TrafficPolicy: parsing the API objects, the entry encoding in eBPF maps and the datapath's own walk.
- Advertisement.Publish: containers are named by their truncated ID, so two IDs sharing their first 41 characters are one container.
- CertReload: two versions of a file always have different stamps.
- Nptv6: masks are written as divisions by powers of two; the lemmas take prefixes that are zero past their length, as parsed CIDRs are, and the methods any.
- ShardTable: an IPv4 word is the four bytes it has in memory, so its byte order does not show; the datapath's reading of the row.
- Maglev: the hash function is a parameter; the disruption bound when backends change.
- Ipam: the pool allocators behind the markers, and JSON.
- ResultChain: the JSON round trip of a CNI result and version negotiation.
- Fencing, leases and index updates of Galactic Edge's controllers; only the API's transition rules are here.
- eBPF programs, netlink, XDP attachment, sysctls and file locks, beyond succeeding or failing.
- VRF table reservations, garbage collection, multus and Kata integration, SRv6 SID layout.
- Timeouts and backoff, except the gate's reopen interval; commands, flags, metrics, logging, health servers, RBAC checks and generated code, which would add easy members only.
