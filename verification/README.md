# Verified model of the firewall daemon's decision core

The daemon decides each intercepted flow from a set of rules, asks a user where the rules abstain,
refuses flows with forged packets, and decorates addresses with hostnames. These Dafny modules model
that core and prove what it promises. Methods and classes follow the daemon's own loops and mutable
state and are proved against specification functions; lemmas prove the promises about those.

- `CoreTypes`, `Networks`, `Scopes`, `RuleSets`, `RuleFields`, `ThreeValued`, `Identities`: rules, partly
  known processes, and the three-valued lookup, once as a walk and once on the fields of rules and flows. "Refuse" means Deny or Reject; agreement is always between Allow and refuse.
- `Engines`, `KernelRefinement`, `History`: the engine with its pending hit deltas, the verdict it
  precommits to the kernel, and its independence of edit history.
- `HitAccounting`: engine and store as two copies of the counts, written under one mutation lock except
  by the shutdown flush, with hits counted at any point in between.
- `PromptRouter`: prompts as concurrent tasks taking atomic steps in any order.
- `Checksums`, `Packets`, `Refusals`, `Rejecting`: the Internet checksum, the three header walks, the
  forged refusals, and the budget for those that leave the machine.
- `Dns`: the policy and display hostname maps as concurrent tasks.

Times are explicit integers (reals in the token bucket). Rule ids are numbers with a total order.
The 64-bit counters, the 32-bit checksum accumulator and the 16-bit length fields wrap where the
source's do. Files verify together with `dafny verify dfyconfig.toml`.

## Findings

Each of these is a lemma below; the code is modelled as it is.

- A batch replacement sorts before it puts stored creation times back, so a batch claiming other
  times can come out of order (`History.ClaimedTimesBreakOrder`). The control service always hands
  back the stored times first, so its batches never do (`Engines.CallersKeepOrder`).
- Lookup can abstain although every resolution refuses (`ThreeValued.AbstentionCanBeNeedless`), exactly
  when the program rules alone settle on refusing (`ThreeValued.AbstentionIsExact`). It can also abstain
  although every process the identity leaves open is refused (`Identities.AbstentionOverIdentities`); which
  finitely many processes decide that is `Identities.SamplesDecide`.
- A scope naming the placeholder `<unknown>` as its executable is undecidable, rather than rejected, for
  an unidentified executable, although no completion can match it (`Scopes.PlaceholderIsNeverRejected`;
  exact condition in `Scopes.ProcessHalfIsExact`). New rules naming it are refused
  (crates/cfc-core/src/rule.rs:284) and stored ones are set aside at load, except where they also carry a
  legacy hostname (crates/cfc-daemon/src/storage.rs:112); those alone can be held.
- One flush reads the clock twice, so a deadline in between leaves a stored row behind or drops a
  row whose rule is kept (`HitAccounting.ExpiryPartsTheCopies`).
- The shutdown flush drains and merges without the mutation lock (crates/cfc-daemon/src/main.rs:300-305)
  while the control service and the flush task still run. Interleaved with an upsert it can count a hit
  twice in the store (`HitAccounting.ShutdownCanCountTwice`) or lose it in both copies
  (`HitAccounting.ShutdownCanLoseAHit`), each exactly when hits of that very rule are drained
  (`HitAccounting.UpsertInBetweenParts`, `HitAccounting.ShutdownInBetweenLoses`); the run theorems hold
  whenever shutdown and rule writes keep apart.
- A pending hit delta is a 64-bit counter that does not saturate (`HitAccounting.CountCanWrap`; exact
  condition in `HitAccounting.CountAddsOne`). It would take 2^64 hits between two flushes, which are 30
  seconds apart.
- The preference for fresh observed names holds per address; eviction from a full map ignores it
  (`Dns.AFreshObservationCanBeEvicted`; exact condition in `Dns.FreshObservationsSurvive`).
- The IPv4 parser does not look at the fragment offset, so of a later fragment that reaches it unassembled
  it reads the ports out of the payload (`Packets.LaterFragmentShowsPorts`); they are right exactly for a first fragment
  (`Packets.PortsNeedTheFirstFragment`). The IPv6 parser and the kernel program's walk both look. The shipped
  ruleset queues new connections behind connection tracking, which reassembles
  (packaging/systemd/nftables-snippet.conf:50-51), so such a fragment arrives only in another setup.

## Model

| member | source | states |
|---|---|---|
| `Scopes.ProcessHalfIsExact` | crates/cfc-core/src/rule.rs:367-424 | Over partly known identity the two process predicates are three-valued: a scope matches iff every completion of the identity matches; it is rejected iff none does, exactly unless it names the placeholder executable and is undecidable |
| `Scopes.PlaceholderUndecidable` | crates/cfc-core/src/rule.rs:367-424 | A scope naming the placeholder never matches, and is undecidable iff the executable is unidentified and neither digest nor uid rules it out |
| `Scopes.PlaceholderIsNeverRejected` | crates/cfc-core/src/rule.rs:257-299 | Concrete hostname scope on the placeholder that stays undecidable although no completion matches it |
| `Scopes.DecidedIsStable` | crates/cfc-core/src/rule.rs:367-424 | A scope decided for a process stays decided the same way when exe, uid or digest is filled in |
| `Scopes.SpecificityCountsOnlyNarrowing` | crates/cfc-core/src/rule.rs:130-176 | Writing `outbound` out loud or adding a `/0` network never changes a rule's rank, and the two spellings match the same flows |
| `RuleSets.SortSorts` | crates/cfc-core/src/rule.rs:577-601 | The deterministic sort puts every pair in precedence order and is a permutation that keeps ids unique |
| `RuleSets.UniqueIdsIsAboutContents` | crates/cfc-core/src/rule.rs:577-601 | Id uniqueness is a property of the contents, not of their order |
| `RuleFields.TwoRulesSort` | crates/cfc-core/src/rule.rs:565-601 | Of two rules that one sorts first which has the higher rank; among equals the Deny, then the Reject; then the older, then the smaller id |
| `RuleSets.Lookup` | crates/cfc-core/src/rule.rs:603-712 | The loop with its flags computes the specified lookup: the definite winner of the walk answers exactly when no undecided rule passed on the way is of the other class, else the reported undecided rule does, preferring one with a legacy hostname |
| `Networks.NetContainsBits` | crates/cfc-core/src/rule.rs:469-483 | An address lies in a network iff the families agree and its first `prefix` bits are the network's, bit by bit |
| `RuleFields.LookupIgnores` | crates/cfc-core/src/rule.rs:627-662 | A rule that is disabled, past its deadline by the millisecond clock, not about the flow or neither fitting nor possibly fitting the process can be dropped from the set without changing the answer |
| `RuleFields.AnswersAreAboutTheFlow` | crates/cfc-core/src/rule.rs:627-712 | Whatever a lookup answers or reports is a rule of the set that is on, unexpired and about the flow field by field; an answering one fits the process and names no host, a reported one has an identity or a host left open |
| `RuleFields.SilenceIsExact` | crates/cfc-core/src/rule.rs:627-712 | A lookup finds nothing iff no rule is on, unexpired, about the flow, and fitting the process or possibly fitting it |
| `RuleFields.OneRuleDecides` | crates/cfc-core/src/rule.rs:627-712 | With one rule the lookup answers, reports or finds nothing exactly by that rule's fields |
| `RuleFields.TwoRulesDecide` | crates/cfc-core/src/rule.rs:603-626 | Of two rules that certainly apply the first answers, unless it is an Allow naming no program and the second names one |
| `RuleSets.LookupIsFunctional` | crates/cfc-core/src/rule.rs:603-712 | The lookup specification admits exactly one answer |
| `ThreeValued.LookupIsSound` | crates/cfc-core/src/rule.rs:627-712 | A definite answer is given only if every subset of the undecided rules taken as matching leaves a winner of that class; no match means no resolution matches anything |
| `ThreeValued.KnowingMoreNeverFlips` | crates/cfc-core/src/rule.rs:367-424 | Filling in missing identity keeps an answer an answer of the same class and keeps no-match no-match |
| `ThreeValued.AbstentionIsExact` | crates/cfc-core/src/rule.rs:664-711 | When a lookup abstains, the resolutions all agree iff the program rules alone settle on refusing (then every resolution refuses); in every other abstention two resolutions disagree |
| `ThreeValued.AbstentionCanBeNeedless` | crates/cfc-core/src/rule.rs:664-711 | Concrete rules, flow and process for which the lookup abstains although every resolution refuses |
| `Identities.AnswersHoldForEveryIdentity` | crates/cfc-core/src/rule.rs:632-712 | Without hostname rules, what a lookup answers is what every process the known identity leaves open gets |
| `Identities.SamplesDecide` | crates/cfc-core/src/rule.rs:367-424 | Every process the known identity leaves open is answered alike iff finitely many are: the values the rules name, and one other |
| `Identities.AbstentionOverIdentities` | crates/cfc-core/src/rule.rs:664-711 | Concrete rules and process for which the lookup abstains although every process left open is refused and the program rules settle on nothing |
| `ThreeValued.WalkRefines` | crates/cfc-core/src/rule.rs:632-712 | Deciding any undecided rules keeps a settled walk settled on the same class |
| `ThreeValued.DecidedWalk` | crates/cfc-core/src/rule.rs:603-712 | With nothing undecided the walk is the documented precedence: first match, unless that is a generic Allow and some match names a program, then the first of those |
| `ThreeValued.WinnerOfKnownProcess` | crates/cfc-core/src/rule.rs:603-712 | For a fully known process without hostname rules the answer is definite; a generic Allow answers only if no match names a program, a program rule only as the highest-ranked program match, a generic refusal only as the first match |
| `ThreeValued.PairwisePrecedence` | crates/cfc-core/src/rule.rs:603-626 | Which of two matching rules answers: the earlier one, unless it is a generic Allow and the other names a program |
| `ThreeValued.PrecedenceCycle` | crates/cfc-core/src/rule.rs:603-626 | Pairwise precedence is cyclic: any such four rules beat each other in a circle |
| `ThreeValued.NoRankingExpressesPrecedence` | crates/cfc-core/src/rule.rs:603-626 | No numeric ranking of rules can express the precedence, so it cannot be folded into the sort key |
| `Engines.Engine.constructor` | crates/cfc-daemon/src/decision.rs:65-79 | A new engine is sorted, id-unique and holds exactly the initial rules with no pending hits |
| `Engines.Engine.Peek` | crates/cfc-daemon/src/decision.rs:167-197 | The decision is the one the lookup calls for: the rule's verdict, a policy Deny for a hostname abstention, else a prompt with the no-UI fallback |
| `Engines.DecisionsOnFields` | crates/cfc-daemon/src/decision.rs:167-197 | A verdict in a rule's name is the action of a rule that is on and about the flow and process; a hostname abstention is a Deny by policy; any other abstention prompts with the no-UI action as fallback, naming the rule whose identity is open, if any rule is on and about the flow |
| `Engines.Engine.Evaluate` | crates/cfc-daemon/src/decision.rs:147-163 | Evaluating decides as peeking does and counts one hit on the answering rule, on nothing else |
| `Engines.Engine.ProcessWideAction` | crates/cfc-daemon/src/decision.rs:199-281 | It answers with the action of rule k iff that rule is enabled, unexpired, not inbound, fits the process, constrains no destination and is no generic Allow, every earlier such rule is decided and either does not fit or is a generic Allow, and once one of those fitted the rule is a refusal naming a program; it answers nothing iff there is no such k |
| `Engines.ProcessWideIsExact` | crates/cfc-daemon/src/decision.rs:230-281 | The process-wide walk finds a rule exactly when one precommits in that sense, and then that one |
| `Engines.Engine.DeniesProcessWide` | crates/cfc-daemon/src/decision.rs:282-291 | True iff there is such a rule and its action is Deny or Reject |
| `Engines.Engine.CompilableExePaths` | crates/cfc-daemon/src/decision.rs:300-345 | The set is exactly the live rules' executables no live user-scoped rule can be about; none means no executable qualifies |
| `Engines.Engine.PreserveServerOwned` | crates/cfc-daemon/src/decision.rs:382-404 | Hit count and creation time come from the rule already held, whatever the client sent; an unknown rule is left alone |
| `Engines.Engine.UpsertRule` | crates/cfc-daemon/src/decision.rs:426-440 | Contents change in that one rule and the rules stay sorted and id-unique |
| `Engines.Engine.RemoveRule` | crates/cfc-daemon/src/decision.rs:442-445 | Exactly that rule goes; order and uniqueness stay |
| `Engines.Engine.NotifyRulesExpired` | crates/cfc-daemon/src/decision.rs:129-137 | Exactly the rules past their deadline go; order and uniqueness stay |
| `Engines.Engine.ReplaceRules` | crates/cfc-daemon/src/decision.rs:405-424 | The contents become the batch with the daemon's own fields restored and stale deltas dropped; the list is in precedence order iff restoring the creation times swaps no two tied rules |
| `Engines.Engine.Snapshot` | crates/cfc-daemon/src/decision.rs:447-466 | A snapshot shows each rule with its stored count plus its pending delta, saturating |
| `Engines.Engine.DrainHits` | crates/cfc-daemon/src/decision.rs:467-482 | Draining hands over every delta, leaves none, and folds them into the rules so that what a snapshot shows is unchanged |
| `Engines.Republished` | crates/cfc-daemon/src/decision.rs:405-424 | Sorting before restoring creation times keeps contents and uniqueness, and keeps order iff no two tied rules swap |
| `Engines.CallersKeepOrder` | crates/cfc-daemon/src/ipc/mod.rs:690-730 | A caller that hands back the stored creation times always gets a sorted set |
| `KernelRefinement.KernelRefusalIsRefusedByThePacketPath` | crates/cfc-daemon/src/decision.rs:199-291 | A process refused before a destination exists has every outbound flow refused by the packet path, by that rule or by policy, for every process that keeps its known identity and fills in more |
| `KernelRefinement.KernelAllowIsTheAnswer` | crates/cfc-daemon/src/decision.rs:199-281 | A process-wide Allow names a program and is exactly the rule every outbound lookup answers with |
| `KernelRefinement.ProcessWideWalk` | crates/cfc-daemon/src/decision.rs:230-281 | The process-wide rule is the definite winner of the packet walk, which passes nothing on the way but generic hostname Allows |
| `KernelRefinement.CompiledRefusalHoldsForEveryUser` | crates/cfc-daemon/src/decision.rs:300-345 | Compiling an executable loses no per-user decision: the made-up exe-only process is answered as every user's would be, and its refusal is a refusal of every outbound flow of every user and digest |
| `History.ContentsFixTheOrder` | crates/cfc-core/src/rule.rs:577-601 | Precedence order is total on distinct ids: two sorted lists with the same contents are the same list, hit counts aside |
| `History.DecisionsIgnoreHistory` | crates/cfc-core/src/rule.rs:577-601 | Two engines holding the same rules, hit counts aside, answer every flow of every process at every time alike |
| `History.Replay` | crates/cfc-daemon/src/decision.rs:65-482 | Any run of upserts, removals, batches, expiries, counts and drains leaves the rules sorted and id-unique with the contents the edits add up to, given that batches keep tied rules in stored order |
| `History.RunsDecideAlike` | crates/cfc-daemon/src/decision.rs:65-482 | Two runs of edits that add up to the same rules decide every flow alike, fallback included |
| `History.ClaimedTimesBreakOrder` | crates/cfc-daemon/src/decision.rs:405-424 | Concrete batch whose published list is out of order, because sorting comes before restoring creation times |
| `HitAccounting.RuleStore.Upsert` | crates/cfc-daemon/src/storage.rs:342-355 | A row is replaced iff the rule has no hostname scope and the write commits |
| `HitAccounting.RuleStore.ApplyRules` | crates/cfc-daemon/src/storage.rs:357-391 | A batch is put over the rows or in their place as a whole, or not at all, iff it holds no hostname scope and commits; the number of rows gone is right |
| `HitAccounting.RuleStore.MergeHitCounts` | crates/cfc-daemon/src/storage.rs:451-486 | Each stored row gains exactly its increment, saturating; rows deleted meanwhile are skipped; nothing changes if the transaction fails |
| `HitAccounting.RuleStore.PurgeExpired` | crates/cfc-daemon/src/storage.rs:414-449 | Exactly the expired rows go, or none if the transaction fails |
| `HitAccounting.Flush` | crates/cfc-daemon/src/maintenance.rs:48-56 | One flush leaves no delta and adds the drained deltas to the stored rows as to the in-memory ones; a failed merge leaves the store as it was |
| `HitAccounting.FlushTick` | crates/cfc-daemon/src/maintenance.rs:48-75 | A whole tick leaves engine and store as draining, merging and, if a deadline has passed, dropping and purging by two clock reads do |
| `HitAccounting.TickInOneGo` | crates/cfc-daemon/src/maintenance.rs:48-75 | The machine's steps of a flush, uninterrupted, add up to the tick |
| `HitAccounting.UpsertInOneGo` | crates/cfc-daemon/src/ipc/mod.rs:638-663 | So do those of an upsert: the rule as restored in both copies, or nothing |
| `HitAccounting.BatchInOneGo` | crates/cfc-daemon/src/ipc/mod.rs:665-735 | And of a batch: both copies become the batch, over the old rules or in their place, with count and creation time as held, other rules keep theirs and their pending hits; or nothing changes |
| `HitAccounting.DeleteInOneGo` | crates/cfc-daemon/src/ipc/mod.rs:1069-1094 | And of a deletion: the row goes, and the rule if there was a row; or nothing changes |
| `HitAccounting.ShutdownInOneGo` | crates/cfc-daemon/src/main.rs:300-305 | And of the shutdown flush: every pending delta goes into the rules, and into the rows if the merge commits or has nothing to add |
| `HitAccounting.UpsertChecked` | crates/cfc-daemon/src/ipc/mod.rs:638-663 | An upsert writes the rule, with count and creation time as held, to both copies or to neither |
| `HitAccounting.HitsAreConserved` | crates/cfc-daemon/src/decision.rs:147-163 | Over any interleaving of counts with flushes, upserts, batches, deletions and the shutdown flush, a rule live throughout shows its first count plus the hits counted on it, and keeps its creation time, provided the shutdown drains no hits of it while an upsert of that rule is in hand |
| `HitAccounting.ShutdownInBetweenLoses` | crates/cfc-daemon/src/main.rs:300-305 | A shutdown flush between an upsert's reading and its write keeps the rule's visible count iff it drained no countable hit of it; the copies stay equal |
| `HitAccounting.UpsertInBetweenParts` | crates/cfc-daemon/src/main.rs:300-305 | An upsert between the shutdown's drain and its merge leaves the copies equal iff no countable hit of its rule was drained |
| `HitAccounting.DrainAloneParts` | crates/cfc-daemon/src/main.rs:300-305 | Between the shutdown's drain and its merge the copies are equal iff no countable hit was pending |
| `HitAccounting.ShutdownCanCountTwice` | crates/cfc-daemon/src/main.rs:300-305 | Concrete run: one hit ends as one in the engine and two in the store, with nobody holding the lock and nothing failed |
| `HitAccounting.ShutdownCanLoseAHit` | crates/cfc-daemon/src/main.rs:300-305 | Concrete run: one hit ends as none in both copies |
| `HitAccounting.OneHitIsReached` | crates/cfc-daemon/src/decision.rs:160-163 | Those runs start one count after the daemon's start |
| `HitAccounting.QuietIsApart` | crates/cfc-daemon/src/decision.rs:81-94 | Shutdown and rule writes keep apart when no write is prepared at the drain and none is stored before the merge |
| `HitAccounting.CountCanWrap` | crates/cfc-daemon/src/decision.rs:160-163 | A pending delta at the width of its counter: one more count takes the visible count back to zero |
| `HitAccounting.OtherStepsKeepCounts` | crates/cfc-daemon/src/decision.rs:382-482 | No step but counting changes the visible count or creation time of a rule that stays, whatever count a client echoes back |
| `HitAccounting.CountAddsOne` | crates/cfc-daemon/src/decision.rs:160-163 | One count adds exactly one, saturating, iff the 64-bit delta does not wrap or the base is saturated already |
| `HitAccounting.SnapshotShowsVisible` | crates/cfc-daemon/src/decision.rs:447-466 | The count whose conservation is proved is the one a snapshot shows |
| `HitAccounting.StoreAgreesWithEngine` | crates/cfc-daemon/src/decision.rs:81-94 | Whenever the mutation lock is free, the shutdown flush is not under way and no flush was lost, every rule both copies hold is the same in both, count included, whatever its deadline, and a rule only one holds is past its deadline; provided shutdown and rule writes kept apart |
| `HitAccounting.CountsAgree` | crates/cfc-daemon/src/storage.rs:235-340 | The same for counts and creation times, from any start in which shared rules agree on them: also with rows set aside at load or mended in memory alone |
| `HitAccounting.StoreEqualsEngine` | crates/cfc-daemon/src/decision.rs:81-94 | Under the same conditions the two copies are equal, if they were at the start and as long as no deadline fell between the two clock reads of an expiry |
| `HitAccounting.StepKeepsInv` | crates/cfc-daemon/src/ipc/mod.rs:615-735 | Every atomic step of a flush, upsert, batch, deletion or shutdown flush keeps the two copies in the relation its phase calls for, if shutdown and rule writes keep apart |
| `HitAccounting.PurgeCanLeaveARowBehind` | crates/cfc-daemon/src/maintenance.rs:57-75 | Concrete run in which a deadline between the two clock reads of one flush leaves a stored row without its in-memory rule |
| `HitAccounting.ExpiryPartsTheCopies` | crates/cfc-daemon/src/maintenance.rs:57-75 | Equal copies stay equal through an expiry iff no deadline lies between the two clock reads |
| `PromptRouter.EveryPromptResolvesOnce` | crates/cfc-daemon/src/prompts.rs:214-299 | Under any interleaving each prompt gets at most one verdict, a pending one always has its enqueue or a sweeper left, and when all tasks are done each enqueued prompt got exactly one and the counter reads zero |
| `PromptRouter.PromptsAreConserved` | crates/cfc-daemon/src/stats.rs:94-100 | Enqueued prompts are those sent, pending, being resolved and in flight; the counter is the size of the map adjusted for tasks between the two, modulo 2^64 |
| `PromptRouter.RunKeepsInv` | crates/cfc-daemon/src/prompts.rs:101-332 | Placement, attendance, counter and census hold at every point of every run |
| `PromptRouter.AudienceIsTruthful` | crates/cfc-daemon/src/prompts.rs:64-149 | The census finds an audience iff there is a live answering subscription: any for a prompt without an owner, else one of uid 0 or of the owner |
| `PromptRouter.AudienceIs` | crates/cfc-daemon/src/prompts.rs:64-149 | An unowned prompt has an audience iff the census is not empty, one owned by u iff 0 or u is in it |
| `PromptRouter.StepKeepsCensus` | crates/cfc-daemon/src/prompts.rs:192-210 | The census is at every step the multiset of live answering subscriptions, with no zero entry |
| `PromptRouter.TasksRunOut` | crates/cfc-daemon/src/prompts.rs:214-299 | From every state reached, the router's tasks take at most a computed number of steps in any order, one can move until none is left, and then every prompt has been answered exactly once |
| `PromptRouter.TaskStepsAreBounded` | crates/cfc-daemon/src/prompts.rs:214-299 | Whatever users, clients and reloads do meanwhile, a run takes at most eight task steps for each prompt enqueued and two for each answer that finds its prompt pending |
| `PromptRouter.TaskStepsCount` | crates/cfc-daemon/src/prompts.rs:214-299 | Task steps count one for each move of an enqueueing call, a sweeper or a resolver |
| `PromptRouter.TaskStepsArePaidFor` | crates/cfc-daemon/src/prompts.rs:214-299 | From any sound state, task steps taken and work left are at most the work there was plus what enqueues and answers add |
| `PromptRouter.TaskStepsWork` | crates/cfc-daemon/src/prompts.rs:214-299 | Every task step uses up remaining work |
| `PromptRouter.EveryVerdictHasASource` | crates/cfc-daemon/src/prompts.rs:214-299 | Every verdict sent is a user's own answer that found that prompt pending or, under the policy in force when sent, the timeout action for a prompt the sweeper found pending, or the no-UI action for one whose check found neither root nor the owner in the census, or whose broadcast found nobody receiving |
| `PromptRouter.ReloadsTakeEffect` | crates/cfc-daemon/src/prompts.rs:150-160 | The policy a send reads is the last one loaded |
| `PromptRouter.SubscribingRoundTrips` | crates/cfc-daemon/src/prompts.rs:160-210 | A subscription is reached by broadcasts and is an audience for its user while it lasts, and leaves census and receivers as they were |
| `PromptRouter.UnseenInOneGo` | crates/cfc-daemon/src/prompts.rs:225-250 | The machine's steps of an enqueue nobody may see add up to one no-UI verdict and nothing else |
| `PromptRouter.SeenInOneGo` | crates/cfc-daemon/src/prompts.rs:225-270 | With an audience they add up to one pending, counted prompt about to be broadcast |
| `PromptRouter.BroadcastInOneGo` | crates/cfc-daemon/src/prompts.rs:250-285 | A broadcast with a receiver leaves the prompt to a sweeper, one without takes it back for the no-UI action |
| `PromptRouter.HolderInOneGo` | crates/cfc-daemon/src/prompts.rs:214-223 | Whoever took a prompt out counts it down and sends the user's verdict or the policy's |
| `PromptRouter.SweepTakesOut` | crates/cfc-daemon/src/prompts.rs:286-299 | A timer that fires takes a pending prompt out for the timeout action and leaves any other alone |
| `PromptRouter.VerdictsAreSourced` | crates/cfc-daemon/src/prompts.rs:214-299 | The same from any state, for pending answers and calls under way as well |
| `PromptRouter.ResolutionInOneGo` | crates/cfc-daemon/src/prompts.rs:214-223 | The three atomic steps of an answer add up to what the uninterrupted operation does |
| `PromptRouter.Router.Register` | crates/cfc-daemon/src/prompts.rs:122-126 | One more answering subscription of that user |
| `PromptRouter.Router.Unregister` | crates/cfc-daemon/src/prompts.rs:127-140 | One fewer, and no zero entry stays behind |
| `PromptRouter.Router.AnyAudience` | crates/cfc-daemon/src/prompts.rs:141-149 | True iff anyone is registered, for a prompt without an owner; else iff uid 0 or the owner is |
| `PromptRouter.Router.Submit` | crates/cfc-daemon/src/prompts.rs:214-223 | An answer resolves a pending prompt, counts it down and returns its binding; a late, unknown or malformed one changes nothing |
| `PromptRouter.Router.Enqueue` | crates/cfc-daemon/src/prompts.rs:225-285 | A prompt is pending and swept iff root or its owner (anyone, for an unowned one) is registered and the broadcast is received; otherwise the no-UI verdict is sent at once and nothing is left behind |
| `PromptRouter.Router.Sweep` | crates/cfc-daemon/src/prompts.rs:286-299 | A timeout sends the timeout verdict iff the prompt is still pending |
| `Checksums.Checksum16` | crates/cfc-daemon/src/reject.rs:536-577 | However the bytes are split into slices, the result is the RFC 1071 checksum of their concatenation up to 65537 words, and in general the checksum of the sum modulo 2^32 |
| `Checksums.FoldIsResidue` | crates/cfc-daemon/src/reject.rs:573-575 | Folding ends, keeps the residue modulo 65535, and gives zero only for a zero sum |
| `Checksums.FilledChecksumVerifies` | crates/cfc-daemon/src/reject.rs:536-577 | Writing the checksum into its own zeroed, even-aligned field makes the whole verify |
| `Checksums.OnlyZerosSumToZero` | crates/cfc-daemon/src/reject.rs:536-577 | The checksum is all ones iff the input is all zeros |
| `Checksums.OverflowGivesAWrongChecksum` | crates/cfc-daemon/src/reject.rs:542-577 | For every sum, the truncated one folds to the right value iff nothing overflowed or the dropped carries are a multiple of 65535 with something left; below 65535 * 2^32 iff nothing overflowed |
| `Checksums.OverflowCanGoUnnoticed` | crates/cfc-daemon/src/reject.rs:542-577 | Concrete sum that overflows and still folds right |
| `Checksums.WordBoundIsTight` | crates/cfc-daemon/src/reject.rs:542-577 | 65537 words of all ones just fit the accumulator and one more gives a wrong checksum |
| `Packets.Parse` | crates/cfc-daemon/src/packet.rs:41-79 | On every byte string: an IPv4 packet fails exactly when its header, by its own length, or its ports do not fit, and otherwise yields its addresses, its protocol by number and the ports behind the header; an IPv6 one yields what the chain walk calls for; any other fails |
| `Packets.Ipv4RoundTrips` | crates/cfc-daemon/src/packet.rs:53-79 | An IPv4 packet with any options, flags and fragment offset parses to exactly its addresses and protocol (6 TCP, 17 UDP, 1 and 58 ICMP, else that number without ports), with the first four bytes behind the header as ports, where the refusal path looks too |
| `Packets.PortsNeedTheFirstFragment` | crates/cfc-daemon/src/packet.rs:53-79 | In IPv4 the ports reported are the datagram's for every datagram iff the fragment offset is zero |
| `Packets.LaterFragmentShowsPorts` | crates/cfc-daemon/src/packet.rs:53-79 | Concrete later IPv4 fragment reported as TCP from port 80 to port 81 out of its payload |
| `Packets.LaterFragmentHasNoPorts` | crates/cfc-daemon/src/packet.rs:129-147 | A later IPv6 fragment behind any chain of at most eight headers is reported without ports |
| `Packets.PrefixParses` | crates/cfc-daemon/src/packet.rs:41-159 | A prefix that holds the ports of a TCP or UDP packet parses as the packet does, a shorter one fails |
| `Packets.ParseIpv6` | crates/cfc-daemon/src/packet.rs:81-159 | The loop agrees with the chain walk on every buffer |
| `Packets.WalkStaysInside` | crates/cfc-daemon/src/packet.rs:81-159 | The walk never ends past the buffer and moves a bounded distance |
| `Packets.L4Offset` | crates/cfc-daemon/src/reject.rs:579-623 | The refusal path's loop computes its walk, which stays inside the packet |
| `Packets.L4OffsetOf` | crates/cfc-daemon/src/reject.rs:579-623 | The offset found lies behind an IP header and inside the packet |
| `Packets.RefusalPathFindsThePorts` | crates/cfc-daemon/src/reject.rs:579-623 | Whenever the parser reports TCP or UDP, the refusal path's offset has the four bytes whose words are the parsed ports |
| `Packets.KernelWalkAgrees` | crates/cfc-ebpf-proto/src/net.rs:79-132 | Whatever datagram the kernel program recognises, the parser reports as UDP with the same ports and the refusal path locates eight bytes before the payload; the payload lies within the valid bytes |
| `Packets.KernelReadsIpv4` | crates/cfc-ebpf-proto/src/net.rs:79-132 | The kernel program reads ports, offset and length of every IPv4 UDP packet with fragment offset zero whose own length holds its header, and of no later fragment |
| `Packets.KernelReadsIpv6` | crates/cfc-ebpf-proto/src/net.rs:79-132 | And of every such IPv6 UDP packet without extension headers |
| `Packets.ChainRoundTrips` | crates/cfc-daemon/src/packet.rs:81-191 | A packet with any chain of at most eight extension headers (0, 43, 44, 51, 60) of any encodable length parses back to exactly its addresses and upper layer, whatever that is, and the refusal path finds it (section 4 of RFC 8200, section 2.2 of RFC 4302); a longer chain is refused |
| `Refusals.ResetAnswersSegment` | crates/cfc-daemon/src/reject.rs:333-380 | For every well-formed segment the reset is the one section 3.5.2 of RFC 9293 asks for, modulo 2^32 |
| `Refusals.BuildTcpRst` | crates/cfc-daemon/src/reject.rs:382-410 | The packet built is a reset between the given endpoints whose checksums verify as a receiver computes them from the packet's own bytes; none iff the families differ |
| `Refusals.BuildIcmpPortUnreachable` | crates/cfc-daemon/src/reject.rs:411-457 | The packet built is a port-unreachable error quoting the datagram whose checksums verify as a receiver computes them; none iff the families differ or the quotation is short |
| `Refusals.ResetIsAccepted` | crates/cfc-daemon/src/reject.rs:382-410 | Addresses, protocol and length read from the packet, header and message each sum to all ones (RFC 1071; section 8.1 of RFC 8200) |
| `Refusals.UnreachableIsAccepted` | crates/cfc-daemon/src/reject.rs:411-457 | The same of an error: over the message alone in IPv4, with addresses, length and next header in IPv6 |
| `Refusals.PseudoHeaderSum` | crates/cfc-daemon/src/reject.rs:516-535 | A pseudo-header adds exactly the addresses' words, the protocol number and the length to the sum |
| `Refusals.ResetAnswersAnySegment` | crates/cfc-daemon/src/reject.rs:333-380 | The same for any bytes: a data offset pointing before the fixed header's end or past the segment counts as the nearest that does not |
| `Refusals.FillChecksum` | crates/cfc-daemon/src/reject.rs:400-455 | Filling a blank checksum field changes nothing else and makes everything covered verify |
| `Refusals.ResetRoundTrips` | crates/cfc-daemon/src/reject.rs:382-410 | A built reset parses as TCP between exactly the given endpoints and is itself a segment no reset answers |
| `Refusals.UnreachableRoundTrips` | crates/cfc-daemon/src/reject.rs:411-457 | A built error parses as ICMP between the given addresses, its length field is right, it quotes a prefix of the offending datagram, in IPv4 exactly through eight bytes of its upper layer, and an IPv6 one fits 1280 bytes (section 2.4 of RFC 4443) |
| `Refusals.QuotationNamesTheFlow` | crates/cfc-daemon/src/reject.rs:411-457 | The quotation parses back to the refused flow: in IPv4 always, in IPv6 iff its ports lie within the first 1232 bytes |
| `Refusals.QuoteIsShort` | crates/cfc-daemon/src/reject.rs:411-457 | A quotation always fits the length fields and the checksum's word bound |
| `Rejecting.GrantsArePaidFor` | crates/cfc-daemon/src/reject.rs:744-756 | Over any run of calls tokens stay within [0, burst] and grants are paid for by tokens held and time passed |
| `Rejecting.WindowBound` | crates/cfc-daemon/src/reject.rs:744-756 | Calls in any window [s, t] are granted at most burst + rate * (t - s) times, whatever happened before |
| `Rejecting.ClimbBound` | crates/cfc-daemon/src/reject.rs:744-756 | In any order, calls are granted at most the burst and what their climb from the first call earns |
| `Rejecting.ClimbOfOrdered` | crates/cfc-daemon/src/reject.rs:744-756 | That climb is the time from first to last call iff the instants are in order, and more otherwise |
| `Rejecting.UnorderedInstantsOverspend` | crates/cfc-daemon/src/reject.rs:744-756 | Instants out of order, which one worker with a monotonic clock does not produce, would break the window bound |
| `Rejecting.OffBoxWindowBound` | crates/cfc-daemon/src/reject.rs:201-249 | However inbound, outbound and unanswerable flows are mixed, refusals of inbound flows sent in a window [s, t] are at most burst + rate * (t - s) |
| `Rejecting.Budget.TakeAt` | crates/cfc-daemon/src/reject.rs:744-756 | One call adds the rate times the time passed, never negative, caps at the burst, and is granted and charged one token iff one is there |
| `Rejecting.TurnedDownOnlyWhenSpent` | crates/cfc-daemon/src/reject.rs:744-756 | From a full bucket, with instants in order, a call is turned down only if the calls from some instant on were granted more than burst - 1 + rate * (time since) times, within one of the most a window may be granted |
| `Rejecting.EveryGrantIsSent` | crates/cfc-daemon/src/reject.rs:201-249 | Of refusals of inbound flows that nothing else stops, exactly those the budget grants are sent |
| `Rejecting.UnicastOctets` | crates/cfc-daemon/src/reject.rs:689-707 | The gate, on octets: first octet 224 to 239, all 255 and all 0 are out in IPv4 and in its mapped form; first octet 255 and all 0 in IPv6 |
| `Rejecting.MappedIsJudgedAlike` | crates/cfc-daemon/src/reject.rs:689-707 | An IPv4 address is judged alike in its IPv6-mapped form |
| `Rejecting.Rejecter.Reject` | crates/cfc-daemon/src/reject.rs:201-249 | A pair that is not unicast is never answered and costs nothing; outbound refusals never spend a token; every other outcome is determined, and what leaves is a refusal of that very flow |
| `Rejecting.AnswerableExactly` | crates/cfc-daemon/src/reject.rs:251-288 | A parsed TCP flow can be refused iff its fixed header is whole and it is no reset, a UDP flow over IPv4 iff eight bytes of it are there, one over IPv6 always |
| `Rejecting.RefusalReturnsToSender` | crates/cfc-daemon/src/reject.rs:201-288 | End to end, the emitted refusal parses at the receiver as traffic from the flow's destination to its source, TCP ports swapped |
| `Dns.ObservationsDoNotInterfere` | crates/cfc-daemon/src/dns.rs:127-140 | Leaving every observed response out of a run leaves the policy map, the lookups under way and every policy answer unchanged |
| `Dns.PolicyAnswersIgnoreObservations` | crates/cfc-daemon/src/dns.rs:1-18 | From the start, policy names and policy reads do not depend on observed responses |
| `Dns.PolicyNamesAreConfirmed` | crates/cfc-daemon/src/dns.rs:122-140 | Every name a policy read returned was reported by a lookup of that address that is, equal or as the IPv4 address mapped into IPv6, one of the name's own addresses, and was filed at most 300 seconds before |
| `Dns.ConfirmedExactly` | crates/cfc-daemon/src/dns.rs:322-360 | A lookup's name is confirmed iff it has one and one of its addresses is the one asked about, equal or in mapped form |
| `Dns.ConfirmedNamesAreAnswered` | crates/cfc-daemon/src/dns.rs:122-140 | A name so confirmed is what every policy read returns up to 300 seconds after it is filed for an address still reserved |
| `Dns.DisplayedNamesHaveASource` | crates/cfc-daemon/src/dns.rs:161-200 | Every displayed name is a confirmed one or the cleaned name of a response observed for that address |
| `Dns.ResourcesAreBounded` | crates/cfc-daemon/src/dns.rs:24-27 | Over every run both maps hold at most 4096 entries, at most eight lookups hold a permit, and every reservation has a task that will settle it |
| `Dns.OnlyReservationsAddAddresses` | crates/cfc-daemon/src/dns.rs:292-299 | Only a reservation adds an address to the policy map, so a completion never recreates an evicted one |
| `Dns.FreshObservationsSurvive` | crates/cfc-daemon/src/dns.rs:78-85 | Filing a lookup's result leaves a fresh observed name in place, except exactly when the map is full, the filed address is new to it and that entry is the oldest |
| `Dns.AFreshObservationCanBeEvicted` | crates/cfc-daemon/src/dns.rs:312-321 | Concrete full map in which filing a lookup's result evicts a fresh observed name |
| `Dns.CleanedIsCanonical` | crates/cfc-daemon/src/dns.rs:161-180 | A cleaned name holds only lowercase hostname characters, has no final dot and is clean already; a final dot on the wire makes no difference |
| `Dns.CleanedExactly` | crates/cfc-daemon/src/dns.rs:161-180 | With any final dots, a name is taken iff what precedes them is letters, digits, hyphens, underscores and dots and not empty, and then only its capitals change |
| `Dns.ObservationsAlwaysShow` | crates/cfc-daemon/src/dns.rs:180-200 | An observation with a clean name always becomes the displayed name; the entry goes back in time iff the observation's instant is earlier |
| `Dns.DisplayedObservationIsTheLatest` | crates/cfc-daemon/src/dns.rs:180-200 | Over every run, an observed name on display is the one heard last for its address |
| `Dns.EvictIfFull` | crates/cfc-daemon/src/dns.rs:312-321 | A full map loses one oldest entry, any other is untouched |
| `Dns.StepsAreOperations` | crates/cfc-daemon/src/dns.rs:180-308 | The machine's display steps are what the cache's operations do |
| `Dns.LookupsAreStarted` | crates/cfc-daemon/src/dns.rs:207-245 | From any state, an address neither under way nor still answered gets its reservation and its lookup whenever fewer than eight permits are taken |
| `Dns.PolicyStepsAreOperations` | crates/cfc-daemon/src/dns.rs:207-245 | Its checks, permits, reservations and policy reads are, too |
| `Dns.ResultStepsAreOperations` | crates/cfc-daemon/src/dns.rs:246-308 | And its results: confirmed or without a name, filed for 300 or 60 seconds if still reserved |
| `Dns.DnsCache.ObserveAnswer` | crates/cfc-daemon/src/dns.rs:161-200 | A name that is no hostname changes nothing; any other is inserted for display with its TTL kept between 60 and 3600 seconds, and policy is untouched |
| `Dns.DnsCache.EnqueueLookup` | crates/cfc-daemon/src/dns.rs:207-245 | A lookup is spawned, with a permit and a reservation, iff none is under way or fresh at either check and a permit is free |
| `Dns.DnsCache.RecordPtrResult` | crates/cfc-daemon/src/dns.rs:279-308 | A result whose reservation is gone changes nothing; otherwise it is filed for policy, 300 seconds with a name and 60 without, and for display unless an observation is shown that is not too old |
| `Dns.DnsCache.LookupCached` | crates/cfc-daemon/src/dns.rs:110-123 | The displayed name of the address, if its entry is not under way and no older than its TTL |
| `Dns.DnsCache.CachedNamed` | crates/cfc-daemon/src/dns.rs:133-140 | The policy name of the address, if its entry is not under way and no older than its TTL |

## Left out

- HitAccounting.HitsAreConserved: assumes the pending delta plus the counted hits stay below 2^64, because beyond that the delta wraps; `HitAccounting.CountAddsOne` gives the exact per-step condition. Hits counted after the shutdown drain end with the process.
- HitAccounting.StoreAgreesWithEngine: says nothing after a failed merge or purge, which the daemon only logs; a rule past its deadline may be missing from one copy, because a flush reads the clock twice. It starts from equal copies: a rule mended in memory at load, whose row is left as it was (crates/cfc-daemon/src/storage.rs:79-87), differs in its scope until it is saved again. `HitAccounting.CountsAgree` starts from such copies too.
- HitAccounting.StoreEqualsEngine: assumes no deadline falls between the two clock reads of an expiry; `HitAccounting.ExpiryPartsTheCopies` gives the exact condition for one expiry.
- HitAccounting.StepKeepsInv: an upsert that would turn a timed rule permanent is refused by the service; the machine allows it, which only adds runs.
- Engines.Engine.ReplaceRules: assumes distinct ids in the batch, as rows keyed by id and a service that rejects duplicates supply them.
- Engines.Engine.constructor: assumes distinct ids, as rows keyed by id supply them.
- History.Replay: assumes of each batch that restoring creation times swaps no tied rules; without that the order can break.
- Rejecting.WindowBound: assumes instants in order. The daemon's only caller is the one packet worker (crates/cfc-daemon/src/nfqueue/mod.rs:440-464), whose clock is monotonic; `Rejecting.ClimbBound` is the bound without that assumption. Arithmetic is over reals, without floating-point rounding.
- Dns.ObservationsAlwaysShow: observations may come with any instants; the daemon's one ring consumer (crates/cfc-daemon/src/ebpf/loader.rs:942-966) supplies them in order, and then no observation replaces a newer one.
- Dns.ObservationsDoNotInterfere: which of several oldest entries is evicted is taken to depend on the map alone.
- Packets.ChainRoundTrips: the sender's chain holds first fragments only; `Packets.LaterFragmentHasNoPorts` is about later ones.
- Raw sockets, netlink, `/proc`, the packet queue, eBPF loading and the control transport: input and output.
- SQLite, JSON and schema migration: the store is a map that commits or does not.
- Process resolution, executable hashing, package provenance and symlinks: file system state; a process is what was found.
- The resolver itself: a lookup's reverse name and forward addresses are parameters of a step, a reverse answer that echoes the address being given as none.
- The parsed prompt id, the broadcast's success and the kernel's acceptance of a packet: parameters.
- Labels, summaries, error texts, logging, clients and configuration presets: presentation.
- The inbound default action, pausing and the dry run: single branches outside the lookup.
- The quarantine of stored rules at load: the model takes the rules that were loaded, and rows set aside are no part of `HitAccounting.StoreEqualsEngine`. As in the source, `parent_exe` counts towards rank and is compared with nothing.
- Hit counts of ids removed and inserted again: outside the conservation claim.
- Whether Deny and Reject agree across resolutions: the code does not promise it.
