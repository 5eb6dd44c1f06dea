# HydraCore in Dafny

HydraCore is a proxy core built on sing-box. This project models the parts of it that are hard to get
right and proves what they promise, for every input, every run and every interleaving.

**DNS exchange.** A rule list is a program that a query walks through. `evaluate` rules send queries whose
responses later rules bind by tag or anonymously; `race` rules are armed and may commit out of order;
`speculative` rules send early. `DnsWalk` has the walk as functions on its state, `DnsWalker` the same walk
as an object whose loops update that state, and `DnsExchange` the whole exchange as a step system: the
walk, the callbacks of the queries, their wake-up signals and the end of the context interleave freely, and
a callback may come between the settling of the futures and the rule that reads them. `DnsWalkShape` has
what holds whatever comes back in between, `DnsWalkInvariant` and `DnsWalkSteps` what holds besides when
no rule is misled by it. `DnsSequential` is the reference: it runs every query to its end before the next
rule, and says which race rules may decide. `DnsOutcomes` proves that the decisions it allows are exactly
those that clean runs take, and `DnsSpeculation` what sending early does to them. Match conditions are left uninterpreted except for which
responses they read, and the outcome of each query is a fixed function of the query. `DnsMode` and
`DnsUpdates` are the static analysis that decides between the legacy and the new mode, `DnsLegacy` the
legacy exchange, and `DnsRouter` puts the pieces together.

**DNS client.** `DnsSingleFlight` has the lock that makes an exchange wait, once, for one under way with the
same key, `DnsCacheTime` the lifetimes of section 3 of RFC 2308 and the two stores, `DnsCacheKey` the names of the cache file, `DnsSubnet`
the Client Subnet option of section 6 of RFC 7871 and the cache key, with messages as objects in memory.

**URL tests.** `UrlTestTargets` finds the outbounds to measure in a group graph that may be cyclic,
`UrlTestPool` is the worker pool, `UrlTestRegistry` the table of sessions, and `UrlTestSessions` runs all of
them together.

**Service.** `ServiceLifecycle` has start, reload, stop, interrupt and close of the service,
`ConnectionStream` the delta stream of its connections, `ScopeTree` the tree of cleanups and `ScopeShutdown`
what closing a part of it runs, `Taildrop` the framing of sent files, and `SavedBinary` the codec of cached downloads. `Counting` and `Options` are shared
helpers.

Code that works by changing things in place is modelled by classes and loops proved against
specification functions; protocols between goroutines are step systems whose events are the critical
sections and the channel operations.

## What does not hold, and exactly when

- Settling the futures and asking whether a bound future is ready are two reads, and a tagged query that
  comes back with an answer between them is ready but not recorded. `DnsGrain.WindowRead` says exactly when
  a tag reads right and `DnsGrain.MatchedOnWhatIsSeen` what a rule is matched against; a rule on one tag
  matches as it should if and only if its tag reads right or the condition does not tell the answer from a
  missing one (`DnsGrain.MatchIsRightIff`, `DnsGrain.ArmedMatchIsRightIff`). A run is clean when such late
  answers make no difference to the rules that are tried: clean runs decide only as allowed
  (`DnsRuns.RunDecidesAllowed`), runs without a callback in a window are clean (`DnsRuns.AtomicIsClean`), and
  `DnsGrain.AnswerIsLostInTheWindow` is a run with one read that is not clean and a decision that is not
  allowed. That records are views, that futures are cancelled, that nobody hangs and that runs end holds of
  all runs.
- Marking routes speculative changes nothing (`DnsSpeculation.RoutesMayGoAhead`,
  `DnsSpeculation.SentAheadAsUnmarked`). Marking evaluates speculative does: `DnsSpeculation.EvaluatesAheadAdd`
  says exactly which decisions it adds, and `DnsSpeculation.AnswerOnlyWhenAhead` is a list on which it adds one.
- The lock of the DNS client does not keep two exchanges of one key from being out together: a waiter that
  misses when it is woken asks without taking the lock (`DnsSingleFlight.TwoFlightsForOneKey`). One at most is
  out without having waited, and every other one has waited once (`DnsSingleFlight.OneFirstFlightPerKey`).
- A cleanup added to a closed scope is kept and does not run until the scope is closed again
  (`ScopeTree.LateCleanupWaits`). So closing the root runs every cleanup registered by then exactly once, except
  those of scopes whose closing cleanup had run before (`ScopeShutdown.ShutdownRunsEverything`), which wait for a
  Close of that very scope (`ScopeShutdown.TooLateWaits`).
- The mode of a starting router is resolved before the rules are published, and an update may be admitted in
  between: the published mode holds exactly when the rules still resolve and validate as built
  (`DnsUpdates.PublishIsExact`), and `DnsUpdates.UpdateMayOutrunStart` is a start after which it does not.
- The cache file keeps expiry times in whole seconds, so memory and file agree on every entry exactly when
  the entry expires on a whole second (`DnsCacheTime.StoresAgreeOnWholeSeconds`); over whole histories the file
  never serves more than memory (`DnsCacheTime.StoresStayTogether`).
- The cache file's keys leave the question's class out, which the memory store's keys have: two questions
  share an entry exactly when they differ in nothing else (`DnsCacheKey.FileKeysForgetTheClass`), unless a
  transport's tag holds a separator character (`DnsCacheKey.MarkedTagsCollide`).
- Reading a subnet back after writing it gives the prefix exactly when its address is not an IPv4-mapped
  one (`DnsSubnet.RoundTripUnlessMapped`), and the cache key names the subnet sent under the same condition.
- Writing a subnet adds a second OPT record when the message has one that is not the last record and
  carries no subnet (`DnsSubnet.OptRecordIsAdded`).
- A service closed during an interrupted start keeps announcing STARTING
  (`ServiceLifecycle.ClosedServiceMayStayStarting`); the result about quiet services is for services not closed.
- A client of the connection stream loses the totals in the first tick in which a known counter went
  backwards, and in no batch before it (`ConnectionStream.StreamAgrees`).
- A retry of the legacy exchange starts from the caller's options: route options of rules before a rejected
  rule no longer apply (`DnsLegacy.ExchangeLegacy`).

## Model

| member | source | states |
|---|---|---|
| DnsRules.MatchFrame | route/rule/rule_dns.go:410-560 | the verdict of a rule whose conditions are bound depends on nothing but the responses it binds |
| DnsRules.ApplyRouteOptions | dns/router.go:366-390 | each option given replaces the one in force and each one not given leaves it alone; a removal of the subnet wins over a subnet given, which undoes an earlier removal; the strategy is left alone |
| DnsMode.ValidateRules | dns/router.go:1528-1589 | the validator reports no fault exactly when every rule is acceptable in its place, else the first rule that is not |
| DnsMode.AcceptedIsWalkable | dns/router.go:1528-1589 | a list the validator accepts has one producer per tag, before every use, and no unbound condition on a response |
| DnsMode.NonLegacyHasNoStrategy | dns/router.go:366-369 | with legacy mode off no action carries a strategy, so skipping it loses nothing |
| DnsUpdates.OverrideIsUpdate | dns/router.go:1510-1526 | looking ahead at an update with an override gives the verdict the applied update will have, for the mode and for the validator |
| DnsUpdates.ModeNeverGoesStale | dns/router.go:132-173 | over every sequence of builds, publications, accepted updates and closing in which each publication came while the rules still called for what was built, a legacy router never has a rule that disables legacy mode, and a non-legacy one still resolves to non-legacy and still validates |
| DnsUpdates.PublishIsExact | dns/router.go:150-164 | a publication gives a mode that holds if and only if the rules still resolve and validate as they did when they were built |
| DnsUpdates.FreshBuildIsAsBuilt | dns/router.go:150-164 | with no update in between they do |
| DnsUpdates.UpdateMayOutrunStart | dns/router.go:229-278 | a concrete rule and an update admitted between build and publication after which the router starts with a stale mode |
| DnsUpdates.BuildUpdate | dns/router.go:229-278 | an update admitted at any time keeps a mode that holds |
| DnsSequential.WithoutRacesOneDecision | dns/router.go:575-763 | without race rules the sequential decision is the only one allowed |
| DnsSequential.NamedHasProducer | dns/router.go:671-679 | a bound tag was produced by an earlier evaluate rule |
| DnsSequential.BindingIsStable | dns/router.go:528-549 | a tag a rule binds keeps its producer ever after: its entry is write-once |
| DnsWalkInvariant.SettleInv | dns/router.go:528-549 | settling keeps the invariant of the walk (named responses are the views of their futures) and records exactly what has come back |
| DnsWalkInvariant.MatchAgrees | dns/router.go:643-649 | a rule whose late answers make no difference to it matches, and answers, as in the sequential reading |
| DnsWalkInvariant.TryArmedIsVerdict | dns/router.go:807-895 | an armed rule whose futures are in commits exactly with its own race verdict, with the options of the rules before it |
| DnsWalkInvariant.SweepCommitsFirst | dns/router.go:807-895 | a sweep commits the lowest ready armed rule that decides; otherwise exactly the unready rules stay armed and every rule disarmed took no decision |
| DnsWalkSteps.ReadRuleSound | dns/router.go:575-763 | from every state the invariant allows, with whatever has come back by now, a rule that is not misled decides only as allowed, suspends only on what is missing, or keeps the invariant |
| DnsWalkSteps.CommitIsAllowed | dns/router.go:807-895 | when a race rule commits, what it and the rules before it await has come back, and every earlier race rule that would commit still waits for a query that has not |
| DnsWalkShape.ReadRuleShape | dns/router.go:575-763 | whatever came back since the futures were settled, a rule keeps one producer a tag, records that are views, armed rules in order, the futures they wait for, and a route sent ahead with the query of its own rule |
| DnsWalker.RuleWalkState.SettleFutures | dns/router.go:528-549 | the loop over the futures leaves the state that settling means |
| DnsWalker.RuleWalkState.SweepArmedRules | dns/router.go:807-895 | the loop that removes and tries armed rules is the sweep |
| DnsWalker.RuleWalkState.TryArmedRule | dns/router.go:826-892 | matching and acting on one armed rule is its trial |
| DnsWalker.RuleWalkState.Send | dns/router.go:503-526 | a launch makes the wake channel if there is none and appends the future |
| DnsWalker.RuleWalkState.ArmRule | dns/router.go:585-625 | arming a race rule, sweeping at once when it waits for nothing |
| DnsWalker.RuleWalkState.PendingFutures | dns/router.go:590-602 | the bound futures that are not in, in binding order, the anonymous one last |
| DnsWalker.RuleWalkState.ActOnRule | dns/router.go:654-757 | the action of a matched rule, with draining, early sending and missing servers |
| DnsWalker.RuleWalkState.Answer | dns/router.go:680-710 | a respond action answers from its tag or the anonymous response, waits for it, or fails |
| DnsWalker.RuleWalkState.WalkRule | dns/router.go:580-758 | one turn of the walk's loop: what has come back when the futures are settled and what has come back when they are read are given separately |
| DnsWalker.RuleWalkState.WalkRules | dns/router.go:575-763 | the walk from where it stands to its next suspension or decision, with both reads of every rule given separately |
| DnsExchange.StepKeeps | dns/router.go:765-805 | every event of an exchange that reads right keeps the walk right: what is decided or taken as final is allowed, and the rules passed were tried |
| DnsExchange.StepKeepsShape | dns/router.go:765-805 | every event of every exchange, synchronous or asynchronous, clean or not, keeps awaited futures launched, wake tokens owed, records that are views, every future cancelled at an exit and none before |
| DnsRuns.RecordsAreViews | dns/router.go:528-549 | in every run each tag has one producer and a recorded response is the view of its future |
| DnsRuns.RunDecidesAllowed | dns/router.go:765-805 | every decision of every clean run is allowed or the context has ended; clean or not, by then exactly every launched future has been cancelled and only an ended context gives up |
| DnsRuns.AtomicIsClean | dns/router.go:584-640 | a run in which no query comes back between a settling and the read behind it is clean |
| DnsOutcomes.ExactlyAllowed | dns/router.go:575-946 | synchronous or asynchronous, a decision is taken by some clean run if and only if it is allowed: the sequential one when no race rule on the way commits, else that of a committing race rule before which every other committing one binds a query that need not be back |
| DnsOutcomes.Concludes | dns/router.go:765-805 | a rule that decides or takes a final exchange ends the exchange with that decision in both modes |
| DnsSpeculation.RoutesMayGoAhead | dns/router.go:711-733 | the runs of an exchange take the same decisions whether or not routes are marked speculative |
| DnsSpeculation.SentAheadAsUnmarked | dns/router.go:719-733 | in every run, clean or not, the final exchange of a rule, sent ahead or not, has the query the rule takes in the unmarked list with nothing sent ahead |
| DnsSpeculation.EvaluatesAheadAdd | dns/router.go:658-679 | marking evaluates speculative takes no decision away, and adds one if and only if a race rule may take it and every race rule that takes it would be held back behind another in the plain list |
| DnsSpeculation.AnswerOnlyWhenAhead | dns/router.go:658-679 | a concrete list on which a run answers from the query sent early and no run of the plain list does |
| DnsSpeculation.BarrierShutsOut | dns/router.go:666-668 | with a committing race rule before an evaluate that is not sent early, every decision a run takes is that of a race rule before the evaluate |
| DnsRuns.OrderDoesNotMatter | dns/router.go:575-805 | for every accepted list without race rules, every order of callbacks gives the sequential decision in every clean run |
| DnsRuns.NoOvertaking | dns/router.go:654-762 | when the walk decides, or sends a query that may not be sent early, outside a sweep, nothing is armed; in a clean run every race rule before it was tried with all it waited for and took no decision |
| DnsRuns.BlockedIsOwedAWakeUp | dns/router.go:775-805 | whenever resume is blocked the wake channel exists, and a token is in it or a query it needs has yet to signal |
| DnsRuns.NoHang | dns/router.go:775-805 | once every launched query has called back the walking side can take a step |
| DnsRuns.EveryRunEnds | dns/router.go:775-805 | no run is longer than forty events a rule and forty-seven more |
| DnsTwins.SyncFollowsAsync | dns/router.go:765-773 | whatever the asynchronous exchange decides the synchronous one decides under the same callbacks |
| DnsTwins.AsyncFollowsSync | dns/router.go:923-946 | and the other way round |
| DnsTwins.TwinsDecideAlike | dns/router.go:897-946 | under every order of callbacks both exchanges can take exactly the same decisions |
| DnsGrain.WindowRead | dns/router.go:584-640 | at every read of every run a tag whose query has come back reads as its future's view if and only if the query was there to be settled or failed |
| DnsGrain.MatchedOnWhatIsSeen | dns/router.go:584-649 | a rule that waits for nothing is matched exactly against the sequential responses less the answers that came back inside the window |
| DnsGrain.MatchIsRightIff | dns/router.go:627-649 | a rule on one tag matches as in the sequential reading if and only if its tag reads right or the condition says the same of the answer as of none; the read is clean if and only if besides it does not answer with what it missed |
| DnsGrain.ArmedMatchIsRightIff | dns/router.go:826-836 | the same for an armed rule that a sweep tries |
| DnsGrain.AnswerIsLostInTheWindow | dns/router.go:584-640 | a concrete list and run in which an answer that comes in between is passed over for the default server: one read is not clean and the decision is not allowed |
| DnsRouter.ServingRouterDecides | dns/router.go:132-278 | after any updates a running non-legacy router published as built has bounded runs, decides in clean ones only as allowed, sequentially without races, and drops no strategy |
| DnsRouter.ServingRouterTakes | dns/router.go:132-278 | the exchanges of such a router can take exactly the allowed decisions, without races exactly the sequential one |
| DnsLegacy.ModesDifferIn | dns/router.go:303-352 | both modes apply a rule's options alike, except that the legacy one takes the strategy, turns the cache off for fake IPs and ignores the optimistic-cache setting |
| DnsLegacy.MatchDNS | dns/router.go:280-364 | the search from behind a rule finds the first rule that ends it, or the default, with the options of the route-options rules passed |
| DnsLegacy.ExchangeLegacy | dns/router.go:1136-1188 | the retry loop ends on every list and returns what the first rule gives that its own address limit does not turn down; each attempt has the options since the last rule turned down |
| DnsLegacy.OneRuleDecides | dns/router.go:1136-1188 | only one rule can decide |
| DnsSingleFlight.StepKeeps | dns/client.go:300-356 | every step of every exchange keeps the lock's invariant |
| DnsSingleFlight.LockIsOwned | dns/client.go:300-345 | in every interleaving each key in the lock belongs to one exchange that has yet to release it, nobody waits twice, and whoever waits waits for a channel that is closed or that its maker holds or is about to close |
| DnsSingleFlight.OneFirstFlightPerKey | dns/client.go:300-345 | of the exchanges of a key that use the cache at most one is out without having waited, and it holds the lock; every other one that is out has waited once for a channel that is closed |
| DnsSingleFlight.TwoFlightsForOneKey | dns/client.go:336-345 | a run after which two exchanges of one key are out: a woken waiter that missed and a newcomer |
| DnsSingleFlight.ChannelsCloseOnce | dns/client.go:305-310 | in every run a channel about to be closed is open, and only its maker is about to close it |
| DnsSingleFlight.NothingLeaks | dns/client.go:400-449 | when all exchanges are finished the lock is empty and every channel was closed |
| DnsSingleFlight.SomeoneCanStep | dns/client.go:300-345 | in every run, as long as an exchange is not finished, some exchange can take a step other than giving up: nobody waits for one who waits |
| DnsSingleFlight.EveryExchangeEnds | dns/client.go:400-449 | a run takes at most nine steps for each exchange |
| DnsCacheTime.ExtractNegativeTTL | dns/client.go:186-198 | the lesser of TTL and MINIMUM of the first SOA, if there is one |
| DnsCacheTime.ComputeTimeToLive | dns/client.go:200-218 | the negative lifetime of an answerless response with SOA, else the least positive TTL of the non-OPT records, zero when none is positive |
| DnsCacheTime.NormalizeSection | dns/client.go:220-229 | every TTL of a section but that of OPT records is rewritten in place |
| DnsCacheTime.ApplyResponseOptions | dns/client.go:647-671 | the answers to an HTTPS query lose the hints the strategy rules out; the rewritten lifetime wins over the computed one, and every TTL shows it |
| DnsCacheTime.FilterHints | dns/client.go:649-663 | the loop filters the values of HTTPS records in place and leaves other records alone |
| DnsCacheTime.KeptExactly | dns/client.go:655-660 | exactly the hints of the other address family go |
| DnsCacheTime.ServedWithinLifetime | dns/client.go:587-645 | at age a of lifetime L a fresh load shows n with n + a at most L and less than a second short; after L only inside the optimistic window, with TTL 1 |
| DnsCacheTime.WrittenOutNeverOutlives | experimental/cachefile/dns_cache.go:43-58 | an entry written out is fresh only while memory would serve it fresh, and shows at most one second less |
| DnsCacheTime.StoresAgreeOnWholeSeconds | experimental/cachefile/dns_cache.go:43-58 | memory and file give the same answer at every time exactly when the entry expires on a whole second |
| DnsCacheTime.CacheClient.StoreCache | dns/client.go:516-536 | a zero lifetime stores nothing; otherwise the entry is found afterwards with its expiry, and no other key changes |
| DnsCacheTime.CacheClient.FlushPending | experimental/cachefile/dns_cache.go:43-58 | writing out changes what is found only for that key, to the whole second |
| DnsCacheTime.CacheClient.LoadResponse | dns/client.go:587-619 | a load answers what the stored entry serves at that time, drops only what is served no more, and changes no answer of any key at any later time |
| DnsCacheTime.CacheClient.LoadPersistent | dns/client.go:621-645 | a load from the file, pending write first |
| DnsCacheTime.MemoryAnswers | dns/client.go:516-619 | after any operations in time order, evictions included, the memory client answers as from what was last stored and not evicted, whatever it has dropped |
| DnsCacheTime.FileFinds | experimental/cachefile/dns_cache.go:19-58 | the file client finds what was last stored, cut to the second once written out |
| DnsCacheTime.StoresStayTogether | dns/client.go:516-645 | two clients fed alike: at any later time the file never serves fresh what memory would not and shows at most a second less, and both answer the same while the write is pending, on whole seconds, and without expiry; what memory has evicted it does not answer |
| DnsCacheKey.NameIsReadBack | dns/client.go:103-112 | tag, subnet and environment come back from the persistent name when tag and subnet have no separator |
| DnsCacheKey.FileKeysForgetTheClass | dns/client.go:516-524 | two such keys share an entry of the cache file exactly when they are equal but for the question's class |
| DnsCacheKey.MarkedTagsCollide | dns/client.go:103-112 | with a separator in a tag different keys do share one |
| DnsSubnet.ReadAfterWrite | dns/extension_edns0_subnet.go:16-106 | whatever OPT records were there, reading back gives the prefix written, with an IPv4-mapped address unmapped |
| DnsSubnet.RoundTripUnlessMapped | dns/extension_edns0_subnet.go:16-106 | the round trip is exact if and only if the address is not IPv4-mapped |
| DnsSubnet.ReadAfterRemove | dns/extension_edns0_subnet.go:16-60 | after a removal no subnet is read, other records and records without a subnet are unchanged, and every other option is still there |
| DnsSubnet.OptRecordIsAdded | dns/extension_edns0_subnet.go:62-106 | the number of OPT records grows, by one, exactly when no record carries a subnet and the last one is no OPT record |
| DnsSubnet.KeyNamesTheSubnetSent | dns/client.go:114-131 | the key's subnet is the same from the raw and the prepared query, and is the one sent unless the prefix chosen is IPv4-mapped |
| DnsSubnet.Copy | dns/extension_edns0_subnet.go:90-92 | a deep copy has the contents and none of the objects |
| DnsSubnet.FindTarget | dns/extension_edns0_subnet.go:63-79 | the scan finds the first record with a subnet, else the last record if it is an OPT record |
| DnsSubnet.WriteInPlace | dns/extension_edns0_subnet.go:93-105 | one record changes, at its first subnet option or its end, and no other |
| DnsSubnet.SetClientSubnet | dns/extension_edns0_subnet.go:62-106 | the result carries the subnet and the message given keeps its contents |
| DnsSubnet.RemoveClientSubnet | dns/extension_edns0_subnet.go:37-60 | the result has no subnet option and the message given keeps its contents |
| UrlTestTargets.Collector.Visit | daemon/managed_urltest.go:288-318 | one visit adds the leaves below a tag not met before, or stops at the first fault in visiting order |
| UrlTestTargets.CollectConcreteTargets | daemon/managed_urltest.go:288-325 | the recursion with its seen and visiting tables is the unfolding of the graph with repetitions removed |
| UrlTestTargets.SucceedsIffSound | daemon/managed_urltest.go:288-325 | on every graph it succeeds exactly when no path reaches a missing tag or returns to a group |
| UrlTestTargets.LeavesAreReachable | daemon/managed_urltest.go:288-325 | it meets exactly the concrete outbounds that a path reaches |
| UrlTestTargets.CollectedExactly | daemon/managed_urltest.go:288-325 | the result has each of them once, in the order of first visits |
| UrlTestTargets.ResolveSelectedOutbound | daemon/managed_urltest.go:327-347 | the loop ends on every graph at the end of the chain of selections, each trimmed of white space, with the fault that ends it |
| UrlTestTargets.ChainDecides | daemon/managed_urltest.go:327-347 | a start has one chain and so one result |
| UrlTestTargets.ExcludeInPlace | daemon/managed_urltest.go:242-254 | filtering over the same slots keeps exactly the targets not excluded, in order |
| UrlTestTargets.MoveToFront | daemon/managed_urltest.go:273-281 | the shift and store put the priority target first |
| UrlTestTargets.PriorityMoveKeepsOrder | daemon/managed_urltest.go:273-281 | the move is a permutation that keeps the order of the others |
| UrlTestTargets.ResolveTargets | daemon/managed_urltest.go:208-286 | the whole resolution, with every error case, is its specification; a single target asked for by another name is reported under that name |
| UrlTestTargets.ResolvedExactly | daemon/managed_urltest.go:208-286 | targets are distinct, at least one, reachable from the group and not from the excluded outbound; without a single target they are all of those |
| UrlTestPool.StepKeeps | daemon/managed_urltest.go:424-491 | every step of workers, sweep and cancellation keeps the pool's invariant |
| UrlTestPool.HandledExactlyOnce | daemon/managed_urltest.go:424-491 | in every interleaving the handler is called at most once for a target, and exactly once for each when the pool is done |
| UrlTestPool.NoProbeAfterTheEnd | daemon/managed_urltest.go:455-463 | once the context has ended no probe starts, whatever jobs are queued or taken: every worker that probes later was probing the same target then |
| UrlTestPool.PoolAlwaysEnds | daemon/managed_urltest.go:424-491 | a run has at most nine steps a target and four more, and only a finished pool has none left |
| UrlTestRegistry.OperationKeeps | daemon/managed_urltest.go:499-544 | every operation keeps the index and the counts, freezes what has finished, and drops only the finished sessions completed first |
| UrlTestRegistry.RegistryIsConsistent | daemon/managed_urltest.go:115-147 | in every history a group's entry names a session exactly when it runs for the group, running sessions are listed, finished ones never change, a finish or a new session leaves at most 64 finished ones, and what is dropped had finished no later than those that stay |
| UrlTestRegistry.PrunedByAge | daemon/managed_urltest.go:653-669 | dropping the oldest of the sorted finished sessions keeps every running one and the 64 completed last |
| UrlTestRegistry.SessionTable.Prune | daemon/managed_urltest.go:653-669 | the loops of pruning do that |
| UrlTestRegistry.SessionTable.StartSession | daemon/managed_urltest.go:115-147 | a start returns the running session or replaces it, by instance and force |
| UrlTestRegistry.SessionTable.RecordResult | daemon/managed_urltest.go:499-515 | a result counts only while the session runs |
| UrlTestRegistry.SessionTable.FinishSession | daemon/managed_urltest.go:517-544 | the final state by context and successes; the index is freed only if it names this session |
| UrlTestRegistry.SessionTable.CancelSession | daemon/managed_urltest.go:599-624 | a running listed session is cancelled and its entry freed |
| UrlTestRegistry.SessionTable.CancelForInstance | daemon/managed_urltest.go:626-651 | exactly the listed running sessions of the instance are cancelled, in whatever order |
| UrlTestSessions.MoveKeeps | daemon/managed_urltest.go:349-398 | registry and pools agree after every step of either |
| UrlTestSessions.FinishAgrees | daemon/managed_urltest.go:517-544 | a runner that finishes a session still running has recorded every target |
| UrlTestSessions.SessionsCountRight | daemon/managed_urltest.go:349-398 | in every history completed = succeeded + failed = number of results, at most the total, none twice for a target; a session that succeeded or failed has one for every target |
| ServiceLifecycle.EveryRunKeeps | daemon/started_service.go:270-391 | every interleaving keeps status, instance and calls consistent, accounts for every instance, and cancels an instance only when it is closed or its start interrupted |
| ServiceLifecycle.LifecycleIsSafe | daemon/started_service.go:270-391 | STARTED has an instance, whose context is not cancelled; every instance built is current, in the hands of the one running call, or closed exactly once; interrupting a start and closing cancel the instance; a quiet service that was not closed is idle, started or failed |
| ServiceLifecycle.ClosedServiceMayStayStarting | daemon/started_service.go:346-359 | a run after which a closed quiet service is STARTING |
| ServiceLifecycle.StartedService.InterruptStart | daemon/started_service.go:180-187 | the section that interrupts a start |
| ServiceLifecycle.StartedService.ArriveCall | daemon/started_service.go:270-277 | a lifecycle call interrupts a start in progress and then queues, the arriving step of every run |
| ServiceLifecycle.StartedService.EnterStartCall | daemon/started_service.go:278-303 | the section that begins a start or reload |
| ServiceLifecycle.StartedService.LeaveStartCall | daemon/started_service.go:322-341 | the section that installs or drops what was started |
| ServiceLifecycle.StartedService.EnterStopCall | daemon/started_service.go:366-374 | the section that begins a stop |
| ServiceLifecycle.StartedService.CloseHeld | daemon/started_service.go:375-378 | the held instance is closed once |
| ConnectionStream.Stream.BuildInitialState | daemon/started_service.go:917-943 | a client that replays the first state agrees with the table, which holds exactly the active connections with their totals |
| ConnectionStream.Stream.ApplyNew | daemon/started_service.go:945-959 | a new connection is opened on both sides, a known one on neither |
| ConnectionStream.Stream.ApplyClosed | daemon/started_service.go:960-979 | a closed connection goes on both sides |
| ConnectionStream.Stream.ApplyNotices | daemon/started_service.go:876-899 | a drained subscription moves both sides by every event in it, in order |
| ConnectionStream.Stream.Serve | daemon/started_service.go:849-915 | a client that replays all that was sent, the first state and every message that is not empty, is where the stream of batches leads both sides |
| ConnectionStream.Stream.UpdateConnection | daemon/started_service.go:990-1049 | one connection's update moves both sides alike, silence and the last zero included |
| ConnectionStream.Stream.BuildTrafficUpdates | daemon/started_service.go:985-1081 | replaying the batch is updating every active connection and closing the rest |
| ConnectionStream.Stream.CloseVanished | daemon/started_service.go:1051-1078 | connections no longer active are closed on both sides |
| ConnectionStream.BatchTracks | daemon/started_service.go:985-1081 | after a batch both sides hold exactly the active connections, and activity is known |
| ConnectionStream.BatchAgreesUnlessDecreased | daemon/started_service.go:985-1081 | totals still agree exactly when no known counter went backwards |
| ConnectionStream.StreamAgrees | daemon/started_service.go:849-915 | over every stream of drained subscriptions and ticks from the first state on, after every batch both sides hold the same connections and know the same activity, after a tick exactly the active ones, and totals agree up to the first tick in which a known counter went backwards, which breaks them |
| ScopeTree.StepConserves | adapter/lifecycle.go:89-161 | every step leaves each registered cleanup at exactly one place |
| ScopeTree.StepKeeps | adapter/lifecycle.go:89-161 | every interleaving keeps the tree's shape and never writes to a nil child map |
| ScopeTree.RunsAtMostOnce | adapter/lifecycle.go:133-161 | in every run no cleanup runs twice, in one call or in two |
| ScopeShutdown.CloseRunsEverything | adapter/lifecycle.go:104-161 | whatever else happens before or after, when a scope is closed by its Close or by its cleanup in the parent, every cleanup registered with it or with a scope below it has run exactly once when the calls are through, unless that scope's own closing cleanup had run before |
| ScopeShutdown.RemoveRunsEverything | adapter/lifecycle.go:133-144 | the same when a component is removed, for its child scope and every scope below |
| ScopeShutdown.ShutdownRunsEverything | adapter/lifecycle.go:146-161 | when the root is closed and the calls are through, every cleanup registered by then has run exactly once, except those registered too late with a scope below |
| ScopeShutdown.TooLateWaits | adapter/lifecycle.go:89-93 | those stay listed and do not run, however the tree is shut down, until a Close of that very scope |
| ScopeShutdown.StepKeepsBonds | adapter/lifecycle.go:102-119 | every step keeps the one cleanup in the parent that closes a child scope, which closes it when it runs, and no closed scope lists one |
| ScopeTree.OrderAndSafety | adapter/lifecycle.go:146-161 | each call runs a scope's cleanups latest registration first, and nothing panics |
| ScopeTree.ClosedStartsNothing | adapter/lifecycle.go:95-101 | a closed scope starts nothing, ever after |
| ScopeTree.LateCleanupWaits | adapter/lifecycle.go:89-93 | a cleanup added to a closed scope stays listed and does not run until the scope is closed again |
| ScopeTree.OneChildPerComponent | adapter/lifecycle.go:102-119 | in every run, until it is removed or the scope closed, a component keeps one child scope whose cleanup stays listed, and further starts change nothing |
| ScopeTree.RunsAreBounded | adapter/lifecycle.go:156-160 | every run takes at most as many cleanup steps as it registered cleanups, so calls end |
| ScopeTree.LockedScope.Add | adapter/lifecycle.go:89-93 | a cleanup goes to the end of the list |
| ScopeTree.LockedScope.Start | adapter/lifecycle.go:95-120 | the section that finds or makes a component's child scope |
| ScopeTree.LockedScope.Remove | adapter/lifecycle.go:133-144 | the section that takes a component's cleanup out |
| ScopeTree.LockedScope.Close | adapter/lifecycle.go:146-155 | the section that ends the scope and takes its cleanups in reverse |
| Taildrop.BodyIsItsChunks | daemon/started_service_taildrop.go:257-284 | a file in the stream is its chunks up to its mark; without a clean mark there is none |
| Taildrop.ChunkReader.BeginFile | daemon/started_service_taildrop.go:252-255 | a file begins where the stream stands |
| Taildrop.ChunkReader.Read | daemon/started_service_taildrop.go:257-284 | a read hands out the next bytes of the file and no others, and afterwards less than 1 MiB is unacknowledged |
| Taildrop.ChunkReader.Receive | daemon/started_service_taildrop.go:278-282 | acknowledgements strictly increase and never lag by an interval |
| Taildrop.ChunkReader.FinishFile | daemon/started_service_taildrop.go:286-311 | it succeeds exactly when the reads returned the whole file and the declared size fits, and then leaves nothing over |
| Taildrop.SendFiles | daemon/started_service_taildrop.go:210-238 | over any stream and read sizes, success means every file's bytes are those between its marks with the declared size, and acknowledgements increase |
| SavedBinary.VarintRoundTrip | adapter/experimental.go:97-100 | a length comes back from its varint, whatever surrounds it |
| SavedBinary.VarintIs64Bits | adapter/experimental.go:135-138 | no varint accepted needs more than 64 bits |
| SavedBinary.Int64RoundTrip | adapter/experimental.go:105-108 | a second comes back from eight big-endian bytes, negative ones too |
| SavedBinary.RoundTrip | adapter/experimental.go:91-182 | decoding an encoding gives the value back, its time to the second, and reads every byte |
| SavedBinary.TruncationIsRejected | adapter/experimental.go:128-182 | no encoding cut short is accepted |
| SavedBinary.EncodingIsInjective | adapter/experimental.go:91-126 | values with the same encoding differ at most below the second |
| SavedBinary.DecodedFits | adapter/experimental.go:128-182 | on any bytes an accepted value lies inside them, and an old version leaves the hash alone |
| SavedBinary.WriteUvarint | adapter/experimental.go:97-100 | the loop writes the varint |
| SavedBinary.Reader.ReadUvarint | adapter/experimental.go:135-138 | the loop reads the varint, at most ten bytes and never past the end |
| SavedBinary.Reader.ReadBlock | adapter/experimental.go:135-146 | a length beyond what is left is refused |
| SavedBinary.Reader.ReadTime | adapter/experimental.go:147-152 | eight bytes read as a signed second |
| SavedBinary.SavedFile.MarshalBinary | adapter/experimental.go:91-125 | the buffer is the encoding |
| SavedBinary.SavedFile.UnmarshalBinary | adapter/experimental.go:128-182 | the result and the fields, those set before a failure included, are those of the decoding |

## Left out

- The several readiness checks of one rule, and those of one sweep, read the futures at one moment.
- Rule types other than default and logical rules, and the warnings and texts the validators return.
- The items of rules: their verdict is a fixed boolean or a predicate of the bound response.
- Query time-outs, retries inside transports, the transport stack and its loop check, and the text of DNS messages.
- Which entry the memory cache evicts, failed writes of the cache file, the background refresh and its scheduling, and the rejection cache.
- The environment hash of a transport, the check that it did not change during an exchange, and the rounding of fractional seconds in a load.
- DnsCacheTime.CacheClient.LoadResponse: does not model that a load makes an entry the last to be evicted, because which entry goes is left to the library; evictions are operations that may take any entry at any time.
- Taildrop.ChunkReader.Read: does not say what a read after a read error gives, because the sender gives the file up then; counters are unbounded.
- UrlTestRegistry.SessionTable.StartSession: does not model the service lock and the request checks before the table is touched; counters are unbounded.
- ScopeTree.StepKeeps: does not model the errors that cleanups return, because they only collect into the result.
- Clamping of URL-test options, error classification, group refresh and the subscription events of URL tests.
- The log, power and memory reports, the remaining daemon calls, generated protocol code, and endpoint handlers: field copying and I/O.
- Wall clocks are parameters, and cancellation is an event of the environment.
