# singcast, modelled and proved

singcast drives a sing-box instance: it turns a Clash configuration into sing-box's own format, starts and stops the
instance on behalf of a user interface, watches its health and reports to the interface over JSON-RPC. This project
models its hard cores in Dafny and proves what they keep, for every input and every run. `dafny verify dfyconfig.toml`
checks all of it.

- **Service life cycle.** `ServiceProtocol` is the machine: any number of calls of StartWithContent, Stop and Destroy,
  each a program counter, one step per atomic operation on the state word, the instance slot, the two mutexes and the
  sequence number. `ServiceInvariants` holds what every step keeps, `ServiceTheorems` what follows for every run.
  `Service` is the code itself, loops and locks included, on a class whose fields other calls may change before every
  operation; each of its operations is shown to be one step of the machine, a failing InitContext included.
  `Initialization` adds the calls of InitContext that fail, `Revivals` who stopped what, `Restarts` the restarts of the
  health watchdog and what each start brings. `Progress` shows that no call waits for ever, `Effects` and `Solo` what a
  call that has returned, or runs alone, has done, and `Subscriptions` exactly when a running instance is subscribed to.
- **Translator.** `Proxies`, `Groups`, `Routes`, `Dns` and `DnsRules` say what each phase is to compute and what that
  means: a clean-up that is a greatest fixpoint, first-match evaluation of rule lists, a resolver graph. `Translator`,
  `Autoroute`, `DnsPhase`, `DnsRulePhase`, `Assembly` and `Validation` are the phases as loops over one mutable record,
  proved against those functions. `Pipeline` runs them in order and proves that what the translator refers to exists;
  `Soundness` says exactly which configurations give an output with distinct tags, no dangling reference and no circular
  DNS server. `Outbounds`, `RouteAnswers`, `DnsOutput` and `DnsAnswers` read the outbounds, the decisions of the route,
  the DNS servers and the answers of the DNS rules off the configuration alone. `SavedConfig` is the way of a
  configuration through the service and back from disk.
- **IPC.** `IpcProtocol` and `IpcTheorems` are the accept loop, the active connection, one goroutine per request, events
  and cancellation, interleaved; `IpcAnswers` shows that what is to be sent is sent; `ClientConn` is the
  writer of one connection over a socket that may fail.
- **Smaller cores.** `GroupDelay` (the bounded-concurrency delay test), `Watchdog` (the health loop), `ProxyChain` (the
  walk to the node in use) and `Formats` (durations, port lists, bandwidths).

Where the code and what is said about it differ, the model follows the code:

- The comments of Stop say that the result of the Swap settles who closes an instance. A Stop stalled between its CAS
  and its Swap lets a newer start overwrite the slot: the overwritten instance is never closed, and the service can end
  up Running with an empty slot. `StalledStopLosesAnInstance` is such a run; `OverwriteNeedsPendingSwap` and
  `EmptyRunningExactly` say exactly when this happens, `OrderlyRunsLoseNothing` when it cannot.
- The comment on validateGroupMembers says that the clean-up of groups is a single pass. It runs to a fixpoint, and
  `MadeResolves` shows that this check never fails.
- validate is said to fail on every reference sing-box would refuse to start on. It does not look at `dialer-proxy`, which
  becomes the detour of an outbound; `DialerToNowhere` passes with a dangling one. `ReferencesResolveExactly` and
  `WellFormedExactly` have the conditions, on the configuration.
- InitContext leaves Created before it looks at its options, and puts Created back with a plain store. Beside other calls
  that store can undo a Destroy or strand an instance (`FailureUndoesDestroy`, `FailureStrandsAnInstance`).
  `EdgesExactly` shows that nothing else leaves the life cycle. `InvBreaksExactly` shows that the invariant of the service
  breaks if and only if the store finds it Running, with an instance that no call is about to take, and
  `HoldsThroughoutExactly` that exactly the runs without such a failure keep it all along.
- The newest start wins by number. A restart of the health watchdog takes a new number for a configuration it read
  earlier, so it can win over a newer one (`StaleRestartWins`); `OvertakenExactly` and `NewestContentWinsExactly` have the
  condition. It can also undo a Stop, whatever it brings (`StopUndone`): if and only if its own Stop has found nothing to
  stop and the last start has not failed (`RestartRevivesExactly`). A Stop that comes while a start is past its own Stop
  is not heard either; `UnheardExactly` says when that is.
- The comment on the DNS resolver chain says that choosing among default servers avoids circular dependencies. It does
  unless the first two default servers are both given by name; `AcyclicExactly` has the condition,
  `NamedDefaultsTurnInACircle` an input.
- Direct mode is said to keep DNS direct. When default servers are given and every server is FakeIP or behind the proxy,
  there are no mode rules, and a query can end at FakeIP (`FakeIPInDirectMode`); `DirectModeExactly` has the condition.
- The entries of fake-ip-filter are wildcards, or name lists. Only plain names and `*.` before a name without further
  wildcards are honoured (`HonouredExactly`); `+.lan`, `.lan` and `geosite:cn` catch nothing but the literal text.
- The filter for rules that name undefined rule sets takes conditions out of logical rules too. Out of a disjunction that
  changes nothing; a conjunction that loses one catches more (`RuleFilteredExactly`, `OrphanInAConjunctionWidens`). No
  generated rule is a conjunction.
- REJECT as an outbound means rejecting, also when it is the name of the first group (`GroupNamedReject`).
- A saved document reports the stubs of the configuration it came from, unless a genuine SOCKS proxy looks like a stub;
  `SavedStartsTheSame` has the condition, `LookalikeIsTakenForAStub` an input.
- A positive bandwidth is said never to become unlimited. In 64-bit arithmetic a huge one can, if and only if its number
  is a multiple of the period of its unit (`UnlimitedExactly`); `WrappedIsExact` says when the result is the stated one.
  A health-check duration in milliseconds can overflow likewise; `DurationExactly` has the condition.
- The walk to the proxy node stops after 16 outbounds; `SeventeenIsTooLong` is a chain it cuts off, and
  `BoundIsEnoughExactly` says on which graphs the bound makes no difference.

## Model

| member | source | states |
|---|---|---|
| ServiceTheorems.HookSafety | core/events.go:53-65 | over every interleaving: a live subscription of an instance that has left the slot is being cancelled, or some call has committed its Stop or Destroy CAS and still owes an unsubscribe; at most one is live; at rest it belongs to the running, unclosed instance |
| ServiceTheorems.InstanceConservation | core/service.go:412-420 | every started instance is in exactly one place: the slot, the hands of one call, closed exactly once, or overwritten; at rest a filled slot means Running, and a destroyed service holds none |
| ServiceTheorems.OverwriteNeedsPendingSwap | core/service.go:412-412 | an instance is overwritten exactly when the Store of a start finds the slot filled, and then another call sits between its Stop or Destroy CAS and its Swap; no other step loses one |
| ServiceTheorems.StartingHasOneOwner | core/service.go:285-291 | while the state is Starting exactly one call, the holder of startMu that put it there, stands between its CAS in and its CAS out, so rollback and promotion act on their own start only |
| ServiceTheorems.LegalEdges | core/service.go:514-520 | every step of every run follows an edge of the life cycle (InitContexts that fail are in Initialization) |
| ServiceTheorems.DestroyedAbsorbs | core/service.go:487-499 | once Destroyed, the state stays so whatever calls are in flight or made later, as long as no InitContext fails |
| ServiceTheorems.NewestStartWins | core/service.go:270-278 | numbers that pass the coalescing check strictly increase, a coalesced call has a strictly newer one, none is forgotten, and at rest the last attempt is the newest number ever issued |
| ServiceTheorems.OrderlyRunsLoseNothing | core/service.go:456-478 | if no start enters Starting while a committed Stop or Destroy has yet to swap, Running always means a filled slot, nothing is lost, and at rest every instance but the running one was closed exactly once |
| ServiceTheorems.EmptyRunningExactly | core/service.go:412-420 | Running with an empty slot arises from exactly two operations: a stalled swap that takes the instance of a whole newer start, and the promotion of a start whose instance such a swap has taken |
| ServiceTheorems.StalledStopLosesAnInstance | core/service.go:456-478 | a concrete run, with a Stop stalled between its CAS and its Swap, after which the service is at rest in Running with an empty slot and an instance that was never closed |
| ServiceInvariants.InvKept | core/service.go:262-520 | the locks, ownership, numbering, conservation and hook invariants together are kept by every atomic operation |
| ServiceInvariants.OrderlyKept | core/service.go:456-471 | the stronger invariant of orderly runs is kept by every orderly step |
| Initialization.EdgesExactly | core/service.go:192-229 | over every interleaving with InitContexts that fail: a step leaves the edges of the life cycle, and leaves Destroyed, if and only if it is the store of a failing InitContext, and no two InitContexts are past their CAS |
| Initialization.FailuresLoseNoTrack | core/service.go:192-229 | whatever fails when: instances stay in one place and are closed at most once, at most one subscription is live, Starting has one owner, attempts are in order |
| Initialization.InvBreaksExactly | core/service.go:192-229 | a step breaks the whole invariant of the service if and only if it is a failing InitContext that finds Running, a filled slot, and no call about to take it |
| Initialization.HoldsThroughoutExactly | core/service.go:192-229 | over every interleaving of calls and failures: the invariant holds all along the run if and only if no failure of the run strands an instance |
| Initialization.UnstrandedRunsAreSafe | core/service.go:192-229 | in those runs subscriptions are safe, instances are conserved, a filled slot at rest means Running, and instances are overwritten only beside a pending swap |
| Initialization.FailureUndoesDestroy | core/service.go:197-201 | a concrete run: a Destroy commits while an InitContext with bad options is past its CAS, and the service is Created again, ready to be initialized |
| Initialization.FailureStrandsAnInstance | core/service.go:197-201 | a concrete run: a start reaches Running in the same window; at rest the state is Created with a live instance in the slot |
| Restarts.OvertakenExactly | core/watchdog.go:181-189 | a number just taken stands for the newest content of the host unless a restart took it for an older one, and then it does not; no other step changes what the newest number stands for |
| Restarts.NewestContentWinsExactly | core/watchdog.go:181-189 | at rest the last attempt is for the newest content if and only if the last event that took a number was not a restart for an older one |
| Restarts.ReadsWhenRunning | core/watchdog.go:182-185 | in every run a restart can read a configuration if and only if an instance is in the slot |
| Restarts.StaleRestartWins | core/watchdog.go:181-189 | a concrete run: the service ends at rest in Running on content 1 although the newest content is 2 and the last call of the host was a Stop |
| Restarts.RestartRevivesExactly | core/watchdog.go:181-189 | a restart enters Starting although the host has stopped or destroyed the service since the last start entered, if and only if its own Stop found nothing to stop and the last start did not fail |
| Restarts.StopUndone | core/watchdog.go:181-189 | a concrete run: the restart brings the newest content, and the service ends Running although the last call of the host was a Stop |
| Revivals.RevivesExactly | core/service.go:280-291 | the same for any start of any run |
| Revivals.UnheardExactly | core/service.go:456-466 | a Stop that finds Initialized and returns has a start about to enter Starting behind its back, if and only if neither the host nor a failure has ended the last start |
| Progress.CallsCanReturn | core/service.go:151-166 | from every state of every run all calls in flight can return by steps of their own: no circular wait on the two mutexes, and no retry that needs another call |
| ServiceObject.Service.InitContext | core/service.go:192-195 | the CAS out of Created, and the store back to it when the options are bad, whatever other calls do in between; no effect from any other state |
| ServiceObject.Service.LoadForStop | core/service.go:458-461 | the load at the head of the retry loop of Stop, as the machine takes it |
| ServiceObject.Service.CasInitialized | core/service.go:462-464 | the CAS of Stop: it succeeds exactly when nobody moved the state since the load |
| ServiceObject.Service.CasDestroyed | core/service.go:495-497 | the CAS of Destroy, likewise |
| ServiceObject.Service.SwapSlot | core/service.go:470-470 | the Swap that decides who closes the instance |
| ServiceObject.Service.UnsubscribeHooks | core/events.go:132-143 | under hooksMu, the subscription is swapped out and cancelled; refines the machine step by step under interference |
| ServiceObject.Service.DetachAndClose | core/service.go:467-477 | detach, unsubscribe, close, in this order |
| ServiceObject.Service.Stop | core/service.go:456-478 | the retry loop and its tail take only steps of the machine; when it returns, the call is over |
| ServiceObject.Service.Destroy | core/service.go:487-512 | likewise, and a Destroy that returns leaves the state Destroyed whoever else acts, unless an InitContext fails |
| ServiceObject.Service.SubscribeHooks | core/events.go:47-66 | cancel the older subscription, check the generation, install, all under hooksMu |
| ServiceObject.Service.StartWithJSON | core/service.go:354-425 | Store, CAS to Running, and on a lost CAS the Swap that settles who closes |
| ServiceObject.Service.Replace | core/service.go:280-293 | stop the previous instance, enter Starting, launch, roll back on failure |
| ServiceObject.Service.StartWithContent | core/service.go:262-294 | translate, number, lock, coalesce, replace, unlock: only steps of the machine, from call to return |
| Subscriptions.SubscribedExactly | core/events.go:47-66 | over every interleaving, at rest with an instance running: its start has asked for the Clash API exactly once, and its subscription is the one installed and live if and only if it was found and no Stop or Destroy has taken a subscription of it since; otherwise none is live |
| Subscriptions.PromptlySubscribedExactly | core/events.go:47-66 | in runs in which no start enters Starting while a Stop or Destroy still owes an unsubscribe: the running instance is subscribed if and only if the Clash API was found |
| Effects.StopTakesEffect | core/service.go:456-478 | a Stop that has returned has seen the service neither Starting nor Running at some moment since its call, whoever acted beside it |
| Effects.DestroyTakesEffect | core/service.go:487-512 | a Destroy that has returned has seen it Destroyed |
| Solo.StartAloneExactly | core/service.go:262-294 | on a service at rest after any run, a start that runs alone: what was running is stopped and closed once, the new instance is Running in the slot, its subscription live exactly if the Clash API is on; Initialized without one if it does not start; nothing but a number before InitContext or after Destroy |
| Solo.StopAlone | core/service.go:456-478 | likewise a Stop: Running becomes Initialized, the instance is detached and closed and its subscription ended; any other service is untouched |
| Solo.DestroyAlone | core/service.go:487-512 | likewise a Destroy: Destroyed whatever it was, with what was running stopped |
| Translator.Translation.TranslateProxy | translator/proxy.go:14-46 | one proxy: skipped, stub or translated, with its dialer as detour; its tag, stub mark and invalid mark are recorded |
| Translator.Translation.TranslateProxies | translator/proxy.go:11-49 | the outbound list, the tag set, the stub map and the invalid set are those of the specification functions |
| Translator.Translation.CollectECHQueryServers | translator/dns.go:321-338 | the ECH query names, each once, in order of first appearance |
| Proxies.StubsReadBack | translator/proxy.go:93-102 | without look-alikes, reading the marks of the translated proxies gives exactly the stub map, whatever the names |
| Proxies.StubRoundTripExactly | core/service.go:334-352 | for distinct names the marks read back are the stub map if and only if no genuine proxy looks like a stub |
| Proxies.LookalikeIsTakenForAStub | core/service.go:334-352 | a genuine socks proxy that reads back as a stub, beside a real one |
| Outbounds.NodesExactly | translator/proxy.go:11-91 | the proxies with a name become one node each, in order: its translation with the dialer as detour, or, of no supported protocol or without an address, a node that keeps name and protocol |
| Outbounds.StubsExactly | translator/proxy.go:11-49 | the stub map has exactly the names of such proxies, each with the protocol of the last of that name |
| Outbounds.EchNamesExactly | translator/dns.go:321-338 | the ECH query names are those the nodes ask for, each once, in the order they first occur |
| SavedConfig.ExtractStubTags | core/service.go:334-352 | the loop over a document computes the marks as specified; a later outbound of the same tag wins |
| SavedConfig.ApplyRuleSetProxy | translator/rule.go:56-86 | only rule-set addresses change, each to its proxied form |
| SavedConfig.ProxyExactly | translator/rule.go:14-22 | an address at GitHub gets the proxy in front, its trailing slashes replaced by one; any other stays |
| SavedConfig.TranslateConfig | core/service.go:296-319 | a document passes through; anything else is translated; then the proxy is applied and, if there is no stub map, it is recovered; text that cannot be read and a clash of tags are the only failures |
| SavedConfig.SavedStartsTheSame | translator/translator.go:40-42 | a translated configuration, saved and started again without a proxy, is the same document, with the same stub map if and only if there was no stub or there is no look-alike |
| Translator.Translation.FilterGroupProxies | translator/group.go:121-138 | the members that are proxies, groups or DIRECT, in order |
| Translator.Translation.FilterHealthCheckProxies | translator/group.go:140-152 | the members that may be probed, in order |
| Translator.Translation.TranslateGroup | translator/group.go:43-92 | one group: skipped, a selector, or a urltest over the members that may be probed |
| Groups.Probing | translator/group.go:263-279 | after clamping the probe interval is within its bounds and below the idle timeout |
| Groups.TranslatedFacts | translator/group.go:218-261 | a translated group is non-empty, its members are known and listed, a selector defaults to its first member, and a urltest lists nobody that must not be probed |
| Translator.Translation.CleanupGroupOutboundsOnce | translator/group.go:173-216 | one pass keeps the groups with a valid member, cleaned and in order, and forgets the names of the others |
| Translator.Translation.CleanupGroupOutbounds | translator/group.go:162-170 | the passes end, and reach the fixpoint of the specification |
| Groups.FixpointSound | translator/group.go:153-170 | for any names: no member dangles, every surviving name has a group, every group is non-empty and defaults to its first member |
| Groups.FixpointThins | translator/group.go:188-213 | each survivor is an original group with some members gone and the rest in order |
| Groups.FixpointIsGreatest | translator/group.go:153-170 | for distinct names the clean-up computes the greatest set of groups each having a member among proxies, DIRECT and the set itself, and leaves exactly those, with exactly their valid members |
| Groups.RingSurvives | translator/group.go:153-170 | the greatest set does not exclude rings: two groups that list only each other survive |
| Groups.CleanUpIgnoresOrder | translator/group.go:153-170 | for distinct names the order of the groups does not matter to who survives |
| Groups.SurvivorsProbeOnlyValid | translator/group.go:62-74 | no surviving urltest group lists a proxy that must not be probed |
| Translator.Translation.NameGroups | translator/group.go:37-41 | every named group is a valid reference at first |
| Translator.Translation.OrderGroups | translator/group.go:100-110 | the surviving names give the order; the others stop being valid references |
| Translator.Translation.TranslateGroups | translator/group.go:28-117 | all groups translated against all names, then the fixpoint, then the order |
| Translator.Translation.GenerateDefaultGroups | translator/group.go:307-343 | the default groups over the sorted proxies, and PROXY as the only ordered group |
| Translator.DefaultGroupsSound | translator/group.go:307-343 | the default groups are non-empty, list only proxies and each other, and probe nobody they must not |
| Outbounds.SurvivorsExactly | translator/group.go:28-117 | for distinct names the groups that survive are the greatest set of groups with a known type and a member that is a proxy, DIRECT or in the set, and may be probed where the group probes; read off the configuration alone |
| Outbounds.SomeSurvive | translator/group.go:153-170 | there always is such a greatest set |
| Outbounds.GroupsExactly | translator/group.go:28-117 | for distinct names the groups of the output are exactly those, in the order of the configuration, each with its type, default, probe settings and exactly the members it may offer, in order; the first of them is the first group, and route.final |
| Outbounds.FirstGroupExactly | translator/group.go:100-110 | whatever the names: the first group, and route.final, is the first group of the configuration that has a name and is counted as translated after the clean-up, and it exists |
| Outbounds.DefaultGroupsExactly | translator/group.go:307-343 | if no group can be written: PROXY over all proxies by name, and Auto over those that may be probed in front if there are two; without proxies no group, and everything DIRECT |
| Autoroute.RegisterRuleSet | translator/rule.go:24-36 | a definition is added once and never replaced |
| Autoroute.EnsureRuleSetDef | translator/rule.go:42-50 | the definition points at the official file of the name in lower case, unless the tag is defined already |
| Autoroute.TranslateRules | translator/autoroute.go:8-38 | the generated rules are appended in order, and what is registered is exactly the rule sets they name |
| Autoroute.GenerateCNRoutes | translator/autoroute.go:61-106 | the rules for China, with their definitions |
| Autoroute.GenerateCountryRoutes | translator/autoroute.go:120-138 | the rules for any other country, with their definition |
| Assembly.ConvertRejectActions | translator/assemble.go:81-88 | REJECT as an outbound becomes the reject action, in place |
| Assembly.AddRouteAction | translator/assemble.go:92-100 | the missing route actions, in place |
| Assembly.AddClashModeCondition | translator/assemble.go:105-122 | the Rule-mode condition on every rule with an outbound, in place, in the form its shape allows |
| Assembly.PassesAreGuard | translator/assemble.go:16-23 | the three passes over the rules amount to one guard per rule |
| Assembly.AddDefaultRules | translator/assemble.go:33-47 | sniff, DNS hijack and the two mode switches in front |
| Assembly.FilterOrphanRules | translator/assemble.go:143-170 | rules keep only defined rule sets and are dropped when none is left |
| Assembly.FilterOrphanSubRules | translator/assemble.go:173-195 | likewise for the sub-rules of logical rules |
| Assembly.AddRuleSets | translator/assemble.go:66-72 | each definition is written once, in the order of the tags |
| Assembly.Assemble | translator/assemble.go:9-77 | the phases of assembling in order |
| Routes.GuardKeepsMeaning | translator/assemble.go:105-122 | in Rule mode a guarded rule matches what the bare one did and decides what it was meant to |
| Routes.ModeSwitches | translator/assemble.go:38-45 | with a group, every connection but DNS goes DIRECT in Direct mode and to the first group in Global mode, whatever the rules |
| Routes.RuleModeKeepsMeaning | translator/assemble.go:16-47 | in Rule mode the assembled list decides as first match on the bare list, REJECT read as reject, DNS hijacked |
| Routes.NoGroupAllDirect | translator/autoroute.go:11-14 | without a group everything but DNS goes DIRECT in every mode |
| Routes.LocalTrafficDirect | translator/autoroute.go:18-30 | private addresses and local names stay DIRECT in Rule mode in every country |
| Routes.CountryDecides | translator/autoroute.go:31-35 | past local traffic the rules of the country decide |
| Routes.DomesticBeforeForeign | translator/autoroute.go:69-87 | overseas AI services go to the first group; then services with access points in China go DIRECT although listed as foreign, and other foreign names go to the first group |
| Routes.GroupNamedReject | translator/assemble.go:81-88 | a first group named REJECT: what should go to it is rejected in Rule mode, though not in Global mode |
| Routes.OrphanFilterIdentity | translator/assemble.go:127-140 | rules whose rule sets are all defined pass the orphan filter unchanged |
| Routes.OrphanFilterKeepsMeaning | translator/assemble.go:143-195 | rule sets that are not defined matching nothing, the orphan filter changes no decision, as long as it takes no condition out of a conjunction |
| Routes.RuleFilteredExactly | translator/assemble.go:143-195 | one rule: dropped, it matched nothing; left, it matches what it did, except that the dropped conditions of a conjunction no longer count |
| Routes.OrphansAreGone | translator/assemble.go:143-195 | after it no rule names a rule set that is not defined |
| Routes.OrphanInAConjunctionWidens | translator/assemble.go:173-195 | an input: a conjunction that loses a condition catches everything |
| RouteAnswers.ConnectionsExactly | translator/autoroute.go:8-138 | where the finished route sends every connection, in every mode, for every configuration: read off country, first group and connection alone, rule sets by name |
| RouteAnswers.RuleSetsExactly | translator/autoroute.go:18-130 | the rule sets of the output are those of the country, each to be fetched from its own file |
| DnsPhase.BuildDNSServerEntries | translator/dns.go:712-723 | one server per expressible entry, numbered by its position |
| DnsPhase.AddAutoServers | translator/dns.go:85-102 | at most two bootstrap servers from nameservers with an IP address |
| DnsPhase.PreferUDPServer | translator/dns.go:727-739 | the first UDP candidate, else the first |
| DnsPhase.IsLocalDNSServer | translator/dns.go:309-316 | whether the first server of that tag is local |
| DnsPhase.SetDomainResolvers | translator/dns.go:115-142 | each domain-addressed server gets the first resolver other than itself |
| DnsPhase.AddFakeIP | translator/dns.go:154-220 | the FakeIP server and the filter rules, whitelist or blacklist |
| DnsPhase.AddHosts | translator/dns.go:224-261 | the hosts server and the rule for its sorted names |
| DnsPhase.FinishServers | translator/dns.go:274-288 | HTTP/3 upgrade, and a bootstrap server where the resolver is missing or local |
| DnsPhase.TranslateDNS | translator/dns.go:21-291 | servers, resolver, final server and user rules are those of the specification functions, DNS switched on or off |
| DnsOutput.ServersExactly | translator/dns.go:56-142 | with DNS on, the servers of the output are, in order: one per entry that can be expressed, with tag, type and address of the entry, through the first group if it is a URL of nameserver or fallback and directly otherwise; without default servers the first two nameservers that can stand in, directly; FakeIP, hosts and bootstrap where called for. Named servers are looked up through the first default server other than themselves, proxy names through the first plain one |
| DnsOutput.FinalExactly | translator/dns.go:263-272 | dns.final is the first fallback that can be expressed, or else the first nameserver; a DNS that is off has only the bootstrap server |
| Dns.TagsDistinct | translator/dns.go:64-102 | the server tags are pairwise distinct, whatever the lists |
| Dns.NoSelfResolver | translator/dns.go:115-142 | no server is looked up through itself |
| Dns.AcyclicExactly | translator/dns.go:71-142 | the resolver graph has a cycle if and only if DNS is on and the first two default servers, automatic ones included, are both domain-addressed |
| Dns.NamedDefaultsTurnInACircle | translator/dns.go:71-142 | two default servers given by name are looked up through each other |
| Dns.DomainResolverUsable | translator/dns.go:283-289 | default_domain_resolver names an existing server that is not local |
| DnsRulePhase.FindFirstDirectDNSTag | translator/dns.go:596-622 | the loop with its fallback picks the first direct UDP server, else the first direct one |
| DnsRulePhase.FindFirstECHCapableDNSTag | translator/dns.go:635-661 | the first direct encrypted server, else the first direct one |
| DnsRulePhase.FindFakeIPTag | translator/dns.go:664-676 | the first FakeIP server |
| DnsRulePhase.GenerateDNSRules | translator/autoroute.go:148-235 | mode, user, automatic and terminal rules in this order, with the definitions of their rule sets |
| DnsAnswers.AnswersExactly | translator/autoroute.go:148-235 | what every query gets outside Direct mode, for every configuration: filter, hosts, ECH names to the first direct encrypted server, local and domestic names to the first direct plain one, other A and AAAA queries to FakeIP, the rest to the first nameserver under a whitelist and to dns.final otherwise; rule sets by name |
| DnsAnswers.DirectExactly | translator/autoroute.go:160-174 | there is a direct server unless the entries leave none, and then every query in Direct mode goes to the first plain one, or the first |
| DnsRulePhase.AddDNSRouteAction | translator/dns.go:566-577 | the missing route actions, in place |
| DnsRules.PickedServersAreDirect | translator/dns.go:596-661 | the picked servers need no proxy and are neither FakeIP nor hosts; plain UDP, respectively encrypted, if there is one |
| DnsRules.NoDirectExactly | translator/dns.go:596-622 | no direct server is found if and only if DNS is on, default servers are given, and every server is FakeIP or behind the proxy |
| DnsRules.FakeIPInDirectMode | translator/autoroute.go:163-168 | an input: FakeIP as the only default server and nameserver; a query in Direct mode is answered by FakeIP |
| DnsRules.FinalAnswer | translator/autoroute.go:226-235 | what the finished list answers, for every configuration with a direct server: the mode switch, else user, automatic, terminal rules and the final server |
| DnsRules.DirectModeExactly | translator/autoroute.go:170-174 | with DNS on, in Direct mode a query goes to a server without a detour that is neither FakeIP nor hosts if and only if default servers are absent or some server is neither FakeIP nor behind the proxy |
| DnsRules.EchNamesAreDirect | translator/autoroute.go:180-199 | an ECH query name no user rule covers goes to such a server in every mode, for every configuration with a direct server |
| DnsRules.BlacklistedNeverFakeIP | translator/dns.go:206-220 | a name that an honoured entry of a blacklist filter lists, by the meaning of mihomo's wildcards, is never answered by FakeIP, in any mode, for any query type |
| DnsRules.CaughtNeverFakeIP | translator/dns.go:206-220 | nor is any name the rules of the filter catch |
| DnsRules.HonouredExactly | translator/dns.go:175-189 | the rules of an entry catch every name its wildcard, or its list, lists if and only if it is a plain name, or a star, a dot and a name without further wildcards |
| DnsRules.UnconditionalLast | translator/autoroute.go:226-235 | only the last rule of the list can be unconditional |
| DnsRules.OrphanFilterKeepsAnswers | translator/assemble.go:127-170 | the orphan filter on DNS rules changes no answer and leaves no rule naming an undefined rule set |
| DnsRules.RulesResolve | translator/validation.go:134-139 | every rule names an existing server and only registered rule sets |
| DnsRules.FinalResolves | translator/validation.go:141-143 | dns.final, when set, exists |
| DnsRules.DetoursResolve | translator/validation.go:126-132 | every detour is the first group |
| Validation.CollectOutboundTags | translator/validation.go:32-53 | fails if and only if a tag occurs twice, and then names one that does |
| Validation.ValidateGroupMembers | translator/validation.go:58-78 | fails if and only if a group lists a tag that does not exist |
| Validation.ValidateRouteRules | translator/validation.go:104-111 | warns if and only if a rule names an outbound that does not exist |
| Validation.ValidateDNSReferences | translator/validation.go:115-146 | fails if and only if a detour, a rule or dns.final names something that does not exist |
| Validation.Validate | translator/validation.go:11-27 | passes if and only if what it checks is in order; reports a duplicate tag if and only if there is one |
| Pipeline.MakeGroups | translator/translator.go:96-102 | the groups of the output, the default ones included, are those of the specification |
| Pipeline.MadeGroupsSound | translator/validation.go:58-78 | members of all groups exist, nobody is probed that must not be, and the first group exists |
| Pipeline.MadeResolves | translator/validation.go:11-27 | for every configuration no reference validate looks at dangles: members, final, DNS detours, rule servers, dns.final, and route rules |
| Pipeline.AssembledDefined | translator/assemble.go:127-140 | guard and default rules name no rule set the bare rules do not |
| Soundness.OwnReferencesAlwaysResolve | translator/translator.go:61-132 | for every configuration everything the translator refers to itself exists: also selector defaults, DNS resolvers, the default resolver and the rule sets of both rule lists |
| Soundness.DistinctExactly | translator/validation.go:32-53 | tags are distinct if and only if DIRECT, the proxy names and the names of the surviving groups are |
| Soundness.SurvivorsAreGreatest | translator/group.go:153-170 | for distinct group names the groups of the output are the greatest set of groups each with a member among proxies, DIRECT and the set, or the default ones if that is empty |
| Soundness.DistinctByGreatest | translator/validation.go:32-53 | then tags are distinct if and only if the proxy names are distinct and other than DIRECT, and none is the name of such a group |
| Soundness.ReferencesResolveExactly | translator/proxy/common.go:124-126 | no reference dangles if and only if every dialer-proxy of a translated proxy is DIRECT, a proxy name or the name of a surviving group |
| Soundness.WellFormedExactly | translator/validation.go:5-9 | distinct tags, no dangling reference and no circular DNS server, if and only if the names are distinct, every dialer-proxy exists, and the first two default servers of a DNS that is on are not both given by name |
| Soundness.DialerToNowhere | translator/proxy/common.go:124-126 | an input that passes validation with a dangling detour |
| Soundness.DistinctNamesSucceed | translator/validation.go:32-53 | names that do not clash with each other or with DIRECT, PROXY and Auto pass validation, and are well-formed under the other two conditions |
| Pipeline.TranslateFromConfig | translator/translator.go:61-132 | the phases in order; every part of the output is as specified; validation fails on a duplicate tag or not at all; there is no warning about a dangling rule |
| IpcTheorems.InvKept | ipc/server.go:87-188 | the loop, lock, stream and answer invariants are kept by every atomic operation |
| IpcTheorems.ActiveIsServed | ipc/server.go:126-133 | active is the connection being served or nothing, and every other connection is closed |
| IpcTheorems.WireIsWholeLines | ipc/server.go:43-58 | the bytes on a connection are a prefix of whole lines in the order their writing began, and all of them once nobody writes, unless a write failed |
| IpcTheorems.ResponsesAnswer | ipc/server.go:161-176 | a response answers a request of its own connection under its id, no two the same one, and no notification is answered (sections 4.1 and 5 of JSON-RPC 2.0) |
| IpcAnswers.RequestsAreServed | ipc/server.go:161-176 | a request with an id that was read from a connection that has not broken is owed by a thread, has its response begun, or had one that could not be marshalled, and only one of these |
| IpcAnswers.AnsweredExactly | ipc/server.go:161-176 | so once no thread is left, exactly the requests whose response could be marshalled have one, and only one |
| IpcAnswers.NoticesAreSentExactly | ipc/server.go:178-209 | once no thread is left, every event has looked for a connection, and the one it found has its notice begun as often as it was due |
| IpcAnswers.RequestsAreReads | ipc/server.go:126-159 | the requests of a connection are exactly what was read from it, in order |
| IpcAnswers.CancellationsClose | ipc/server.go:87-97 | a cancellation closes the connection it finds; nothing else closes one that is being read; writing to one breaks off exactly once a write has failed |
| IpcTheorems.ClosedIsSilent | ipc/server.go:32-39 | the wire only grows, and that of a closed connection does not |
| IpcTheorems.OnlyTheHolderWrites | ipc/server.go:51-57 | only the thread that holds the lock of a connection adds to its stream |
| IpcTheorems.PrefixReadsBack | ipc/server.go:41-49 | a stream of lines cut anywhere reads back as its first messages |
| IpcTheorems.ClientReadsMessages | ipc/server.go:41-58 | a client splitting at newlines gets whole messages of its own connection, in order, whenever it looks |
| ClientConnection.ClientConn.Send | ipc/server.go:43-58 | over a buffered writer and a socket that may fail at any byte, the line is written whole unless a write fails, and nothing after a failure |
| GroupDelay.AtMostSixteenProbes | core/query.go:241-259 | at most 16 probes are in flight at any moment of any run |
| GroupDelay.ReleasesNeverFail | core/query.go:256-259 | no worker finds the semaphore empty or the wait group at zero when it leaves |
| GroupDelay.ReturnIsComplete | core/query.go:232-275 | on return no goroutine is left, the locks are free, the keys are exactly the members, and every value is a delay probed for that member, or -1 after cancellation |
| GroupDelay.EachGetsItsOwn | core/query.go:232-275 | with distinct members each value is exactly the one of that member |
| GroupDelay.CallReturns | core/query.go:232-275 | a call for n members takes at most 10n + 2 steps, goroutines included, and is never stuck before it returns, whatever the interleaving |
| Watchdog.NormalizeHealthConfig | core/watchdog.go:36-59 | durations and threshold are those asked for where positive and in range, the defaults otherwise; the threshold is at least one |
| Watchdog.DurationExactly | core/watchdog.go:46-57 | a requested duration is the one used if and only if it fits in int64 nanoseconds |
| Watchdog.LongIntervalTurnsNegative | core/watchdog.go:46-48 | beyond that an interval can come out negative |
| Watchdog.Run | core/watchdog.go:75-106 | the loop decides each tick as specified: skipped exactly while cooling down, restart exactly at the threshold-th failure in a row |
| Watchdog.OutcomesExactly | core/watchdog.go:75-106 | each tick exactly: skipped if and only if it comes before the cooldown after the last restart is over, a success if the probe succeeds, a restart if it completes a row of threshold failures |
| Watchdog.StreakBelowThreshold | core/watchdog.go:89-103 | the failure count stays below the threshold at each loop head |
| Watchdog.RestartsCostFailures | core/watchdog.go:93-103 | restarts times threshold plus the current count never exceeds the failed probes |
| Watchdog.RestartEndsARow | core/watchdog.go:89-103 | a restart ends a row of exactly threshold failed probes with no success and no restart between |
| Watchdog.ProbesWaitForCooldown | core/watchdog.go:86-88 | under a clock that does not run backwards every later probe comes at least the cooldown after the restart finished |
| ProxyChain.CurrentProxyNode | core/watchdog.go:147-178 | the node the unbounded walk ends at if it does so within 15 steps, nil otherwise, on any graph |
| ProxyChain.EndsByPath | core/watchdog.go:147-178 | the walk ends at a node exactly if a path leads there of groups each of which has the next as its choice, and the node is a proxy that is no group |
| ProxyChain.CyclesHaveNoNode | core/watchdog.go:162-166 | a walk that comes back to an outbound ends nowhere, so nil is right for it |
| ProxyChain.BoundIsEnoughExactly | core/watchdog.go:150-151 | the bounded walk agrees with the unbounded one if and only if the walk is over within 15 steps, comes back to an outbound, or stops without a node |
| ProxyChain.ShortChains | core/watchdog.go:150-151 | a chain of at most 16 outbounds is short enough |
| ProxyChain.SeventeenIsTooLong | core/watchdog.go:150-151 | a chain of 17 outbounds ends at a node that the walk does not reach |
| Formats.SecondsToDuration | translator/proxy/common.go:134-153 | reading the text gives the seconds back; no component is zero, minutes and seconds stay below 60 |
| Formats.ParseServerPorts | translator/proxy/common.go:218-238 | the entries of the segments, in order |
| Formats.PortsJoin | translator/proxy/common.go:220-237 | joining texts with a comma joins their entries: an invalid segment disturbs nothing else |
| Formats.PortsRoundTrip | translator/proxy/common.go:211-238 | any list of ranges and ports, joined with commas, parses to exactly the entries of those whose numbers are between 1 and 65535, in order |
| Formats.ParseBandwidth | translator/proxy/common.go:166-209 | bare numbers as they are; the unit form is the stated bits modulo 2^64, in megabits |
| Formats.BandwidthReads | translator/proxy/common.go:166-209 | a number, blanks and a unit come to that many bits or bytes, thousands, millions, billions or trillions of them, in whole megabits, at least one and at most the largest int32 |
| Formats.NumberReads | translator/proxy/common.go:172-175 | a bare number states itself |
| Formats.Megabits | translator/proxy/common.go:201-208 | at most the largest int32, and zero only for no bits |
| Formats.WrappedIsExact | translator/proxy/common.go:186-208 | the result is the stated limit if and only if the bits fit in 64, or what wrapping leaves still reaches the cap |
| Formats.UnlimitedExactly | translator/proxy/common.go:186-208 | a stated bandwidth becomes unlimited if and only if its number is a multiple of 2^64 without the powers of two in its unit: 2^52 for Tbps |
| Formats.HugeLimitBecomesNone | translator/proxy/common.go:186-204 | a stated limit of 2^52 Tbps wraps to no limit |
| Formats.LimitsAreMonotone | translator/proxy/common.go:186-208 | where nothing wraps, larger values give no smaller limits and positive ones never none |

## Left out

- ServiceObject.Service.Stop: retry loops and waits for a lock are bounded by a `patience` argument and report when it runs out, because a loop must be shown to end; the machine itself has no such bound. The error of a Close is not returned.
- ServiceObject.Service.UnsubscribeHooks: the wait for hooksMu is bounded in the same way.
- ServiceObject.Service.DetachAndClose: bounded in the same way; the error of a Close is not returned.
- ServiceObject.Service.SubscribeHooks: bounded in the same way.
- ServiceObject.Service.StartWithJSON: bounded in the same way, through SubscribeHooks.
- ServiceObject.Service.Replace: bounded in the same way, through Stop.
- ServiceObject.Service.Destroy: bounded in the same way; cancelling the health watchdog (core/service.go:500-502) is not a step.
- ServiceObject.Service.StartWithContent: bounded in the same way; what translation and sing-box decide are parameters, and error values are not carried.
- ServiceObject.Service.InitContext: file-system work and the start of the watchdog are left out; bad options stand for every failure after the CAS.
- ServiceTheorems.LegalEdges: an InitContext that fails after its CAS is no step of this machine (`EdgesExactly` has it); events are emitted after the CAS, and their order is not modelled.
- ServiceTheorems.DestroyedAbsorbs: false beside a failing InitContext; `EdgesExactly` says exactly when.
- Autoroute.EnsureRuleSetDef: type, format, update interval and download detour of a definition are constants and not carried.
- SavedConfig.TranslateConfig: content that is no JSON object is handed on as the source does; an object whose outbounds have members of other types yields no stub map in the source, and is not among the documents here.
- SavedConfig.ApplyRuleSetProxy: a document stands for its decoded content, so formatting and members the model does not know are not compared.
- DnsPhase.TranslateDNS: ports, paths, TLS, client subnets, strategies, address ranges and the addresses of hosts are not carried.
- DnsPhase.AddFakeIP: the address ranges are not carried.
- DnsPhase.AddHosts: the addresses of the hosts are not carried, only their names.
- Dns.Parsed: entries arrive decoded into kind, host, scheme and h3 parameter; splitting of URLs and parsing of IP addresses are not modelled.
- Translator.Translation.TranslateProxies: what a supported protocol translates to, whether a host is a dead one, and whether a text is an IP address are parameters.
- Pipeline.TranslateFromConfig: inbounds, TUN, logging and experimental settings are copied field by field in the source and left out; warnings other than those of validation are not carried.
- Soundness.WellFormedExactly: outbounds that refer to each other in a ring, through groups (`RingSurvives`) or dialers, count as well-formed here; nothing in the translator looks for them, and whether sing-box accepts them is not part of this model.
- IpcProtocol: what a handler answers, apart from the id it is sent under, is not carried; restarting the accept loop after an accept error is one transition.
- Restarts.RestartRevivesExactly: a Stop counts when its CAS commits; one that finds nothing to stop is the subject of `UnheardExactly`.
- GroupDelay: the early returns for a service at rest or a tag that is no group are left out; a probe is one step that yields any delay; the deadline and a stop of the service are one cancellation at any time.
- Watchdog.Run: ticks and probe results are inputs up to cancellation; log output is not modelled.
- sing-box itself, contexts, observables, the network, the file system and the clock are parameters or absent.
- Routes.OrphanFilterKeepsMeaning: excludes conjunctions that lose a condition; `RuleFilteredExactly` says what becomes of them.
- DnsAnswers.AnswersExactly: that all other A and AAAA queries of a whitelist go to the nameserver is not so, the FakeIP rule comes before the terminal one; the lemma says what they get.
- Solo: an InitContext running alone is the one step of the machine; a failing one is the subject of `Initialization`.
- That a port range starts no later than it ends is not claimed: the parser does not check it.
- The service installers, the command line, the C bindings, base64 and URI-list input, and country detection.
