/** translateFromConfig: the phases in order, and what holds of every configuration that comes out. */
module Pipeline {
  import opened Basics
  import opened Text
  import opened Config
  import opened Translator
  import opened Validation
  import Proxies
  import Groups
  import Routes
  import Dns
  import DnsRules
  import Autoroute
  import DnsPhase
  import DnsRulePhase
  import Assembly

  // ---- groups, default ones included ----

  /** Groups that can be offered: each has members, all of them existing; none probes a proxy that must not be. */
  ghost predicate SoundGroups(groups: seq<Outbound>, proxies: set<string>, invalid: set<string>) {
    && Groups.AllWellMade(groups) && "" !in TagSet(groups)
    && (forall g :: g in groups ==> Groups.ProbesOnlyValid(g, invalid))
    && (forall g, m :: g in groups && m in g.members ==> m in proxies + TagSet(groups) + {"DIRECT"})
  }

  /** The groups of the output and the first of them: the configuration's groups, translated and cleaned up, or, when
      no name is left among them, the default ones. */
  ghost predicate MadeGroups(gs: seq<RawGroup>, proxies: set<string>, invalid: set<string>, groups: seq<Outbound>,
                             group: Option<string>)
  {
    var all := Groups.AllTranslated(gs, proxies + Groups.Names(gs) + {Groups.DIRECT}, invalid);
    && Groups.AllGroups(all)
    && var clean := Groups.Fixpoint(all, TagSet(all), proxies);
       var order := OrderOf(gs, clean.translated);
       if order != [] then groups == clean.groups && group == Some(order[0])
       else exists names :: Lists(names, proxies) && groups == DefaultGroups(names, invalid)
                            && group == if names == [] then None else Some("PROXY")
  }

  method MakeGroups(gs: seq<RawGroup>, t: Translation) returns (groups: seq<Outbound>)
    requires t.groupTags == {} && t.groupOrder == []
    modifies t`groupTags, t`groupOrder
    ensures MadeGroups(gs, t.proxyTags, t.invalidTags, groups, t.FirstGroup())
    ensures "" !in t.groupOrder
  {
    ghost var translated;
    groups, translated := t.TranslateGroups(gs);
    OrderIsTranslated(gs, translated);
    if t.groupOrder == [] {
      ghost var order;
      groups, order := t.GenerateDefaultGroups();
      assert t.proxyTags == {} <==> order == [] by {
        if order != [] { assert order[0] in order; }
      }
    }
  }

  /** Groups made so are sound, and the first of them exists. */
  lemma MadeGroupsSound(gs: seq<RawGroup>, proxies: set<string>, invalid: set<string>, groups: seq<Outbound>,
                        group: Option<string>)
    requires MadeGroups(gs, proxies, invalid, groups, group)
    ensures SoundGroups(groups, proxies, invalid)
    ensures group.Some? ==> group.value != "" && group.value in TagSet(groups)
    ensures group.None? ==> groups == []
  {
    var all := Groups.AllTranslated(gs, proxies + Groups.Names(gs) + {Groups.DIRECT}, invalid);
    var clean := Groups.Fixpoint(all, TagSet(all), proxies);
    var order := OrderOf(gs, clean.translated);
    OrderIsTranslated(gs, clean.translated);
    if order != [] {
      TranslatedSound(gs, proxies, invalid, groups, clean.translated);
      assert order[0] in order;
    } else {
      var names :| Lists(names, proxies) && groups == DefaultGroups(names, invalid)
                   && group == if names == [] then None else Some("PROXY");
      DefaultGroupsSound(names, invalid);
      DefaultGroupTags(names, invalid);
    }
  }

  lemma TranslatedSound(gs: seq<RawGroup>, proxies: set<string>, invalid: set<string>, groups: seq<Outbound>,
                        translated: set<string>)
    requires var all := Groups.AllTranslated(gs, proxies + Groups.Names(gs) + {Groups.DIRECT}, invalid);
             Groups.AllGroups(all) && Groups.Fixpoint(all, TagSet(all), proxies) == Groups.CleanUp(groups, translated)
    ensures SoundGroups(groups, proxies, invalid) && translated <= TagSet(groups)
  {
    var known := proxies + Groups.Names(gs) + {Groups.DIRECT};
    var all := Groups.AllTranslated(gs, known, invalid);
    Groups.AllTranslatedFacts(gs, known, invalid);
    Groups.FixpointSound(all, TagSet(all), proxies);
    Groups.SurvivorsProbeOnlyValid(gs, known, invalid, TagSet(all), proxies);
    forall g, m | g in groups && m in g.members ensures m in proxies + TagSet(groups) + {"DIRECT"} {
      assert m in Groups.ValidTags(proxies, translated);
    }
  }

  // ---- every rule set is defined ----

  lemma {:induction false} NamedIn(rules: seq<Routes.Rule>, r: Routes.Rule)
    requires r in rules
    ensures Routes.Named(r) <= Routes.NamedBy(rules)
  {
    if r != rules[0] { NamedIn(rules[1..], r); }
  }

  lemma NamesItsSet(rules: seq<Routes.Rule>, tag: string, outbound: string)
    requires Routes.SetRule(tag, outbound) in rules
    ensures tag in Routes.NamedBy(rules)
  {
    NamedIn(rules, Routes.SetRule(tag, outbound));
    Routes.NamedByOne(tag, outbound);
    assert [Routes.SetRule(tag, outbound)][1..] == [];
  }

  /** The rule sets of the DNS rule for domestic names are among those the route rules name. */
  lemma DomesticSetsNamed(cc: string, proxyTag: string)
    ensures forall tag :: tag in DnsRules.DomesticSets(cc) ==> tag in Routes.NamedBy(Routes.GeoRules(cc, proxyTag))
  {
    hide Routes.NamedBy, Routes.Named;
    var rules := Routes.GeoRules(cc, proxyTag);
    assert rules[1] == Routes.LocalRules()[1];
    NamesItsSet(rules, Routes.SiteTag("private"), "DIRECT");
    if cc == "cn" {
      ForeignRulesIn(proxyTag);
      NamesItsSet(rules, Routes.SiteTag("cn"), "DIRECT");
      NamesItsSet(rules, Routes.IPTag("cn"), "DIRECT");
    } else {
      assert rules[2] == Routes.CountryRules(cc)[0];
      NamesItsSet(rules, Routes.IPTag(cc), "DIRECT");
    }
  }

  lemma ForeignRulesIn(proxyTag: string)
    ensures forall r :: r in Routes.CNTail(proxyTag) ==> r in Routes.GeoRules("cn", proxyTag)
    ensures Routes.SetRule(Routes.SiteTag("cn"), "DIRECT") in Routes.CNTail(proxyTag)
    ensures Routes.SetRule(Routes.IPTag("cn"), "DIRECT") in Routes.CNTail(proxyTag)
  {
    var tail := Routes.CNTail(proxyTag);
    assert tail[1] == Routes.SetRule(Routes.SiteTag("cn"), "DIRECT");
    assert tail[2] == Routes.SetRule(Routes.IPTag("cn"), "DIRECT");
    assert forall r :: r in tail ==> r in Routes.CNRules(proxyTag);
  }

  /** The guard and the default rules name no rule set that the bare rules do not. */
  lemma AssembledDefined(rules: seq<Routes.Rule>, group: Option<string>)
    ensures Routes.AllDefined(Routes.Assembled(rules, group), Routes.NamedBy(rules))
  {
    assert forall r, m :: r in Routes.DefaultRules(group) && m in Routes.Matchers(r) ==> m.ruleSets == [];
    forall r, m, tag | r in Routes.Assembled(rules, group) && m in Routes.Matchers(r) && tag in m.ruleSets
      ensures tag in Routes.NamedBy(rules)
    {
      assert r in Routes.Mapped(rules);
      var bare := Routes.MappedTo(rules, r);
      NamedIn(rules, bare);
      GuardNames(bare, m, tag);
    }
  }

  lemma GuardNames(bare: Routes.Rule, m: Routes.Match, tag: string)
    requires m in Routes.Matchers(Routes.Guarded(bare)) && tag in m.ruleSets
    ensures tag in Routes.Named(bare)
  {
    match bare.shape
    case Plain(n) => assert n in Routes.Matchers(bare);
    case And(_) => assert m in Routes.Matchers(bare);
    case Or(_) => assert m in Routes.Matchers(bare);
  }

  // ---- what the pipeline makes ----

  /** The output for a configuration, part by part: `groups` are its groups, `group` the first of them, and `hosts`
      the host names in use. */
  ghost predicate Made(cfg: RawConfig, env: Env, groups: seq<Outbound>, group: Option<string>, hosts: seq<string>,
                       o: Output) {
    var nodes := Proxies.All(cfg.proxies, env);
    var cc := ToLower(env.country);
    var rules := Routes.GeoRules(cc, Autoroute.ProxyTag(group));
    var detour := DnsPhase.DetourOf(group);
    && o.outbounds == [Builtin("DIRECT")] + (nodes + groups)
    && MadeGroups(cfg.groups, TagSet(nodes), Proxies.InvalidNames(cfg.proxies, env), groups, group)
    && o.rules == Routes.Assembled(rules, group)
    && o.final == Autoroute.ProxyTag(group)
    && o.servers == Dns.FinalServers(cfg.dns, hosts, detour, env.isIP)
    && o.resolver == Dns.DomainResolver(cfg.dns, hosts, detour, env.isIP)
    && o.dnsFinal == Dns.FinalTag(cfg.dns, detour)
    && o.dnsRules == DnsRules.FinalRules(cfg.dns, hosts, detour, env.isIP, Proxies.EchNames(nodes, []), cc)
    && (forall tag :: tag in Routes.NamedBy(rules) <==> exists i :: 0 <= i < |o.ruleSets| && o.ruleSets[i].tag == tag)
    && (forall r :: r in o.ruleSets ==> r.url == Autoroute.UrlOf(r.tag))
  }

  lemma OutboundsResolve(nodes: seq<Outbound>, groups: seq<Outbound>, invalid: set<string>, obs: seq<Outbound>)
    requires obs == [Builtin("DIRECT")] + (nodes + groups) && SoundGroups(groups, TagSet(nodes), invalid)
    requires forall o :: o in nodes ==> o.Node? && o.tag != ""
    ensures MembersResolve(obs) && TagSet(nodes) + TagSet(groups) <= KnownTags(obs)
  {
    forall t | t in TagSet(nodes) + TagSet(groups) ensures t in KnownTags(obs) {
      if t in TagSet(nodes) {
        var i :| 0 <= i < |nodes| && nodes[i].tag == t;
        assert obs[i + 1] == nodes[i] && nodes[i] in nodes;
      } else {
        var i :| 0 <= i < |groups| && groups[i].tag == t;
        assert obs[i + 1 + |nodes|] == groups[i];
      }
    }
    forall g, m | g in obs && g.Group? && m in g.members ensures m in KnownTags(obs) {
      assert g !in nodes;
      assert g in groups;
      assert m in TagSet(nodes) + TagSet(groups) + {"DIRECT"};
      assert m == "DIRECT" || m in TagSet(nodes) + TagSet(groups);
    }
  }

  /** The outbounds the rules name are DIRECT and the first group. */
  lemma RuleTags(cc: string, group: Option<string>)
    ensures Routes.OnlyTags(Routes.Assembled(Routes.GeoRules(cc, Autoroute.ProxyTag(group)), group),
                            {"DIRECT", Autoroute.ProxyTag(group)})
  {
    var rules := Routes.GeoRules(cc, Autoroute.ProxyTag(group));
    forall r | r in Routes.Assembled(rules, group) && r.outbound.Some?
      ensures r.outbound.value in {"DIRECT", Autoroute.ProxyTag(group)}
    {
      if r in Routes.Mapped(rules) {
        var bare := Routes.MappedTo(rules, r);
        Routes.GeoRuleSplit(cc, Autoroute.ProxyTag(group), bare);
      } else {
        assert r in Routes.DefaultRules(group);
      }
    }
  }

  lemma FoundIsIn(servers: seq<Dns.Server>, tag: string)
    requires Dns.Lookup(servers, tag).Some? && tag != ""
    ensures tag in ServerTags(servers)
  {
    Dns.LookupIsIn(servers, tag);
    var i :| 0 <= i < |servers| && servers[i] == Dns.Lookup(servers, tag).value;
  }

  lemma ServersResolve(dns: Dns.RawDns, hosts: seq<string>, detour: string, isIP: string -> bool,
                       echNames: seq<string>, cc: string)
    ensures var servers := Dns.FinalServers(dns, hosts, detour, isIP);
            && (forall s :: s in servers && s.detour.Some? ==> s.detour.value == detour && detour != "")
            && (forall r :: r in DnsRules.FinalRules(dns, hosts, detour, isIP, echNames, cc) && r.server != "" ==>
                  r.server in ServerTags(servers))
            && (Dns.FinalTag(dns, detour) != "" ==> Dns.FinalTag(dns, detour) in ServerTags(servers))
  {
    var servers := Dns.FinalServers(dns, hosts, detour, isIP);
    forall s | s in servers && s.detour.Some? ensures s.detour.value == detour && detour != "" {
      DnsRules.DetoursResolve(dns, hosts, detour, isIP, s);
    }
    forall r | r in DnsRules.FinalRules(dns, hosts, detour, isIP, echNames, cc) && r.server != ""
      ensures r.server in ServerTags(servers)
    {
      DnsRules.RulesResolve(dns, hosts, detour, isIP, echNames, cc, r);
      FoundIsIn(servers, r.server);
    }
    if Dns.FinalTag(dns, detour) != "" {
      DnsRules.FinalResolves(dns, hosts, detour, isIP);
      FoundIsIn(servers, Dns.FinalTag(dns, detour));
    }
  }

  /** Whatever the configuration, no reference that validate looks at dangles: neither the ones it fails on nor the
      route rules' it warns of. Only tags may clash. */
  lemma MadeResolves(cfg: RawConfig, env: Env, groups: seq<Outbound>, group: Option<string>, hosts: seq<string>,
                     o: Output)
    requires Made(cfg, env, groups, group, hosts, o)
    ensures ReferencesChecked(o) && RouteRulesResolve(o)
    ensures SoundGroups(groups, TagSet(Proxies.All(cfg.proxies, env)), Proxies.InvalidNames(cfg.proxies, env))
  {
    var nodes := Proxies.All(cfg.proxies, env);
    var cc := ToLower(env.country);
    hide MadeGroups, SoundGroups, Routes.GeoRules, Routes.Assembled, Dns.FinalServers, Dns.FinalTag,
      DnsRules.FinalRules;
    Proxies.AllTags(cfg.proxies, env);
    MadeGroupsSound(cfg.groups, TagSet(nodes), Proxies.InvalidNames(cfg.proxies, env), groups, group);
    OutboundsResolve(nodes, groups, Proxies.InvalidNames(cfg.proxies, env), o.outbounds);
    RuleTags(cc, group);
    ServersResolve(cfg.dns, hosts, DnsPhase.DetourOf(group), env.isIP, Proxies.EchNames(nodes, []), cc);
  }

  // ---- the phases in order ----

  ghost predicate ReadyOutbounds(cfg: RawConfig, env: Env, groups: seq<Outbound>, t: Translation)
    reads t`outbounds, t`echServers, t`groupOrder
  {
    var nodes := Proxies.All(cfg.proxies, env);
    && t.outbounds == nodes + groups
    && MadeGroups(cfg.groups, TagSet(nodes), Proxies.InvalidNames(cfg.proxies, env), groups, t.FirstGroup())
    && t.echServers == Proxies.EchNames(nodes, []) && "" !in t.groupOrder
  }

  ghost predicate ReadyDNS(dns: Dns.RawDns, hosts: seq<string>, isIP: string -> bool, t: Translation)
    reads t`servers, t`resolver, t`dnsFinal, t`dnsRules, t`echServers, t`country, t`groupOrder
  {
    var detour := DnsPhase.DetourOf(t.FirstGroup());
    && t.servers == Dns.FinalServers(dns, hosts, detour, isIP)
    && t.resolver == Dns.DomainResolver(dns, hosts, detour, isIP)
    && t.dnsFinal == Dns.FinalTag(dns, detour)
    && t.dnsRules == DnsRules.FinalRules(dns, hosts, detour, isIP, t.echServers, t.country)
  }

  /** All that Made says, before assembling. */
  ghost predicate Ready(cfg: RawConfig, env: Env, groups: seq<Outbound>, hosts: seq<string>, t: Translation)
    reads t
  {
    && ReadyOutbounds(cfg, env, groups, t) && t.country == ToLower(env.country)
    && t.rules == Routes.GeoRules(t.country, Autoroute.ProxyTag(t.FirstGroup())) && Autoroute.Registered(t)
    && ReadyDNS(cfg.dns, hosts, env.isIP, t)
    && t.final == "" && t.ruleSets == []
  }

  /** Proxies and groups. */
  method MakeOutbounds(cfg: RawConfig, env: Env, t: Translation) returns (ghost groups: seq<Outbound>)
    requires t.outbounds == [] && t.proxyTags == {} && t.stubTags == map[] && t.invalidTags == {}
    requires t.echServers == [] && t.groupTags == {} && t.groupOrder == []
    modifies t`outbounds, t`proxyTags, t`stubTags, t`invalidTags, t`echServers, t`groupTags, t`groupOrder
    ensures ReadyOutbounds(cfg, env, groups, t)
    ensures t.stubTags == Proxies.StubMap(cfg.proxies, env)
  {
    hide MadeGroups, Proxies.StubMap, Proxies.InvalidNames, Proxies.EchNames;
    var nodes := t.TranslateProxies(cfg.proxies, env);
    t.CollectECHQueryServers(nodes);
    var made := MakeGroups(cfg.groups, t);
    groups := made;
    t.outbounds := t.outbounds + nodes;
    t.outbounds := t.outbounds + made;
  }

  /** DNS servers and DNS rules. The definitions of all rule sets they name are there already. */
  method MakeDNS(dns: Dns.RawDns, names: set<string>, isIP: string -> bool, t: Translation)
    returns (ghost hosts: seq<string>)
    requires ToLower(t.country) == t.country && Autoroute.UrlsFit(t.ruleSetDefs)
    requires forall tag :: tag in DnsRules.DomesticSets(t.country) ==> tag in t.ruleSetDefs
    requires t.servers == [] && t.dnsRules == [] && t.terminalRules == [] && t.resolver == "" && t.dnsFinal == ""
    modifies t`ruleSetDefs, t`servers, t`dnsRules, t`terminalRules, t`resolver, t`dnsFinal, t`dnsEnabled
    ensures ReadyDNS(dns, hosts, isIP, t)
    ensures t.ruleSetDefs.Keys == old(t.ruleSetDefs.Keys) && Autoroute.UrlsFit(t.ruleSetDefs)
  {
    hosts := DnsPhase.TranslateDNS(dns, names, t, isIP);
    DnsRulePhase.GenerateDNSRules(t);
    DnsRulePhase.AddDNSRouteAction(t);
  }

  method MakeRoutes(t: Translation, ghost detected: string)
    requires t.country == ToLower(detected) && "" !in t.groupOrder && t.rules == [] && t.ruleSetDefs == map[]
    modifies t`rules, t`ruleSetDefs
    ensures t.rules == Routes.GeoRules(t.country, Autoroute.ProxyTag(t.FirstGroup())) && Autoroute.Registered(t)
    ensures ToLower(t.country) == t.country
    ensures forall tag :: tag in DnsRules.DomesticSets(t.country) ==> tag in t.ruleSetDefs
  {
    LowerTwice(detected);
    Autoroute.TranslateRules(t);
    assert t.rules == Routes.GeoRules(t.country, Autoroute.ProxyTag(t.FirstGroup()));
    DomesticSetsNamed(t.country, Autoroute.ProxyTag(t.FirstGroup()));
  }

  /** Routes, then DNS. */
  method MakeRules(cfg: RawConfig, env: Env, t: Translation, ghost groups: seq<Outbound>)
    returns (ghost hosts: seq<string>)
    requires ReadyOutbounds(cfg, env, groups, t)
    requires t.country == ToLower(env.country) && t.rules == [] && t.ruleSetDefs == map[]
    requires t.servers == [] && t.dnsRules == [] && t.terminalRules == [] && t.resolver == "" && t.dnsFinal == ""
    requires t.final == "" && t.ruleSets == []
    modifies t`rules, t`ruleSetDefs, t`servers, t`dnsRules, t`terminalRules, t`resolver, t`dnsFinal, t`dnsEnabled
    ensures Ready(cfg, env, groups, hosts, t)
  {
    hide Dns.FinalServers, Dns.DomainResolver, Dns.FinalTag, DnsRules.FinalRules, Routes.GeoRules, MadeGroups;
    MakeRoutes(t, env.country);
    hosts := MakeDNS(cfg.dns, cfg.hosts, env.isIP, t);
  }

  lemma LowerTwice(s: string)
    ensures ToLower(ToLower(s)) == ToLower(s)
  {}

  /** assemble drops no rule: every rule set a rule names is defined. */
  method AssembleAll(t: Translation, ghost cfg: RawConfig, ghost env: Env, ghost groups: seq<Outbound>,
                     ghost hosts: seq<string>)
    requires Ready(cfg, env, groups, hosts, t)
    modifies t`outbounds, t`rules, t`final, t`ruleSets, t`dnsRules
    ensures Made(cfg, env, groups, t.FirstGroup(), hosts, t.Written())
  {
    hide Dns.FinalServers, Dns.DomainResolver, Dns.FinalTag, DnsRules.FinalRules, Routes.GeoRules, MadeGroups;
    AssembledDefined(t.rules, t.FirstGroup());
    Routes.OrphanFilterIdentity(Routes.Assembled(t.rules, t.FirstGroup()), t.ruleSetDefs.Keys);
    DnsSetsDefined(t, cfg.dns, hosts, env.isIP);
    Assembly.Assemble(t);
  }

  lemma DnsSetsDefined(t: Translation, dns: Dns.RawDns, hosts: seq<string>, isIP: string -> bool)
    requires t.rules == Routes.GeoRules(t.country, Autoroute.ProxyTag(t.FirstGroup())) && Autoroute.Registered(t)
    requires t.dnsRules == DnsRules.FinalRules(dns, hosts, DnsPhase.DetourOf(t.FirstGroup()), isIP, t.echServers,
                                               t.country)
    ensures DnsRules.OrphansFiltered(t.dnsRules, t.ruleSetDefs.Keys) == t.dnsRules
  {
    DomesticSetsNamed(t.country, Autoroute.ProxyTag(t.FirstGroup()));
    forall r, tag | r in t.dnsRules && tag in r.ruleSets ensures tag in t.ruleSetDefs.Keys {
      DnsRules.RulesResolve(dns, hosts, DnsPhase.DetourOf(t.FirstGroup()), isIP, t.echServers, t.country, r);
    }
    DnsRules.OrphanFilterIdentity(t.dnsRules, t.ruleSetDefs.Keys);
  }

  /** The phases before assembling, on a new translation. */
  method Prepare(cfg: RawConfig, env: Env)
    returns (t: Translation, ghost groups: seq<Outbound>, ghost hosts: seq<string>)
    ensures fresh(t) && Ready(cfg, env, groups, hosts, t)
    ensures t.stubTags == Proxies.StubMap(cfg.proxies, env)
  {
    hide Dns.FinalServers, Dns.DomainResolver, Dns.FinalTag, DnsRules.FinalRules, Routes.GeoRules, MadeGroups;
    t := new Translation(ToLower(env.country));
    groups := MakeOutbounds(cfg, env, t);
    hosts := MakeRules(cfg, env, t, groups);
  }

  /** translateFromConfig. For every configuration validation fails on a duplicate outbound tag or not at all. */
  method TranslateFromConfig(cfg: RawConfig, env: Env)
    returns (o: Output, stubs: map<string, string>, err: Option<Error>, warnings: seq<string>,
             ghost groups: seq<Outbound>, ghost group: Option<string>, ghost hosts: seq<string>)
    ensures Made(cfg, env, groups, group, hosts, o)
    ensures ReferencesChecked(o) && RouteRulesResolve(o)
    ensures err.None? <==> DistinctTags(o.outbounds)
    ensures err.Some? ==> err.value.DuplicateTag?
    ensures err.None? ==> warnings == []
    ensures stubs == Proxies.StubMap(cfg.proxies, env)
  {
    hide Dns.FinalServers, Dns.DomainResolver, Dns.FinalTag, DnsRules.FinalRules, Routes.GeoRules, MadeGroups;
    var t;
    t, groups, hosts := Prepare(cfg, env);
    group := t.FirstGroup();
    AssembleAll(t, cfg, env, groups, hosts);
    o := t.Written();
    MadeResolves(cfg, env, groups, group, hosts, o);
    err, warnings := Validate(t);
    stubs := t.stubTags;
  }
}
