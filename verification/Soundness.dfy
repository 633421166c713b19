/** What a configuration must be like for its output to be well-formed: every reference resolves, no tag clashes, no
    DNS server is looked up through itself. The conditions are on the configuration, and exact. */
module Soundness {
  import opened Basics
  import opened Text
  import opened Config
  import opened Translator
  import opened Validation
  import opened Pipeline
  import Proxies
  import Groups
  import Routes
  import Dns
  import DnsRules
  import DnsPhase
  import Autoroute

  // ---- every reference ----

  ghost predicate DefaultsResolve(o: Output) {
    forall g :: g in o.outbounds && g.Group? && g.dflt.Some? ==> g.dflt.value in KnownTags(o.outbounds)
  }

  /** The servers that servers, and proxy names, are looked up through. */
  ghost predicate ResolversResolve(o: Output) {
    && o.resolver in ServerTags(o.servers)
    && (forall s :: s in o.servers && s.resolver.Some? ==> s.resolver.value in ServerTags(o.servers))
  }

  predicate IsRuleSet(o: Output, tag: string) { exists i :: 0 <= i < |o.ruleSets| && o.ruleSets[i].tag == tag }

  ghost predicate RuleSetsResolve(o: Output) {
    && (forall r, m, tag :: r in o.rules && m in Routes.Matchers(r) && tag in m.ruleSets ==> IsRuleSet(o, tag))
    && (forall r, tag :: r in o.dnsRules && tag in r.ruleSets ==> IsRuleSet(o, tag))
  }

  /** The references the translator makes itself. */
  ghost predicate OwnReferencesResolve(o: Output) {
    ReferencesChecked(o) && RouteRulesResolve(o) && DefaultsResolve(o) && ResolversResolve(o) && RuleSetsResolve(o)
  }

  /** The outbounds that nodes are to be reached through: copied from the configuration, and checked nowhere. */
  ghost predicate DialersResolve(o: Output) {
    forall n :: n in o.outbounds && n.Node? && n.detour.Some? ==> n.detour.value in KnownTags(o.outbounds)
  }

  ghost predicate ReferencesResolve(o: Output) { OwnReferencesResolve(o) && DialersResolve(o) }

  /** Distinct tags, no dangling reference, and no circular DNS server. (Circular outbounds are another matter: groups
      and dialers may refer to each other in a ring.) */
  ghost predicate WellFormed(o: Output) {
    DistinctTags(o.outbounds) && ReferencesResolve(o) && forall tag :: !Dns.OnCycle(o.servers, tag)
  }

  // ---- the translator's own references ----

  lemma FirstOtherIn(tag: string, candidates: seq<string>)
    ensures Dns.FirstOther(tag, candidates).Some? ==> Dns.FirstOther(tag, candidates).value in candidates
  {
    if candidates != [] { FirstOtherIn(tag, candidates[1..]); }
  }

  lemma ServerResolverFound(dns: Dns.RawDns, hosts: seq<string>, detour: string, isIP: string -> bool, s: Dns.Server)
    requires s in Dns.FinalServers(dns, hosts, detour, isIP) && s.resolver.Some?
    ensures s.resolver.value in ServerTags(Dns.FinalServers(dns, hosts, detour, isIP))
  {
    var e := Dns.FinalIsWritten(dns, hosts, detour, isIP, s);
    Dns.EntriesBare(dns, detour, isIP, e.value);
    var d := Dns.Resolvers(dns, isIP);
    FirstOtherIn(e.value.tag, Dns.TagsOf(d));
    var i :| 0 <= i < |d| && d[i].tag == s.resolver.value;
    Dns.ResolversListed(dns, detour, isIP);
    assert d[i] in d;
    Dns.WrittenIsFinal(dns, hosts, detour, isIP, d[i]);
    ResolverNamed(dns, isIP, d[i]);
    FoundIsIn(Dns.FinalServers(dns, hosts, detour, isIP), d[i].tag);
  }

  lemma ResolverNamed(dns: Dns.RawDns, isIP: string -> bool, s: Dns.Server)
    requires s in Dns.Resolvers(dns, isIP)
    ensures s.tag != ""
  {
    if Dns.Defaults(dns) != [] {
      var k := Dns.EntriesNumbered(dns.defaultNameserver, 0, "def-", "", s);
    } else {
      var k := Dns.AutosNumbered(dns.nameserver, 0, 0, isIP, s);
    }
  }

  lemma ResolversFound(dns: Dns.RawDns, hosts: seq<string>, detour: string, isIP: string -> bool)
    ensures var servers := Dns.FinalServers(dns, hosts, detour, isIP);
            && Dns.DomainResolver(dns, hosts, detour, isIP) in ServerTags(servers)
            && (forall s :: s in servers && s.resolver.Some? ==> s.resolver.value in ServerTags(servers))
  {
    var servers := Dns.FinalServers(dns, hosts, detour, isIP);
    Dns.DomainResolverUsable(dns, hosts, detour, isIP);
    FoundIsIn(servers, Dns.DomainResolver(dns, hosts, detour, isIP));
    forall s | s in servers && s.resolver.Some? ensures s.resolver.value in ServerTags(servers) {
      ServerResolverFound(dns, hosts, detour, isIP, s);
    }
  }

  lemma RuleSetsFound(cfg: RawConfig, env: Env, groups: seq<Outbound>, group: Option<string>, hosts: seq<string>,
                      o: Output)
    requires Made(cfg, env, groups, group, hosts, o)
    ensures RuleSetsResolve(o)
  {
    hide MadeGroups, Routes.GeoRules, Routes.Assembled, Dns.FinalServers, Dns.FinalTag, DnsRules.FinalRules;
    var cc := ToLower(env.country);
    var rules := Routes.GeoRules(cc, Autoroute.ProxyTag(group));
    AssembledDefined(rules, group);
    DomesticSetsNamed(cc, Autoroute.ProxyTag(group));
    forall tag | tag in Routes.NamedBy(rules) ensures IsRuleSet(o, tag) {}
    forall r, tag | r in o.dnsRules && tag in r.ruleSets ensures IsRuleSet(o, tag) {
      DnsRules.RulesResolve(cfg.dns, hosts, DnsPhase.DetourOf(group), env.isIP,
                            Proxies.EchNames(Proxies.All(cfg.proxies, env), []), cc, r);
    }
  }

  /** Every reference the translator makes resolves, whatever the configuration. */
  lemma OwnReferencesAlwaysResolve(cfg: RawConfig, env: Env, groups: seq<Outbound>, group: Option<string>,
                                   hosts: seq<string>, o: Output)
    requires Made(cfg, env, groups, group, hosts, o)
    ensures OwnReferencesResolve(o)
  {
    hide MadeGroups, Routes.GeoRules, Routes.Assembled, Dns.FinalServers, Dns.FinalTag, DnsRules.FinalRules;
    MadeResolves(cfg, env, groups, group, hosts, o);
    RuleSetsFound(cfg, env, groups, group, hosts, o);
    ResolversFound(cfg.dns, hosts, DnsPhase.DetourOf(group), env.isIP);
    forall g | g in o.outbounds && g.Group? && g.dflt.Some? ensures g.dflt.value in KnownTags(o.outbounds) {
      Proxies.AllTags(cfg.proxies, env);
      assert g !in Proxies.All(cfg.proxies, env);
      assert g in groups && Groups.WellMade(g);
      assert g.dflt.value in g.members;
    }
  }

  // ---- the tags of the output, read off the configuration ----

  /** The names of the proxies, in order. */
  function ProxyNames(ps: seq<RawProxy>): seq<string> {
    if ps == [] then [] else (if ps[0].name == "" then [] else [ps[0].name]) + ProxyNames(ps[1..])
  }

  /** The groups of the configuration, translated, before any clean-up. */
  function Candidates(cfg: RawConfig, env: Env): (r: seq<Outbound>)
    ensures Groups.AllGroups(r)
  {
    var proxies, invalid := TagSet(Proxies.All(cfg.proxies, env)), Proxies.InvalidNames(cfg.proxies, env);
    var known := proxies + Groups.Names(cfg.groups) + {Groups.DIRECT};
    Groups.AllTranslatedFacts(cfg.groups, known, invalid);
    Groups.AllTranslated(cfg.groups, known, invalid)
  }

  /** The names of the groups made where none of the configuration is left. */
  function DefaultNames(proxies: set<string>, invalid: set<string>): seq<string> {
    if proxies == {} then [] else if |proxies - invalid| >= 2 then ["Auto", "PROXY"] else ["PROXY"]
  }

  /** The names of the groups the output will have. */
  function GroupTags(cfg: RawConfig, env: Env): seq<string> {
    var proxies := TagSet(Proxies.All(cfg.proxies, env));
    var all := Candidates(cfg, env);
    var clean := Groups.Fixpoint(all, TagSet(all), proxies);
    if OrderOf(cfg.groups, clean.translated) != [] then Tags(clean.groups)
    else DefaultNames(proxies, Proxies.InvalidNames(cfg.proxies, env))
  }

  lemma TagsCons(o: Outbound, rest: seq<Outbound>)
    ensures Tags([o] + rest) == [o.tag] + Tags(rest)
  {}

  lemma {:induction false} TagsOfAll(ps: seq<RawProxy>, env: Env)
    ensures Tags(Proxies.All(ps, env)) == ProxyNames(ps)
  {
    if ps == [] {
      assert Tags([]) == [];
    } else {
      hide Tags, Proxies.BecomesStub;
      TagsOfAll(ps[1..], env);
      TagsCons(Proxies.Translated(ps[0], env), Proxies.All(ps[1..], env));
      assert [] + Proxies.All(ps[1..], env) == Proxies.All(ps[1..], env);
    }
  }

  lemma {:induction false} WithoutCount(names: seq<string>, banned: set<string>)
    requires NoDup(names)
    ensures |Groups.Without(names, banned)| == |(set n | n in names) - banned|
  {
    if names == [] {
      assert (set n | n in names) - banned == {};
    } else {
      var rest := names[1..];
      assert forall j :: 0 <= j < |rest| ==> rest[j] == names[j + 1];
      WithoutCount(rest, banned);
      var some, all := set n | n in rest, set n | n in names;
      assert names[0] !in some;
      assert all == some + {names[0]};
      if names[0] in banned {
        assert all - banned == some - banned;
      } else {
        assert all - banned == (some - banned) + {names[0]};
      }
    }
  }

  lemma DefaultTags(names: seq<string>, proxies: set<string>, invalid: set<string>)
    requires Lists(names, proxies)
    ensures Tags(DefaultGroups(names, invalid)) == DefaultNames(proxies, invalid)
  {
    var groups := DefaultGroups(names, invalid);
    WithoutCount(names, invalid);
    assert (set n | n in names) == proxies;
    if names == [] {
      assert proxies == {};
    } else {
      assert names[0] in proxies;
      assert Tags(groups) == if |groups| == 2 then [groups[0].tag, groups[1].tag] else [groups[0].tag];
    }
  }

  lemma MadeGroupTags(cfg: RawConfig, env: Env, groups: seq<Outbound>, group: Option<string>)
    requires MadeGroups(cfg.groups, TagSet(Proxies.All(cfg.proxies, env)), Proxies.InvalidNames(cfg.proxies, env),
                        groups, group)
    ensures Tags(groups) == GroupTags(cfg, env)
  {
    var proxies := TagSet(Proxies.All(cfg.proxies, env));
    var invalid := Proxies.InvalidNames(cfg.proxies, env);
    hide DefaultGroups, Groups.Fixpoint, Groups.AllTranslated, Proxies.All, Proxies.InvalidNames, TagSet, Groups.Names;
    var all := Groups.AllTranslated(cfg.groups, proxies + Groups.Names(cfg.groups) + {Groups.DIRECT}, invalid);
    var clean := Groups.Fixpoint(all, TagSet(all), proxies);
    if OrderOf(cfg.groups, clean.translated) == [] {
      var names :| Lists(names, proxies) && groups == DefaultGroups(names, invalid)
                   && group == if names == [] then None else Some("PROXY");
      DefaultTags(names, proxies, invalid);
    }
  }

  /** The tags outbounds of the output can be referred to by. */
  function Referable(cfg: RawConfig, env: Env): set<string> {
    {"DIRECT"} + (set t | t in ProxyNames(cfg.proxies)) + (set t | t in GroupTags(cfg, env))
  }

  lemma OutputTags(cfg: RawConfig, env: Env, groups: seq<Outbound>, group: Option<string>, hosts: seq<string>,
                   o: Output)
    requires Made(cfg, env, groups, group, hosts, o)
    ensures Tags(o.outbounds) == ["DIRECT"] + ProxyNames(cfg.proxies) + GroupTags(cfg, env)
    ensures "" !in Tags(o.outbounds)
    ensures KnownTags(o.outbounds) == Referable(cfg, env)
  {
    hide MadeGroups, GroupTags, ProxyNames, Routes.GeoRules, Dns.FinalServers, Dns.FinalTag, DnsRules.FinalRules;
    var nodes := Proxies.All(cfg.proxies, env);
    TagsOfAll(cfg.proxies, env);
    MadeGroupTags(cfg, env, groups, group);
    MadeGroupsSound(cfg.groups, TagSet(nodes), Proxies.InvalidNames(cfg.proxies, env), groups, group);
    Proxies.AllTags(cfg.proxies, env);
    TagsJoined(nodes, groups, o.outbounds);
  }

  lemma TagsJoined(nodes: seq<Outbound>, groups: seq<Outbound>, obs: seq<Outbound>)
    requires obs == [Builtin("DIRECT")] + (nodes + groups) && "" !in TagSet(groups)
             && forall n :: n in nodes ==> n.tag != ""
    ensures Tags(obs) == ["DIRECT"] + Tags(nodes) + Tags(groups) && "" !in Tags(obs)
    ensures KnownTags(obs) == {"DIRECT"} + (set t | t in Tags(nodes)) + (set t | t in Tags(groups))
  {
    assert Tags(obs) == ["DIRECT"] + Tags(nodes) + Tags(groups);
    forall i | 0 <= i < |obs| ensures obs[i].tag != "" {
      assert obs[i] == Builtin("DIRECT") || obs[i] in nodes || obs[i].tag in TagSet(groups);
    }
    forall t ensures t in TagSet(obs) <==> t in Tags(obs) {
      if t in Tags(obs) {
        var i :| 0 <= i < |obs| && Tags(obs)[i] == t;
        assert obs[i].tag == t;
      }
    }
    forall t ensures t in Tags(obs) <==> t == "DIRECT" || t in Tags(nodes) || t in Tags(groups) {}
  }

  /** No two outbounds share a tag if and only if the names of the proxies, of the groups that survive and DIRECT are
      pairwise distinct. */
  lemma DistinctExactly(cfg: RawConfig, env: Env, groups: seq<Outbound>, group: Option<string>, hosts: seq<string>,
                        o: Output)
    requires Made(cfg, env, groups, group, hosts, o)
    ensures DistinctTags(o.outbounds) <==> NoDup(["DIRECT"] + ProxyNames(cfg.proxies) + GroupTags(cfg, env))
  {
    hide Made, GroupTags, ProxyNames;
    OutputTags(cfg, env, groups, group, hosts, o);
    var tags := Tags(o.outbounds);
    assert forall i :: 0 <= i < |tags| ==> tags[i] in tags;
    if NoDup(tags) {
      forall i, j | 0 <= i < j < |o.outbounds|
        ensures o.outbounds[i].tag != o.outbounds[j].tag
      {
        assert tags[i] != tags[j];
      }
    }
  }

  // ---- the same, for groups whose names are distinct ----

  ghost predicate GroupNamesDistinct(gs: seq<RawGroup>) {
    forall i, j :: 0 <= i < j < |gs| && gs[i].name != "" ==> gs[i].name != gs[j].name
  }

  lemma OrderWhole(gs: seq<RawGroup>, translated: set<string>)
    requires translated <= Groups.Names(gs)
    ensures OrderOf(gs, translated) == [] <==> translated == {}
  {
    OrderIsTranslated(gs, translated);
    if OrderOf(gs, translated) != [] { assert OrderOf(gs, translated)[0] in OrderOf(gs, translated); }
  }

  lemma CleanUpIs(all: seq<Outbound>, S: set<string>, proxies: set<string>)
    requires Groups.AllWellMade(all) && NoDup(Tags(all)) && Groups.Greatest(all, S, proxies)
    ensures var clean := Groups.Fixpoint(all, TagSet(all), proxies);
            clean.translated == S == TagSet(clean.groups) && NoDup(Tags(clean.groups))
  {
    Groups.FixpointIsGreatest(all, proxies);
    hide Groups.Fixpoint;
    var clean := Groups.Fixpoint(all, TagSet(all), proxies);
    Groups.GreatestIgnoresOrder(all, all, S, clean.translated, proxies);
    Groups.KeptTagsNoDup(all, Groups.ValidTags(proxies, S));
  }

  lemma CandidatesDistinct(cfg: RawConfig, env: Env)
    requires GroupNamesDistinct(cfg.groups)
    ensures var all := Candidates(cfg, env);
            Groups.AllWellMade(all) && NoDup(Tags(all)) && TagSet(all) <= Groups.Names(cfg.groups)
  {
    var proxies, invalid := TagSet(Proxies.All(cfg.proxies, env)), Proxies.InvalidNames(cfg.proxies, env);
    var known := proxies + Groups.Names(cfg.groups) + {Groups.DIRECT};
    TranslatedDistinct(cfg.groups, known, invalid);
    Groups.AllTranslatedFacts(cfg.groups, known, invalid);
  }

  lemma TagsAreTagSet(obs: seq<Outbound>)
    ensures (set t | t in Tags(obs)) == TagSet(obs)
  {
    assert forall i :: 0 <= i < |obs| ==> Tags(obs)[i] == obs[i].tag;
  }

  /** The groups that survive are the greatest set of groups each with a member among the proxies, DIRECT and the set
      itself; the default ones if there are none. */
  lemma SurvivorsAreGreatest(cfg: RawConfig, env: Env, S: set<string>)
    requires GroupNamesDistinct(cfg.groups)
    requires Groups.Greatest(Candidates(cfg, env), S, TagSet(Proxies.All(cfg.proxies, env)))
    ensures S == {} ==> GroupTags(cfg, env) ==
                        DefaultNames(TagSet(Proxies.All(cfg.proxies, env)), Proxies.InvalidNames(cfg.proxies, env))
    ensures S != {} ==> NoDup(GroupTags(cfg, env)) && (set t | t in GroupTags(cfg, env)) == S
  {
    var proxies, all := TagSet(Proxies.All(cfg.proxies, env)), Candidates(cfg, env);
    CandidatesDistinct(cfg, env);
    CleanUpIs(all, S, proxies);
    assert S <= TagSet(all);
    OrderWhole(cfg.groups, S);
    TagsAreTagSet(Groups.Fixpoint(all, TagSet(all), proxies).groups);
    hide Groups.Fixpoint, Groups.Greatest, Candidates, OrderOf, Groups.Names, TagSet, Tags, DefaultNames, NoDup;
  }

  lemma NoDupJoins(one: seq<string>, two: seq<string>)
    ensures NoDup(one + two) <==> NoDup(one) && NoDup(two) && forall x :: x in one ==> x !in two
  {
    var all := one + two;
    assert forall i :: 0 <= i < |one| ==> all[i] == one[i] && all[i] in one;
    assert forall j :: |one| <= j < |all| ==> all[j] == two[j - |one|] && all[j] in two;
    if NoDup(all) {
      forall i, j | 0 <= i < j < |one| ensures one[i] != one[j] { assert all[i] != all[j]; }
      forall i, j | 0 <= i < j < |two| ensures two[i] != two[j] { assert all[|one| + i] != all[|one| + j]; }
      forall i, j | 0 <= i < |one| && 0 <= j < |two| ensures one[i] != two[j] { assert all[i] != all[|one| + j]; }
    }
    if NoDup(one) && NoDup(two) && forall x :: x in one ==> x !in two {
      forall i, j | 0 <= i < j < |all| ensures all[i] != all[j] {
        if |one| <= i { assert two[i - |one|] != two[j - |one|]; }
      }
    }
  }

  /** For groups with distinct names, no two outbounds share a tag if and only if the names of the proxies are distinct
      and other than DIRECT, and no group of the greatest supported set, or else no default group, has one of them. */
  lemma DistinctByGreatest(cfg: RawConfig, env: Env, groups: seq<Outbound>, group: Option<string>, hosts: seq<string>,
                           o: Output, S: set<string>)
    requires Made(cfg, env, groups, group, hosts, o) && GroupNamesDistinct(cfg.groups)
    requires Groups.Greatest(Candidates(cfg, env), S, TagSet(Proxies.All(cfg.proxies, env)))
    ensures var others := ["DIRECT"] + ProxyNames(cfg.proxies);
            var defaults := DefaultNames(TagSet(Proxies.All(cfg.proxies, env)), Proxies.InvalidNames(cfg.proxies, env));
            DistinctTags(o.outbounds) <==>
              NoDup(others) && forall n :: n in others ==> if S != {} then n !in S else n !in defaults
  {
    hide Made, GroupTags, ProxyNames, Groups.Greatest;
    DistinctExactly(cfg, env, groups, group, hosts, o);
    SurvivorsAreGreatest(cfg, env, S);
    var others := ["DIRECT"] + ProxyNames(cfg.proxies);
    NoDupJoins(others, GroupTags(cfg, env));
    assert S != {} ==> forall n :: n in GroupTags(cfg, env) <==> n in S;
    assert "Auto"[0] != "PROXY"[0];
  }

  // ---- dialers ----

  /** Every proxy that is translated is to be reached directly, through DIRECT, or through a proxy or group of the
      output. */
  ghost predicate DialersExist(cfg: RawConfig, env: Env) {
    forall p :: p in cfg.proxies && p.name != "" && !Proxies.BecomesStub(p, env) && p.dialer != "" ==>
      p.dialer in Referable(cfg, env)
  }

  lemma {:induction false} SourceOf(ps: seq<RawProxy>, env: Env, n: Outbound) returns (p: RawProxy)
    requires n in Proxies.All(ps, env)
    ensures p in ps && p.name != "" && n == Proxies.Translated(p, env)
  {
    if ps[0].name != "" && n == Proxies.Translated(ps[0], env) { p := ps[0]; } else { p := SourceOf(ps[1..], env, n); }
  }

  /** The nodes of the output are the translated proxies. */
  lemma NodesOfOutput(cfg: RawConfig, env: Env, groups: seq<Outbound>, group: Option<string>, hosts: seq<string>,
                      o: Output)
    requires Made(cfg, env, groups, group, hosts, o)
    ensures forall p :: p in cfg.proxies && p.name != "" ==> Proxies.Translated(p, env) in o.outbounds
    ensures forall n :: n in o.outbounds && n.Node? ==>
              exists p :: p in cfg.proxies && p.name != "" && n == Proxies.Translated(p, env)
  {
    hide MadeGroups, Routes.GeoRules, Dns.FinalServers, Dns.FinalTag, DnsRules.FinalRules;
    var nodes := Proxies.All(cfg.proxies, env);
    MadeGroupsSound(cfg.groups, TagSet(nodes), Proxies.InvalidNames(cfg.proxies, env), groups, group);
    assert forall g :: g in groups ==> Groups.WellMade(g);
    forall p | p in cfg.proxies && p.name != ""
      ensures Proxies.Translated(p, env) in o.outbounds
    {
      Proxies.AllHas(cfg.proxies, env, p);
    }
    forall n | n in o.outbounds && n.Node?
      ensures exists p :: p in cfg.proxies && p.name != "" && n == Proxies.Translated(p, env)
    {
      assert n in nodes;
      var p := SourceOf(cfg.proxies, env, n);
    }
  }

  lemma DialersMatch(ps: seq<RawProxy>, env: Env, obs: seq<Outbound>, known: set<string>)
    requires forall p :: p in ps && p.name != "" ==> Proxies.Translated(p, env) in obs
    requires forall n :: n in obs && n.Node? ==> exists p :: p in ps && p.name != "" && n == Proxies.Translated(p, env)
    ensures (forall n :: n in obs && n.Node? && n.detour.Some? ==> n.detour.value in known) <==>
            (forall p :: p in ps && p.name != "" && !Proxies.BecomesStub(p, env) && p.dialer != "" ==>
             p.dialer in known)
  {
    forall p | p in ps && p.name != "" && !Proxies.BecomesStub(p, env) && p.dialer != ""
      ensures Proxies.Translated(p, env).detour == Some(p.dialer)
    {}
  }

  /** No reference dangles if and only if every dialer-proxy exists in the output. */
  lemma ReferencesResolveExactly(cfg: RawConfig, env: Env, groups: seq<Outbound>, group: Option<string>,
                                 hosts: seq<string>, o: Output)
    requires Made(cfg, env, groups, group, hosts, o)
    ensures ReferencesResolve(o) <==> DialersExist(cfg, env)
  {
    hide Made, Referable, OwnReferencesResolve, KnownTags, Proxies.Translated, Proxies.BecomesStub;
    OwnReferencesAlwaysResolve(cfg, env, groups, group, hosts, o);
    OutputTags(cfg, env, groups, group, hosts, o);
    NodesOfOutput(cfg, env, groups, group, hosts, o);
    DialersMatch(cfg.proxies, env, o.outbounds, KnownTags(o.outbounds));
  }

  /** The output is well-formed if and only if the names are distinct, every dialer-proxy exists, and the first two
      default servers of a DNS that is on are not both given by name. */
  lemma WellFormedExactly(cfg: RawConfig, env: Env, groups: seq<Outbound>, group: Option<string>, hosts: seq<string>,
                          o: Output)
    requires Made(cfg, env, groups, group, hosts, o)
    ensures WellFormed(o) <==>
              && NoDup(["DIRECT"] + ProxyNames(cfg.proxies) + GroupTags(cfg, env))
              && DialersExist(cfg, env)
              && !(cfg.dns.enable && Dns.FirstTwoDomains(cfg.dns, env.isIP))
  {
    hide GroupTags, ProxyNames, DialersExist, ReferencesResolve, MadeGroups, Routes.GeoRules, Dns.FinalTag,
      DnsRules.FinalRules;
    DistinctExactly(cfg, env, groups, group, hosts, o);
    ReferencesResolveExactly(cfg, env, groups, group, hosts, o);
    Dns.AcyclicExactly(cfg.dns, hosts, DnsPhase.DetourOf(group), env.isIP);
  }

  // ---- names of the configuration ----

  /** No name is given twice, and none is one the translator uses itself. */
  ghost predicate NamesDistinct(cfg: RawConfig) {
    && (forall i, j :: 0 <= i < j < |cfg.proxies| && cfg.proxies[i].name != "" ==>
          cfg.proxies[i].name != cfg.proxies[j].name)
    && GroupNamesDistinct(cfg.groups)
    && (forall p, g :: p in cfg.proxies && g in cfg.groups && p.name != "" ==> p.name != g.name)
    && (forall p :: p in cfg.proxies ==> p.name !in {"DIRECT", "PROXY", "Auto"})
    && (forall g :: g in cfg.groups ==> g.name != "DIRECT")
  }

  lemma {:induction false} NodesDistinct(ps: seq<RawProxy>, env: Env)
    requires forall i, j :: 0 <= i < j < |ps| && ps[i].name != "" ==> ps[i].name != ps[j].name
    ensures DistinctTags(Proxies.All(ps, env))
    ensures forall t :: t in TagSet(Proxies.All(ps, env)) ==> exists p :: p in ps && p.name == t && t != ""
  {
    if ps != [] {
      var rest := Proxies.All(ps[1..], env);
      assert forall j :: 1 <= j < |ps| ==> ps[j] == ps[1..][j - 1];
      NodesDistinct(ps[1..], env);
      forall t | t in TagSet(rest) ensures exists p :: p in ps && p.name == t && t != "" && t != ps[0].name {
        var p :| p in ps[1..] && p.name == t && t != "";
        var j :| 1 <= j < |ps| && ps[j] == p;
      }
      if ps[0].name == "" {
        assert Proxies.All(ps, env) == rest;
      } else {
        var first := Proxies.Translated(ps[0], env);
        DistinctCons(first, rest);
        assert ps[0] in ps && Proxies.All(ps, env) == [first] + rest;
      }
    }
  }

  lemma DistinctCons(o: Outbound, rest: seq<Outbound>)
    requires DistinctTags(rest) && (o.tag == "" || o.tag !in TagSet(rest))
    ensures DistinctTags([o] + rest) && TagSet([o] + rest) == {o.tag} + TagSet(rest)
  {
    var all := [o] + rest;
    assert all[0] == o && forall j :: 1 <= j < |all| ==> all[j] == rest[j - 1];
    forall t | t in TagSet(rest) ensures t in TagSet(all) {
      var i :| 0 <= i < |rest| && rest[i].tag == t;
      assert all[i + 1].tag == t;
    }
  }

  lemma DistinctJoin(one: seq<Outbound>, two: seq<Outbound>)
    requires DistinctTags(one) && DistinctTags(two) && TagSet(one) !! TagSet(two)
    ensures DistinctTags(one + two) && TagSet(one + two) == TagSet(one) + TagSet(two)
  {
    var all := one + two;
    assert forall i :: 0 <= i < |one| ==> all[i] == one[i] && all[i].tag in TagSet(one);
    assert forall i :: |one| <= i < |all| ==> all[i] == two[i - |one|] && all[i].tag in TagSet(two);
    forall t | t in TagSet(one) + TagSet(two) ensures t in TagSet(all) {
      if t in TagSet(one) {
        var i :| 0 <= i < |one| && one[i].tag == t;
        assert all[i].tag == t;
      } else {
        var i :| 0 <= i < |two| && two[i].tag == t;
        assert all[i + |one|].tag == t;
      }
    }
  }

  lemma {:induction false} TranslatedDistinct(gs: seq<RawGroup>, known: set<string>, invalid: set<string>)
    requires GroupNamesDistinct(gs)
    ensures NoDup(Tags(Groups.AllTranslated(gs, known, invalid)))
  {
    if gs != [] {
      var rest := Groups.AllTranslated(gs[1..], known, invalid);
      assert forall j :: 1 <= j < |gs| ==> gs[j] == gs[1..][j - 1];
      TranslatedDistinct(gs[1..], known, invalid);
      Groups.AllTranslatedFacts(gs[1..], known, invalid);
      var first := Groups.Translated(gs[0], known, invalid);
      if first.Some? {
        assert gs[0].name !in Groups.Names(gs[1..]) && first.value.tag == gs[0].name;
        hide Groups.Translated, Groups.Names;
        TagsCons(first.value, rest);
        NoDupCons(first.value.tag, Tags(rest));
      }
    }
  }

  lemma NoDupCons<T>(x: T, rest: seq<T>)
    requires NoDup(rest) && x !in rest
    ensures NoDup([x] + rest)
  {
    forall i, j | 0 <= i < j < |[x] + rest| ensures ([x] + rest)[i] != ([x] + rest)[j] { assert rest[j - 1] in rest; }
  }

  /** The surviving groups carry distinct names of the configuration, or are the default ones. */
  lemma GroupsDistinct(cfg: RawConfig, proxies: set<string>, invalid: set<string>, groups: seq<Outbound>,
                       group: Option<string>)
    requires NamesDistinct(cfg) && MadeGroups(cfg.groups, proxies, invalid, groups, group)
    ensures DistinctTags(groups) && (TagSet(groups) <= Groups.Names(cfg.groups) || TagSet(groups) <= {"Auto", "PROXY"})
  {
    var known := proxies + Groups.Names(cfg.groups) + {Groups.DIRECT};
    var all := Groups.AllTranslated(cfg.groups, known, invalid);
    var clean := Groups.Fixpoint(all, TagSet(all), proxies);
    if OrderOf(cfg.groups, clean.translated) != [] {
      TranslatedDistinct(cfg.groups, known, invalid);
      Groups.AllTranslatedFacts(cfg.groups, known, invalid);
      Groups.FixpointIsGreatest(all, proxies);
      Groups.KeptTagsNoDup(all, Groups.ValidTags(proxies, clean.translated));
      assert forall i :: 0 <= i < |groups| ==> Tags(groups)[i] == groups[i].tag;
    } else {
      var names :| Lists(names, proxies) && groups == DefaultGroups(names, invalid)
                   && group == if names == [] then None else Some("PROXY");
      DefaultGroupTags(names, invalid);
      assert "Auto" != "PROXY";
    }
  }

  /** Names of the configuration that do not clash pass validation, and are well-formed if the other two conditions
      hold. */
  lemma DistinctNamesSucceed(cfg: RawConfig, env: Env, groups: seq<Outbound>, group: Option<string>,
                             hosts: seq<string>, o: Output)
    requires NamesDistinct(cfg) && Made(cfg, env, groups, group, hosts, o)
    ensures Passes(o)
    ensures DialersExist(cfg, env) && !(cfg.dns.enable && Dns.FirstTwoDomains(cfg.dns, env.isIP)) ==> WellFormed(o)
  {
    hide MadeGroups, GroupTags, DialersExist, ReferencesResolve, Dns.FinalServers, Dns.FinalTag, DnsRules.FinalRules;
    var nodes := Proxies.All(cfg.proxies, env);
    var proxies := TagSet(nodes);
    MadeResolves(cfg, env, groups, group, hosts, o);
    NodesDistinct(cfg.proxies, env);
    GroupsDistinct(cfg, proxies, Proxies.InvalidNames(cfg.proxies, env), groups, group);
    assert TagSet(groups) !! proxies && "DIRECT" !in TagSet(groups) by { GroupTagsApart(cfg, proxies, TagSet(groups)); }
    DistinctJoin(nodes, groups);
    DistinctCons(Builtin("DIRECT"), nodes + groups);
    DistinctExactly(cfg, env, groups, group, hosts, o);
    WellFormedExactly(cfg, env, groups, group, hosts, o);
  }

  lemma GroupTagsApart(cfg: RawConfig, proxies: set<string>, tags: set<string>)
    requires NamesDistinct(cfg) && (tags <= Groups.Names(cfg.groups) || tags <= {"Auto", "PROXY"})
    requires forall t :: t in proxies ==> exists p :: p in cfg.proxies && p.name == t && t != ""
    ensures tags !! proxies && "DIRECT" !in tags
  {
    forall t | t in tags ensures t !in proxies && t != "DIRECT" {
      assert "Auto"[0] != "DIRECT"[0] && "PROXY"[0] != "DIRECT"[0];
      if t in Groups.Names(cfg.groups) {
        var i :| 0 <= i < |cfg.groups| && cfg.groups[i].name != "" && cfg.groups[i].name == t;
        assert cfg.groups[i] in cfg.groups;
      }
    }
  }

  // ---- inputs that fail ----

  const NO_DNS := Dns.RawDns(false, None, [], [], [], [], "", [], "", false)

  /** One proxy to be reached through an outbound that does not exist. */
  const LOST_PROXY := RawProxy("a", "ss", "example.com", 443, "", "nope", 0)
  const LOST_DIALER := RawConfig([LOST_PROXY], [], NO_DNS, {})

  /** It passes validation, and its output refers to nothing. */
  lemma DialerToNowhere(env: Env, groups: seq<Outbound>, group: Option<string>, hosts: seq<string>, o: Output)
    requires env.body(LOST_PROXY).Some? && Made(LOST_DIALER, env, groups, group, hosts, o)
    ensures Passes(o) && !ReferencesResolve(o)
  {
    hide Made, Passes, DialersExist, NamesDistinct, ReferencesResolve, WellFormed;
    LostNamesDistinct();
    LostDialerMissing(env);
    DistinctNamesSucceed(LOST_DIALER, env, groups, group, hosts, o);
    ReferencesResolveExactly(LOST_DIALER, env, groups, group, hosts, o);
  }

  lemma LostNamesDistinct()
    ensures NamesDistinct(LOST_DIALER)
  {
    assert "a" != "DIRECT" && "a" != "PROXY" && "a" != "Auto";
  }

  lemma LostProxyNames()
    ensures ProxyNames(LOST_DIALER.proxies) == ["a"]
  {
    assert LOST_DIALER.proxies[1..] == [];
    assert ProxyNames([]) == [];
  }

  lemma NoGroupsLeft(env: Env)
    ensures "nope" !in GroupTags(LOST_DIALER, env)
  {
    hide Proxies.All, Proxies.InvalidNames, Groups.AllTranslated, Groups.Fixpoint, TagSet;
    assert "nope"[0] != "PROXY"[0] && "nope"[0] != "Auto"[0];
  }

  lemma NotReferable(cfg: RawConfig, env: Env, name: string)
    requires name != "DIRECT" && name !in ProxyNames(cfg.proxies) && name !in GroupTags(cfg, env)
    ensures name !in Referable(cfg, env)
  {
    hide ProxyNames, GroupTags;
  }

  lemma DialerMissing(cfg: RawConfig, env: Env, p: RawProxy)
    requires p in cfg.proxies && p.name != "" && !Proxies.BecomesStub(p, env) && p.dialer != ""
             && p.dialer !in Referable(cfg, env)
    ensures !DialersExist(cfg, env)
  {
    hide Referable, Proxies.BecomesStub;
  }

  lemma LostDialerMissing(env: Env)
    requires env.body(LOST_PROXY).Some?
    ensures !DialersExist(LOST_DIALER, env)
  {
    hide GroupTags, ProxyNames, Referable, DialersExist;
    LostProxyNames();
    NoGroupsLeft(env);
    assert "nope"[0] != "DIRECT"[0] && "nope"[0] != "a"[0];
    NotReferable(LOST_DIALER, env, "nope");
    assert LOST_DIALER.proxies == [LOST_PROXY];
    DialerMissing(LOST_DIALER, env, LOST_PROXY);
  }
}
