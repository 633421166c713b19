/** The DNS phase, in the source's loops: servers, their resolvers, the user's rules, and the server that resolves
    proxy names. Proved against the functions of Dns and DnsRules. */
module DnsPhase {
  import opened Basics
  import opened Text
  import opened Translator
  import opened Dns
  import DnsRules
  import Autoroute

  // ---- building the server list ----

  lemma EntriesStep(list: seq<Nameserver>, i: nat, prefix: string, detour: string, done: seq<Server>, tags: seq<string>)
    requires i < |list|
    ensures var tag := prefix + Itoa(i);
            var srv := Parsed(list[i], tag, detour);
            var rest := Entries(list, i + 1, prefix, detour);
            && done + Entries(list, i, prefix, detour) == (if srv.Some? then done + [srv.value] else done) + rest
            && tags + TagsOf(Entries(list, i, prefix, detour)) == (if srv.Some? then tags + [tag] else tags)
              + TagsOf(rest)
  {
    hide Parsed, Itoa;
    var srv := Parsed(list[i], prefix + Itoa(i), detour);
    var rest := Entries(list, i + 1, prefix, detour);
    if srv.Some? {
      assert Entries(list, i, prefix, detour) == [srv.value] + rest;
      assert TagsOf([srv.value] + rest) == [srv.value.tag] + TagsOf(rest);
    } else {
      assert Entries(list, i, prefix, detour) == rest;
    }
  }

  method BuildDNSServerEntries(list: seq<Nameserver>, prefix: string, detour: string, t: Translation)
    returns (tags: seq<string>)
    modifies t`servers
    ensures t.servers == old(t.servers) + Entries(list, 0, prefix, detour)
    ensures tags == TagsOf(Entries(list, 0, prefix, detour))
  {
    tags := [];
    for i := 0 to |list|
      invariant t.servers + Entries(list, i, prefix, detour) == old(t.servers) + Entries(list, 0, prefix, detour)
      invariant tags + TagsOf(Entries(list, i, prefix, detour)) == TagsOf(Entries(list, 0, prefix, detour))
    {
      EntriesStep(list, i, prefix, detour, t.servers, tags);
      var tag := prefix + Itoa(i);
      var srv := Parsed(list[i], tag, detour);
      if srv.Some? {
        t.servers := t.servers + [srv.value];
        tags := tags + [tag];
      }
    }
  }

  lemma AutosStep(list: seq<Nameserver>, i: nat, isIP: string -> bool, done: seq<Server>, tags: seq<string>)
    requires i < |list| && |tags| < 2
    ensures var tag := "def-auto-" + Itoa(|tags|);
            var srv := if list[i].Url? && isIP(list[i].rawHost) then Parsed(list[i], tag, "") else None;
            var more := if srv.Some? then tags + [tag] else tags;
            var rest := Autos(list, i + 1, |more|, isIP);
            && done + Autos(list, i, |tags|, isIP) == (if srv.Some? then done + [srv.value] else done) + rest
            && tags + TagsOf(Autos(list, i, |tags|, isIP)) == more + TagsOf(rest)
  {
    var srv := if list[i].Url? && isIP(list[i].rawHost) then Parsed(list[i], "def-auto-" + Itoa(|tags|), "") else None;
    if srv.Some? {
      var rest := Autos(list, i + 1, |tags| + 1, isIP);
      assert TagsOf([srv.value] + rest) == [srv.value.tag] + TagsOf(rest);
    }
  }

  /** The bootstrap servers taken from the nameservers with an IP address, two at most. */
  method AddAutoServers(list: seq<Nameserver>, t: Translation, isIP: string -> bool) returns (tags: seq<string>)
    modifies t`servers
    ensures t.servers == old(t.servers) + Autos(list, 0, 0, isIP)
    ensures tags == TagsOf(Autos(list, 0, 0, isIP))
  {
    hide Autos, Itoa, Parsed;
    tags := [];
    ghost var all := Autos(list, 0, 0, isIP);
    ghost var servers, names := t.servers + all, TagsOf(all);
    var i := 0;
    while i < |list|
      invariant i <= |list|
      invariant t.servers + Autos(list, i, |tags|, isIP) == servers
      invariant tags + TagsOf(Autos(list, i, |tags|, isIP)) == names
    {
      if |tags| >= 2 { break; }
      AutosStep(list, i, isIP, t.servers, tags);
      if list[i].Url? && isIP(list[i].rawHost) {
        var tag := "def-auto-" + Itoa(|tags|);
        var srv := Parsed(list[i], tag, "");
        if srv.Some? {
          t.servers := t.servers + [srv.value];
          tags := tags + [tag];
        }
      }
      i := i + 1;
    }
    AutosEnd(list, i, |tags|, isIP);
  }

  lemma AutosEnd(list: seq<Nameserver>, i: nat, count: nat, isIP: string -> bool)
    requires i >= |list| || count >= 2
    ensures Autos(list, i, count, isIP) == []
  {}

  method PreferUDPServer(candidates: seq<string>, t: Translation) returns (tag: string)
    ensures tag == if candidates == [] then "" else PreferUdp(candidates, t.servers)
  {
    if candidates == [] { return ""; }
    for i := 0 to |candidates|
      invariant FirstUdp(candidates[i..], t.servers, candidates[0]) == PreferUdp(candidates, t.servers)
    {
      TakeOne(candidates, i);
      for j := 0 to |t.servers|
        invariant forall k :: 0 <= k < j ==> !(t.servers[k].tag == candidates[i] && t.servers[k].kind == Udp)
      {
        if t.servers[j].tag == candidates[i] && t.servers[j].kind == Udp { return candidates[i]; }
      }
    }
    return candidates[0];
  }

  method IsLocalDNSServer(tag: string, t: Translation) returns (local: bool)
    ensures local == IsLocal(t.servers, tag)
  {
    for i := 0 to |t.servers|
      invariant Lookup(t.servers[i..], tag) == Lookup(t.servers, tag)
    {
      TakeOne(t.servers, i);
      if t.servers[i].tag == tag { return t.servers[i].kind == Local; }
    }
    return false;
  }

  // ---- resolvers ----

  method FirstOtherTag(tag: string, candidates: seq<string>) returns (other: Option<string>)
    ensures other == FirstOther(tag, candidates)
  {
    for i := 0 to |candidates|
      invariant FirstOther(tag, candidates[i..]) == FirstOther(tag, candidates)
    {
      TakeOne(candidates, i);
      if candidates[i] != tag { return Some(candidates[i]); }
    }
    return None;
  }

  /** The domain-resolver chain: each domain-addressed server is to be looked up through the first resolver that is
      not itself. The second list is tried when the first has none. */
  method SetDomainResolvers(resolvers: seq<string>, defaults: seq<string>, t: Translation, isIP: string -> bool)
    requires resolvers == defaults && forall s :: s in t.servers ==> s.resolver == None
    modifies t`servers
    ensures t.servers == AllResolved(old(t.servers), resolvers, isIP)
  {
    for i := 0 to |t.servers|
      invariant |t.servers| == |old(t.servers)|
      invariant forall j :: 0 <= j < i ==> t.servers[j] == Resolved(old(t.servers)[j], resolvers, isIP)
      invariant forall j :: i <= j < |t.servers| ==> t.servers[j] == old(t.servers)[j]
    {
      var s := t.servers[i];
      assert s in old(t.servers);
      if s.address == "" { continue; }
      if !isIP(s.address) {
        var other := FirstOtherTag(s.tag, resolvers);
        if other.None? { other := FirstOtherTag(s.tag, defaults); }
        if other.Some? { t.servers := t.servers[i := s.(resolver := other)]; }
      }
    }
  }

  // ---- FakeIP, hosts, HTTP/3 ----

  method SplitFilter(filter: seq<string>) returns (suffixes: seq<string>, domains: seq<string>)
    ensures suffixes == DnsRules.Suffixes(filter) && domains == DnsRules.Exact(filter)
  {
    suffixes, domains := [], [];
    for i := 0 to |filter|
      invariant suffixes + DnsRules.Suffixes(filter[i..]) == DnsRules.Suffixes(filter)
      invariant domains + DnsRules.Exact(filter[i..]) == DnsRules.Exact(filter)
    {
      TakeOne(filter, i);
      var f := filter[i];
      assert HasPrefix(f, "*.") <==> DnsRules.StarDot(f) by {
        if DnsRules.StarDot(f) { assert f[..2] == "*."; }
        if HasPrefix(f, "*.") { assert f[0] == f[..2][0] && f[1] == f[..2][1]; }
      }
      if HasPrefix(f, "*.") {
        suffixes := suffixes + [f[1..]];
      } else if '*' in f {
        suffixes := suffixes + ["." + if f != [] && f[0] == '*' then f[1..] else f];
      } else {
        domains := domains + [f];
      }
    }
  }

  method AddFakeIP(dns: RawDns, firstNS: string, t: Translation)
    requires dns.enhancedMode == "fake-ip"
    modifies t`servers, t`dnsRules, t`terminalRules
    ensures t.servers == old(t.servers) + [Server(FAKEIP_TAG, FakeIP, "", None, None)]
    ensures t.dnsRules == old(t.dnsRules)
                          + (if dns.fakeIPFilter == [] || firstNS == "" then []
                             else DnsRules.FilterRules(dns.fakeIPFilter,
                                                       if dns.fakeIPFilterMode == "whitelist" then FAKEIP_TAG
                                                         else firstNS))
    ensures t.terminalRules == old(t.terminalRules)
                               + (if dns.fakeIPFilter == [] || firstNS == ""
                                  || dns.fakeIPFilterMode != "whitelist" then []
                                  else [DnsRules.To(firstNS)])
  {
    t.servers := t.servers + [Server(FAKEIP_TAG, FakeIP, "", None, None)];
    if dns.fakeIPFilter == [] || firstNS == "" { return; }
    var suffixes, domains := SplitFilter(dns.fakeIPFilter);
    var target := firstNS;
    if dns.fakeIPFilterMode == "whitelist" {
      target := FAKEIP_TAG;
      t.terminalRules := t.terminalRules + [DnsRules.To(firstNS)];
    }
    if suffixes != [] { t.dnsRules := t.dnsRules + [DnsRules.To(target).(suffixes := suffixes)]; }
    if domains != [] { t.dnsRules := t.dnsRules + [DnsRules.To(target).(domains := domains)]; }
  }

  method AddHosts(hosts: set<string>, t: Translation) returns (ghost order: seq<string>)
    modifies t`servers, t`dnsRules
    ensures Lists(order, hosts)
    ensures t.servers == old(t.servers) + [Server(HOSTS_TAG, Hosts, "", None, None)]
    ensures t.dnsRules == old(t.dnsRules) + if order == [] then [] else [DnsRules.To(HOSTS_TAG).(domains := order)]
  {
    var domains := SortKeys(hosts);
    order := domains;
    t.servers := t.servers + [Server(HOSTS_TAG, Hosts, "", None, None)];
    if domains != [] { t.dnsRules := t.dnsRules + [DnsRules.To(HOSTS_TAG).(domains := domains)]; }
  }

  method UpgradeToH3(t: Translation)
    modifies t`servers
    ensures t.servers == AllUpgraded(old(t.servers), true)
  {
    for i := 0 to |t.servers|
      invariant |t.servers| == |old(t.servers)|
      invariant forall j :: 0 <= j < i ==> t.servers[j] == Upgraded(old(t.servers)[j], true)
      invariant forall j :: i <= j < |t.servers| ==> t.servers[j] == old(t.servers)[j]
    {
      if t.servers[i].kind == Https { t.servers := t.servers[i := t.servers[i].(kind := H3)]; }
    }
  }

  method AddBootstrapDNS(t: Translation) returns (tag: string)
    modifies t`servers
    ensures t.servers == old(t.servers) + [BOOTSTRAP] && tag == BOOTSTRAP_TAG
  {
    tag := BOOTSTRAP_TAG;
    t.servers := t.servers + [Server(tag, Udp, "223.5.5.5", None, None)];
  }

  // ---- translateDNS ----

  function DetourOf(group: Option<string>): string { if group.Some? then group.value else "" }

  /** DNS switched off: only the bootstrap server, for what must be resolved anyway. */
  method DisabledDNS(t: Translation)
    requires t.servers == []
    modifies t`servers, t`resolver, t`dnsFinal, t`dnsEnabled
    ensures t.servers == [BOOTSTRAP] && t.resolver == BOOTSTRAP_TAG && t.dnsFinal == BOOTSTRAP_TAG && !t.dnsEnabled
  {
    var tag := AddBootstrapDNS(t);
    t.resolver := tag;
    t.dnsFinal := tag;
    t.dnsEnabled := false;
  }

  /** The four lists. */
  method AddListed(dns: RawDns, detour: string, t: Translation)
    returns (defaults: seq<string>, nameservers: seq<string>, fallbacks: seq<string>)
    requires t.servers == []
    modifies t`servers
    ensures t.servers == Listed(dns, detour)
    ensures defaults == TagsOf(Defaults(dns)) && nameservers == TagsOf(Nameservers(dns, detour))
    ensures fallbacks == TagsOf(Fallbacks(dns, detour))
  {
    defaults := BuildDNSServerEntries(dns.defaultNameserver, "def-", "", t);
    nameservers := BuildDNSServerEntries(dns.nameserver, "ns-", detour, t);
    fallbacks := BuildDNSServerEntries(dns.fallback, "fb-", detour, t);
    var unused := BuildDNSServerEntries(dns.proxyServerNameserver, "psn-", "", t);
    assert [] + Defaults(dns) == Defaults(dns);
  }

  /** The default domain resolver: a default server or, when there is none, one of the automatic ones. */
  method ChooseResolver(dns: RawDns, detour: string, listed: seq<string>, t: Translation, isIP: string -> bool)
    returns (defaults: seq<string>)
    requires t.servers == Listed(dns, detour) && listed == TagsOf(Defaults(dns)) && t.resolver == ""
    modifies t`servers, t`resolver
    ensures t.servers == WithAutos(dns, detour, isIP)
    ensures defaults == TagsOf(Resolvers(dns, isIP))
    ensures t.resolver == FirstResolver(dns, detour, isIP)
  {
    ghost var some := Defaults(dns);
    assert listed == [] <==> some == [];
    defaults := listed;
    if defaults != [] {
      assert t.servers + [] == t.servers;
      t.resolver := PreferUDPServer(defaults, t);
    } else {
      defaults := AddAutoServers(dns.nameserver, t, isIP);
      if defaults != [] { t.resolver := PreferUDPServer(defaults, t); }
    }
  }

  /** FakeIP and hosts, with their rules. */
  method AddExtras(dns: RawDns, hosts: set<string>, detour: string, firstNS: string, t: Translation)
    returns (ghost order: seq<string>)
    requires dns.enable && firstNS == FirstNameserver(dns, detour) && t.dnsRules == [] && t.terminalRules == []
    modifies t`servers, t`dnsRules, t`terminalRules
    ensures if hosts != {} && dns.useHosts != Some(false) then Lists(order, hosts) else order == []
    ensures t.servers == old(t.servers) + Extras(dns, order)
    ensures t.dnsRules == DnsRules.UserRules(dns, order, detour)
    ensures t.terminalRules == DnsRules.TerminalRules(dns, detour)
  {
    hide DnsRules.FilterRules, FirstNameserver;
    order := [];
    if dns.enhancedMode == "fake-ip" { AddFakeIP(dns, firstNS, t); }
    if hosts != {} && dns.useHosts != Some(false) {
      order := AddHosts(hosts, t);
      var host :| host in hosts;
      assert host in order;
    }
  }

  /** HTTP/3, and a bootstrap server where no usable resolver was found. */
  method FinishServers(dns: RawDns, t: Translation)
    modifies t`servers, t`resolver
    ensures var servers := AllUpgraded(old(t.servers), dns.preferH3);
            var needed := old(t.resolver) == "" || IsLocal(servers, old(t.resolver));
            && t.servers == servers + (if needed then [BOOTSTRAP] else [])
            && t.resolver == if needed then BOOTSTRAP_TAG else old(t.resolver)
  {
    if dns.preferH3 { UpgradeToH3(t); } else { assert t.servers == AllUpgraded(t.servers, false); }
    var local := IsLocalDNSServer(t.resolver, t);
    if t.resolver == "" || local { t.resolver := AddBootstrapDNS(t); }
  }

  method EnabledServers(dns: RawDns, hosts: set<string>, detour: string, t: Translation, isIP: string -> bool)
    returns (ghost order: seq<string>)
    requires dns.enable
    requires t.servers == [] && t.dnsRules == [] && t.terminalRules == [] && t.resolver == "" && t.dnsFinal == ""
    modifies t`servers, t`dnsRules, t`terminalRules, t`resolver, t`dnsFinal
    ensures if hosts != {} && dns.useHosts != Some(false) then Lists(order, hosts) else order == []
    ensures t.servers == AllResolved(WithAutos(dns, detour, isIP), TagsOf(Resolvers(dns, isIP)), isIP)
            + Extras(dns, order)
    ensures t.resolver == FirstResolver(dns, detour, isIP) && t.dnsFinal == FinalTag(dns, detour)
    ensures t.dnsRules == DnsRules.UserRules(dns, order, detour)
    ensures t.terminalRules == DnsRules.TerminalRules(dns, detour)
  {
    var listed, nameservers, fallbacks := AddListed(dns, detour, t);
    var defaults := ChooseResolver(dns, detour, listed, t, isIP);
    forall s | s in t.servers ensures s.resolver == None { EntriesBare(dns, detour, isIP, s); }
    SetDomainResolvers(defaults, defaults, t, isIP);
    ghost var named, fallen := Nameservers(dns, detour), Fallbacks(dns, detour);
    var firstNS := if nameservers != [] then nameservers[0] else "";
    order := AddExtras(dns, hosts, detour, firstNS, t);
    if fallbacks != [] { t.dnsFinal := fallbacks[0]; } else if firstNS != "" { t.dnsFinal := firstNS; }
  }

  /** Everything translateDNS is to write. */
  ghost predicate DNSWritten(dns: RawDns, order: seq<string>, detour: string, isIP: string -> bool, t: Translation)
    reads t`servers, t`resolver, t`dnsFinal, t`dnsRules, t`terminalRules
  {
    && t.servers == FinalServers(dns, order, detour, isIP)
    && t.resolver == DomainResolver(dns, order, detour, isIP)
    && t.dnsFinal == FinalTag(dns, detour)
    && t.dnsRules == DnsRules.UserRules(dns, order, detour)
    && t.terminalRules == DnsRules.TerminalRules(dns, detour)
  }

  method WriteNoDNS(dns: RawDns, ghost detour: string, t: Translation, ghost isIP: string -> bool)
    requires !dns.enable && t.servers == [] && t.dnsRules == [] && t.terminalRules == []
    modifies t`servers, t`resolver, t`dnsFinal, t`dnsEnabled
    ensures DNSWritten(dns, [], detour, isIP, t) && !t.dnsEnabled
  {
    DisabledDNS(t);
  }

  method WriteDNS(dns: RawDns, hosts: set<string>, detour: string, t: Translation, isIP: string -> bool)
    returns (ghost order: seq<string>)
    requires dns.enable
    requires t.servers == [] && t.dnsRules == [] && t.terminalRules == [] && t.resolver == "" && t.dnsFinal == ""
    modifies t`servers, t`dnsRules, t`terminalRules, t`resolver, t`dnsFinal
    ensures if hosts != {} && dns.useHosts != Some(false) then Lists(order, hosts) else order == []
    ensures DNSWritten(dns, order, detour, isIP, t)
  {
    hide WithAutos, Resolvers, Extras, FirstResolver, DnsRules.UserRules, DnsRules.TerminalRules, FinalTag;
    order := EnabledServers(dns, hosts, detour, t, isIP);
    FinishServers(dns, t);
  }

  /** translateDNS. `order` is the sorted list of the host names, if they are used. */
  method TranslateDNS(dns: RawDns, hosts: set<string>, t: Translation, isIP: string -> bool)
    returns (ghost order: seq<string>)
    requires t.servers == [] && t.dnsRules == [] && t.terminalRules == [] && t.resolver == "" && t.dnsFinal == ""
    modifies t`servers, t`dnsRules, t`terminalRules, t`resolver, t`dnsFinal, t`dnsEnabled
    ensures if dns.enable && hosts != {} && dns.useHosts != Some(false) then Lists(order, hosts) else order == []
    ensures DNSWritten(dns, order, DetourOf(t.FirstGroup()), isIP, t)
    ensures t.dnsEnabled == dns.enable
  {
    hide FinalServers, DomainResolver, FinalTag, DnsRules.UserRules, DnsRules.TerminalRules;
    if !dns.enable {
      order := [];
      WriteNoDNS(dns, DetourOf(t.FirstGroup()), t, isIP);
      return;
    }
    t.dnsEnabled := true;
    var detour := Autoroute.FirstGroupTag(t);
    order := WriteDNS(dns, hosts, detour, t, isIP);
  }
}
