/** Generating the DNS rules around the user's own, in the source's loops. */
module DnsRulePhase {
  import opened Basics
  import opened Text
  import opened Translator
  import opened Dns
  import DnsRules
  import Autoroute

  /** The scan both finders share: a direct server of the wanted type, else the first direct one. */
  method FindFirst(t: Translation, liked: Server -> bool) returns (tag: string)
    ensures tag == DnsRules.Pick(t.servers, liked, "")
  {
    var fallback := "";
    for i := 0 to |t.servers|
      invariant DnsRules.Pick(t.servers[i..], liked, fallback) == DnsRules.Pick(t.servers, liked, "")
    {
      TakeOne(t.servers, i);
      var s := t.servers[i];
      if s.kind == FakeIP || s.kind == Hosts { continue; }
      if s.detour.Some? { continue; }
      if s.tag == "" { continue; }
      if liked(s) { return s.tag; }
      if fallback == "" { fallback := s.tag; }
    }
    return fallback;
  }

  method FindFirstDirectDNSTag(t: Translation) returns (tag: string)
    ensures tag == DnsRules.DirectTag(t.servers)
  {
    tag := FindFirst(t, DnsRules.IsUdp);
  }

  method FindFirstECHCapableDNSTag(t: Translation) returns (tag: string)
    ensures tag == DnsRules.EchTag(t.servers)
  {
    tag := FindFirst(t, DnsRules.IsEncrypted);
  }

  method FindFakeIPTag(t: Translation) returns (tag: string)
    ensures tag == DnsRules.FakeIPTag(t.servers)
  {
    for i := 0 to |t.servers|
      invariant DnsRules.FakeIPTag(t.servers[i..]) == DnsRules.FakeIPTag(t.servers)
    {
      TakeOne(t.servers, i);
      if t.servers[i].kind == FakeIP && t.servers[i].tag != "" { return t.servers[i].tag; }
    }
    return "";
  }

  function TagsIn(tags: seq<string>): set<string> { set tag | tag in tags }

  /** One rule set of the rule for domestic names, with its definition. */
  method AddGeo(geo: Autoroute.GeoType, name: string, tags: seq<string>, ghost keys: set<string>, t: Translation)
    returns (more: seq<string>)
    requires ToLower(name) == name && Autoroute.UrlsFit(t.ruleSetDefs) && t.ruleSetDefs.Keys == keys + TagsIn(tags)
    modifies t`ruleSetDefs
    ensures more == tags + [Autoroute.TagOf(geo, name)]
    ensures t.ruleSetDefs.Keys == keys + TagsIn(more) && Autoroute.UrlsFit(t.ruleSetDefs)
  {
    var tag := Autoroute.TagOf(geo, name);
    Autoroute.EnsureGeo(geo, name, t);
    more := tags + [tag];
  }

  /** The rule for domestic names, with the definitions of its rule sets. */
  method DomesticRule(direct: string, t: Translation) returns (rule: DnsRules.DnsRule)
    requires ToLower(t.country) == t.country && Autoroute.UrlsFit(t.ruleSetDefs)
    modifies t`ruleSetDefs
    ensures rule == DnsRules.To(direct).(ruleSets := DnsRules.DomesticSets(t.country))
    ensures t.ruleSetDefs.Keys == old(t.ruleSetDefs.Keys) + TagsIn(DnsRules.DomesticSets(t.country))
    ensures Autoroute.UrlsFit(t.ruleSetDefs)
  {
    Autoroute.LowerNames();
    ghost var keys := t.ruleSetDefs.Keys;
    var tags := AddGeo(Autoroute.GeoSite, "private", [], keys, t);
    if t.country == "cn" { tags := AddGeo(Autoroute.GeoSite, "cn", tags, keys, t); }
    tags := AddGeo(Autoroute.GeoIP, t.country, tags, keys, t);
    rule := DnsRules.To(direct).(ruleSets := tags);
  }

  /** generateDNSRules. */
  method GenerateDNSRules(t: Translation)
    requires ToLower(t.country) == t.country && Autoroute.UrlsFit(t.ruleSetDefs)
    modifies t`dnsRules, t`ruleSetDefs
    ensures t.dnsRules == DnsRules.Generated(t.dnsEnabled, t.servers, old(t.dnsRules), t.terminalRules, t.echServers,
                                             t.country)
    ensures Autoroute.UrlsFit(t.ruleSetDefs)
    ensures t.ruleSetDefs.Keys == old(t.ruleSetDefs.Keys)
                                  + if t.dnsEnabled && t.servers != [] && DnsRules.DirectTag(t.servers) != ""
                                    then TagsIn(DnsRules.DomesticSets(t.country)) else {}
  {
    if t.servers == [] { return; }
    if !t.dnsEnabled { return; }
    var direct := FindFirstDirectDNSTag(t);
    var fakeip := FindFakeIPTag(t);
    if direct == "" {
      t.dnsRules := t.dnsRules + t.terminalRules;
      return;
    }
    var mode := [DnsRules.To(direct).(clashMode := Some("Direct"))];
    var rules: seq<DnsRules.DnsRule> := [];
    if t.echServers != [] {
      var ech := FindFirstECHCapableDNSTag(t);
      if ech == "" { ech := direct; }
      rules := rules + [DnsRules.To(ech).(domains := t.echServers)];
    }
    var domestic := DomesticRule(direct, t);
    rules := rules + [domestic];
    if fakeip != "" { rules := rules + [DnsRules.To(fakeip).(queryTypes := ["A", "AAAA"])]; }
    assert rules == DnsRules.AutoRules(t.servers, t.echServers, t.country);
    t.dnsRules := mode + t.dnsRules + rules + t.terminalRules;
  }

  /** addDNSRouteAction. */
  method AddDNSRouteAction(t: Translation)
    modifies t`dnsRules
    ensures t.dnsRules == DnsRules.AllRouted(old(t.dnsRules))
  {
    for i := 0 to |t.dnsRules|
      invariant |t.dnsRules| == |old(t.dnsRules)|
      invariant forall j :: 0 <= j < i ==> t.dnsRules[j] == DnsRules.Routed(old(t.dnsRules)[j])
      invariant forall j :: i <= j < |t.dnsRules| ==> t.dnsRules[j] == old(t.dnsRules)[j]
    {
      if t.dnsRules[i].action.None? { t.dnsRules := t.dnsRules[i := t.dnsRules[i].(action := Some("route"))]; }
    }
  }
}
