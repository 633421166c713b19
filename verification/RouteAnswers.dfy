/** Where the finished route sends a connection, read off the country, the first group and the connection alone, and
    which rule sets it needs for that. */
module RouteAnswers {
  import opened Basics
  import opened Text
  import opened Config
  import opened Routes
  import opened Translator
  import opened Pipeline
  import Autoroute
  import Proxies
  import Dns
  import DnsRules

  // ---- reference ----

  /** Access points in China. */
  predicate HasAccessPoint(c: Conn) {
    c.inSet("geosite-microsoft@cn") || c.inSet("geosite-steam@cn") || c.inSet("geosite-category-games@cn")
    || c.inSet("geosite-onedrive")
  }

  /** Country codes whose domains are sold to everyone. */
  predicate SoldToEveryone(cc: string) {
    || cc == "io" || cc == "tv" || cc == "ai" || cc == "me" || cc == "cc" || cc == "sh" || cc == "gg" || cc == "je"
    || cc == "fm" || cc == "am" || cc == "la" || cc == "ly" || cc == "to" || cc == "co" || cc == "ws" || cc == "tk"
    || cc == "cf" || cc == "ga" || cc == "gq" || cc == "ml"
  }

  /** Stays in the country. */
  predicate Home(cc: string, c: Conn) {
    if cc == "cn" then c.inSet("geosite-cn") || c.inSet("geoip-cn") || EndsWith(c.domain, ".cn")
    else c.inSet("geoip-" + cc) || (!SoldToEveryone(cc) && EndsWith(c.domain, "." + cc))
  }

  /** Named by a rule that sends to the first group. */
  predicate Foreign(cc: string, c: Conn) {
    cc == "cn" && (c.inSet("overseas-ai") || (c.inSet("geosite-geolocation-!cn") && !HasAccessPoint(c)))
  }

  predicate Local(c: Conn) { c.private || c.inSet("geosite-private") }

  /** Where a connection other than DNS goes in Rule mode: a group called REJECT rejects what is named for it. */
  function ByRule(cc: string, group: string, c: Conn): Verdict {
    if Local(c) then To("DIRECT")
    else if Foreign(cc, c) then (if group == "REJECT" then Rejected else To(group))
    else if Home(cc, c) || (cc == "cn" && HasAccessPoint(c)) then To("DIRECT")
    else To(group)
  }

  // ---- Rule mode ----

  lemma OneSet(tag: string, outbound: string, c: Conn, mode: string)
    ensures Matches(SetRule(tag, outbound), c, mode) <==> c.inSet(tag)
  {
    assert SetRule(tag, outbound).shape.m.ruleSets[0] == tag;
  }

  lemma OneSuffix(suffix: string, outbound: string, c: Conn, mode: string)
    ensures Matches(SuffixRule(suffix, outbound), c, mode) <==> EndsWith(c.domain, suffix)
  {
    assert SuffixRule(suffix, outbound).shape.m.suffixes[0] == suffix;
  }

  lemma AccessPoints(c: Conn)
    ensures (exists i :: 0 <= i < |DOMESTIC_NAMES| && c.inSet(SiteTag(DOMESTIC_NAMES[i]))) <==> HasAccessPoint(c)
  {
    var names := DOMESTIC_NAMES;
    assert SiteTag("microsoft@cn") == "geosite-microsoft@cn" && SiteTag("steam@cn") == "geosite-steam@cn";
    assert SiteTag("category-games@cn") == "geosite-category-games@cn" && SiteTag("onedrive") == "geosite-onedrive";
    hide SiteTag;
    assert names[0] == "microsoft@cn" && names[1] == "steam@cn" && names[2] == "category-games@cn"
           && names[3] == "onedrive" && |names| == 4;
  }

  lemma TailDecides(group: string, final: string, c: Conn)
    ensures Decide(Intended, CNTail(group), final, c, "Rule") ==
            if c.inSet("geosite-geolocation-!cn") then Read(group)
            else if c.inSet("geosite-cn") || c.inSet("geoip-cn") || EndsWith(c.domain, ".cn") then To("DIRECT")
            else To(final)
  {
    var foreign, site := SetRule("geosite-geolocation-!cn", group), SetRule("geosite-cn", "DIRECT");
    var ip, suffix := SetRule("geoip-cn", "DIRECT"), SuffixRule(".cn", "DIRECT");
    assert SiteTag("geolocation-!cn") == "geosite-geolocation-!cn" && SiteTag("cn") == "geosite-cn";
    assert IPTag("cn") == "geoip-cn";
    assert CNTail(group) == [foreign] + ([site] + ([ip] + ([suffix] + [])));
    OneSet("geosite-geolocation-!cn", group, c, "Rule");
    OneSet("geosite-cn", "DIRECT", c, "Rule");
    OneSet("geoip-cn", "DIRECT", c, "Rule");
    OneSuffix(".cn", "DIRECT", c, "Rule");
    hide Matches, EndsWith;
    IntendedCons(foreign, [site] + ([ip] + ([suffix] + [])), final, c, "Rule");
    IntendedCons(site, [ip] + ([suffix] + []), final, c, "Rule");
    IntendedCons(ip, [suffix] + [], final, c, "Rule");
    IntendedCons(suffix, [], final, c, "Rule");
  }

  lemma ChinaDecides(group: string, final: string, c: Conn)
    ensures Decide(Intended, CNRules(group), final, c, "Rule") ==
            if c.inSet("overseas-ai") then Read(group)
            else if HasAccessPoint(c) then To("DIRECT")
            else Decide(Intended, CNTail(group), final, c, "Rule")
  {
    var ai := SetRule("overseas-ai", group);
    var rest := SiteRules(DOMESTIC_NAMES, "DIRECT") + CNTail(group);
    assert CNRules(group) == [ai] + rest;
    OneSet("overseas-ai", group, c, "Rule");
    AccessPoints(c);
    SitesDecide(DOMESTIC_NAMES, "DIRECT", CNTail(group), final, c);
    hide Matches, CNTail, SiteRules, HasAccessPoint;
    IntendedCons(ai, rest, final, c, "Rule");
  }

  lemma ElsewhereDecides(cc: string, final: string, c: Conn)
    ensures Decide(Intended, CountryRules(cc), final, c, "Rule") ==
            if c.inSet("geoip-" + cc) || (!SoldToEveryone(cc) && EndsWith(c.domain, "." + cc)) then To("DIRECT")
            else To(final)
  {
    var ip, suffix := SetRule("geoip-" + cc, "DIRECT"), SuffixRule("." + cc, "DIRECT");
    assert IPTag(cc) == "geoip-" + cc;
    assert cc in GENERIC_CCTLDS <==> SoldToEveryone(cc);
    OneSet("geoip-" + cc, "DIRECT", c, "Rule");
    OneSuffix("." + cc, "DIRECT", c, "Rule");
    hide Matches, EndsWith, SoldToEveryone;
    var rest := if SoldToEveryone(cc) then [] else [suffix];
    assert CountryRules(cc) == [ip] + rest;
    IntendedCons(ip, rest, final, c, "Rule");
    IntendedCons(suffix, [], final, c, "Rule");
    assert [suffix] + [] == [suffix];
  }

  lemma RuleModeExactly(cc: string, group: string, c: Conn)
    requires !c.isDns
    ensures Decide(Final, Assembled(GeoRules(cc, group), Some(group)), group, c, "Rule") == ByRule(cc, group, c)
  {
    assert SiteTag("private") == "geosite-private";
    if Local(c) {
      LocalTrafficDirect(cc, group, Some(group), group, c);
    } else {
      CountryDecides(cc, group, Some(group), group, c);
      if cc == "cn" {
        ChinaDecides(group, group, c);
        TailDecides(group, group, c);
      } else {
        ElsewhereDecides(cc, group, c);
      }
      hide Decide, EndsWith, HasAccessPoint, SoldToEveryone;
    }
  }

  // ---- any other mode ----

  /** As the translator generates them: one plain condition on no mode, and an outbound. */
  predicate Generated(r: Rule) { r.shape.Plain? && r.shape.m.clashMode.None? && r.outbound.Some? && r.action.None? }

  ghost predicate SomeRejects(rules: seq<Rule>, c: Conn, mode: string) {
    exists r :: r in rules && r.outbound == Some("REJECT") && Matches(r, c, mode)
  }

  /** Outside Rule mode only what is rejected still matches: the guard is put on rules with an outbound. */
  lemma GuardedOff(r: Rule, c: Conn, mode: string)
    requires Generated(r) && mode != "Rule"
    ensures Final(Guarded(r)).Some?
    ensures Matches(Guarded(r), c, mode) <==> r.outbound == Some("REJECT") && Matches(r, c, mode)
    ensures r.outbound == Some("REJECT") ==> Final(Guarded(r)) == Some(Rejected)
  {}

  lemma {:induction false} OffDecides(rules: seq<Rule>, final: string, c: Conn, mode: string)
    requires mode != "Rule" && forall r :: r in rules ==> Generated(r)
    ensures Decide(Final, Mapped(rules), final, c, mode) == if SomeRejects(rules, c, mode) then Rejected else To(final)
  {
    if rules != [] {
      assert rules[0] in rules && forall r :: r in rules <==> r == rules[0] || r in rules[1..];
      OffDecides(rules[1..], final, c, mode);
      GuardedOff(rules[0], c, mode);
      hide Guarded, Matches, Final;
      assert Mapped(rules)[0] == Guarded(rules[0]) && Mapped(rules)[1..] == Mapped(rules[1..]);
      assert SomeRejects(rules, c, mode) <==>
             (rules[0].outbound == Some("REJECT") && Matches(rules[0], c, mode)) || SomeRejects(rules[1..], c, mode);
    }
  }

  lemma {:induction false} SitesGenerated(names: seq<string>, outbound: string)
    ensures forall r :: r in SiteRules(names, outbound) ==> Generated(r) && r.outbound == Some(outbound)
  {
    if names != [] { SitesGenerated(names[1..], outbound); }
  }

  lemma GeoGenerated(cc: string, group: string)
    ensures forall r :: r in GeoRules(cc, group) ==> Generated(r)
  {
    SitesGenerated(DOMESTIC_NAMES, "DIRECT");
    hide SiteRules;
    forall r | r in GeoRules(cc, group) ensures Generated(r) {
      assert r in LocalRules() || r in (if cc == "cn" then CNRules(group) else CountryRules(cc));
      assert cc == "cn" && r in CNRules(group) ==>
             r == SetRule("overseas-ai", group) || r in SiteRules(DOMESTIC_NAMES, "DIRECT") || r in CNTail(group);
    }
  }

  /** The rules that send to the first group. */
  lemma ToGroup(cc: string, group: string, r: Rule)
    requires r in GeoRules(cc, group) && r.outbound != Some("DIRECT")
    ensures cc == "cn" && (r == SetRule("overseas-ai", group) || r == SetRule("geosite-geolocation-!cn", group))
  {
    LocalDirect(r);
    if cc == "cn" {
      SitesGenerated(DOMESTIC_NAMES, "DIRECT");
      TailToGroup(group, r);
      hide SiteRules, CNTail, LocalRules, Generated, SetRule;
      assert r in CNRules(group);
    } else {
      ElsewhereDirect(cc, r);
      hide LocalRules, CountryRules;
    }
  }

  lemma LocalDirect(r: Rule)
    ensures r in LocalRules() ==> r.outbound == Some("DIRECT")
  {}

  lemma ElsewhereDirect(cc: string, r: Rule)
    ensures r in CountryRules(cc) ==> r.outbound == Some("DIRECT")
  {
    hide IPTag;
  }

  lemma TailToGroup(group: string, r: Rule)
    ensures r in CNTail(group) ==> r.outbound == Some("DIRECT") || r == SetRule("geosite-geolocation-!cn", group)
  {
    assert SiteTag("geolocation-!cn") == "geosite-geolocation-!cn";
    hide SiteTag, IPTag;
  }

  lemma GroupRulesIn(group: string)
    ensures SetRule("overseas-ai", group) in GeoRules("cn", group)
    ensures SetRule("geosite-geolocation-!cn", group) in GeoRules("cn", group)
  {
    assert SiteTag("geolocation-!cn") == "geosite-geolocation-!cn";
    assert CNTail(group)[0] == SetRule("geosite-geolocation-!cn", group);
    assert CNTail(group)[0] in CNTail(group);
    hide SiteRules, SiteTag, SetRule, CNTail, LocalRules;
    assert CNRules(group)[0] == SetRule("overseas-ai", group);
    assert forall r :: r in CNTail(group) ==> r in CNRules(group);
    assert forall r :: r in CNRules(group) ==> r in GeoRules("cn", group);
  }

  /** A group called REJECT rejects what is named for it, in all modes but Direct and Global. */
  lemma RejectsExactly(cc: string, group: string, c: Conn, mode: string)
    ensures SomeRejects(GeoRules(cc, group), c, mode) <==>
            group == "REJECT" && cc == "cn" && (c.inSet("overseas-ai") || c.inSet("geosite-geolocation-!cn"))
  {
    OneSet("overseas-ai", group, c, mode);
    OneSet("geosite-geolocation-!cn", group, c, mode);
    GroupRulesIn(group);
    hide Matches, GeoRules;
    assert "DIRECT"[0] != "REJECT"[0];
    forall r | r in GeoRules(cc, group) && r.outbound == Some("REJECT")
      ensures cc == "cn" && (r == SetRule("overseas-ai", group) || r == SetRule("geosite-geolocation-!cn", group))
    {
      ToGroup(cc, group, r);
    }
  }

  lemma OtherModesExactly(cc: string, group: string, c: Conn, mode: string)
    requires !c.isDns && mode != "Rule" && mode != "Direct" && mode != "Global"
    ensures Decide(Final, Assembled(GeoRules(cc, group), Some(group)), group, c, mode) ==
            if group == "REJECT" && cc == "cn" && (c.inSet("overseas-ai") || c.inSet("geosite-geolocation-!cn"))
            then Rejected else To(group)
  {
    GeoGenerated(cc, group);
    DefaultsDecide(Some(group), Mapped(GeoRules(cc, group)), group, c, mode);
    OffDecides(GeoRules(cc, group), group, c, mode);
    RejectsExactly(cc, group, c, mode);
  }

  // ---- every connection ----

  /** Where the finished route sends every connection: DNS is answered inside; without a group all goes DIRECT;
      otherwise the mode decides, and in Rule mode the country. */
  lemma ConnectionsExactly(cfg: RawConfig, env: Proxies.Env, groups: seq<Outbound>, group: Option<string>,
                           hosts: seq<string>, o: Output, c: Conn, mode: string)
    requires Made(cfg, env, groups, group, hosts, o)
    ensures var cc := ToLower(env.country);
            Decide(Final, o.rules, o.final, c, mode) ==
              if c.isDns then Hijacked
              else if group.None? || mode == "Direct" then To("DIRECT")
              else if mode == "Global" then To(group.value)
              else if mode == "Rule" then ByRule(cc, group.value, c)
              else if group.value == "REJECT" && cc == "cn"
                   && (c.inSet("overseas-ai") || c.inSet("geosite-geolocation-!cn")) then Rejected
              else To(group.value)
  {
    var cc := ToLower(env.country);
    hide MadeGroups, GeoRules, Dns.FinalServers, Dns.FinalTag, DnsRules.FinalRules, Proxies.All, ByRule;
    var rules := GeoRules(cc, Autoroute.ProxyTag(group));
    DefaultsDecide(group, Mapped(rules), o.final, c, mode);
    if !c.isDns {
      if group.None? {
        NoGroupAllDirect(cc, c, mode);
      } else if mode == "Rule" {
        RuleModeExactly(cc, group.value, c);
      } else if mode != "Direct" && mode != "Global" {
        OtherModesExactly(cc, group.value, c, mode);
      }
    }
  }

  // ---- the rule sets ----

  /** The rule sets the rules name. */
  function SetsFor(cc: string): set<string> {
    if cc == "cn" then {"geosite-private", "overseas-ai", "geosite-microsoft@cn", "geosite-steam@cn",
                        "geosite-category-games@cn", "geosite-onedrive", "geosite-geolocation-!cn", "geosite-cn",
                        "geoip-cn"}
    else {"geosite-private", "geoip-" + cc}
  }

  lemma NamedCons(tag: string, outbound: string, rest: seq<Rule>)
    ensures NamedBy([SetRule(tag, outbound)] + rest) == {tag} + NamedBy(rest)
  {
    NamedByJoin([SetRule(tag, outbound)], rest);
    NamedByOne(tag, outbound);
  }

  lemma SiteNamed(names: seq<string>, outbound: string)
    requires names != []
    ensures NamedBy(SiteRules(names, outbound)) == {SiteTag(names[0])} + NamedBy(SiteRules(names[1..], outbound))
  {
    NamedCons(SiteTag(names[0]), outbound, SiteRules(names[1..], outbound));
  }

  lemma FourNamed(a: string, b: string, c: string, d: string, outbound: string)
    ensures NamedBy(SiteRules([a, b, c, d], outbound)) == {SiteTag(a), SiteTag(b), SiteTag(c), SiteTag(d)}
  {
    assert SiteRules([], outbound) == [] && NamedBy([]) == {};
    hide SiteTag, NamedBy, SiteRules;
    SiteNamed([a, b, c, d], outbound);
    assert [a, b, c, d][1..] == [b, c, d];
    SiteNamed([b, c, d], outbound);
    assert [b, c, d][1..] == [c, d];
    SiteNamed([c, d], outbound);
    assert [c, d][1..] == [d];
    SiteNamed([d], outbound);
    assert [d][1..] == [];
  }

  lemma SitesNamed(outbound: string)
    ensures NamedBy(SiteRules(DOMESTIC_NAMES, outbound)) ==
            {"geosite-microsoft@cn", "geosite-steam@cn", "geosite-category-games@cn", "geosite-onedrive"}
  {
    assert SiteTag("microsoft@cn") == "geosite-microsoft@cn" && SiteTag("steam@cn") == "geosite-steam@cn";
    assert SiteTag("category-games@cn") == "geosite-category-games@cn" && SiteTag("onedrive") == "geosite-onedrive";
    hide SiteTag, NamedBy, SiteRules;
    FourNamed("microsoft@cn", "steam@cn", "category-games@cn", "onedrive", outbound);
  }

  lemma SuffixNamesNone(suffix: string, outbound: string)
    ensures NamedBy([SuffixRule(suffix, outbound)]) == {}
  {
    var r := SuffixRule(suffix, outbound);
    assert [r][1..] == [] && Matchers(r) == [r.shape.m];
    assert Named(r) == {};
  }

  lemma TailNamed(group: string)
    ensures NamedBy(CNTail(group)) == {"geosite-geolocation-!cn", "geosite-cn", "geoip-cn"}
  {
    var suffix := [SuffixRule(".cn", "DIRECT")];
    assert SiteTag("geolocation-!cn") == "geosite-geolocation-!cn" && SiteTag("cn") == "geosite-cn";
    assert IPTag("cn") == "geoip-cn";
    var ip := [SetRule("geoip-cn", "DIRECT")] + suffix;
    var site := [SetRule("geosite-cn", "DIRECT")] + ip;
    assert CNTail(group) == [SetRule("geosite-geolocation-!cn", group)] + site;
    SuffixNamesNone(".cn", "DIRECT");
    hide NamedBy;
    NamedCons("geoip-cn", "DIRECT", suffix);
    NamedCons("geosite-cn", "DIRECT", ip);
    NamedCons("geosite-geolocation-!cn", group, site);
  }

  lemma LocalNamed(country: seq<Rule>)
    ensures NamedBy(LocalRules() + country) == {"geosite-private"} + NamedBy(country)
  {
    var first := LocalRules()[0];
    assert SiteTag("private") == "geosite-private";
    assert LocalRules() == [first] + [SetRule("geosite-private", "DIRECT")];
    assert [first][1..] == [] && Matchers(first) == [first.shape.m] && Named(first) == {};
    NamedByJoin([first], [SetRule("geosite-private", "DIRECT")]);
    NamedByOne("geosite-private", "DIRECT");
    NamedByJoin(LocalRules(), country);
  }

  lemma ChinaNamed(group: string)
    ensures NamedBy(CNRules(group)) ==
            {"overseas-ai"} + ({"geosite-microsoft@cn", "geosite-steam@cn", "geosite-category-games@cn",
                                "geosite-onedrive"}
                               + {"geosite-geolocation-!cn", "geosite-cn", "geoip-cn"})
  {
    var sites, tail := SiteRules(DOMESTIC_NAMES, "DIRECT"), CNTail(group);
    SitesNamed("DIRECT");
    TailNamed(group);
    hide NamedBy, SiteRules, CNTail, SetRule;
    assert CNRules(group) == [SetRule("overseas-ai", group)] + (sites + tail);
    NamedCons("overseas-ai", group, sites + tail);
    NamedByJoin(sites, tail);
  }

  lemma ElsewhereNamed(cc: string)
    ensures NamedBy(CountryRules(cc)) == {"geoip-" + cc}
  {
    var rest := if cc in GENERIC_CCTLDS then [] else [SuffixRule("." + cc, "DIRECT")];
    assert IPTag(cc) == "geoip-" + cc;
    assert CountryRules(cc) == [SetRule("geoip-" + cc, "DIRECT")] + rest;
    NamedCons("geoip-" + cc, "DIRECT", rest);
    SuffixNamesNone("." + cc, "DIRECT");
  }

  lemma GeoNames(cc: string, group: string)
    ensures NamedBy(GeoRules(cc, group)) == SetsFor(cc)
  {
    hide NamedBy, LocalRules, CNRules, CountryRules;
    LocalNamed(if cc == "cn" then CNRules(group) else CountryRules(cc));
    if cc == "cn" { ChinaNamed(group); } else { ElsewhereNamed(cc); }
  }

  /** Where the file of a rule set is to be fetched from. */
  predicate FetchedFrom(tag: string, url: string) {
    var github := Autoroute.RAW_GITHUB_PREFIX;
    if tag == "overseas-ai" then url == github + "viewer12/OverseasAI.list/main/rule/Singbox/OverseasAI/OverseasAI.srs"
    else if HasPrefix(tag, "geoip-") then url == github + "SagerNet/sing-geoip/rule-set/" + tag + ".srs"
    else url == github + "SagerNet/sing-geosite/rule-set/" + tag + ".srs"
  }

  /** The rule sets of the output are those of the country, each to be fetched from its own file. */
  lemma RuleSetsExactly(cfg: RawConfig, env: Proxies.Env, groups: seq<Outbound>, group: Option<string>,
                        hosts: seq<string>, o: Output)
    requires Made(cfg, env, groups, group, hosts, o)
    ensures forall tag :: tag in SetsFor(ToLower(env.country)) <==>
              exists i :: 0 <= i < |o.ruleSets| && o.ruleSets[i].tag == tag
    ensures forall r :: r in o.ruleSets ==> FetchedFrom(r.tag, r.url)
  {
    hide MadeGroups, GeoRules, Assembled, Dns.FinalServers, Dns.FinalTag, DnsRules.FinalRules, Proxies.All, SetsFor;
    GeoNames(ToLower(env.country), Autoroute.ProxyTag(group));
  }
}
