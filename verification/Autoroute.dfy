/** The routing phase: geo-based route rules for the detected country, and the rule-set definitions they rely on. */
module Autoroute {
  import opened Basics
  import opened Text
  import opened Translator
  import Routes

  // ---- rule-set definitions ----

  const RAW_GITHUB_PREFIX := "https://raw.githubusercontent.com/"
  const OVERSEAS_AI_URL := RAW_GITHUB_PREFIX + "viewer12/OverseasAI.list/main/rule/Singbox/OverseasAI/OverseasAI.srs"

  datatype GeoType = GeoIP | GeoSite

  /** Where the definition of a rule set is to be fetched from: the file carries the tag's own name. */
  function UrlOf(tag: string): string {
    if tag == "overseas-ai" then OVERSEAS_AI_URL
    else if HasPrefix(tag, "geoip-") then RAW_GITHUB_PREFIX + "SagerNet/sing-geoip/rule-set/" + tag + ".srs"
    else RAW_GITHUB_PREFIX + "SagerNet/sing-geosite/rule-set/" + tag + ".srs"
  }

  function TagOf(geo: GeoType, name: string): string {
    if geo.GeoIP? then Routes.IPTag(name) else Routes.SiteTag(name)
  }

  /** Every definition points at the file of its tag. */
  ghost predicate UrlsFit(defs: map<string, string>) { forall tag :: tag in defs ==> defs[tag] == UrlOf(tag) }

  /** registerRuleSet: a definition that is already there stays. */
  method RegisterRuleSet(tag: string, url: string, t: Translation)
    modifies t`ruleSetDefs
    ensures t.ruleSetDefs == if tag in old(t.ruleSetDefs) then old(t.ruleSetDefs) else old(t.ruleSetDefs)[tag := url]
  {
    if tag in t.ruleSetDefs { return; }
    t.ruleSetDefs := t.ruleSetDefs[tag := url];
  }

  /** The official file for that type and name. */
  function FileOf(geo: GeoType, name: string): string {
    if geo.GeoIP? then RAW_GITHUB_PREFIX + "SagerNet/sing-geoip/rule-set/geoip-" + name + ".srs"
    else RAW_GITHUB_PREFIX + "SagerNet/sing-geosite/rule-set/geosite-" + name + ".srs"
  }

  /** ensureRuleSetDef: the official file for the name in lower case, unless the tag is defined already. */
  method EnsureRuleSetDef(tag: string, geo: GeoType, name: string, t: Translation)
    modifies t`ruleSetDefs
    ensures t.ruleSetDefs ==
            if tag in old(t.ruleSetDefs) then old(t.ruleSetDefs)
              else old(t.ruleSetDefs)[tag := FileOf(geo, ToLower(name))]
  {
    var base;
    if geo.GeoIP? {
      base := RAW_GITHUB_PREFIX + "SagerNet/sing-geoip/rule-set/geoip-" + ToLower(name) + ".srs";
    } else {
      base := RAW_GITHUB_PREFIX + "SagerNet/sing-geosite/rule-set/geosite-" + ToLower(name) + ".srs";
    }
    RegisterRuleSet(tag, base, t);
  }

  /** Called with the tag of its own type and name, it points at the file of that tag. */
  method EnsureGeo(geo: GeoType, name: string, t: Translation)
    requires ToLower(name) == name && UrlsFit(t.ruleSetDefs)
    modifies t`ruleSetDefs
    ensures t.ruleSetDefs.Keys == old(t.ruleSetDefs.Keys) + {TagOf(geo, name)} && UrlsFit(t.ruleSetDefs)
  {
    GeoUrl(TagOf(geo, name), geo, name);
    hide UrlOf, FileOf, TagOf, ToLower;
    EnsureRuleSetDef(TagOf(geo, name), geo, name, t);
  }

  lemma GeoUrl(tag: string, geo: GeoType, name: string)
    requires tag == TagOf(geo, name)
    ensures UrlOf(tag) == FileOf(geo, name)
  {
    assert tag[3] == if geo.GeoIP? then 'i' else 's';
    assert "overseas-ai"[0] == 'o' && tag[0] == 'g';
    if geo.GeoIP? {
      assert tag[..6] == "geoip-";
      assert RAW_GITHUB_PREFIX + "SagerNet/sing-geoip/rule-set/" + tag ==
             RAW_GITHUB_PREFIX + "SagerNet/sing-geoip/rule-set/geoip-" + name;
    } else {
      assert "geoip-"[3] == 'i' && (|tag| >= 6 ==> tag[..6][3] == 's');
      assert RAW_GITHUB_PREFIX + "SagerNet/sing-geosite/rule-set/" + tag ==
             RAW_GITHUB_PREFIX + "SagerNet/sing-geosite/rule-set/geosite-" + name;
    }
  }

  // ---- route rules ----

  /** The first group, or DIRECT. */
  function ProxyTag(group: Option<string>): string { if group.Some? then group.value else "DIRECT" }

  /** What is registered is what the rules name, and the definitions point at the right files. */
  ghost predicate Registered(t: Translation)
    reads t`rules, t`ruleSetDefs
  {
    t.ruleSetDefs.Keys == Routes.NamedBy(t.rules) && UrlsFit(t.ruleSetDefs)
  }

  lemma NamedWith(rules: seq<Routes.Rule>, tag: string, outbound: string)
    ensures Routes.NamedBy(rules + [Routes.SetRule(tag, outbound)]) == Routes.NamedBy(rules) + {tag}
  {
    Routes.NamedByJoin(rules, [Routes.SetRule(tag, outbound)]);
    Routes.NamedByOne(tag, outbound);
  }

  lemma NamedWithout(rules: seq<Routes.Rule>, r: Routes.Rule)
    requires r.shape.Plain? && r.shape.m.ruleSets == []
    ensures Routes.NamedBy(rules + [r]) == Routes.NamedBy(rules)
  {
    Routes.NamedByJoin(rules, [r]);
    assert [r][1..] == [] && Routes.Matchers(r) == [r.shape.m];
    assert Routes.Named(r) == {};
  }

  /** The names the rules are generated for are in lower case. */
  lemma LowerNames()
    ensures ToLower("private") == "private" && ToLower("cn") == "cn" && ToLower("geolocation-!cn") == "geolocation-!cn"
    ensures forall k :: 0 <= k < |Routes.DOMESTIC_NAMES| ==>
            ToLower(Routes.DOMESTIC_NAMES[k]) == Routes.DOMESTIC_NAMES[k]
  {
    assert ToLower("microsoft@cn") == "microsoft@cn";
    assert ToLower("steam@cn") == "steam@cn";
    assert ToLower("category-games@cn") == "category-games@cn";
    assert ToLower("onedrive") == "onedrive";
  }

  /** One generated route: the definition of its rule set, and the rule. */
  method AddRoute(geo: GeoType, name: string, outbound: string, t: Translation)
    requires ToLower(name) == name && Registered(t)
    modifies t`rules, t`ruleSetDefs
    ensures t.rules == old(t.rules) + [Routes.SetRule(TagOf(geo, name), outbound)] && Registered(t)
  {
    var tag := TagOf(geo, name);
    EnsureGeo(geo, name, t);
    NamedWith(t.rules, tag, outbound);
    t.rules := t.rules + [Routes.SetRule(tag, outbound)];
  }

  method FirstGroupTag(t: Translation) returns (tag: string)
    ensures tag == if t.FirstGroup().None? then "" else t.FirstGroup().value
  {
    if t.groupOrder == [] { return ""; }
    return t.groupOrder[0];
  }

  method FirstGroupOrDirect(t: Translation) returns (tag: string)
    requires "" !in t.groupOrder
    ensures tag == ProxyTag(t.FirstGroup())
  {
    tag := FirstGroupTag(t);
    if tag == "" { tag := "DIRECT"; }
  }

  /** translateRules. */
  method TranslateRules(t: Translation)
    requires ToLower(t.country) == t.country && "" !in t.groupOrder && Registered(t)
    modifies t`rules, t`ruleSetDefs
    ensures t.rules == old(t.rules) + Routes.GeoRules(t.country, ProxyTag(t.FirstGroup())) && Registered(t)
  {
    var proxyTag := FirstGroupOrDirect(t);
    ghost var country := if t.country == "cn" then Routes.CNRules(proxyTag) else Routes.CountryRules(t.country);
    assert old(t.rules) + (Routes.LocalRules() + country) == (old(t.rules) + Routes.LocalRules()) + country;
    AddLocalRoutes(t);
    if t.country == "cn" {
      GenerateCNRoutes(proxyTag, t);
    } else {
      GenerateCountryRoutes(t.country, t);
    }
  }

  method AddLocalRoutes(t: Translation)
    requires Registered(t)
    modifies t`rules, t`ruleSetDefs
    ensures t.rules == old(t.rules) + Routes.LocalRules() && Registered(t)
  {
    var private := Routes.Rule(Routes.Plain(Routes.ALWAYS.(private := true)), Some("DIRECT"), None);
    NamedWithout(t.rules, private);
    t.rules := t.rules + [private];
    LowerNames();
    AddRoute(GeoSite, "private", "DIRECT", t);
  }

  method AddDomesticRoutes(names: seq<string>, t: Translation)
    requires (forall k :: 0 <= k < |names| ==> ToLower(names[k]) == names[k]) && Registered(t)
    modifies t`rules, t`ruleSetDefs
    ensures t.rules == old(t.rules) + Routes.SiteRules(names, "DIRECT") && Registered(t)
  {
    for i := 0 to |names|
      invariant t.rules + Routes.SiteRules(names[i..], "DIRECT") == old(t.rules) + Routes.SiteRules(names, "DIRECT")
      invariant Registered(t)
    {
      TakeOne(names, i);
      AddRoute(GeoSite, names[i], "DIRECT", t);
    }
  }

  method AddOverseasRoute(proxyTag: string, t: Translation)
    requires Registered(t)
    modifies t`rules, t`ruleSetDefs
    ensures t.rules == old(t.rules) + [Routes.SetRule("overseas-ai", proxyTag)] && Registered(t)
  {
    NamedWith(t.rules, "overseas-ai", proxyTag);
    RegisterRuleSet("overseas-ai", OVERSEAS_AI_URL, t);
    t.rules := t.rules + [Routes.SetRule("overseas-ai", proxyTag)];
  }

  method GenerateCNRoutes(proxyTag: string, t: Translation)
    requires Registered(t)
    modifies t`rules, t`ruleSetDefs
    ensures t.rules == old(t.rules) + Routes.CNRules(proxyTag) && Registered(t)
  {
    hide Routes.SiteRules, Routes.CNTail, Routes.NamedBy, UrlsFit, ToLower;
    LowerNames();
    AddOverseasRoute(proxyTag, t);
    AddDomesticRoutes(Routes.DOMESTIC_NAMES, t);
    AddForeignRoutes(proxyTag, t);
  }

  method AddForeignRoutes(proxyTag: string, t: Translation)
    requires Registered(t)
    modifies t`rules, t`ruleSetDefs
    ensures t.rules == old(t.rules) + Routes.CNTail(proxyTag) && Registered(t)
  {
    LowerNames();
    AddRoute(GeoSite, "geolocation-!cn", proxyTag, t);
    AddRoute(GeoSite, "cn", "DIRECT", t);
    AddRoute(GeoIP, "cn", "DIRECT", t);
    NamedWithout(t.rules, Routes.SuffixRule(".cn", "DIRECT"));
    t.rules := t.rules + [Routes.SuffixRule(".cn", "DIRECT")];
  }

  method GenerateCountryRoutes(cc: string, t: Translation)
    requires ToLower(cc) == cc && Registered(t)
    modifies t`rules, t`ruleSetDefs
    ensures t.rules == old(t.rules) + Routes.CountryRules(cc) && Registered(t)
  {
    AddRoute(GeoIP, cc, "DIRECT", t);
    if cc !in Routes.GENERIC_CCTLDS {
      NamedWithout(t.rules, Routes.SuffixRule("." + cc, "DIRECT"));
      t.rules := t.rules + [Routes.SuffixRule("." + cc, "DIRECT")];
    }
  }
}
