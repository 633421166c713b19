/** The last phase: the built-in outbound, reject actions, route actions, the mode guard, the default rules, the
    rule-set definitions, and the removal of rules whose rule sets are not defined. */
module Assembly {
  import opened Basics
  import opened Text
  import opened Config
  import opened Translator
  import Routes
  import DnsRules
  import Autoroute

  // ---- rules edited in place ----

  lemma {:induction false} MapIs(f: Routes.Rule -> Routes.Rule, rules: seq<Routes.Rule>)
    ensures |Routes.Map(f, rules)| == |rules| && forall i :: 0 <= i < |rules| ==> Routes.Map(f, rules)[i] == f(rules[i])
  {
    if rules != [] { MapIs(f, rules[1..]); }
  }

  method ConvertRejectActions(t: Translation)
    modifies t`rules
    ensures t.rules == Routes.Map(Routes.RejectConverted, old(t.rules))
  {
    for i := 0 to |t.rules|
      invariant |t.rules| == |old(t.rules)|
      invariant forall j :: 0 <= j < i ==> t.rules[j] == Routes.RejectConverted(old(t.rules)[j])
      invariant forall j :: i <= j < |t.rules| ==> t.rules[j] == old(t.rules)[j]
    {
      if t.rules[i].outbound == Some("REJECT") {
        t.rules := t.rules[i := t.rules[i].(outbound := None, action := Some(Routes.Reject))];
      }
    }
    MapIs(Routes.RejectConverted, old(t.rules));
  }

  method AddRouteAction(t: Translation)
    modifies t`rules
    ensures t.rules == Routes.Map(Routes.ActionAdded, old(t.rules))
  {
    for i := 0 to |t.rules|
      invariant |t.rules| == |old(t.rules)|
      invariant forall j :: 0 <= j < i ==> t.rules[j] == Routes.ActionAdded(old(t.rules)[j])
      invariant forall j :: i <= j < |t.rules| ==> t.rules[j] == old(t.rules)[j]
    {
      if t.rules[i].action.None? {
        if t.rules[i].outbound.Some? { t.rules := t.rules[i := t.rules[i].(action := Some(Routes.Route))]; }
      }
    }
    MapIs(Routes.ActionAdded, old(t.rules));
  }

  method AddClashModeCondition(t: Translation)
    modifies t`rules
    ensures t.rules == Routes.Map(Routes.ModeAdded, old(t.rules))
  {
    for i := 0 to |t.rules|
      invariant |t.rules| == |old(t.rules)|
      invariant forall j :: 0 <= j < i ==> t.rules[j] == Routes.ModeAdded(old(t.rules)[j])
      invariant forall j :: i <= j < |t.rules| ==> t.rules[j] == old(t.rules)[j]
    {
      var rule := t.rules[i];
      if rule.outbound.None? { continue; }
      match rule.shape
      case Plain(m) =>
        if m.clashMode.Some? { continue; }
        t.rules := t.rules[i := rule.(shape := Routes.Plain(m.(clashMode := Some("Rule"))))];
      case And(subs) =>
        t.rules := t.rules[i := rule.(shape := Routes.And(subs + [Routes.ALWAYS.(clashMode := Some("Rule"))]))];
      case Or(_) =>
    }
    MapIs(Routes.ModeAdded, old(t.rules));
  }

  /** The three passes one after the other are the one guard. */
  lemma PassesAreGuard(rules: seq<Routes.Rule>)
    ensures Routes.Map(Routes.ModeAdded, Routes.Map(Routes.ActionAdded, Routes.Map(Routes.RejectConverted, rules))) ==
            Routes.Mapped(rules)
  {
    var one := Routes.Map(Routes.RejectConverted, rules);
    var two := Routes.Map(Routes.ActionAdded, one);
    MapIs(Routes.RejectConverted, rules);
    MapIs(Routes.ActionAdded, one);
    MapIs(Routes.ModeAdded, two);
    MapIs(Routes.Guarded, rules);
  }

  method AddDefaultRules(t: Translation)
    requires "" !in t.groupOrder
    modifies t`rules
    ensures t.rules == Routes.DefaultRules(t.FirstGroup()) + old(t.rules)
  {
    var defaults := [Routes.Rule(Routes.Plain(Routes.ALWAYS), None, Some(Routes.Sniff)),
                     Routes.Rule(Routes.Plain(Routes.ALWAYS.(dns := true)), None, Some(Routes.HijackDNS))];
    var tag := Autoroute.FirstGroupTag(t);
    if tag != "" {
      defaults := defaults + [Routes.ModeRule("Direct", "DIRECT"), Routes.ModeRule("Global", tag)];
    }
    assert defaults == Routes.DefaultRules(t.FirstGroup());
    t.rules := defaults + t.rules;
  }

  // ---- orphans ----

  method Defined(tags: seq<string>, defined: set<string>) returns (valid: seq<string>)
    ensures valid == Routes.Defined(tags, defined)
  {
    valid := [];
    for i := 0 to |tags|
      invariant valid + Routes.Defined(tags[i..], defined) == Routes.Defined(tags, defined)
    {
      TakeOne(tags, i);
      if tags[i] in defined { valid := valid + [tags[i]]; }
    }
  }

  method FilterOrphanSubRule(sub: Routes.Match, defined: set<string>) returns (kept: seq<Routes.Match>)
    ensures kept == Routes.SubRuleFiltered(sub, defined)
  {
    if sub.ruleSets == [] { return [sub]; }
    var valid := Defined(sub.ruleSets, defined);
    kept := if valid != [] then [sub.(ruleSets := valid)] else [];
  }

  method FilterOrphanSubRules(subs: seq<Routes.Match>, defined: set<string>) returns (filtered: seq<Routes.Match>)
    ensures filtered == Routes.SubRulesFiltered(subs, defined)
  {
    hide Routes.SubRuleFiltered;
    filtered := [];
    for i := 0 to |subs|
      invariant filtered + Routes.SubRulesFiltered(subs[i..], defined) == Routes.SubRulesFiltered(subs, defined)
    {
      TakeOne(subs, i);
      var kept := FilterOrphanSubRule(subs[i], defined);
      filtered := filtered + kept;
    }
  }

  method FilterOrphanRule(rule: Routes.Rule, defined: set<string>) returns (kept: seq<Routes.Rule>)
    ensures kept == Routes.OrphanFiltered(rule, defined)
  {
    match rule.shape
    case Plain(m) =>
      if m.ruleSets == [] { return [rule]; }
      var valid := Defined(m.ruleSets, defined);
      kept := if valid != [] then [rule.(shape := Routes.Plain(m.(ruleSets := valid)))] else [];
    case And(subs) =>
      var left := FilterOrphanSubRules(subs, defined);
      kept := [rule.(shape := Routes.And(left))];
    case Or(subs) =>
      var left := FilterOrphanSubRules(subs, defined);
      kept := [rule.(shape := Routes.Or(left))];
  }

  method FilterOrphanRules(rules: seq<Routes.Rule>, defined: set<string>) returns (filtered: seq<Routes.Rule>)
    ensures filtered == Routes.OrphansFiltered(rules, defined)
  {
    hide Routes.OrphanFiltered;
    filtered := [];
    for i := 0 to |rules|
      invariant filtered + Routes.OrphansFiltered(rules[i..], defined) == Routes.OrphansFiltered(rules, defined)
    {
      TakeOne(rules, i);
      var kept := FilterOrphanRule(rules[i], defined);
      filtered := filtered + kept;
    }
  }

  method FilterOrphanDNSRule(rule: DnsRules.DnsRule, defined: set<string>) returns (kept: seq<DnsRules.DnsRule>)
    ensures kept == DnsRules.OrphanFiltered(rule, defined)
  {
    if rule.ruleSets == [] { return [rule]; }
    var valid := Defined(rule.ruleSets, defined);
    kept := if valid != [] then [rule.(ruleSets := valid)] else [];
  }

  method FilterOrphanDNSRules(rules: seq<DnsRules.DnsRule>, defined: set<string>)
    returns (filtered: seq<DnsRules.DnsRule>)
    ensures filtered == DnsRules.OrphansFiltered(rules, defined)
  {
    hide DnsRules.OrphanFiltered;
    filtered := [];
    for i := 0 to |rules|
      invariant filtered + DnsRules.OrphansFiltered(rules[i..], defined) == DnsRules.OrphansFiltered(rules, defined)
    {
      TakeOne(rules, i);
      var kept := FilterOrphanDNSRule(rules[i], defined);
      filtered := filtered + kept;
    }
  }

  // ---- assemble ----

  /** The definitions written out: each once, in the order of their tags, with the address it was registered with. */
  ghost predicate Writes(ruleSets: seq<RuleSet>, defs: map<string, string>) {
    && (forall tag :: tag in defs <==> exists i :: 0 <= i < |ruleSets| && ruleSets[i].tag == tag)
    && (forall r :: r in ruleSets ==> r.tag in defs && r.url == defs[r.tag])
    && (forall i, j :: 0 <= i < j < |ruleSets| ==>
          LexLe(ruleSets[i].tag, ruleSets[j].tag) && ruleSets[i].tag != ruleSets[j].tag)
  }

  method AddRuleSets(t: Translation)
    requires t.ruleSets == []
    modifies t`ruleSets
    ensures Writes(t.ruleSets, t.ruleSetDefs)
  {
    var tags := SortKeys(t.ruleSetDefs.Keys);
    for i := 0 to |tags|
      invariant |t.ruleSets| == i
      invariant forall j :: 0 <= j < i ==> t.ruleSets[j].tag == tags[j] && tags[j] in t.ruleSetDefs
                                           && t.ruleSets[j].url == t.ruleSetDefs[tags[j]]
    {
      assert tags[i] in tags;
      t.ruleSets := t.ruleSets + [RuleSet(tags[i], t.ruleSetDefs[tags[i]])];
    }
    forall tag | tag in t.ruleSetDefs ensures exists i :: 0 <= i < |t.ruleSets| && t.ruleSets[i].tag == tag {
      assert tag in tags;
      var i :| 0 <= i < |tags| && tags[i] == tag;
      assert t.ruleSets[i].tag == tag;
    }
  }

  /** assemble. */
  method Assemble(t: Translation)
    requires "" !in t.groupOrder && t.final == "" && t.ruleSets == []
    modifies t`outbounds, t`rules, t`final, t`ruleSets, t`dnsRules
    ensures t.outbounds == [Builtin("DIRECT")] + old(t.outbounds)
    ensures t.rules == Routes.OrphansFiltered(Routes.Assembled(old(t.rules), t.FirstGroup()), t.ruleSetDefs.Keys)
    ensures t.dnsRules == DnsRules.OrphansFiltered(old(t.dnsRules), t.ruleSetDefs.Keys)
    ensures t.final == Autoroute.ProxyTag(t.FirstGroup())
    ensures Writes(t.ruleSets, t.ruleSetDefs)
  {
    t.outbounds := [Builtin("DIRECT")] + t.outbounds;
    PassesAreGuard(t.rules);
    ConvertRejectActions(t);
    AddRouteAction(t);
    AddClashModeCondition(t);
    AddDefaultRules(t);
    if t.final == "" { t.final := Autoroute.FirstGroupOrDirect(t); }
    AddRuleSets(t);
    t.rules := FilterOrphanRules(t.rules, t.ruleSetDefs.Keys);
    t.dnsRules := FilterOrphanDNSRules(t.dnsRules, t.ruleSetDefs.Keys);
  }
}
