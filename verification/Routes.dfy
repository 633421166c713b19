/** Route rules: the geo-based rules the translator generates, the mode guard it adds, and what a rule list decides.

    A connection is decided by the first rule that matches and has a final action; `sniff` is not final. The
    conditions of one plain rule are read as a conjunction (no generated rule has two besides its mode). */
module Routes {
  import opened Basics

  datatype Action = Route | Reject | HijackDNS | Sniff

  /** The conditions of a plain rule or of a sub-rule of a logical one. `extra` names a condition this translator
      never generates. */
  datatype Match = Match(clashMode: Option<string>, dns: bool, private: bool, ruleSets: seq<string>,
                         suffixes: seq<string>, extra: Option<nat>)

  datatype Shape = Plain(m: Match) | And(subs: seq<Match>) | Or(subs: seq<Match>)

  datatype Rule = Rule(shape: Shape, outbound: Option<string>, action: Option<Action>)

  const ALWAYS := Match(None, false, false, [], [], None)

  // ---- what a rule list decides ----

  /** What a connection shows to the rules. */
  datatype Conn = Conn(isDns: bool, private: bool, inSet: string -> bool, domain: string, has: nat -> bool)

  datatype Verdict = To(tag: string) | Rejected | Hijacked

  predicate EndsWith(s: string, suffix: string) {
    |suffix| <= |s| && s[|s| - |suffix|..] == suffix
  }

  predicate Holds(m: Match, c: Conn, mode: string) {
    && (m.clashMode.Some? ==> m.clashMode.value == mode)
    && (m.dns ==> c.isDns)
    && (m.private ==> c.private)
    && (m.ruleSets != [] ==> exists i :: 0 <= i < |m.ruleSets| && c.inSet(m.ruleSets[i]))
    && (m.suffixes != [] ==> exists i :: 0 <= i < |m.suffixes| && EndsWith(c.domain, m.suffixes[i]))
    && (m.extra.Some? ==> c.has(m.extra.value))
  }

  predicate Matches(r: Rule, c: Conn, mode: string) {
    match r.shape
    case Plain(m) => Holds(m, c, mode)
    case And(subs) => forall i :: 0 <= i < |subs| ==> Holds(subs[i], c, mode)
    case Or(subs) => exists i :: 0 <= i < |subs| && Holds(subs[i], c, mode)
  }

  /** What a rule of the output decides once it matches; None when the next rules go on. */
  function Final(r: Rule): Option<Verdict> {
    match r.action
    case Some(Reject) => Some(Rejected)
    case Some(HijackDNS) => Some(Hijacked)
    case Some(Sniff) => None
    case _ => if r.outbound.Some? then Some(To(r.outbound.value)) else None
  }

  /** What a rule is meant to decide before assembling: REJECT as an outbound is read as reject. */
  function Intended(r: Rule): Option<Verdict> {
    if r.outbound == Some("REJECT") then Some(Rejected) else Final(r)
  }

  /** First match, rules read by `read`. */
  function Decide(read: Rule -> Option<Verdict>, rules: seq<Rule>, final: string, c: Conn, mode: string): Verdict {
    if rules == [] then To(final)
    else if read(rules[0]).Some? && Matches(rules[0], c, mode) then read(rules[0]).value
    else Decide(read, rules[1..], final, c, mode)
  }

  // ---- assembling ----

  /** convertRejectActions on one rule. */
  function RejectConverted(r: Rule): Rule {
    if r.outbound == Some("REJECT") then r.(outbound := None, action := Some(Reject)) else r
  }

  /** addRouteAction on one rule. */
  function ActionAdded(r: Rule): Rule {
    if r.action.None? && r.outbound.Some? then r.(action := Some(Route)) else r
  }

  /** addClashModeCondition on one rule. */
  function ModeAdded(r: Rule): Rule {
    if r.outbound.None? then r
    else match r.shape
      case Plain(m) => if m.clashMode.Some? then r else r.(shape := Plain(m.(clashMode := Some("Rule"))))
      case And(subs) => r.(shape := And(subs + [ALWAYS.(clashMode := Some("Rule"))]))
      case Or(_) => r
  }

  function Guarded(r: Rule): Rule { ModeAdded(ActionAdded(RejectConverted(r))) }

  function Map(f: Rule -> Rule, rules: seq<Rule>): seq<Rule> {
    if rules == [] then [] else [f(rules[0])] + Map(f, rules[1..])
  }

  function Mapped(rules: seq<Rule>): seq<Rule> { Map(Guarded, rules) }

  function ModeRule(mode: string, tag: string): Rule {
    Rule(Plain(ALWAYS.(clashMode := Some(mode))), Some(tag), Some(Route))
  }

  /** What assemble puts in front: sniff, DNS hijack, and, when there is a group, the two mode switches. */
  function DefaultRules(group: Option<string>): seq<Rule> {
    [Rule(Plain(ALWAYS), None, Some(Sniff)), Rule(Plain(ALWAYS.(dns := true)), None, Some(HijackDNS))]
    + (if group.Some? then [ModeRule("Direct", "DIRECT"), ModeRule("Global", group.value)] else [])
  }

  function Assembled(rules: seq<Rule>, group: Option<string>): seq<Rule> {
    DefaultRules(group) + Mapped(rules)
  }

  /** In Rule mode a guarded rule matches what the bare rule matched, and decides what that was meant to. */
  lemma GuardKeepsMeaning(r: Rule, c: Conn)
    ensures Final(Guarded(r)) == Intended(r)
    ensures Intended(r).Some? ==> Matches(Guarded(r), c, "Rule") == Matches(r, c, "Rule")
  {
    var a := ActionAdded(RejectConverted(r));
    if a.shape.And? && a.outbound.Some? {
      var subs := a.shape.subs;
      var more := subs + [ALWAYS.(clashMode := Some("Rule"))];
      assert Holds(more[|subs|], c, "Rule");
      assert forall i :: 0 <= i < |subs| ==> more[i] == subs[i];
    }
  }

  lemma {:induction false} MappedKeepsMeaning(rules: seq<Rule>, final: string, c: Conn)
    ensures Decide(Final, Mapped(rules), final, c, "Rule") == Decide(Intended, rules, final, c, "Rule")
  {
    if rules != [] {
      GuardKeepsMeaning(rules[0], c);
      MappedKeepsMeaning(rules[1..], final, c);
      assert Mapped(rules)[0] == Guarded(rules[0]) && Mapped(rules)[1..] == Mapped(rules[1..]);
    }
  }

  lemma DecideCons(r: Rule, rules: seq<Rule>, final: string, c: Conn, mode: string)
    ensures Decide(Final, [r] + rules, final, c, mode) ==
            if Final(r).Some? && Matches(r, c, mode) then Final(r).value else Decide(Final, rules, final, c, mode)
  {
    assert ([r] + rules)[1..] == rules;
  }

  /** What the default rules decide before any other rule is looked at. */
  lemma DefaultsDecide(group: Option<string>, rules: seq<Rule>, final: string, c: Conn, mode: string)
    ensures Decide(Final, DefaultRules(group) + rules, final, c, mode) ==
            if c.isDns then Hijacked
            else if group.Some? && mode == "Direct" then To("DIRECT")
            else if group.Some? && mode == "Global" then To(group.value)
            else Decide(Final, rules, final, c, mode)
  {
    var sniff, hijack := DefaultRules(None)[0], DefaultRules(None)[1];
    var rest := if group.None? then rules
                else [ModeRule("Direct", "DIRECT")] + ([ModeRule("Global", group.value)] + rules);
    assert DefaultRules(group) + rules == [sniff] + ([hijack] + rest);
    if group.Some? {
      DecideCons(ModeRule("Global", group.value), rules, final, c, mode);
      DecideCons(ModeRule("Direct", "DIRECT"), [ModeRule("Global", group.value)] + rules, final, c, mode);
    }
    DecideCons(hijack, rest, final, c, mode);
    DecideCons(sniff, [hijack] + rest, final, c, mode);
  }

  /** With a group, the mode switches decide every connection but DNS in Direct and Global mode, whatever the
      rules are. */
  lemma ModeSwitches(rules: seq<Rule>, group: string, final: string, c: Conn)
    requires !c.isDns
    ensures Decide(Final, Assembled(rules, Some(group)), final, c, "Direct") == To("DIRECT")
    ensures Decide(Final, Assembled(rules, Some(group)), final, c, "Global") == To(group)
  {
    DefaultsDecide(Some(group), Mapped(rules), final, c, "Direct");
    DefaultsDecide(Some(group), Mapped(rules), final, c, "Global");
  }

  /** In Rule mode assembling changes nothing but DNS: every other connection is decided as first match on the bare
      list decides it, REJECT read as reject. */
  lemma RuleModeKeepsMeaning(rules: seq<Rule>, group: Option<string>, final: string, c: Conn)
    ensures Decide(Final, Assembled(rules, group), final, c, "Rule") ==
            if c.isDns then Hijacked else Decide(Intended, rules, final, c, "Rule")
  {
    DefaultsDecide(group, Mapped(rules), final, c, "Rule");
    MappedKeepsMeaning(rules, final, c);
  }

  // ---- rules that name rule sets nobody defined ----

  function Defined(tags: seq<string>, defined: set<string>): seq<string> {
    if tags == [] then []
    else if tags[0] in defined then [tags[0]] + Defined(tags[1..], defined)
    else Defined(tags[1..], defined)
  }

  /** What is left of one sub-rule. */
  function SubRuleFiltered(sub: Match, defined: set<string>): seq<Match> {
    var valid := Defined(sub.ruleSets, defined);
    if sub.ruleSets == [] then [sub] else if valid != [] then [sub.(ruleSets := valid)] else []
  }

  /** filterOrphanSubRules. */
  function SubRulesFiltered(subs: seq<Match>, defined: set<string>): seq<Match> {
    if subs == [] then [] else SubRuleFiltered(subs[0], defined) + SubRulesFiltered(subs[1..], defined)
  }

  /** What is left of one rule. */
  function OrphanFiltered(rule: Rule, defined: set<string>): seq<Rule> {
    match rule.shape
    case Plain(m) =>
      var valid := Defined(m.ruleSets, defined);
      if m.ruleSets == [] then [rule]
      else if valid != [] then [rule.(shape := Plain(m.(ruleSets := valid)))]
      else []
    case And(subs) => [rule.(shape := And(SubRulesFiltered(subs, defined)))]
    case Or(subs) => [rule.(shape := Or(SubRulesFiltered(subs, defined)))]
  }

  /** filterOrphanRules. */
  function OrphansFiltered(rules: seq<Rule>, defined: set<string>): seq<Rule> {
    if rules == [] then [] else OrphanFiltered(rules[0], defined) + OrphansFiltered(rules[1..], defined)
  }

  /** The conditions a rule is made of. */
  function Matchers(r: Rule): seq<Match> {
    match r.shape
    case Plain(m) => [m]
    case And(subs) => subs
    case Or(subs) => subs
  }

  ghost predicate AllDefined(rules: seq<Rule>, defined: set<string>) {
    forall r, m, tag :: r in rules && m in Matchers(r) && tag in m.ruleSets ==> tag in defined
  }

  lemma {:induction false} DefinedAll(tags: seq<string>, defined: set<string>)
    requires forall tag :: tag in tags ==> tag in defined
    ensures Defined(tags, defined) == tags
  {
    if tags != [] {
      assert tags[0] in tags && forall tag :: tag in tags[1..] ==> tag in tags;
      DefinedAll(tags[1..], defined);
    }
  }

  lemma {:induction false} SubRulesIdentity(subs: seq<Match>, defined: set<string>)
    requires forall m, tag :: m in subs && tag in m.ruleSets ==> tag in defined
    ensures SubRulesFiltered(subs, defined) == subs
  {
    if subs != [] {
      assert subs[0] in subs && forall m :: m in subs[1..] ==> m in subs;
      DefinedAll(subs[0].ruleSets, defined);
      SubRulesIdentity(subs[1..], defined);
    }
  }

  lemma DefinedRuleStays(rule: Rule, defined: set<string>)
    requires forall m, tag :: m in Matchers(rule) && tag in m.ruleSets ==> tag in defined
    ensures OrphanFiltered(rule, defined) == [rule]
  {
    match rule.shape
    case Plain(m) =>
      assert m in Matchers(rule);
      DefinedAll(m.ruleSets, defined);
    case And(subs) => SubRulesIdentity(subs, defined);
    case Or(subs) => SubRulesIdentity(subs, defined);
  }

  /** When every rule set a rule names is defined, the orphan filter changes nothing. */
  lemma {:induction false} OrphanFilterIdentity(rules: seq<Rule>, defined: set<string>)
    requires AllDefined(rules, defined)
    ensures OrphansFiltered(rules, defined) == rules
  {
    if rules != [] {
      assert rules[0] in rules && forall r :: r in rules[1..] ==> r in rules;
      DefinedRuleStays(rules[0], defined);
      OrphanFilterIdentity(rules[1..], defined);
    }
  }

  /** Rule sets that are not defined match nothing. */
  ghost predicate OnlyDefined(c: Conn, defined: set<string>) { forall tag :: c.inSet(tag) ==> tag in defined }

  /** Some rule set the condition names is defined, if it names any. */
  ghost predicate Backed(m: Match, defined: set<string>) {
    m.ruleSets == [] || exists tag :: tag in m.ruleSets && tag in defined
  }

  lemma {:induction false} DefinedAre(tags: seq<string>, defined: set<string>)
    ensures forall tag :: tag in Defined(tags, defined) <==> tag in tags && tag in defined
  {
    if tags != [] { DefinedAre(tags[1..], defined); }
  }

  /** One condition: what is left of it holds for the same connections, and what is dropped holds for none. */
  lemma ConditionFiltered(m: Match, defined: set<string>, c: Conn, mode: string)
    requires OnlyDefined(c, defined)
    ensures if Backed(m, defined) then
              exists k :: SubRuleFiltered(m, defined) == [k] && (Holds(k, c, mode) <==> Holds(m, c, mode))
            else SubRuleFiltered(m, defined) == [] && !Holds(m, c, mode)
  {
    DefinedAre(m.ruleSets, defined);
    var valid := Defined(m.ruleSets, defined);
    if valid != [] { assert valid[0] in valid; }
    if Backed(m, defined) && m.ruleSets != [] {
      forall i | 0 <= i < |m.ruleSets| && c.inSet(m.ruleSets[i])
        ensures exists j :: 0 <= j < |valid| && c.inSet(valid[j])
      {
        assert m.ruleSets[i] in valid;
      }
      forall j | 0 <= j < |valid| && c.inSet(valid[j])
        ensures exists i :: 0 <= i < |m.ruleSets| && c.inSet(m.ruleSets[i])
      {
        assert valid[j] in m.ruleSets;
      }
      assert SubRuleFiltered(m, defined) == [m.(ruleSets := valid)];
    } else if !Backed(m, defined) {
      forall i | 0 <= i < |m.ruleSets| ensures !c.inSet(m.ruleSets[i]) { assert m.ruleSets[i] in m.ruleSets; }
    } else {
      assert SubRuleFiltered(m, defined) == [m];
    }
  }

  lemma {:induction false} ConditionsFiltered(subs: seq<Match>, defined: set<string>, c: Conn, mode: string)
    requires OnlyDefined(c, defined)
    ensures var left := SubRulesFiltered(subs, defined);
            && ((forall k :: k in left ==> Holds(k, c, mode)) <==>
                forall m :: m in subs && Backed(m, defined) ==> Holds(m, c, mode))
            && ((exists k :: k in left && Holds(k, c, mode)) <==> exists m :: m in subs && Holds(m, c, mode))
  {
    if subs != [] {
      var rest := SubRulesFiltered(subs[1..], defined);
      ConditionsFiltered(subs[1..], defined, c, mode);
      ConditionFiltered(subs[0], defined, c, mode);
      assert forall m :: m in subs <==> m == subs[0] || m in subs[1..];
      hide Holds, Backed, SubRuleFiltered;
      var one := SubRuleFiltered(subs[0], defined);
      assert forall k :: k in one + rest <==> k in one || k in rest;
    }
  }

  /** One rule: dropped, it matched nothing; left, it matches what it matched, but that conditions of a conjunction that
      are dropped no longer count. */
  lemma RuleFilteredExactly(r: Rule, defined: set<string>, c: Conn, mode: string)
    requires OnlyDefined(c, defined)
    ensures var left := OrphanFiltered(r, defined);
            if left == [] then !Matches(r, c, mode)
            else |left| == 1 && Final(left[0]) == Final(r)
                 && (Matches(left[0], c, mode) <==>
                     if r.shape.And? then forall m :: m in r.shape.subs && Backed(m, defined) ==> Holds(m, c, mode)
                     else Matches(r, c, mode))
  {
    hide Holds, Backed, SubRuleFiltered;
    match r.shape
    case Plain(m) =>
      ConditionFiltered(m, defined, c, mode);
      PlainFiltered(r, defined);
    case And(subs) =>
      ConditionsFiltered(subs, defined, c, mode);
      InAll(SubRulesFiltered(subs, defined), c, mode);
    case Or(subs) =>
      ConditionsFiltered(subs, defined, c, mode);
      InSome(SubRulesFiltered(subs, defined), c, mode);
      InSome(subs, c, mode);
  }

  lemma PlainFiltered(r: Rule, defined: set<string>)
    requires r.shape.Plain?
    ensures var left := SubRuleFiltered(r.shape.m, defined);
            |left| <= 1 && OrphanFiltered(r, defined) == if left == [] then [] else [r.(shape := Plain(left[0]))]
  {}

  lemma InAll(subs: seq<Match>, c: Conn, mode: string)
    ensures (forall i :: 0 <= i < |subs| ==> Holds(subs[i], c, mode)) <==> forall m :: m in subs ==> Holds(m, c, mode)
  {}

  lemma InSome(subs: seq<Match>, c: Conn, mode: string)
    ensures (exists i :: 0 <= i < |subs| && Holds(subs[i], c, mode)) <==> exists m :: m in subs && Holds(m, c, mode)
  {}

  /** No condition of a conjunction is dropped. */
  ghost predicate Whole(r: Rule, defined: set<string>) {
    r.shape.And? ==> forall m :: m in r.shape.subs ==> Backed(m, defined)
  }

  /** The orphan filter changes no decision, as long as it takes no condition out of a conjunction. */
  lemma {:induction false} OrphanFilterKeepsMeaning(rules: seq<Rule>, defined: set<string>, final: string, c: Conn,
                                                    mode: string)
    requires OnlyDefined(c, defined) && forall r :: r in rules ==> Whole(r, defined)
    ensures Decide(Final, OrphansFiltered(rules, defined), final, c, mode) == Decide(Final, rules, final, c, mode)
  {
    if rules != [] {
      assert rules[0] in rules && forall r :: r in rules[1..] ==> r in rules;
      OrphanFilterKeepsMeaning(rules[1..], defined, final, c, mode);
      RuleFilteredExactly(rules[0], defined, c, mode);
      if rules[0].shape.And? { InAll(rules[0].shape.subs, c, mode); }
      hide Final, Holds, Backed, OrphanFiltered;
      var left, rest := OrphanFiltered(rules[0], defined), OrphansFiltered(rules[1..], defined);
      if left != [] {
        assert left + rest == [left[0]] + rest;
        DecideCons(left[0], rest, final, c, mode);
      } else {
        assert left + rest == rest;
      }
    }
  }

  lemma {:induction false} ConditionsDefined(subs: seq<Match>, defined: set<string>)
    ensures forall m, tag :: m in SubRulesFiltered(subs, defined) && tag in m.ruleSets ==> tag in defined
  {
    if subs != [] {
      ConditionsDefined(subs[1..], defined);
      DefinedAre(subs[0].ruleSets, defined);
    }
  }

  /** After the filter no rule names a rule set that is not defined. */
  lemma {:induction false} OrphansAreGone(rules: seq<Rule>, defined: set<string>)
    ensures AllDefined(OrphansFiltered(rules, defined), defined)
  {
    if rules != [] {
      OrphansAreGone(rules[1..], defined);
      match rules[0].shape
      case Plain(m) => DefinedAre(m.ruleSets, defined);
      case And(subs) => ConditionsDefined(subs, defined);
      case Or(subs) => ConditionsDefined(subs, defined);
    }
  }

  /** Taken out of a conjunction, a condition no longer holds it back: the rule catches everything. */
  lemma OrphanInAConjunctionWidens(c: Conn)
    ensures var r := Rule(And([ALWAYS.(ruleSets := ["gone"]), ALWAYS]), Some("DIRECT"), Some(Route));
            && (!c.inSet("gone") ==> Decide(Final, [r], "PROXY", c, "Rule") == To("PROXY"))
            && Decide(Final, OrphansFiltered([r], {}), "PROXY", c, "Rule") == To("DIRECT")
  {
    var gone := ALWAYS.(ruleSets := ["gone"]);
    var r := Rule(And([gone, ALWAYS]), Some("DIRECT"), Some(Route));
    var left := Rule(And([ALWAYS]), Some("DIRECT"), Some(Route));
    assert [gone, ALWAYS][1..] == [ALWAYS] && [ALWAYS][1..] == [] && ["gone"][1..] == [] && [r][1..] == [];
    assert SubRulesFiltered([ALWAYS], {}) == [ALWAYS];
    assert Defined(["gone"], {}) == [];
    assert SubRulesFiltered([gone, ALWAYS], {}) == [ALWAYS];
    assert OrphansFiltered([r], {}) == [left];
    assert r.shape.subs[0] == gone && gone.ruleSets[0] == "gone";
    assert Holds(gone, c, "Rule") <==> c.inSet("gone");
  }

  // ---- the generated rules ----

  function SetRule(tag: string, outbound: string): Rule {
    Rule(Plain(ALWAYS.(ruleSets := [tag])), Some(outbound), None)
  }

  function SuffixRule(suffix: string, outbound: string): Rule {
    Rule(Plain(ALWAYS.(suffixes := [suffix])), Some(outbound), None)
  }

  /** Tags of the official rule sets. */
  function SiteTag(name: string): string { "geosite-" + name }
  function IPTag(name: string): string { "geoip-" + name }

  function SiteRules(names: seq<string>, outbound: string): seq<Rule> {
    if names == [] then [] else [SetRule(SiteTag(names[0]), outbound)] + SiteRules(names[1..], outbound)
  }

  /** translateRules: private addresses and names first, then the country's rules. */
  function GeoRules(cc: string, proxyTag: string): seq<Rule> {
    LocalRules() + (if cc == "cn" then CNRules(proxyTag) else CountryRules(cc))
  }

  function LocalRules(): seq<Rule> {
    [Rule(Plain(ALWAYS.(private := true)), Some("DIRECT"), None), SetRule(SiteTag("private"), "DIRECT")]
  }

  /** The services with access points in China. */
  const DOMESTIC_NAMES := ["microsoft@cn", "steam@cn", "category-games@cn", "onedrive"]

  function CNRules(proxyTag: string): seq<Rule> {
    [SetRule("overseas-ai", proxyTag)] + SiteRules(DOMESTIC_NAMES, "DIRECT") + CNTail(proxyTag)
  }

  function CNTail(proxyTag: string): seq<Rule> {
    [SetRule(SiteTag("geolocation-!cn"), proxyTag), SetRule(SiteTag("cn"), "DIRECT"), SetRule(IPTag("cn"), "DIRECT"),
     SuffixRule(".cn", "DIRECT")]
  }

  const GENERIC_CCTLDS := {"io", "tv", "ai", "me", "cc", "sh", "gg", "je", "fm", "am",
                          "la", "ly", "to", "co", "ws", "tk", "cf", "ga", "gq", "ml"}

  function CountryRules(cc: string): seq<Rule> {
    [SetRule(IPTag(cc), "DIRECT")] + (if cc in GENERIC_CCTLDS then [] else [SuffixRule("." + cc, "DIRECT")])
  }

  /** The rule sets a list of rules names. */
  function Named(r: Rule): set<string> { set m, tag | m in Matchers(r) && tag in m.ruleSets :: tag }

  function NamedBy(rules: seq<Rule>): set<string> {
    if rules == [] then {} else Named(rules[0]) + NamedBy(rules[1..])
  }

  lemma {:induction false} NamedByJoin(one: seq<Rule>, two: seq<Rule>)
    ensures NamedBy(one + two) == NamedBy(one) + NamedBy(two)
  {
    if one == [] {
      assert one + two == two;
    } else {
      NamedByJoin(one[1..], two);
      assert (one + two)[1..] == one[1..] + two;
    }
  }

  lemma NamedByOne(tag: string, outbound: string)
    ensures NamedBy([SetRule(tag, outbound)]) == {tag}
  {
    var r := SetRule(tag, outbound);
    assert [r][1..] == [];
    assert r.shape.m in Matchers(r) && r.shape.m.ruleSets == [tag] && tag in [tag];
  }

  lemma GeoRuleSplit(cc: string, proxyTag: string, r: Rule)
    requires r in GeoRules(cc, proxyTag)
    ensures r.outbound.Some? && r.outbound.value in {"DIRECT", proxyTag} && r.action.None?
  {
    assert r in LocalRules() || r in (if cc == "cn" then CNRules(proxyTag) else CountryRules(cc));
    if r in CNRules(proxyTag) {
      assert r == SetRule("overseas-ai", proxyTag) || r in SiteRules(DOMESTIC_NAMES, "DIRECT") || r in CNTail(proxyTag);
      if r in SiteRules(DOMESTIC_NAMES, "DIRECT") { SiteRulesAre(DOMESTIC_NAMES, "DIRECT", r); }
    }
  }

  lemma {:induction false} SiteRulesAre(names: seq<string>, outbound: string, r: Rule)
    requires r in SiteRules(names, outbound)
    ensures r.outbound == Some(outbound) && r.action.None?
  {
    if r != SetRule(SiteTag(names[0]), outbound) { SiteRulesAre(names[1..], outbound, r); }
  }

  ghost predicate OnlyTags(rules: seq<Rule>, tags: set<string>) {
    forall r :: r in rules && r.outbound.Some? ==> r.outbound.value in tags
  }

  lemma {:induction false} OneTagDecides(rules: seq<Rule>, tag: string, c: Conn, mode: string)
    requires forall r :: r in rules && Final(r).Some? ==> Final(r).value == To(tag)
    ensures Decide(Final, rules, tag, c, mode) == To(tag)
  {
    if rules != [] {
      assert rules[0] in rules && forall r :: r in rules[1..] ==> r in rules;
      OneTagDecides(rules[1..], tag, c, mode);
    }
  }

  lemma {:induction false} MappedTo(rules: seq<Rule>, r: Rule) returns (bare: Rule)
    requires r in Mapped(rules)
    ensures bare in rules && r == Guarded(bare)
  {
    if r == Guarded(rules[0]) { bare := rules[0]; } else { bare := MappedTo(rules[1..], r); }
  }

  /** Without a group everything but DNS goes DIRECT, in every mode. */
  lemma NoGroupAllDirect(cc: string, c: Conn, mode: string)
    requires !c.isDns
    ensures Decide(Final, Assembled(GeoRules(cc, "DIRECT"), None), "DIRECT", c, mode) == To("DIRECT")
  {
    var rules := GeoRules(cc, "DIRECT");
    DefaultsDecide(None, Mapped(rules), "DIRECT", c, mode);
    forall r | r in Mapped(rules) && Final(r).Some? ensures Final(r).value == To("DIRECT") {
      var bare := MappedTo(rules, r);
      GuardKeepsMeaning(bare, c);
      GeoRuleSplit(cc, "DIRECT", bare);
    }
    OneTagDecides(Mapped(rules), "DIRECT", c, mode);
  }

  lemma IntendedCons(r: Rule, rules: seq<Rule>, final: string, c: Conn, mode: string)
    ensures Decide(Intended, [r] + rules, final, c, mode) ==
            if Intended(r).Some? && Matches(r, c, mode) then Intended(r).value
            else Decide(Intended, rules, final, c, mode)
  {
    assert ([r] + rules)[1..] == rules;
  }

  /** What the rules for local traffic decide before any other generated rule. */
  lemma LocalRulesDecide(rest: seq<Rule>, final: string, c: Conn)
    ensures Decide(Intended, LocalRules() + rest, final, c, "Rule") ==
            if c.private || c.inSet(SiteTag("private")) then To("DIRECT") else Decide(Intended, rest, final, c, "Rule")
  {
    var one, two := LocalRules()[0], LocalRules()[1];
    assert LocalRules() + rest == [one] + ([two] + rest);
    IntendedCons(one, [two] + rest, final, c, "Rule");
    IntendedCons(two, rest, final, c, "Rule");
    assert two.shape.m.ruleSets[0] == SiteTag("private");
  }

  /** Private addresses and local names stay DIRECT in Rule mode, in every country, whatever the other rules say. */
  lemma LocalTrafficDirect(cc: string, proxyTag: string, group: Option<string>, final: string, c: Conn)
    requires !c.isDns && (c.private || c.inSet(SiteTag("private")))
    ensures Decide(Final, Assembled(GeoRules(cc, proxyTag), group), final, c, "Rule") == To("DIRECT")
  {
    RuleModeKeepsMeaning(GeoRules(cc, proxyTag), group, final, c);
    LocalRulesDecide(if cc == "cn" then CNRules(proxyTag) else CountryRules(cc), final, c);
  }

  /** First match on a list of one-set rules with the same outbound. */
  lemma {:induction false} SitesDecide(names: seq<string>, outbound: string, rest: seq<Rule>, final: string, c: Conn)
    requires outbound != "REJECT"
    ensures Decide(Intended, SiteRules(names, outbound) + rest, final, c, "Rule") ==
            if exists i :: 0 <= i < |names| && c.inSet(SiteTag(names[i])) then To(outbound)
            else Decide(Intended, rest, final, c, "Rule")
  {
    if names == [] {
      assert SiteRules(names, outbound) + rest == rest;
    } else {
      var first := SetRule(SiteTag(names[0]), outbound);
      SitesDecide(names[1..], outbound, rest, final, c);
      assert SiteRules(names, outbound) + rest == [first] + (SiteRules(names[1..], outbound) + rest);
      IntendedCons(first, SiteRules(names[1..], outbound) + rest, final, c, "Rule");
      assert first.shape.m.ruleSets[0] == SiteTag(names[0]);
      assert forall i :: 0 < i < |names| ==> names[1..][i - 1] == names[i];
    }
  }

  /** Past the rules for local traffic, the country's rules decide. */
  lemma CountryDecides(cc: string, proxyTag: string, group: Option<string>, final: string, c: Conn)
    requires !c.isDns && !c.private && !c.inSet(SiteTag("private"))
    ensures Decide(Final, Assembled(GeoRules(cc, proxyTag), group), final, c, "Rule") ==
            Decide(Intended, if cc == "cn" then CNRules(proxyTag) else CountryRules(cc), final, c, "Rule")
  {
    RuleModeKeepsMeaning(GeoRules(cc, proxyTag), group, final, c);
    LocalRulesDecide(if cc == "cn" then CNRules(proxyTag) else CountryRules(cc), final, c);
  }

  /** What a rule with that outbound comes to. */
  function Read(outbound: string): Verdict { if outbound == "REJECT" then Rejected else To(outbound) }

  /** In China the overseas AI services go to the first group; then a service with a domestic access point goes DIRECT
      although it is also listed as foreign; and any other foreign name goes to the first group. */
  lemma DomesticBeforeForeign(proxyTag: string, group: Option<string>, final: string, c: Conn)
    requires !c.isDns && !c.private && !c.inSet(SiteTag("private"))
    ensures var domestic := exists i :: 0 <= i < |DOMESTIC_NAMES| && c.inSet(SiteTag(DOMESTIC_NAMES[i]));
            var verdict := Decide(Final, Assembled(GeoRules("cn", proxyTag), group), final, c, "Rule");
            if c.inSet("overseas-ai") then verdict == Read(proxyTag)
            else if domestic then verdict == To("DIRECT")
            else c.inSet(SiteTag("geolocation-!cn")) ==> verdict == Read(proxyTag)
  {
    CountryDecides("cn", proxyTag, group, final, c);
    var ai := SetRule("overseas-ai", proxyTag);
    var foreign := CNTail(proxyTag)[0];
    var rest := SiteRules(DOMESTIC_NAMES, "DIRECT") + CNTail(proxyTag);
    assert CNRules(proxyTag) == [ai] + rest;
    IntendedCons(ai, rest, final, c, "Rule");
    assert ai.shape.m.ruleSets[0] == "overseas-ai";
    SitesDecide(DOMESTIC_NAMES, "DIRECT", CNTail(proxyTag), final, c);
    assert CNTail(proxyTag) == [foreign] + CNTail(proxyTag)[1..];
    IntendedCons(foreign, CNTail(proxyTag)[1..], final, c, "Rule");
    assert foreign.shape.m.ruleSets[0] == SiteTag("geolocation-!cn");
  }

  /** A first group called REJECT is not what foreign names go to: they are rejected. */
  lemma GroupNamedReject(final: string, c: Conn)
    requires !c.isDns && !c.private && !c.inSet(SiteTag("private")) && c.inSet("overseas-ai")
    ensures Decide(Final, Assembled(GeoRules("cn", "REJECT"), Some("REJECT")), final, c, "Rule") == Rejected
    ensures Decide(Final, Assembled(GeoRules("cn", "REJECT"), Some("REJECT")), final, c, "Global") == To("REJECT")
  {
    DomesticBeforeForeign("REJECT", Some("REJECT"), final, c);
    ModeSwitches(GeoRules("cn", "REJECT"), "REJECT", final, c);
  }
}
