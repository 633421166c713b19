/** The translation pipeline in the source's form: one mutable record that phases update in order. Each phase is
    proved against the functions of Proxies, Groups, Routes, Dns and DnsRules, and the whole against `validate`. */
module Translator {
  import opened Basics
  import opened Text
  import opened Config
  import Proxies
  import Groups
  import Routes
  import Dns
  import DnsRules

  type Env = Proxies.Env

  datatype RawConfig = RawConfig(proxies: seq<RawProxy>, groups: seq<RawGroup>, dns: Dns.RawDns, hosts: set<string>)

  /** A rule-set definition of the output; all are remote, binary, and downloaded through DIRECT. */
  datatype RuleSet = RuleSet(tag: string, url: string)

  /** The configuration written out. */
  datatype Output = Output(outbounds: seq<Outbound>, rules: seq<Routes.Rule>, ruleSets: seq<RuleSet>, final: string,
                           resolver: string, servers: seq<Dns.Server>, dnsRules: seq<DnsRules.DnsRule>,
                           dnsFinal: string)

  // ---- lists taken one element at a time ----

  lemma TakeOne<T>(s: seq<T>, i: nat)
    requires i < |s|
    ensures s[i..] == [s[i]] + s[i + 1..]
    ensures s[..i + 1] == s[..i] + [s[i]]
  {}

  class Translation {
    // the configuration being written
    var outbounds: seq<Outbound>
    var rules: seq<Routes.Rule>
    var ruleSets: seq<RuleSet>
    var final: string
    var resolver: string
    var servers: seq<Dns.Server>
    var dnsRules: seq<DnsRules.DnsRule>
    var dnsFinal: string
    // bookkeeping
    var proxyTags: set<string>
    var stubTags: map<string, string>
    var invalidTags: set<string>
    var groupOrder: seq<string>
    var groupTags: set<string>
    var ruleSetDefs: map<string, string>
    var echServers: seq<string>
    var terminalRules: seq<DnsRules.DnsRule>
    var dnsEnabled: bool
    var country: string

    constructor (country: string)
      ensures outbounds == [] && rules == [] && ruleSets == [] && final == "" && resolver == ""
      ensures servers == [] && dnsRules == [] && dnsFinal == ""
      ensures proxyTags == {} && stubTags == map[] && invalidTags == {} && groupOrder == [] && groupTags == {}
      ensures ruleSetDefs == map[] && echServers == [] && terminalRules == [] && !dnsEnabled && this.country == country
    {
      outbounds, rules, ruleSets, final, resolver := [], [], [], "", "";
      servers, dnsRules, dnsFinal := [], [], "";
      proxyTags, stubTags, invalidTags, groupOrder, groupTags := {}, map[], {}, [], {};
      ruleSetDefs, echServers, terminalRules, dnsEnabled := map[], [], [], false;
      this.country := country;
    }

    function Written(): Output
      reads this
    {
      Output(outbounds, rules, ruleSets, final, resolver, servers, dnsRules, dnsFinal)
    }

    function FirstGroup(): Option<string>
      reads this`groupOrder
    {
      if groupOrder == [] then None else Some(groupOrder[0])
    }

    // ---- proxies ----

    /** One proxy of the loop in translateProxies; None when it has no name. */
    method TranslateProxy(p: RawProxy, env: Env) returns (ob: Option<Outbound>)
      modifies this`proxyTags, this`stubTags, this`invalidTags
      ensures ob == if p.name == "" then None else Some(Proxies.Translated(p, env))
      ensures proxyTags == old(proxyTags) + (if p.name == "" then {} else {p.name})
      ensures stubTags == if p.name != "" && Proxies.BecomesStub(p, env) then old(stubTags)[p.name := p.kind]
              else old(stubTags)
      ensures invalidTags == old(invalidTags) + (if p.name != ""
                                                 && (Proxies.InvalidEndpoint(p, env) || Proxies.BecomesStub(p, env))
                                                 then {p.name} else {})
    {
      if p.name == "" { return None; }
      if Proxies.InvalidEndpoint(p, env) { invalidTags := invalidTags + {p.name}; }
      if !Proxies.HasEndpoint(p) {
        stubTags := stubTags[p.name := p.kind];
        proxyTags := proxyTags + {p.name};
        invalidTags := invalidTags + {p.name};
        return Some(Proxies.Stub(p));
      }
      var body := env.body(p);
      var made;
      if body.Some? {
        var b := body.value;
        made := Node(p.name, b.kind, b.server, b.port, b.username, b.echName, None);
        if p.dialer != "" { made := made.(detour := Some(p.dialer)); }
      } else {
        made := Proxies.Stub(p);
        stubTags := stubTags[p.name := p.kind];
        invalidTags := invalidTags + {p.name};
      }
      proxyTags := proxyTags + {made.tag};
      return Some(made);
    }

    method TranslateProxies(ps: seq<RawProxy>, env: Env) returns (obs: seq<Outbound>)
      requires proxyTags == {} && stubTags == map[] && invalidTags == {}
      modifies this`proxyTags, this`stubTags, this`invalidTags
      ensures obs == Proxies.All(ps, env)
      ensures proxyTags == TagSet(obs)
      ensures stubTags == Proxies.StubMap(ps, env)
      ensures invalidTags == Proxies.InvalidNames(ps, env)
    {
      obs := [];
      for i := 0 to |ps|
        invariant obs + Proxies.All(ps[i..], env) == Proxies.All(ps, env)
        invariant stubTags + Proxies.StubMap(ps[i..], env) == Proxies.StubMap(ps, env)
        invariant proxyTags == TagSet(obs)
        invariant invalidTags == Proxies.InvalidNames(ps[..i], env)
      {
        TakeOne(ps, i);
        InvalidNamesSnoc(ps[..i], ps[i], env);
        AllStep(ps, i, env, obs);
        StubMapStep(ps, i, env, stubTags);
        var ob := TranslateProxy(ps[i], env);
        if ob.Some? {
          TagSetSnoc(obs, ob.value);
          obs := obs + [ob.value];
        }
      }
      assert ps[..|ps|] == ps;
    }

    /** collectECHQueryServers. */
    method CollectECHQueryServers(obs: seq<Outbound>)
      requires echServers == []
      modifies this`echServers
      ensures echServers == Proxies.EchNames(obs, [])
    {
      for i := 0 to |obs|
        invariant Proxies.EchNames(obs[i..], echServers) == Proxies.EchNames(obs, [])
      {
        TakeOne(obs, i);
        var name := if obs[i].Node? then obs[i].echName else "";
        if name != "" && name !in echServers { echServers := echServers + [name]; }
      }
    }

    // ---- groups ----

    method FilterGroupProxies(g: RawGroup) returns (filtered: seq<string>)
      ensures filtered == Groups.Only(g.proxies, proxyTags + groupTags + {Groups.DIRECT})
    {
      filtered := [];
      ghost var known := proxyTags + groupTags + {Groups.DIRECT};
      for i := 0 to |g.proxies|
        invariant filtered + Groups.Only(g.proxies[i..], known) == Groups.Only(g.proxies, known)
      {
        TakeOne(g.proxies, i);
        var name := g.proxies[i];
        if name in proxyTags || name in groupTags || name == Groups.DIRECT { filtered := filtered + [name]; }
      }
    }

    method FilterHealthCheckProxies(proxies: seq<string>) returns (filtered: seq<string>)
      ensures filtered == Groups.Without(proxies, invalidTags)
    {
      if invalidTags == {} {
        WithoutNone(proxies);
        return proxies;
      }
      filtered := [];
      for i := 0 to |proxies|
        invariant filtered + Groups.Without(proxies[i..], invalidTags) == Groups.Without(proxies, invalidTags)
      {
        TakeOne(proxies, i);
        if proxies[i] !in invalidTags { filtered := filtered + [proxies[i]]; }
      }
    }

    /** One group of the loop in translateGroups. */
    method TranslateGroup(g: RawGroup) returns (ob: Option<Outbound>)
      ensures ob == Groups.Translated(g, proxyTags + groupTags + {Groups.DIRECT}, invalidTags)
    {
      if g.name == "" { return None; }
      var filtered := FilterGroupProxies(g);
      if filtered == [] { return None; }
      match g.kind {
        case "select" => ob := Some(Groups.SelectorOf(g.name, filtered));
        case "url-test" =>
          filtered := FilterHealthCheckProxies(filtered);
          if filtered == [] { return None; }
          ob := Some(Group(g.name, URLTest, filtered, None, Some(Groups.Probing(g, Groups.Tolerance(g)))));
        case "fallback" =>
          filtered := FilterHealthCheckProxies(filtered);
          if filtered == [] { return None; }
          ob := Some(Group(g.name, URLTest, filtered, None, Some(Groups.Probing(g, Some(Groups.FALLBACK_TOLERANCE)))));
        case "load-balance" => ob := Some(Groups.SelectorOf(g.name, filtered));
        case _ => ob := None;
      }
    }

    /** One pass of the clean-up: `translated` and groupTags lose the names of the groups it drops. */
    method CleanupGroupOutboundsOnce(groups: seq<Outbound>, translated: set<string>)
      returns (result: seq<Outbound>, left: set<string>, dropped: nat)
      requires Groups.AllGroups(groups)
      modifies this`groupTags
      ensures var valid := Groups.ValidTags(proxyTags, translated);
              && result == Groups.Kept(groups, valid)
              && left == translated - Groups.Dropped(groups, valid)
              && groupTags == old(groupTags) - Groups.Dropped(groups, valid)
      ensures dropped == |groups| - |result|
    {
      hide Groups.Kept, Groups.Dropped, Groups.Cleaned, Groups.Only;
      var valid := Groups.ValidTags(proxyTags, translated);
      NothingCleaned(groups, valid);
      result, left, dropped := [], translated, 0;
      for i := 0 to |groups|
        invariant result + Groups.Kept(groups[i..], valid) == Groups.Kept(groups, valid)
        invariant left == translated - Groups.Dropped(groups[..i], valid)
        invariant groupTags == old(groupTags) - Groups.Dropped(groups[..i], valid)
        invariant dropped == i - |result|
      {
        KeptStep(groups, i, valid, result);
        DroppedStep(groups, i, valid);
        var cleaned := CleanGroup(groups[i], valid);
        if cleaned.None? {
          left := left - {groups[i].tag};
          groupTags := groupTags - {groups[i].tag};
          dropped := dropped + 1;
          continue;
        }
        result := result + [cleaned.value];
      }
      assert groups[..|groups|] == groups;
    }

    /** One group of the pass; None when no valid member is left. */
    method CleanGroup(ob: Outbound, valid: set<string>) returns (cleaned: Option<Outbound>)
      requires ob.Group?
      ensures cleaned == if Groups.Only(ob.members, valid) == [] then None else Some(Groups.Cleaned(ob, valid))
    {
      var clean := CleanMembers(ob.members, valid);
      if clean == [] { return None; }
      var made := ob.(members := clean);
      if ob.dflt.Some? && ob.dflt.value !in valid { made := made.(dflt := Some(clean[0])); }
      return Some(made);
    }

    method CleanMembers(members: seq<string>, valid: set<string>) returns (clean: seq<string>)
      ensures clean == Groups.Only(members, valid)
    {
      clean := [];
      for i := 0 to |members|
        invariant clean + Groups.Only(members[i..], valid) == Groups.Only(members, valid)
      {
        TakeOne(members, i);
        if members[i] in valid { clean := clean + [members[i]]; }
      }
    }

    /** cleanupGroupOutbounds: passes until one drops nothing. The number of groups falls with every other pass. */
    method CleanupGroupOutbounds(groups: seq<Outbound>, translated: set<string>)
      returns (result: seq<Outbound>, left: set<string>)
      requires Groups.AllGroups(groups)
      modifies this`groupTags
      ensures Groups.Fixpoint(groups, translated, proxyTags) == Groups.CleanUp(result, left)
      ensures groupTags <= old(groupTags) && forall n :: n in old(groupTags) && n in left ==> n in groupTags
    {
      result, left := groups, translated;
      var dropped := 1;
      while dropped != 0
        invariant Groups.AllGroups(result) && TagSet(result) <= TagSet(groups) && left <= translated
        invariant if dropped != 0 then Groups.Fixpoint(result, left, proxyTags) ==
                  Groups.Fixpoint(groups, translated, proxyTags)
                  else Groups.Fixpoint(groups, translated, proxyTags) == Groups.CleanUp(result, left)
        invariant groupTags <= old(groupTags) && forall n :: n in old(groupTags) && n in left ==> n in groupTags
        decreases |result|, dropped
      {
        ghost var before := result;
        ghost var valid := Groups.ValidTags(proxyTags, left);
        result, left, dropped := CleanupGroupOutboundsOnce(result, left);
        DroppedAreTags(before, valid);
        KeptTags(before, valid);
      }
    }

    /** The first loop of translateGroups: every group name is a valid reference until its group is skipped. */
    method NameGroups(gs: seq<RawGroup>)
      modifies this`groupTags
      ensures groupTags == old(groupTags) + Groups.Names(gs)
    {
      for i := 0 to |gs|
        invariant groupTags == old(groupTags) + Groups.Names(gs[..i])
      {
        TakeOne(gs, i);
        NamesSnoc(gs[..i], gs[i]);
        if gs[i].name != "" { groupTags := groupTags + {gs[i].name}; }
      }
      assert gs[..|gs|] == gs;
    }

    /** The last loop: the translated groups give the order, the others stop being valid references. */
    method OrderGroups(gs: seq<RawGroup>, translated: set<string>)
      modifies this`groupTags, this`groupOrder
      ensures groupOrder == old(groupOrder) + OrderOf(gs, translated)
      ensures groupTags == old(groupTags) - (Groups.Names(gs) - translated)
    {
      for i := 0 to |gs|
        invariant groupOrder + OrderOf(gs[i..], translated) == old(groupOrder) + OrderOf(gs, translated)
        invariant groupTags == old(groupTags) - (Groups.Names(gs[..i]) - translated)
      {
        TakeOne(gs, i);
        NamesSnoc(gs[..i], gs[i]);
        var name := gs[i].name;
        if name != "" && name in translated {
          groupOrder := groupOrder + [name];
        } else if name != "" {
          groupTags := groupTags - {name};
        }
      }
      assert gs[..|gs|] == gs;
    }

    method TranslateGroups(gs: seq<RawGroup>) returns (groups: seq<Outbound>, ghost translated: set<string>)
      requires groupTags == {} && groupOrder == []
      modifies this`groupTags, this`groupOrder
      ensures var all := Groups.AllTranslated(gs, proxyTags + Groups.Names(gs) + {Groups.DIRECT}, invalidTags);
              Groups.AllGroups(all) && Groups.Fixpoint(all, TagSet(all), proxyTags) ==
                Groups.CleanUp(groups, translated)
      ensures groupOrder == OrderOf(gs, translated)
      ensures groupTags == Groups.Names(gs) * translated
    {
      NameGroups(gs);
      assert groupTags == Groups.Names(gs);
      ghost var known := proxyTags + groupTags + {Groups.DIRECT};
      ghost var all := Groups.AllTranslated(gs, known, invalidTags);
      groups := [];
      var done := {};
      for i := 0 to |gs|
        invariant groupTags == Groups.Names(gs) && groupOrder == []
        invariant groups + Groups.AllTranslated(gs[i..], known, invalidTags) == all
        invariant done == TagSet(groups)
      {
        AllTranslatedStep(gs, i, known, invalidTags, groups);
        var ob := TranslateGroup(gs[i]);
        if ob.Some? {
          TagSetSnoc(groups, ob.value);
          groups := groups + [ob.value];
          done := done + {gs[i].name};
        }
      }
      assert groups == all;
      Groups.AllTranslatedFacts(gs, known, invalidTags);
      assert forall g :: g in all ==> Groups.WellMade(g);
      groups, done := CleanupGroupOutbounds(groups, done);
      translated := done;
      OrderGroups(gs, done);
    }

    /** generateDefaultGroups: every proxy in one selector and, from two probeable ones on, a urltest group in front. */
    method GenerateDefaultGroups() returns (groups: seq<Outbound>, ghost order: seq<string>)
      modifies this`groupTags, this`groupOrder
      ensures Lists(order, proxyTags)
      ensures groups == DefaultGroups(order, invalidTags)
      ensures groupTags == old(groupTags) + TagSet(groups)
      ensures groupOrder == if proxyTags == {} then old(groupOrder) else ["PROXY"]
    {
      hide LexLe, Groups.Without, Groups.Probing;
      var allProxies := SortKeys(proxyTags);
      order := allProxies;
      assert allProxies == [] <==> proxyTags == {} by {
        if allProxies != [] { assert allProxies[0] in allProxies; }
      }
      if allProxies == [] { return [], order; }
      var healthy := FilterHealthCheckProxies(allProxies);
      var members := [];
      groups := [];
      if |healthy| >= 2 {
        groups := [AutoGroup(healthy)];
        members := ["Auto"];
        groupTags := groupTags + {"Auto"};
      }
      assert [] + allProxies == allProxies;
      members := members + allProxies;
      groups := groups + [Groups.SelectorOf("PROXY", members)];
      groupTags := groupTags + {"PROXY"};
      groupOrder := ["PROXY"];
      DefaultGroupTags(allProxies, invalidTags);
    }
  }

  // ---- the default groups ----

  function AutoGroup(members: seq<string>): Outbound {
    Group("Auto", URLTest, members, None, Some(Groups.Probing(RawGroup("", "", [], "", None, None), None)))
  }

  function DefaultGroups(order: seq<string>, invalid: set<string>): seq<Outbound> {
    var healthy := Groups.Without(order, invalid);
    if order == [] then []
    else if |healthy| >= 2 then [AutoGroup(healthy), Groups.SelectorOf("PROXY", ["Auto"] + order)]
    else [Groups.SelectorOf("PROXY", order)]
  }

  lemma DefaultGroupTags(order: seq<string>, invalid: set<string>)
    ensures TagSet(DefaultGroups(order, invalid)) ==
            if order == [] then {} else if |Groups.Without(order, invalid)| >= 2 then {"Auto", "PROXY"} else {"PROXY"}
  {
    var groups := DefaultGroups(order, invalid);
    if |groups| == 2 {
      assert groups[0].tag == "Auto" && groups[1].tag == "PROXY";
    } else if |groups| == 1 {
      assert groups[0].tag == "PROXY";
    }
  }

  /** The default groups are well made, list only proxies and each other, and probe none that must not be probed. */
  lemma DefaultGroupsSound(order: seq<string>, invalid: set<string>)
    ensures var groups := DefaultGroups(order, invalid);
            && Groups.AllWellMade(groups)
            && (forall g :: g in groups ==> Groups.ProbesOnlyValid(g, invalid))
            && (forall g, m :: g in groups && m in g.members ==> m in order || m in TagSet(groups))
  {
    Groups.WithoutMembers(order, invalid);
    DefaultGroupTags(order, invalid);
  }

  // ---- lemmas of the loops above ----

  lemma AllStep(ps: seq<RawProxy>, i: nat, env: Env, done: seq<Outbound>)
    requires i < |ps|
    ensures done + Proxies.All(ps[i..], env) ==
            (if ps[i].name == "" then done else done + [Proxies.Translated(ps[i], env)]) + Proxies.All(ps[i + 1..], env)
  {
    assert ps[i..][1..] == ps[i + 1..];
  }

  lemma StubMapStep(ps: seq<RawProxy>, i: nat, env: Env, done: map<string, string>)
    requires i < |ps|
    ensures done + Proxies.StubMap(ps[i..], env) ==
            (if ps[i].name != "" && Proxies.BecomesStub(ps[i], env) then done[ps[i].name := ps[i].kind] else done)
            + Proxies.StubMap(ps[i + 1..], env)
  {
    assert ps[i..][1..] == ps[i + 1..];
    var first := if ps[i].name != "" && Proxies.BecomesStub(ps[i], env) then map[ps[i].name := ps[i].kind] else map[];
    Proxies.MergeThree(done, first, Proxies.StubMap(ps[i + 1..], env));
    assert done + first == if ps[i].name != "" && Proxies.BecomesStub(ps[i], env) then done[ps[i].name := ps[i].kind]
           else done;
  }

  lemma AllTranslatedStep(gs: seq<RawGroup>, i: nat, known: set<string>, invalid: set<string>, done: seq<Outbound>)
    requires i < |gs|
    ensures var one := Groups.Translated(gs[i], known, invalid);
            done + Groups.AllTranslated(gs[i..], known, invalid) ==
            (if one.Some? then done + [one.value] else done) + Groups.AllTranslated(gs[i + 1..], known, invalid)
    ensures Groups.Translated(gs[i], known, invalid).Some? ==>
            Groups.Translated(gs[i], known, invalid).value.tag == gs[i].name
  {
    assert gs[i..][1..] == gs[i + 1..];
  }

  /** The names of the groups that were translated, in configuration order. */
  function OrderOf(gs: seq<RawGroup>, translated: set<string>): seq<string> {
    if gs == [] then []
    else (if gs[0].name != "" && gs[0].name in translated then [gs[0].name] else []) + OrderOf(gs[1..], translated)
  }

  lemma {:induction false} OrderIsTranslated(gs: seq<RawGroup>, translated: set<string>)
    ensures forall n :: n in OrderOf(gs, translated) <==> n in Groups.Names(gs) && n in translated
  {
    if gs != [] {
      OrderIsTranslated(gs[1..], translated);
      forall n ensures n in Groups.Names(gs) <==> (n == gs[0].name && n != "") || n in Groups.Names(gs[1..]) {
        NamesCons(gs, n);
      }
    }
  }

  lemma NamesCons(gs: seq<RawGroup>, n: string)
    requires gs != []
    ensures n in Groups.Names(gs) <==> (n == gs[0].name && n != "") || n in Groups.Names(gs[1..])
  {
    if n in Groups.Names(gs) {
      var i :| 0 <= i < |gs| && gs[i].name != "" && gs[i].name == n;
      if i > 0 { assert gs[1..][i - 1].name == n; }
    }
    if n in Groups.Names(gs[1..]) {
      var i :| 0 <= i < |gs[1..]| && gs[1..][i].name != "" && gs[1..][i].name == n;
      assert gs[i + 1].name == n;
    }
  }

  lemma NamesSnoc(gs: seq<RawGroup>, g: RawGroup)
    ensures Groups.Names(gs + [g]) == Groups.Names(gs) + (if g.name != "" then {g.name} else {})
  {
    var all := gs + [g];
    assert forall i :: 0 <= i < |gs| ==> all[i] == gs[i];
    assert all[|gs|] == g;
    forall n | n in Groups.Names(gs) ensures n in Groups.Names(all) {
      var i :| 0 <= i < |gs| && gs[i].name != "" && gs[i].name == n;
      assert all[i].name == n;
    }
  }

  lemma TagSetSnoc(obs: seq<Outbound>, ob: Outbound)
    ensures TagSet(obs + [ob]) == TagSet(obs) + {ob.tag}
  {
    var all := obs + [ob];
    assert forall i :: 0 <= i < |obs| ==> all[i] == obs[i];
    assert all[|obs|] == ob;
    forall t | t in TagSet(obs) + {ob.tag} ensures t in TagSet(all) {
      if t in TagSet(obs) {
        var i :| 0 <= i < |obs| && obs[i].tag == t;
        assert all[i].tag == t;
      }
    }
  }

  lemma InvalidNamesSnoc(ps: seq<RawProxy>, p: RawProxy, env: Env)
    ensures Proxies.InvalidNames(ps + [p], env) ==
            Proxies.InvalidNames(ps, env)
            + (if p.name != "" && (Proxies.InvalidEndpoint(p, env) || Proxies.BecomesStub(p, env)) then {p.name}
               else {})
  {
    var all := ps + [p];
    assert forall i :: 0 <= i < |ps| ==> all[i] == ps[i];
    assert all[|ps|] == p;
    forall n | n in Proxies.InvalidNames(ps, env) ensures n in Proxies.InvalidNames(all, env) {
      var i :| 0 <= i < |ps| && ps[i].name == n && n != "" && (Proxies.InvalidEndpoint(ps[i], env)
                                                               || Proxies.BecomesStub(ps[i], env));
      assert all[i].name == n;
    }
  }

  lemma {:induction false} WithoutNone(members: seq<string>)
    ensures Groups.Without(members, {}) == members
  {
    if members != [] { WithoutNone(members[1..]); }
  }

  lemma NothingCleaned(groups: seq<Outbound>, valid: set<string>)
    requires Groups.AllGroups(groups)
    ensures [] + Groups.Kept(groups[0..], valid) == Groups.Kept(groups, valid)
    ensures Groups.Kept(groups[|groups|..], valid) == [] && Groups.Dropped(groups[..0], valid) == {}
  {
    assert groups[0..] == groups;
  }

  /** One group of a pass: it is kept, cleaned, or not. */
  lemma KeptStep(groups: seq<Outbound>, i: nat, valid: set<string>, done: seq<Outbound>)
    requires Groups.AllGroups(groups) && i < |groups|
    ensures done + Groups.Kept(groups[i..], valid) ==
            (if Groups.Only(groups[i].members, valid) == [] then done else done + [Groups.Cleaned(groups[i], valid)])
            + Groups.Kept(groups[i + 1..], valid)
  {
    hide Groups.Only, Groups.Cleaned;
    assert groups[i..][1..] == groups[i + 1..] && groups[i..][0] == groups[i];
    if Groups.Only(groups[i].members, valid) != [] {
      var one := [Groups.Cleaned(groups[i], valid)];
      assert done + (one + Groups.Kept(groups[i + 1..], valid)) == (done + one) + Groups.Kept(groups[i + 1..], valid);
    }
  }

  lemma DroppedStep(groups: seq<Outbound>, i: nat, valid: set<string>)
    requires Groups.AllGroups(groups) && i < |groups|
    ensures Groups.Dropped(groups[..i + 1], valid) ==
            Groups.Dropped(groups[..i], valid) + (if Groups.Only(groups[i].members, valid) == [] then {groups[i].tag}
                                                  else {})
  {
    hide Groups.Only;
    var all := groups[..i + 1];
    assert forall j :: 0 <= j < i ==> all[j] == groups[..i][j];
    assert all[i] == groups[i];
    forall t | t in Groups.Dropped(groups[..i], valid) ensures t in Groups.Dropped(all, valid) {
      var j :| 0 <= j < i && Groups.Only(groups[j].members, valid) == [] && groups[j].tag == t;
      assert all[j].tag == t;
    }
  }

  lemma DroppedAreTags(groups: seq<Outbound>, valid: set<string>)
    requires Groups.AllGroups(groups)
    ensures Groups.Dropped(groups, valid) <= TagSet(groups)
  {}

  lemma KeptTags(groups: seq<Outbound>, valid: set<string>)
    requires Groups.AllGroups(groups)
    ensures TagSet(Groups.Kept(groups, valid)) <= TagSet(groups)
    ensures |Groups.Kept(groups, valid)| == |groups| ==> Groups.Dropped(groups, valid) == {}
  {
    var kept := Groups.Kept(groups, valid);
    forall t | t in kept ensures t.tag in TagSet(groups) {
      var g := Groups.KeptAre(groups, valid, t);
    }
    if |kept| == |groups| { Groups.KeptAllDroppedNone(groups, valid); }
  }
}
