/** The outbounds of the output, read off the configuration alone: the proxies in order, real or as stubs; the groups
    that survive, in which order, with which members and settings; and the first, the one everything else is sent to. */
module Outbounds {
  import opened Basics
  import opened Text
  import opened Config
  import opened Translator
  import opened Pipeline
  import opened Soundness
  import opened Picking
  import Proxies
  import Groups
  import Routes
  import Dns
  import DnsRules

  // ---- what the configuration says ----

  /** The names of the proxies. */
  function Named(cfg: RawConfig): set<string> { set p | p in cfg.proxies && p.name != "" :: p.name }

  /** The proxy must not be probed: it becomes a stub, its host is dead, or its port is no port. */
  predicate Unprobeable(p: RawProxy, env: Proxies.Env) {
    || p.server == "" || (p.port == 0 && p.ports == "") || env.body(p).None?
    || (TrimSpace(p.server) != ""
        && (env.deadHost(Proxies.Unbracketed(TrimSpace(p.server))) || p.port < 0 || p.port > 65535))
  }

  function UnprobeableNames(cfg: RawConfig, env: Proxies.Env): set<string> {
    set p | p in cfg.proxies && p.name != "" && Unprobeable(p, env) :: p.name
  }

  predicate Probes(g: RawGroup) { g.kind == "url-test" || g.kind == "fallback" }

  predicate Selects(g: RawGroup) { g.kind == "select" || g.kind == "load-balance" }

  /** What a group may offer, once `groups` are the groups there are. */
  function Allowed(cfg: RawConfig, env: Proxies.Env, g: RawGroup, groups: set<string>): set<string> {
    Named(cfg) + groups + {"DIRECT"} - (if Probes(g) then UnprobeableNames(cfg, env) else {})
  }

  /** The group can be written: it has a name, a known type, and a member it may offer. */
  ghost predicate Offers(cfg: RawConfig, env: Proxies.Env, g: RawGroup, groups: set<string>) {
    g.name != "" && (Selects(g) || Probes(g)) && exists m :: m in g.proxies && m in Allowed(cfg, env, g, groups)
  }

  /** Each name belongs to a group that can be written given the others. */
  ghost predicate Backed(cfg: RawConfig, env: Proxies.Env, S: set<string>) {
    forall n :: n in S ==>
      exists i :: 0 <= i < |cfg.groups| && cfg.groups[i].name == n && Offers(cfg, env, cfg.groups[i], S)
  }

  /** The names of all groups that can be written together. */
  ghost predicate Surviving(cfg: RawConfig, env: Proxies.Env, S: set<string>) {
    Backed(cfg, env, S) && forall T: set<string> :: Backed(cfg, env, T) ==> T <= S
  }

  // ---- members ----

  /** `some` are the elements of `all` that are in `keep`, in order and as often as there. */
  ghost predicate InOrder(all: seq<string>, some: seq<string>, keep: set<string>) {
    exists at: seq<nat> :: PicksAt(all, some, keep, at)
  }

  ghost predicate PicksAt(all: seq<string>, some: seq<string>, keep: set<string>, at: seq<nat>) {
    && Increasing(at) && |at| == |some|
    && (forall k :: 0 <= k < |at| ==> at[k] < |all| && some[k] == all[at[k]] && some[k] in keep)
    && (forall i: nat :: i < |all| && all[i] in keep ==> i in at)
  }

  function AllowedOr(m: string, allowed: set<string>): Option<string> { if m in allowed then Some(m) else None }

  lemma OnlyStep(members: seq<string>, allowed: set<string>)
    requires members != []
    ensures Groups.Only(members, allowed) ==
            (if AllowedOr(members[0], allowed).Some? then [AllowedOr(members[0], allowed).value] else [])
            + Groups.Only(members[1..], allowed)
  {}

  lemma {:induction false} OnlyPicked(members: seq<string>, allowed: set<string>) returns (at: seq<nat>)
    ensures Picked(members, Groups.Only(members, allowed), m => AllowedOr(m, allowed), at)
  {
    at := [];
    if members != [] {
      var rest := OnlyPicked(members[1..], allowed);
      hide Picked, Behind, AllowedOr;
      at := Behind(AllowedOr(members[0], allowed).Some?, rest);
      PickedCons(members[0], members[1..], Groups.Only(members[1..], allowed), m => AllowedOr(m, allowed), rest);
      assert [members[0]] + members[1..] == members;
      OnlyStep(members, allowed);
    }
  }

  lemma OnlyPicks(members: seq<string>, allowed: set<string>)
    ensures InOrder(members, Groups.Only(members, allowed), allowed)
  {
    var at := OnlyPicked(members, allowed);
    assert PicksAt(members, Groups.Only(members, allowed), allowed, at);
  }

  lemma {:induction false} WithoutIsOnly(members: seq<string>, banned: set<string>, allowed: set<string>)
    requires forall m :: m in members ==> (m in allowed <==> m !in banned)
    ensures Groups.Without(members, banned) == Groups.Only(members, allowed)
  {
    if members != [] { WithoutIsOnly(members[1..], banned, allowed); }
  }

  lemma {:induction false} OnlySame(members: seq<string>, one: set<string>, two: set<string>)
    requires forall m :: m in members ==> (m in one <==> m in two)
    ensures Groups.Only(members, one) == Groups.Only(members, two)
  {
    if members != [] { OnlySame(members[1..], one, two); }
  }

  // ---- the vocabulary of the translator ----

  lemma {:induction false} NamedAre(ps: seq<RawProxy>, env: Proxies.Env)
    ensures TagSet(Proxies.All(ps, env)) == set p | p in ps && p.name != "" :: p.name
  {
    var obs := Proxies.All(ps, env);
    forall t | t in TagSet(obs) ensures t in set p | p in ps && p.name != "" :: p.name {
      var i :| 0 <= i < |obs| && obs[i].tag == t;
      var p := SourceOf(ps, env, obs[i]);
    }
    forall p | p in ps && p.name != "" ensures p.name in TagSet(obs) {
      Proxies.AllHas(ps, env, p);
      var i :| 0 <= i < |obs| && obs[i] == Proxies.Translated(p, env);
    }
  }

  lemma UnprobeableAre(cfg: RawConfig, env: Proxies.Env)
    ensures Proxies.InvalidNames(cfg.proxies, env) == UnprobeableNames(cfg, env)
  {
    forall p | p in cfg.proxies
      ensures (Proxies.InvalidEndpoint(p, env) || Proxies.BecomesStub(p, env)) <==> Unprobeable(p, env)
    {}
    forall n | n in UnprobeableNames(cfg, env) ensures n in Proxies.InvalidNames(cfg.proxies, env) {
      var p :| p in cfg.proxies && p.name == n && n != "" && Unprobeable(p, env);
      var i :| 0 <= i < |cfg.proxies| && cfg.proxies[i] == p;
    }
  }

  /** What a group may refer to before it is known which groups survive. */
  function Known(cfg: RawConfig): set<string> { Named(cfg) + Groups.Names(cfg.groups) + {"DIRECT"} }

  function Candidate(cfg: RawConfig, env: Proxies.Env, g: RawGroup): Option<Outbound> {
    Groups.Translated(g, Known(cfg), UnprobeableNames(cfg, env))
  }

  // ---- one group ----

  /** The probe settings: the interval between 1 second and 30 minutes, 3 minutes if none is given; idle after at least
      30 minutes and twice the interval; a tolerance of at most 65535, and of 10 seconds for a fallback group. */
  predicate ProbedAs(g: RawGroup, p: Probe) {
    && p.url == (if g.url == "" then "http://www.gstatic.com/generate_204" else g.url)
    && p.interval == (if g.interval.None? || g.interval.value <= 0 then 180
                      else if g.interval.value <= 1800 then g.interval.value else 1800)
    && p.idleTimeout == (if p.interval <= 900 then 1800 else 2 * p.interval)
    && p.tolerance == (if g.kind == "fallback" then Some(10000)
                       else if g.tolerance.None? || g.tolerance.value <= 0 then None
                       else if g.tolerance.value <= 65535 then g.tolerance else Some(65535))
  }

  /** The outbound is the group, with the members it may offer in their order. */
  ghost predicate WrittenAs(cfg: RawConfig, env: Proxies.Env, g: RawGroup, S: set<string>, o: Outbound) {
    && o.Group? && o.tag == g.name && o.members != [] && InOrder(g.proxies, o.members, Allowed(cfg, env, g, S))
    && (Selects(g) ==> o.gtype == Selector && o.dflt == Some(o.members[0]) && o.probe == None)
    && (Probes(g) ==> o.gtype == URLTest && o.dflt == None && o.probe.Some? && ProbedAs(g, o.probe.value))
    && (Selects(g) || Probes(g))
  }

  /** The members a group starts with. */
  lemma CandidateMembers(cfg: RawConfig, env: Proxies.Env, g: RawGroup)
    requires g.name != "" && (Selects(g) || Probes(g))
    ensures var ms := Groups.Only(g.proxies, Known(cfg) - (if Probes(g) then UnprobeableNames(cfg, env) else {}));
            if ms == [] then Candidate(cfg, env, g) == None
            else Candidate(cfg, env, g).Some? && Candidate(cfg, env, g).value.Group?
                 && Candidate(cfg, env, g).value.members == ms
  {
    var known, banned := Known(cfg), UnprobeableNames(cfg, env);
    var filtered := Groups.Only(g.proxies, known);
    Groups.OnlyMembers(g.proxies, known);
    if Probes(g) {
      WithoutIsOnly(filtered, banned, known - banned);
      Groups.OnlyTwice(g.proxies, known, known - banned);
    } else {
      assert known - {} == known;
    }
  }

  lemma CandidateShape(cfg: RawConfig, env: Proxies.Env, g: RawGroup)
    requires Candidate(cfg, env, g).Some?
    ensures g.name != "" && (Selects(g) || Probes(g))
    ensures var o := Candidate(cfg, env, g).value;
            && o.Group? && o.tag == g.name && o.members != []
            && (Selects(g) ==> o.gtype == Selector && o.dflt == Some(o.members[0]) && o.probe == None)
            && (Probes(g) ==> o.gtype == URLTest && o.dflt == None && o.probe.Some? && ProbedAs(g, o.probe.value))
  {}

  /** A group can be written exactly if it is translated and keeps a member. */
  lemma OffersExactly(cfg: RawConfig, env: Proxies.Env, g: RawGroup, S: set<string>)
    requires S <= Groups.Names(cfg.groups)
    ensures Offers(cfg, env, g, S) <==>
            Candidate(cfg, env, g).Some? && Candidate(cfg, env, g).value.Group?
            && exists m :: m in Candidate(cfg, env, g).value.members && m in Groups.ValidTags(Named(cfg), S)
  {
    if Candidate(cfg, env, g).Some? { CandidateShape(cfg, env, g); }
    if g.name != "" && (Selects(g) || Probes(g)) {
      var keep := Known(cfg) - (if Probes(g) then UnprobeableNames(cfg, env) else {});
      CandidateMembers(cfg, env, g);
      Groups.OnlyMembers(g.proxies, keep);
      hide Candidate, UnprobeableNames, Probes, Selects;
      if Offers(cfg, env, g, S) {
        var m :| m in g.proxies && m in Allowed(cfg, env, g, S);
        assert m in Groups.Only(g.proxies, keep);
      }
    }
  }

  /** What the clean-up makes of it. */
  lemma CleanedIsWritten(cfg: RawConfig, env: Proxies.Env, g: RawGroup, S: set<string>)
    requires S <= Groups.Names(cfg.groups) && Candidate(cfg, env, g).Some? && Candidate(cfg, env, g).value.Group?
    requires Groups.Only(Candidate(cfg, env, g).value.members, Groups.ValidTags(Named(cfg), S)) != []
    ensures WrittenAs(cfg, env, g, S, Groups.Cleaned(Candidate(cfg, env, g).value, Groups.ValidTags(Named(cfg), S)))
  {
    var o, valid := Candidate(cfg, env, g).value, Groups.ValidTags(Named(cfg), S);
    CandidateShape(cfg, env, g);
    CandidateMembers(cfg, env, g);
    CleanedShape(o, valid);
    var keep := Known(cfg) - (if Probes(g) then UnprobeableNames(cfg, env) else {});
    hide Candidate, UnprobeableNames, Probes, Selects, ProbedAs;
    Groups.OnlyBoth(g.proxies, keep, valid);
    OnlySame(g.proxies, keep * valid, Allowed(cfg, env, g, S));
    OnlyPicks(g.proxies, Allowed(cfg, env, g, S));
  }

  /** The default stays the first member. */
  lemma CleanedShape(o: Outbound, valid: set<string>)
    requires Groups.WellMade(o) && Groups.Only(o.members, valid) != []
    ensures var c := Groups.Cleaned(o, valid);
            && c.tag == o.tag && c.members == Groups.Only(o.members, valid) && c.gtype == o.gtype && c.probe == o.probe
            && (o.dflt.Some? ==> c.dflt == Some(c.members[0])) && (o.dflt.None? ==> c.dflt == None)
  {
    Groups.CleanedWellMade(o, valid);
  }

  // ---- all groups ----

  /** The groups before the clean-up, as the pipeline makes them. */
  lemma CandidatesAre(cfg: RawConfig, env: Proxies.Env)
    ensures Candidates(cfg, env) == Groups.AllTranslated(cfg.groups, Known(cfg), UnprobeableNames(cfg, env))
    ensures TagSet(Proxies.All(cfg.proxies, env)) == Named(cfg)
    ensures Proxies.InvalidNames(cfg.proxies, env) == UnprobeableNames(cfg, env)
  {
    NamedAre(cfg.proxies, env);
    UnprobeableAre(cfg, env);
  }

  lemma TranslatedFirst(gs: seq<RawGroup>, known: set<string>, invalid: set<string>)
    requires gs != []
    ensures var first := Groups.Translated(gs[0], known, invalid);
            Groups.AllTranslated(gs, known, invalid) ==
            (if first.Some? then [first.value] else []) + Groups.AllTranslated(gs[1..], known, invalid)
  {
    hide Groups.Translated;
  }

  /** The groups that are translated are in the order of the configuration. */
  lemma {:induction false} TranslatedAt(gs: seq<RawGroup>, known: set<string>, invalid: set<string>)
    returns (at: seq<nat>)
    ensures Picked(gs, Groups.AllTranslated(gs, known, invalid), g => Groups.Translated(g, known, invalid), at)
  {
    at := [];
    if gs != [] {
      var rest := TranslatedAt(gs[1..], known, invalid);
      TranslatedFirst(gs, known, invalid);
      hide Groups.Translated, Groups.AllTranslated, Picked, Behind;
      at := Behind(Groups.Translated(gs[0], known, invalid).Some?, rest);
      PickedCons(gs[0], gs[1..], Groups.AllTranslated(gs[1..], known, invalid),
                 g => Groups.Translated(g, known, invalid), rest);
      assert [gs[0]] + gs[1..] == gs;
    }
  }

  function CleanedOr(g: Outbound, valid: set<string>): Option<Outbound> {
    if g.Group? && Groups.Only(g.members, valid) != [] then Some(Groups.Cleaned(g, valid)) else None
  }

  lemma KeptFirst(groups: seq<Outbound>, valid: set<string>)
    requires Groups.AllGroups(groups) && groups != []
    ensures Groups.Kept(groups, valid) ==
            (if CleanedOr(groups[0], valid).Some? then [CleanedOr(groups[0], valid).value] else [])
            + Groups.Kept(groups[1..], valid)
  {
    hide Groups.Only, Groups.Cleaned;
  }

  lemma {:induction false} KeptAt(groups: seq<Outbound>, valid: set<string>) returns (at: seq<nat>)
    requires Groups.AllGroups(groups)
    ensures Picked(groups, Groups.Kept(groups, valid), g => CleanedOr(g, valid), at)
  {
    at := [];
    if groups != [] {
      var rest := KeptAt(groups[1..], valid);
      KeptFirst(groups, valid);
      hide Groups.Kept, CleanedOr, Picked, Behind;
      at := Behind(CleanedOr(groups[0], valid).Some?, rest);
      PickedCons(groups[0], groups[1..], Groups.Kept(groups[1..], valid), g => CleanedOr(g, valid), rest);
      assert [groups[0]] + groups[1..] == groups;
    }
  }

  /** A group of the configuration among the candidates is the only one of its name. */
  lemma CandidateOf(cfg: RawConfig, env: Proxies.Env, o: Outbound) returns (i: nat)
    requires o in Groups.AllTranslated(cfg.groups, Known(cfg), UnprobeableNames(cfg, env))
    ensures i < |cfg.groups| && Candidate(cfg, env, cfg.groups[i]) == Some(o) && cfg.groups[i].name == o.tag != ""
  {
    var at := TranslatedAt(cfg.groups, Known(cfg), UnprobeableNames(cfg, env));
    var all := Groups.AllTranslated(cfg.groups, Known(cfg), UnprobeableNames(cfg, env));
    var k :| 0 <= k < |all| && all[k] == o;
    i := at[k];
    CandidateShape(cfg, env, cfg.groups[i]);
  }

  lemma CandidateIn(cfg: RawConfig, env: Proxies.Env, i: nat)
    requires i < |cfg.groups| && Candidate(cfg, env, cfg.groups[i]).Some?
    ensures Candidate(cfg, env, cfg.groups[i]).value in
            Groups.AllTranslated(cfg.groups, Known(cfg), UnprobeableNames(cfg, env))
  {
    var at := TranslatedAt(cfg.groups, Known(cfg), UnprobeableNames(cfg, env));
    var k :| 0 <= k < |at| && at[k] == i;
  }

  // ---- which survive ----

  lemma BackedAreNames(cfg: RawConfig, env: Proxies.Env, S: set<string>)
    requires Backed(cfg, env, S)
    ensures S <= Groups.Names(cfg.groups)
  {
    forall n | n in S ensures n in Groups.Names(cfg.groups) {
      var i :| 0 <= i < |cfg.groups| && cfg.groups[i].name == n && Offers(cfg, env, cfg.groups[i], S);
    }
  }

  /** For distinct names, a set of names is backed exactly if the clean-up calls it supported. */
  lemma BackedIsSupported(cfg: RawConfig, env: Proxies.Env, S: set<string>)
    requires GroupNamesDistinct(cfg.groups) && Backed(cfg, env, S)
    ensures S <= TagSet(Candidates(cfg, env)) && Groups.Supported(Candidates(cfg, env), S, Named(cfg))
  {
    CandidatesAre(cfg, env);
    BackedAreNames(cfg, env, S);
    var all := Candidates(cfg, env);
    hide Candidate, Groups.Names, Offers, Candidates;
    forall n | n in S ensures n in TagSet(all) {
      var i :| 0 <= i < |cfg.groups| && cfg.groups[i].name == n && Offers(cfg, env, cfg.groups[i], S);
      OffersExactly(cfg, env, cfg.groups[i], S);
      CandidateIn(cfg, env, i);
      CandidateShape(cfg, env, cfg.groups[i]);
    }
    forall g | g in all && g.tag in S ensures exists m :: m in g.members && m in Groups.ValidTags(Named(cfg), S) {
      var j := CandidateOf(cfg, env, g);
      var i :| 0 <= i < |cfg.groups| && cfg.groups[i].name == g.tag && Offers(cfg, env, cfg.groups[i], S);
      assert i == j;
      OffersExactly(cfg, env, cfg.groups[i], S);
    }
  }

  lemma SupportedIsBacked(cfg: RawConfig, env: Proxies.Env, S: set<string>)
    requires S <= TagSet(Candidates(cfg, env)) && S <= Groups.Names(cfg.groups)
    requires Groups.Supported(Candidates(cfg, env), S, Named(cfg))
    ensures Backed(cfg, env, S)
  {
    CandidatesAre(cfg, env);
    var all := Candidates(cfg, env);
    hide Candidate, Groups.Names, Offers, Candidates;
    forall n | n in S
      ensures exists i :: 0 <= i < |cfg.groups| && cfg.groups[i].name == n && Offers(cfg, env, cfg.groups[i], S)
    {
      var k :| 0 <= k < |all| && all[k].tag == n;
      var i := CandidateOf(cfg, env, all[k]);
      OffersExactly(cfg, env, cfg.groups[i], S);
    }
  }

  /** For distinct names the clean-up keeps the names of all groups that can be written together, and of no others. */
  lemma SurvivorsExactly(cfg: RawConfig, env: Proxies.Env)
    requires GroupNamesDistinct(cfg.groups)
    ensures var all := Candidates(cfg, env);
            && Surviving(cfg, env, Groups.Fixpoint(all, TagSet(all), Named(cfg)).translated)
            && Groups.Fixpoint(all, TagSet(all), Named(cfg)).groups ==
               Groups.Kept(all, Groups.ValidTags(Named(cfg), Groups.Fixpoint(all, TagSet(all), Named(cfg)).translated))
  {
    var all := Candidates(cfg, env);
    CandidatesDistinct(cfg, env);
    Groups.FixpointIsGreatest(all, Named(cfg));
    hide Groups.Fixpoint, Candidates, Backed, Groups.Supported, Groups.Names;
    var S := Groups.Fixpoint(all, TagSet(all), Named(cfg)).translated;
    SupportedIsBacked(cfg, env, S);
    forall T: set<string> | Backed(cfg, env, T) ensures T <= S {
      BackedIsSupported(cfg, env, T);
    }
  }

  // ---- what the output says ----

  /** The groups kept are the candidates that survive, in the order of the configuration and as it says. */
  lemma KeptAreWritten(cfg: RawConfig, env: Proxies.Env, S: set<string>) returns (at: seq<nat>)
    requires S <= Groups.Names(cfg.groups)
    ensures var kept := Groups.Kept(Candidates(cfg, env), Groups.ValidTags(Named(cfg), S));
            && Increasing(at) && |at| == |kept|
            && forall k :: 0 <= k < |at| ==> at[k] < |cfg.groups| && WrittenAs(cfg, env, cfg.groups[at[k]], S, kept[k])
  {
    CandidatesAre(cfg, env);
    var valid, all := Groups.ValidTags(Named(cfg), S), Candidates(cfg, env);
    var outer := TranslatedAt(cfg.groups, Known(cfg), UnprobeableNames(cfg, env));
    var inner := KeptAt(all, valid);
    var kept := Groups.Kept(all, valid);
    at := Through(inner, outer);
    forall k | 0 <= k < |at| ensures at[k] < |cfg.groups| && WrittenAs(cfg, env, cfg.groups[at[k]], S, kept[k]) {
      assert CleanedOr(all[inner[k]], valid) == Some(kept[k]);
      assert Candidate(cfg, env, cfg.groups[at[k]]) == Some(all[inner[k]]);
      hide Candidate, Picked, WrittenAs, Groups.Only, Groups.Cleaned, Candidates;
      CleanedIsWritten(cfg, env, cfg.groups[at[k]], S);
    }
  }

  /** The first name of the order is that of the first group translated. */
  lemma {:induction false} OrderBeginsWith(gs: seq<RawGroup>, translated: set<string>, i: nat)
    requires i < |gs| && gs[i].name != "" && gs[i].name in translated
    requires forall j :: 0 <= j < i ==> gs[j].name == "" || gs[j].name !in translated
    ensures OrderOf(gs, translated) != [] && OrderOf(gs, translated)[0] == gs[i].name
  {
    if i > 0 {
      assert forall j :: 0 <= j < i - 1 ==> gs[1..][j] == gs[j + 1];
      OrderBeginsWith(gs[1..], translated, i - 1);
    }
  }

  /** Whatever the names: the first group is the first of the configuration that has a name and is still counted as
      translated after the clean-up. */
  lemma FirstGroupExactly(cfg: RawConfig, env: Proxies.Env, groups: seq<Outbound>, group: Option<string>,
                          hosts: seq<string>, o: Output, i: nat)
    requires Made(cfg, env, groups, group, hosts, o)
    requires var all := Candidates(cfg, env);
             var translated := Groups.Fixpoint(all, TagSet(all), Named(cfg)).translated;
             && i < |cfg.groups| && cfg.groups[i].name != "" && cfg.groups[i].name in translated
             && forall j :: 0 <= j < i ==> cfg.groups[j].name == "" || cfg.groups[j].name !in translated
    ensures group == Some(cfg.groups[i].name) && o.final == cfg.groups[i].name
    ensures exists g :: g in o.outbounds && g.Group? && g.tag == cfg.groups[i].name
  {
    hide Groups.Fixpoint, Groups.AllTranslated, Routes.GeoRules, Routes.Assembled, Dns.FinalServers, Dns.FinalTag,
      DnsRules.FinalRules;
    NamedAre(cfg.proxies, env);
    var all := Candidates(cfg, env);
    var translated := Groups.Fixpoint(all, TagSet(all), Named(cfg)).translated;
    OrderBeginsWith(cfg.groups, translated, i);
    var proxies, invalid := TagSet(Proxies.All(cfg.proxies, env)), Proxies.InvalidNames(cfg.proxies, env);
    MadeGroupsSound(cfg.groups, proxies, invalid, groups, group);
    var k :| 0 <= k < |groups| && groups[k].tag == cfg.groups[i].name;
    assert groups[k] in groups && groups[k] in o.outbounds;
  }

  /** The groups of the output are those at these positions of the configuration, in this order: every one whose name
      survives, written as the configuration says. */
  ghost predicate GroupsAt(cfg: RawConfig, env: Proxies.Env, S: set<string>, groups: seq<Outbound>, at: seq<nat>) {
    && Increasing(at) && |at| == |groups|
    && (forall k :: 0 <= k < |at| ==> at[k] < |cfg.groups| && WrittenAs(cfg, env, cfg.groups[at[k]], S, groups[k]))
    && (forall i: nat :: i < |cfg.groups| ==> (cfg.groups[i].name in S <==> i in at))
  }

  lemma TagsAt(cfg: RawConfig, env: Proxies.Env, S: set<string>, groups: seq<Outbound>, at: seq<nat>)
    requires GroupNamesDistinct(cfg.groups) && TagSet(groups) == S && "" !in S
    requires Increasing(at) && |at| == |groups|
    requires forall k :: 0 <= k < |at| ==> at[k] < |cfg.groups| && WrittenAs(cfg, env, cfg.groups[at[k]], S, groups[k])
    ensures GroupsAt(cfg, env, S, groups, at)
  {
    assert forall k :: 0 <= k < |at| ==> groups[k].tag == cfg.groups[at[k]].name && groups[k].tag in TagSet(groups);
    hide WrittenAs;
    forall i: nat | i < |cfg.groups| ensures cfg.groups[i].name in S <==> i in at {
      if cfg.groups[i].name in S {
        var k :| 0 <= k < |groups| && groups[k].tag == cfg.groups[i].name;
        assert at[k] == i;
      }
    }
  }

  /** For distinct names the pipeline writes the groups that survive. */
  lemma MadeSurvivors(cfg: RawConfig, env: Proxies.Env, groups: seq<Outbound>, group: Option<string>, S: set<string>)
    requires MadeGroups(cfg.groups, TagSet(Proxies.All(cfg.proxies, env)), Proxies.InvalidNames(cfg.proxies, env),
                        groups, group)
    requires GroupNamesDistinct(cfg.groups) && Surviving(cfg, env, S)
    ensures S <= Groups.Names(cfg.groups) && "" !in S
    ensures if S != {} then OrderOf(cfg.groups, S) != [] && group == Some(OrderOf(cfg.groups, S)[0])
                            && groups == Groups.Kept(Candidates(cfg, env), Groups.ValidTags(Named(cfg), S))
                            && TagSet(groups) == S
            else exists names :: Lists(names, Named(cfg)) && groups == DefaultGroups(names, UnprobeableNames(cfg, env))
                                 && group == if names == [] then None else Some("PROXY")
  {
    CandidatesAre(cfg, env);
    CandidatesDistinct(cfg, env);
    SurvivorsExactly(cfg, env);
    BackedAreNames(cfg, env, S);
    var all := Candidates(cfg, env);
    Groups.FixpointIsGreatest(all, Named(cfg));
    hide Groups.Fixpoint, Candidates, Proxies.All, Backed;
    assert S == Groups.Fixpoint(all, TagSet(all), Named(cfg)).translated;
    OrderWhole(cfg.groups, S);
  }

  /** For distinct names, if any group can be written: the groups of the output are exactly those that can be written
      together, in the order of the configuration and as it says, and the first group of the configuration among them
      is the one that everything is sent to. */
  lemma GroupsExactly(cfg: RawConfig, env: Proxies.Env, groups: seq<Outbound>, group: Option<string>,
                      hosts: seq<string>, o: Output, S: set<string>)
    returns (at: seq<nat>)
    requires Made(cfg, env, groups, group, hosts, o) && GroupNamesDistinct(cfg.groups)
    requires Surviving(cfg, env, S) && S != {}
    ensures GroupsAt(cfg, env, S, groups, at)
    ensures at != [] && group == Some(cfg.groups[at[0]].name) == Some(groups[0].tag) && o.final == groups[0].tag
    ensures o.outbounds == [Builtin("DIRECT")] + (Proxies.All(cfg.proxies, env) + groups)
  {
    hide Routes.GeoRules, Routes.Assembled, Dns.FinalServers, Dns.FinalTag, DnsRules.FinalRules, MadeGroups,
      Proxies.All, Surviving, WrittenAs, Groups.Kept, TagSet, Groups.Names, OrderOf;
    MadeSurvivors(cfg, env, groups, group, S);
    at := KeptAreWritten(cfg, env, S);
    TagsAt(cfg, env, S, groups, at);
    SomeTag(groups);
    assert WrittenAs(cfg, env, cfg.groups[at[0]], S, groups[0]);
    TagWritten(cfg, env, cfg.groups[at[0]], S, groups[0]);
    FirstIsFirst(cfg, at, S);
  }

  lemma SomeTag(groups: seq<Outbound>)
    requires TagSet(groups) != {}
    ensures groups != []
  {
    var n :| n in TagSet(groups);
    var k :| 0 <= k < |groups| && groups[k].tag == n;
  }

  lemma TagWritten(cfg: RawConfig, env: Proxies.Env, g: RawGroup, S: set<string>, o: Outbound)
    requires WrittenAs(cfg, env, g, S, o)
    ensures o.tag == g.name
  {}

  lemma FirstIsFirst(cfg: RawConfig, at: seq<nat>, S: set<string>)
    requires at != [] && Increasing(at) && at[0] < |cfg.groups| && "" !in S
    requires forall i: nat :: i < |cfg.groups| ==> (cfg.groups[i].name in S <==> i in at)
    ensures OrderOf(cfg.groups, S) != [] && OrderOf(cfg.groups, S)[0] == cfg.groups[at[0]].name
  {
    assert at[0] in at;
    forall j | 0 <= j < at[0] ensures cfg.groups[j].name !in S {
      assert j !in at;
    }
    OrderBeginsWith(cfg.groups, S, at[0]);
  }

  /** What the default groups are: a selector over everything, and what may be probed in front if that is enough. */
  ghost predicate WrittenByDefault(groups: seq<Outbound>, names: seq<string>, probeable: set<string>) {
    if names == [] then groups == []
    else if |probeable| < 2 then groups == [Group("PROXY", Selector, names, Some(names[0]), None)]
    else
      && |groups| == 2 && groups[0].Group? && groups[0].tag == "Auto" && groups[0].gtype == URLTest
      && InOrder(names, groups[0].members, probeable) && groups[0].dflt == None
      && groups[0].probe == Some(Probe("http://www.gstatic.com/generate_204", 180, 1800, None))
      && groups[1] == Group("PROXY", Selector, ["Auto"] + names, Some("Auto"), None)
  }

  lemma DefaultsAreWritten(names: seq<string>, proxies: set<string>, banned: set<string>)
    requires Lists(names, proxies)
    ensures WrittenByDefault(DefaultGroups(names, banned), names, proxies - banned)
  {
    WithoutCount(names, banned);
    assert (set n | n in names) == proxies;
    WithoutIsOnly(names, banned, proxies - banned);
    OnlyPicks(names, proxies - banned);
    hide InOrder, Lists;
    assert names != [] ==> (["Auto"] + names)[0] == "Auto";
  }

  /** If none can be written, every proxy is offered under PROXY, in the order of the names; from two that may be probed
      on, a group of these stands in front. Without proxies there are no groups, and everything goes DIRECT. */
  lemma DefaultGroupsExactly(cfg: RawConfig, env: Proxies.Env, groups: seq<Outbound>, group: Option<string>,
                             hosts: seq<string>, o: Output)
    returns (names: seq<string>)
    requires Made(cfg, env, groups, group, hosts, o) && GroupNamesDistinct(cfg.groups) && Surviving(cfg, env, {})
    ensures Lists(names, Named(cfg))
    ensures WrittenByDefault(groups, names, Named(cfg) - UnprobeableNames(cfg, env))
    ensures names == [] ==> group == None && o.final == "DIRECT"
    ensures names != [] ==> group == Some("PROXY") && o.final == "PROXY"
  {
    hide Routes.GeoRules, Routes.Assembled, Dns.FinalServers, Dns.FinalTag, DnsRules.FinalRules, MadeGroups,
      Proxies.All, Surviving, UnprobeableNames, Groups.Names, OrderOf, DefaultGroups, WrittenByDefault, Lists;
    MadeSurvivors(cfg, env, groups, group, {});
    names :| Lists(names, Named(cfg)) && groups == DefaultGroups(names, UnprobeableNames(cfg, env))
             && group == if names == [] then None else Some("PROXY");
    DefaultsAreWritten(names, Named(cfg), UnprobeableNames(cfg, env));
  }

  /** There is always a greatest set of groups that can be written together. */
  lemma SomeSurvive(cfg: RawConfig, env: Proxies.Env) returns (S: set<string>)
    requires GroupNamesDistinct(cfg.groups)
    ensures Surviving(cfg, env, S)
  {
    SurvivorsExactly(cfg, env);
    S := Groups.Fixpoint(Candidates(cfg, env), TagSet(Candidates(cfg, env)), Named(cfg)).translated;
  }

  // ---- the proxies ----

  /** Of no supported protocol, or without an address. */
  predicate Unsupported(p: RawProxy, env: Proxies.Env) {
    p.server == "" || (p.port == 0 && p.ports == "") || env.body(p).None?
  }

  /** What a proxy with a name becomes: its translation, reached through its dialer if it names one, or a node that
      only keeps its name and protocol. */
  predicate NodeFor(p: RawProxy, env: Proxies.Env, o: Outbound) {
    && o.Node? && o.tag == p.name
    && if Unsupported(p, env) then
         o.kind == "socks" && o.server == "127.0.0.1" && o.port == 1 && o.username == "unsupported:" + p.kind
         && o.echName == "" && o.detour == None
       else
         var b := env.body(p).value;
         o.kind == b.kind && o.server == b.server && o.port == b.port && o.username == b.username
         && o.echName == b.echName && o.detour == if p.dialer == "" then None else Some(p.dialer)
  }

  /** The proxies at the positions `at` are those that have a name, and became `nodes`. */
  ghost predicate NodesAt(ps: seq<RawProxy>, env: Proxies.Env, nodes: seq<Outbound>, at: seq<nat>) {
    && Increasing(at) && |at| == |nodes|
    && (forall k :: 0 <= k < |at| ==> at[k] < |ps| && NodeFor(ps[at[k]], env, nodes[k]))
    && (forall i: nat :: i < |ps| ==> (ps[i].name != "" <==> i in at))
  }

  function NodeOr(p: RawProxy, env: Proxies.Env): Option<Outbound> {
    if p.name == "" then None else Some(Proxies.Translated(p, env))
  }

  lemma {:induction false} NodesPicked(ps: seq<RawProxy>, env: Proxies.Env) returns (at: seq<nat>)
    ensures Picked(ps, Proxies.All(ps, env), p => NodeOr(p, env), at)
  {
    at := [];
    if ps != [] {
      var rest := NodesPicked(ps[1..], env);
      hide Picked, Behind;
      at := Behind(NodeOr(ps[0], env).Some?, rest);
      PickedCons(ps[0], ps[1..], Proxies.All(ps[1..], env), p => NodeOr(p, env), rest);
      assert [ps[0]] + ps[1..] == ps;
    }
  }

  /** Every proxy with a name becomes one node, in the order of the configuration. */
  lemma NodesExactly(ps: seq<RawProxy>, env: Proxies.Env) returns (at: seq<nat>)
    ensures NodesAt(ps, env, Proxies.All(ps, env), at)
  {
    at := NodesPicked(ps, env);
    var nodes := Proxies.All(ps, env);
    forall k | 0 <= k < |at| ensures NodeFor(ps[at[k]], env, nodes[k]) && ps[at[k]].name != "" {
      assert NodeOr(ps[at[k]], env) == Some(nodes[k]);
    }
  }

  /** The map of stubs has exactly the names of unsupported proxies; of several with one name it has the last one's
      protocol. */
  lemma {:induction false} StubsExactly(ps: seq<RawProxy>, env: Proxies.Env, name: string)
    ensures name in Proxies.StubMap(ps, env) <==>
            name != "" && exists i :: 0 <= i < |ps| && ps[i].name == name && Unsupported(ps[i], env)
    ensures forall i :: 0 <= i < |ps| && ps[i].name == name && name != "" && Unsupported(ps[i], env)
                        && (forall j :: i < j < |ps| && ps[j].name == name ==> !Unsupported(ps[j], env)) ==>
            name in Proxies.StubMap(ps, env) && Proxies.StubMap(ps, env)[name] == ps[i].kind
  {
    if ps != [] {
      StubsExactly(ps[1..], env, name);
      assert forall i :: 0 < i < |ps| ==> ps[i] == ps[1..][i - 1];
      assert Proxies.BecomesStub(ps[0], env) <==> Unsupported(ps[0], env);
    }
  }

  // ---- the names ECH keys are asked for ----

  function EchName(o: Outbound): string { if o.Node? then o.echName else "" }

  /** `names` are the names the outbounds at these positions ask for, each where it first occurs. */
  ghost predicate FirstsAt(obs: seq<Outbound>, names: seq<string>, at: seq<nat>) {
    && Increasing(at) && |at| == |names|
    && (forall k :: 0 <= k < |at| ==> at[k] < |obs| && names[k] == EchName(obs[at[k]]) != "")
    && (forall i, k :: 0 <= k < |at| && 0 <= i < at[k] ==> EchName(obs[i]) != names[k])
    && (forall i :: 0 <= i < |obs| && EchName(obs[i]) != "" ==> EchName(obs[i]) in names)
  }

  lemma {:induction false} EchNamesFrom(all: seq<Outbound>, i: nat, seen: seq<string>, at: seq<nat>)
    returns (more: seq<nat>)
    requires i <= |all| && FirstsAt(all[..i], seen, at)
    ensures FirstsAt(all, Proxies.EchNames(all[i..], seen), more)
    decreases |all| - i
  {
    if i == |all| {
      assert all[..i] == all;
      more := at;
    } else {
      var n := EchName(all[i]);
      assert all[i..][1..] == all[i + 1..];
      assert forall j :: 0 <= j < i ==> all[..i + 1][j] == all[..i][j];
      if n == "" || n in seen {
        FirstsStay(all, i, seen, at);
        more := EchNamesFrom(all, i + 1, seen, at);
      } else {
        FirstsGrow(all, i, seen, at);
        more := EchNamesFrom(all, i + 1, seen + [n], at + [i]);
      }
    }
  }

  lemma FirstsStay(all: seq<Outbound>, i: nat, seen: seq<string>, at: seq<nat>)
    requires i < |all| && FirstsAt(all[..i], seen, at) && (EchName(all[i]) == "" || EchName(all[i]) in seen)
    ensures FirstsAt(all[..i + 1], seen, at)
  {
    var less, more := all[..i], all[..i + 1];
    assert forall j :: 0 <= j < i ==> more[j] == less[j];
    assert forall k :: 0 <= k < |at| ==> at[k] < i;
  }

  lemma FirstsGrow(all: seq<Outbound>, i: nat, seen: seq<string>, at: seq<nat>)
    requires i < |all| && FirstsAt(all[..i], seen, at) && EchName(all[i]) != "" && EchName(all[i]) !in seen
    ensures FirstsAt(all[..i + 1], seen + [EchName(all[i])], at + [i])
  {
    var less, more := all[..i], all[..i + 1];
    assert forall j :: 0 <= j < i ==> more[j] == less[j];
    assert forall k :: 0 <= k < |at| ==> at[k] < i;
    assert forall j :: 0 <= j < i && EchName(less[j]) != "" ==> EchName(less[j]) in seen;
  }

  /** The names are those the translated proxies ask for, each once, in the order they first occur. */
  lemma EchNamesExactly(obs: seq<Outbound>) returns (at: seq<nat>)
    ensures FirstsAt(obs, Proxies.EchNames(obs, []), at)
  {
    at := EchNamesFrom(obs, 0, [], []);
    assert obs[0..] == obs;
  }
}
