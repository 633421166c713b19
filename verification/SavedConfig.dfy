/** A configuration as the service takes it: a saved sing-box document passes through, anything else is translated;
    then the rule-set proxy is applied and the stub map recovered where translation gave none. */
module SavedConfig {
  import opened Basics
  import opened Text
  import opened Config
  import opened Translator
  import opened Validation
  import Groups
  import Proxies
  import Autoroute
  import Pipeline

  /** What the bytes are, decoded: a JSON document, a configuration to translate, or neither. */
  datatype Content = Json(saved: Output) | Foreign(cfg: RawConfig) | Unreadable

  datatype Failure = Unparsed | Invalid(error: Error)

  datatype Result = Failed(why: Failure) | Ready(document: Output, stubs: map<string, string>)

  // ---- the rule-set proxy ----

  function TrimSlashes(s: string): string {
    if s != [] && s[|s| - 1] == '/' then TrimSlashes(s[..|s| - 1]) else s
  }

  function ProxyURL(url: string, proxy: string): string {
    var prefix := TrimSlashes(proxy);
    if prefix != "" && HasPrefix(url, Autoroute.RAW_GITHUB_PREFIX) then prefix + "/" + url else url
  }

  function ProxiedSets(sets: seq<RuleSet>, proxy: string): (r: seq<RuleSet>)
    ensures |r| == |sets| && forall i :: 0 <= i < |sets| ==> r[i] == sets[i].(url := ProxyURL(sets[i].url, proxy))
  {
    seq(|sets|, i requires 0 <= i < |sets| => sets[i].(url := ProxyURL(sets[i].url, proxy)))
  }

  lemma {:induction false} TrimmedAt(s: string) returns (k: nat)
    ensures k <= |s| && TrimSlashes(s) == s[..k] && (k > 0 ==> s[k - 1] != '/')
    ensures forall i :: k <= i < |s| ==> s[i] == '/'
  {
    if s != [] && s[|s| - 1] == '/' {
      k := TrimmedAt(s[..|s| - 1]);
      assert s[..|s| - 1][..k] == s[..k];
      assert forall i :: k <= i < |s| - 1 ==> s[..|s| - 1][i] == s[i];
    } else {
      k := |s|;
      assert s[..k] == s;
    }
  }

  /** An address at GitHub is reached through the proxy, which is written in front, its trailing slashes replaced by
      one; any other address, and every one without a proxy, stays. */
  lemma ProxyExactly(url: string, proxy: string) returns (k: nat)
    ensures k <= |proxy| && (forall i :: k <= i < |proxy| ==> proxy[i] == '/') && (k > 0 ==> proxy[k - 1] != '/')
    ensures ProxyURL(url, proxy) ==
            if k > 0 && HasPrefix(url, "https://raw.githubusercontent.com/") then proxy[..k] + "/" + url else url
  {
    k := TrimmedAt(proxy);
  }

  /** ApplyRuleSetProxy: only the addresses of rule sets change. */
  method ApplyRuleSetProxy(o: Output, proxy: string) returns (r: Output)
    ensures r == o.(ruleSets := if proxy == "" then o.ruleSets else ProxiedSets(o.ruleSets, proxy))
  {
    if proxy == "" { return o; }
    var sets := o.ruleSets;
    for i := 0 to |sets|
      invariant |sets| == |o.ruleSets|
      invariant forall j :: 0 <= j < i ==> sets[j] == o.ruleSets[j].(url := ProxyURL(o.ruleSets[j].url, proxy))
      invariant forall j :: i <= j < |sets| ==> sets[j] == o.ruleSets[j]
    {
      if sets[i].url != "" { sets := sets[i := sets[i].(url := ProxyURL(sets[i].url, proxy))]; }
    }
    r := o.(ruleSets := sets);
  }

  // ---- reading stub marks back ----

  method ExtractStubTags(obs: seq<Outbound>) returns (tags: map<string, string>)
    ensures tags == Proxies.Extracted(obs)
  {
    tags := map[];
    for i := 0 to |obs|
      invariant tags + Proxies.Extracted(obs[i..]) == Proxies.Extracted(obs)
    {
      ExtractedStep(obs, i, tags);
      var ob := obs[i];
      if !ob.Node? || ob.kind != "socks" || ob.server != "127.0.0.1" || ob.port != 1 { continue; }
      if !HasPrefix(ob.username, Proxies.MARK) { continue; }
      tags := tags[ob.tag := ob.username[|Proxies.MARK|..]];
    }
  }

  lemma ExtractedStep(obs: seq<Outbound>, i: nat, done: map<string, string>)
    requires i < |obs|
    ensures done + Proxies.Extracted(obs[i..]) ==
            (if Proxies.StubShaped(obs[i]) then done[obs[i].tag := obs[i].username[|Proxies.MARK|..]] else done)
            + Proxies.Extracted(obs[i + 1..])
  {
    assert obs[i..][1..] == obs[i + 1..];
    Proxies.MergeThree(done, Proxies.Mark(obs[i]), Proxies.Extracted(obs[i + 1..]));
    assert done + Proxies.Mark(obs[i]) ==
           if Proxies.StubShaped(obs[i]) then done[obs[i].tag := obs[i].username[|Proxies.MARK|..]] else done;
  }

  // ---- translateConfig ----

  /** What translateConfig yields for content that converts to `o` with the stub map `stubs`. */
  function Finished(o: Output, stubs: map<string, string>, proxy: string): Result {
    var document := o.(ruleSets := if proxy == "" then o.ruleSets else ProxiedSets(o.ruleSets, proxy));
    Ready(document, if |stubs| == 0 then Proxies.Extracted(document.outbounds) else stubs)
  }

  method TranslateConfig(content: Content, proxy: string, env: Env)
    returns (r: Result, ghost groups: seq<Outbound>, ghost group: Option<string>, ghost hosts: seq<string>,
             ghost o: Output)
    ensures content.Unreadable? ==> r == Failed(Unparsed)
    ensures content.Json? ==> r == Finished(content.saved, map[], proxy)
    ensures content.Foreign? ==>
              && Pipeline.Made(content.cfg, env, groups, group, hosts, o)
              && (if DistinctTags(o.outbounds) then r == Finished(o, Proxies.StubMap(content.cfg.proxies, env), proxy)
                  else r.Failed? && r.why.Invalid? && r.why.error.DuplicateTag?)
  {
    hide Pipeline.Made;
    var document, stubs;
    match content {
      case Unreadable =>
        groups, group, hosts, o := [], None, [], Output([], [], [], "", "", [], [], "");
        return Failed(Unparsed), groups, group, hosts, o;
      case Json(saved) =>
        document, stubs := saved, map[];
        groups, group, hosts, o := [], None, [], saved;
      case Foreign(cfg) =>
        var err, warnings;
        document, stubs, err, warnings, groups, group, hosts := Pipeline.TranslateFromConfig(cfg, env);
        o := document;
        if err.Some? { return Failed(Invalid(err.value)), groups, group, hosts, o; }
    }
    if proxy != "" { document := ApplyRuleSetProxy(document, proxy); }
    if |stubs| == 0 { stubs := ExtractStubTags(document.outbounds); }
    r := Ready(document, stubs);
  }

  // ---- a saved document starts again the same ----

  lemma HeadApart(o: Outbound, rest: seq<Outbound>)
    requires DistinctTags([o] + rest)
    ensures DistinctTags(rest) && (o.tag != "" ==> o.tag !in TagSet(rest))
  {
    var all := [o] + rest;
    assert all[0] == o;
    assert forall j :: 0 <= j < |rest| ==> rest[j] == all[j + 1];
    forall j | 0 <= j < |rest| && o.tag != "" ensures rest[j].tag != o.tag {
      assert all[0].tag != all[j + 1].tag;
    }
  }

  lemma NameIsTag(ps: seq<RawProxy>, env: Env, p: RawProxy)
    requires p in ps && p.name != ""
    ensures p.name in TagSet(Proxies.All(ps, env))
  {
    Proxies.AllHas(ps, env, p);
    var all := Proxies.All(ps, env);
    var i :| 0 <= i < |all| && all[i] == Proxies.Translated(p, env);
  }

  lemma {:induction false} DistinctSources(ps: seq<RawProxy>, env: Env)
    requires DistinctTags(Proxies.All(ps, env))
    ensures forall p, q :: p in ps && q in ps && p.name == q.name && p.name != "" ==> p == q
  {
    if ps != [] {
      var all, rest := Proxies.All(ps, env), Proxies.All(ps[1..], env);
      if ps[0].name == "" {
        assert all == rest;
      } else {
        HeadApart(Proxies.Translated(ps[0], env), rest);
      }
      forall q | q in ps[1..] && q.name != "" ensures q.name in TagSet(rest) { NameIsTag(ps[1..], env, q); }
      DistinctSources(ps[1..], env);
      assert forall p :: p in ps ==> p == ps[0] || p in ps[1..];
    }
  }

  lemma GroupsUnmarked(nodes: seq<Outbound>, groups: seq<Outbound>)
    requires forall g :: g in groups ==> g.Group?
    ensures Proxies.Extracted([Builtin("DIRECT")] + (nodes + groups)) == Proxies.Extracted(nodes)
  {
    Proxies.NoMarks([Builtin("DIRECT")]);
    Proxies.NoMarks(groups);
    Proxies.ExtractedJoin([Builtin("DIRECT")], nodes + groups);
    Proxies.ExtractedJoin(nodes, groups);
  }

  /** A configuration that translates, saved, and started again without a rule-set proxy (as the watchdog does): the
      document is the same, whatever proxy it was first translated with; and the stub map is the same if and only if
      the first had no stub to report, or no genuine proxy looks like one. */
  lemma SavedStartsTheSame(cfg: RawConfig, env: Env, proxy: string, groups: seq<Outbound>, group: Option<string>,
                           hosts: seq<string>, o: Output)
    requires Pipeline.Made(cfg, env, groups, group, hosts, o) && DistinctTags(o.outbounds)
    ensures var stubs := Proxies.StubMap(cfg.proxies, env);
            var first := Finished(o, stubs, proxy);
            var again := Finished(first.document, map[], "");
            && again.document == first.document
            && (again.stubs == first.stubs <==>
                  stubs == map[] || forall p :: p in cfg.proxies ==> !Proxies.Lookalike(p, env))
  {
    hide Pipeline.Made;
    var nodes := Proxies.All(cfg.proxies, env);
    var stubs := Proxies.StubMap(cfg.proxies, env);
    Outbounds(cfg, env, groups, group, hosts, o);
    GroupsUnmarked(nodes, groups);
    assert forall i :: 0 <= i < |nodes| ==> nodes[i] == o.outbounds[i + 1];
    DistinctSources(cfg.proxies, env);
    Proxies.StubRoundTripExactly(cfg.proxies, env);
    assert |stubs| == 0 <==> stubs == map[];
  }

  lemma Outbounds(cfg: RawConfig, env: Env, groups: seq<Outbound>, group: Option<string>, hosts: seq<string>, o: Output)
    requires Pipeline.Made(cfg, env, groups, group, hosts, o)
    ensures o.outbounds == [Builtin("DIRECT")] + (Proxies.All(cfg.proxies, env) + groups)
    ensures forall g :: g in groups ==> g.Group?
  {
    var nodes := Proxies.All(cfg.proxies, env);
    Pipeline.MadeGroupsSound(cfg.groups, TagSet(nodes), Proxies.InvalidNames(cfg.proxies, env), groups, group);
    assert forall g :: g in groups ==> Groups.WellMade(g);
  }
}
