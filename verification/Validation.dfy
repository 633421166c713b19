/** The final check of the output's references. */
module Validation {
  import opened Basics
  import opened Config
  import opened Translator
  import Dns

  datatype Error =
    | DuplicateTag(tag: string)
    | DanglingMember(group: string, member: string)
    | DanglingFinal(tag: string)
    | DanglingDetour(server: string, tag: string)
    | DanglingServer(tag: string)
    | DanglingDNSFinal(tag: string)

  // ---- what is checked ----

  /** No two outbounds carry the same tag; untagged ones do not count. */
  ghost predicate DistinctTags(obs: seq<Outbound>) {
    forall i, j :: 0 <= i < j < |obs| && obs[i].tag != "" ==> obs[i].tag != obs[j].tag
  }

  /** The tags outbounds can be referred to by. DIRECT is always one. */
  function KnownTags(obs: seq<Outbound>): set<string> { {"DIRECT"} + TagSet(obs) - {""} }

  ghost predicate MembersResolve(obs: seq<Outbound>) {
    forall g, m :: g in obs && g.Group? && m in g.members ==> m in KnownTags(obs)
  }

  ghost predicate DetoursResolve(o: Output) {
    forall s :: s in o.servers && s.detour.Some? && s.detour.value != "" ==> s.detour.value in KnownTags(o.outbounds)
  }

  function ServerTags(servers: seq<Dns.Server>): set<string> {
    set i | 0 <= i < |servers| && servers[i].tag != "" :: servers[i].tag
  }

  ghost predicate DNSRulesResolve(o: Output) {
    forall r :: r in o.dnsRules && r.server != "" ==> r.server in ServerTags(o.servers)
  }

  ghost predicate RouteRulesResolve(o: Output) {
    forall r :: r in o.rules && r.outbound.Some? && r.outbound.value != "" ==>
      r.outbound.value in KnownTags(o.outbounds)
  }

  /** What validate asks of an output. (References it does not look at: Soundness has them all.) */
  ghost predicate Passes(o: Output) { DistinctTags(o.outbounds) && ReferencesChecked(o) }

  /** No reference that validate fails on dangles. */
  ghost predicate ReferencesChecked(o: Output) {
    && MembersResolve(o.outbounds)
    && (o.final != "" ==> o.final in KnownTags(o.outbounds))
    && DetoursResolve(o) && DNSRulesResolve(o)
    && (o.dnsFinal != "" ==> o.dnsFinal in ServerTags(o.servers))
  }

  // ---- the checks ----

  /** collectOutboundTags: fails on the first tag that occurs again. */
  method CollectOutboundTags(t: Translation) returns (tags: set<string>, err: Option<Error>)
    ensures err.None? <==> DistinctTags(t.outbounds)
    ensures err.None? ==> tags == KnownTags(t.outbounds)
    ensures err.Some? ==> err.value.DuplicateTag?
                          && exists i, j ::
                               0 <= i < j < |t.outbounds| && t.outbounds[i].tag == t.outbounds[j].tag == err.value.tag
  {
    tags := {"DIRECT"};
    var directSeen := false;
    err := None;
    for i := 0 to |t.outbounds|
      invariant DistinctTags(t.outbounds[..i])
      invariant tags == KnownTags(t.outbounds[..i])
      invariant directSeen <==> "DIRECT" in TagSet(t.outbounds[..i])
    {
      ghost var done := t.outbounds[..i];
      TakeOne(t.outbounds, i);
      TagSetSnoc(done, t.outbounds[i]);
      var tag := t.outbounds[i].tag;
      if tag == "" { continue; }
      if tag == "DIRECT" {
        if directSeen {
          ghost var k :| 0 <= k < i && done[k].tag == tag;
          assert t.outbounds[k].tag == tag;
          return {}, Some(DuplicateTag(tag));
        }
        directSeen := true;
        continue;
      }
      if tag in tags {
        ghost var k :| 0 <= k < i && done[k].tag == tag;
        assert t.outbounds[k].tag == tag;
        return {}, Some(DuplicateTag(tag));
      }
      tags := tags + {tag};
    }
    assert t.outbounds[..|t.outbounds|] == t.outbounds;
  }

  /** validateGroupMembers. */
  method ValidateGroupMembers(t: Translation, tags: set<string>) returns (err: Option<Error>)
    requires tags == KnownTags(t.outbounds)
    ensures err.None? <==> MembersResolve(t.outbounds)
    ensures err.Some? ==> err.value.DanglingMember?
  {
    for i := 0 to |t.outbounds|
      invariant forall k, m :: 0 <= k < i && t.outbounds[k].Group? && m in t.outbounds[k].members ==> m in tags
    {
      var ob := t.outbounds[i];
      if !ob.Group? { continue; }
      for j := 0 to |ob.members|
        invariant forall k :: 0 <= k < j ==> ob.members[k] in tags
      {
        if ob.members[j] !in tags {
          assert ob in t.outbounds && ob.members[j] in ob.members;
          return Some(DanglingMember(ob.tag, ob.members[j]));
        }
      }
    }
    return None;
  }

  /** validateRouteRules only warns: the rules whose outbound does not exist. */
  method ValidateRouteRules(t: Translation, tags: set<string>) returns (warnings: seq<string>)
    requires tags == KnownTags(t.outbounds)
    ensures warnings == [] <==> RouteRulesResolve(t.Written())
    ensures forall w :: w in warnings ==> w !in tags
  {
    warnings := [];
    for i := 0 to |t.rules|
      invariant warnings == [] <==>
                forall j :: 0 <= j < i && t.rules[j].outbound.Some? && t.rules[j].outbound.value != "" ==>
                  t.rules[j].outbound.value in tags
      invariant forall w :: w in warnings ==> w !in tags
    {
      var outbound := if t.rules[i].outbound.Some? then t.rules[i].outbound.value else "";
      if outbound != "" && outbound !in tags { warnings := warnings + [outbound]; }
    }
  }

  /** validateDNSReferences. */
  method ValidateDNSReferences(t: Translation, tags: set<string>) returns (err: Option<Error>)
    requires tags == KnownTags(t.outbounds)
    ensures err.None? <==>
            DetoursResolve(t.Written()) && DNSRulesResolve(t.Written())
              && (t.dnsFinal != "" ==> t.dnsFinal in ServerTags(t.servers))
    ensures err.Some? ==> !err.value.DuplicateTag?
  {
    var serverTags: set<string> := {};
    for i := 0 to |t.servers|
      invariant serverTags == set k | 0 <= k < i && t.servers[k].tag != "" :: t.servers[k].tag
    {
      if t.servers[i].tag != "" { serverTags := serverTags + {t.servers[i].tag}; }
    }
    for i := 0 to |t.servers|
      invariant forall k :: 0 <= k < i && t.servers[k].detour.Some? && t.servers[k].detour.value != "" ==>
                t.servers[k].detour.value in tags
    {
      var detour := if t.servers[i].detour.Some? then t.servers[i].detour.value else "";
      if detour != "" && detour !in tags {
        assert t.servers[i] in t.servers;
        return Some(DanglingDetour(t.servers[i].tag, detour));
      }
    }
    for i := 0 to |t.dnsRules|
      invariant forall k :: 0 <= k < i && t.dnsRules[k].server != "" ==> t.dnsRules[k].server in serverTags
    {
      var server := t.dnsRules[i].server;
      if server != "" && server !in serverTags {
        assert t.dnsRules[i] in t.dnsRules;
        return Some(DanglingServer(server));
      }
    }
    if t.dnsFinal != "" && t.dnsFinal !in serverTags { return Some(DanglingDNSFinal(t.dnsFinal)); }
    return None;
  }

  /** validate. It reports a duplicate tag if and only if there is one, and nothing if and only if everything it looks
      at is in order. */
  method Validate(t: Translation) returns (err: Option<Error>, warnings: seq<string>)
    ensures err.None? <==> Passes(t.Written())
    ensures err.Some? && err.value.DuplicateTag? <==> !DistinctTags(t.outbounds)
    ensures err.None? ==> (warnings == [] <==> RouteRulesResolve(t.Written()))
  {
    warnings := [];
    var tags;
    tags, err := CollectOutboundTags(t);
    if err.Some? { return; }
    err := ValidateGroupMembers(t, tags);
    if err.Some? { return; }
    warnings := ValidateRouteRules(t, tags);
    if t.final != "" && t.final !in tags {
      err := Some(DanglingFinal(t.final));
      return;
    }
    err := ValidateDNSReferences(t, tags);
  }
}
