/** What the finished DNS rules answer, read off the configuration and the query alone: which server gets a query, and
    which of the servers that is. */
module DnsAnswers {
  import opened Basics
  import opened Text
  import opened Dns
  import opened DnsRules
  import opened DnsOutput
  import opened Picking

  // ---- what the configuration says ----

  /** Some nameserver can be expressed. */
  predicate HasNameserver(dns: RawDns) { !NoneExpressible(dns.nameserver) }

  /** The fake-ip filter is in force. */
  predicate Filters(dns: RawDns) {
    dns.enable && dns.enhancedMode == "fake-ip" && dns.fakeIPFilter != [] && HasNameserver(dns)
  }

  predicate KnowsHosts(dns: RawDns, hosts: seq<string>) { dns.enable && hosts != [] && dns.useHosts != Some(false) }

  /** The query is for a local name or one of the country. */
  predicate Domestic(q: Query, cc: string) {
    q.inSet("geosite-private") || (cc == "cn" && q.inSet("geosite-cn")) || q.inSet("geoip-" + cc)
  }

  // ---- which server is meant ----

  /** Reached without a proxy, and able to answer with real addresses. */
  predicate Direct(s: Server) { s.kind != FakeIP && s.kind != Hosts && s.detour == None }

  predicate Plain(s: Server) { s.kind == Udp }

  predicate Encrypted(s: Server) { s.kind in {Https, Tls, Quic, ServerType.H3} }

  predicate Pool(s: Server) { s.kind == FakeIP }

  ghost predicate HasDirect(servers: seq<Server>) { exists s :: s in servers && Direct(s) }

  predicate FirstAt(servers: seq<Server>, wanted: Server -> bool, k: nat) {
    k < |servers| && wanted(servers[k]) && forall j :: 0 <= j < k ==> !wanted(servers[j])
  }

  /** The first direct server that is also `liked`, or the first direct one if none is. */
  ghost predicate BestDirect(servers: seq<Server>, liked: Server -> bool, s: Server) {
    exists k :: 0 <= k < |servers| && servers[k] == s
      && if exists j :: 0 <= j < |servers| && Direct(servers[j]) && liked(servers[j])
         then FirstAt(servers, (x: Server) => Direct(x) && liked(x), k)
         else FirstAt(servers, Direct, k)
  }

  // ---- the servers that are picked ----

  ghost predicate AllNamed(servers: seq<Server>) { forall s :: s in servers ==> s.tag != "" }

  lemma ServersNamed(dns: RawDns, hosts: seq<string>, group: string, isIP: string -> bool)
    ensures AllNamed(FinalServers(dns, hosts, group, isIP))
  {
    ServersDistinct(dns, hosts, group, isIP);
    hide Servers, NeedsBootstrap, Within, NoDup;
    assert BOOTSTRAP.tag != "";
    forall s | s in FinalServers(dns, hosts, group, isIP) ensures s.tag != "" {
      if s in Servers(dns, hosts, group, isIP) { FamiliesNamed(Servers(dns, hosts, group, isIP), s); }
    }
  }

  lemma FamiliesNamed(servers: seq<Server>, s: Server)
    requires Within(servers, {0, 1, 2, 3, 4, 5, 6}) && s in servers
    ensures s.tag != ""
  {
    assert Family("") == 8 && Family(s.tag) in {0, 1, 2, 3, 4, 5, 6};
  }

  /** Without a liked direct server from i on, picking falls back on what it has, or on the first direct one. */
  lemma {:induction false} PickUnliked(servers: seq<Server>, i: nat, liked: Server -> bool, otherwise: string)
    returns (k: nat)
    requires i <= |servers| && AllNamed(servers)
    requires forall j :: i <= j < |servers| ==> !(Direct(servers[j]) && liked(servers[j]))
    ensures i <= k <= |servers| && (k < |servers| ==> Direct(servers[k]))
    ensures forall j :: i <= j < k ==> !Direct(servers[j])
    ensures Pick(servers[i..], liked, otherwise) ==
            if otherwise != "" then otherwise else if k < |servers| then servers[k].tag else ""
    decreases |servers| - i
  {
    k := i;
    if i < |servers| {
      assert servers[i] in servers && servers[i..][1..] == servers[i + 1..];
      var other := if IsDirect(servers[i]) && otherwise == "" then servers[i].tag else otherwise;
      var rest := PickUnliked(servers, i + 1, liked, other);
      if !Direct(servers[i]) { k := rest; }
    }
  }

  lemma {:induction false} PickLiked(servers: seq<Server>, i: nat, liked: Server -> bool, otherwise: string, k: nat)
    requires i <= k < |servers| && AllNamed(servers) && Direct(servers[k]) && liked(servers[k])
    requires forall j :: i <= j < k ==> !(Direct(servers[j]) && liked(servers[j]))
    ensures Pick(servers[i..], liked, otherwise) == servers[k].tag
    decreases k - i
  {
    assert servers[i] in servers && servers[i..][1..] == servers[i + 1..];
    if i < k {
      var other := if IsDirect(servers[i]) && otherwise == "" then servers[i].tag else otherwise;
      PickLiked(servers, i + 1, liked, other, k);
    }
  }

  lemma {:induction false} FirstWanted(servers: seq<Server>, wanted: Server -> bool) returns (k: nat)
    ensures k <= |servers| && forall j :: 0 <= j < k ==> !wanted(servers[j])
    ensures k < |servers| ==> FirstAt(servers, wanted, k)
  {
    k := 0;
    while k < |servers| && !wanted(servers[k])
      invariant k <= |servers| && forall j :: 0 <= j < k ==> !wanted(servers[j])
    {
      k := k + 1;
    }
  }

  lemma PickIsBest(servers: seq<Server>, liked: Server -> bool)
    requires AllNamed(servers)
    ensures if HasDirect(servers) then exists s :: BestDirect(servers, liked, s) && Pick(servers, liked, "") == s.tag
            else Pick(servers, liked, "") == ""
  {
    assert servers[0..] == servers;
    var both := (x: Server) => Direct(x) && liked(x);
    var l := FirstWanted(servers, both);
    if l < |servers| {
      PickLiked(servers, 0, liked, "", l);
      assert servers[l] in servers && BestDirect(servers, liked, servers[l]);
    } else {
      var k := PickUnliked(servers, 0, liked, "");
      if k < |servers| {
        assert FirstAt(servers, Direct, k);
        assert servers[k] in servers && BestDirect(servers, liked, servers[k]);
      }
    }
  }

  lemma {:induction false} PoolIsFirst(servers: seq<Server>, i: nat, k: nat)
    requires i <= k <= |servers| && AllNamed(servers) && forall j :: i <= j < k ==> !Pool(servers[j])
    requires k < |servers| ==> Pool(servers[k])
    ensures FakeIPTag(servers[i..]) == if k < |servers| then servers[k].tag else ""
    decreases k - i
  {
    if i < |servers| {
      assert servers[i] in servers && servers[i..][1..] == servers[i + 1..];
      if i < k { PoolIsFirst(servers, i + 1, k); }
    }
  }

  // ---- what is covered ----

  lemma NameserversAre(dns: RawDns, group: string)
    ensures if NoneExpressible(dns.nameserver) then Nameservers(dns, group) == [] && FirstNameserver(dns, group) == ""
            else exists k :: FirstExpressible(dns.nameserver, k) && FirstNameserver(dns, group) == "ns-" + Itoa(k) != ""
  {
    if NoneExpressible(dns.nameserver) {
      NoEntries(dns.nameserver, 0, "ns-", group);
    } else {
      var k := LeastExpressible(dns.nameserver, 0);
      EntriesBegin(dns.nameserver, 0, "ns-", group, k);
    }
  }

  lemma LeastExpressible(list: seq<Nameserver>, from: nat) returns (k: nat)
    requires from <= |list| && !NoneExpressible(list) && forall j :: 0 <= j < from ==> !Expressible(list[j])
    ensures FirstExpressible(list, k)
    decreases |list| - from
  {
    if Expressible(list[from]) { k := from; } else { k := LeastExpressible(list, from + 1); }
  }

  lemma FiltersExactly(dns: RawDns, group: string)
    ensures Filtering(dns, group) <==> Filters(dns)
  {
    NameserversAre(dns, group);
  }

  /** What the rules of the filter answer: all of them send to the same server. */
  lemma FilterAnswers(filter: seq<string>, server: string, rest: string, q: Query, mode: string)
    ensures Answer(FilterRules(filter, server), rest, q, mode) == if InFilter(q.name, filter) then server else rest
  {
    FilterCovers(filter, server, q, mode);
    AnswerOf(FilterRules(filter, server), rest, q, mode);
  }

  lemma AnswerCons(r: DnsRule, rules: seq<DnsRule>, final: string, q: Query, mode: string)
    ensures Answer([r] + rules, final, q, mode) ==
            if Covers(r, q, mode) then r.server else Answer(rules, final, q, mode)
  {
    assert ([r] + rules)[1..] == rules;
  }

  /** What the user's rules answer: the filter first, then hosts. */
  lemma UsersAnswer(dns: RawDns, hosts: seq<string>, group: string, rest: string, q: Query, mode: string)
    ensures Answer(UserRules(dns, hosts, group), rest, q, mode) ==
            if Filters(dns) && InFilter(q.name, dns.fakeIPFilter) then
              if dns.fakeIPFilterMode == "whitelist" then "fakeip-dns" else FirstNameserver(dns, group)
            else if KnowsHosts(dns, hosts) && q.name in hosts then "hosts"
            else rest
  {
    FiltersExactly(dns, group);
    var to := if Whitelisting(dns, group) then FAKEIP_TAG else FirstNameserver(dns, group);
    var filter := if !Filtering(dns, group) then [] else FilterRules(dns.fakeIPFilter, to);
    var known := if dns.enable && UsesHosts(dns, hosts) then [To(HOSTS_TAG).(domains := hosts)] else [];
    AnswerJoin(filter, known, rest, q, mode);
    FilterAnswers(dns.fakeIPFilter, to, Answer(known, rest, q, mode), q, mode);
    hide FilterRules, InFilter, FirstNameserver, Filtering;
    AnswerCons(To(HOSTS_TAG).(domains := hosts), [], rest, q, mode);
    assert [To(HOSTS_TAG).(domains := hosts)] + [] == [To(HOSTS_TAG).(domains := hosts)];
    assert Answer([], Answer(known, rest, q, mode), q, mode) == Answer(known, rest, q, mode);
  }

  // ---- what the automatic rules answer ----

  lemma DomesticExactly(q: Query, cc: string, direct: string, mode: string)
    ensures Covers(To(direct).(ruleSets := DomesticSets(cc)), q, mode) <==> Domestic(q, cc)
  {
    var sets := DomesticSets(cc);
    assert sets[0] == "geosite-private" && sets[|sets| - 1] == "geoip-" + cc;
    if cc == "cn" { assert sets[1] == "geosite-cn" && |sets| == 3; } else { assert |sets| == 2; }
  }

  lemma AutoAnswers(servers: seq<Server>, echNames: seq<string>, cc: string, rest: string, q: Query, mode: string)
    ensures Answer(AutoRules(servers, echNames, cc), rest, q, mode) ==
            if q.name in echNames then (if EchTag(servers) == "" then DirectTag(servers) else EchTag(servers))
            else if Domestic(q, cc) then DirectTag(servers)
            else if q.qtype in {"A", "AAAA"} && FakeIPTag(servers) != "" then FakeIPTag(servers)
            else rest
  {
    var direct := DirectTag(servers);
    var ech := To(if EchTag(servers) == "" then direct else EchTag(servers)).(domains := echNames);
    var domestic := To(direct).(ruleSets := DomesticSets(cc));
    var pool := To(FakeIPTag(servers)).(queryTypes := ["A", "AAAA"]);
    DomesticExactly(q, cc, direct, mode);
    hide DirectTag, EchTag, FakeIPTag, Domestic, DomesticSets;
    var last := if FakeIPTag(servers) != "" then [pool] else [];
    var names := if echNames != [] then [ech] else [];
    assert AutoRules(servers, echNames, cc) == names + ([domestic] + last);
    AnswerJoin(names, [domestic] + last, rest, q, mode);
    AnswerCons(domestic, last, rest, q, mode);
    AnswerCons(pool, [], rest, q, mode);
    AnswerCons(ech, [], Answer([domestic] + last, rest, q, mode), q, mode);
    assert [pool] + [] == [pool] && [ech] + [] == [ech];
    assert Covers(pool, q, mode) <==> q.qtype in {"A", "AAAA"};
    assert echNames != [] ==> (Covers(ech, q, mode) <==> q.name in echNames);
  }

  lemma TerminalAnswers(dns: RawDns, group: string, final: string, q: Query, mode: string)
    ensures Answer(TerminalRules(dns, group), final, q, mode) ==
            if Filters(dns) && dns.fakeIPFilterMode == "whitelist" then FirstNameserver(dns, group) else final
  {
    FiltersExactly(dns, group);
    hide FirstNameserver, Filtering;
    var r := To(FirstNameserver(dns, group));
    AnswerCons(r, [], final, q, mode);
    assert [r] + [] == [r];
  }

  // ---- what the finished list answers ----

  /** What the finished list answers outside Direct mode, by the tags it picks. */
  lemma ListAnswers(dns: RawDns, hosts: seq<string>, group: string, isIP: string -> bool, echNames: seq<string>,
                    cc: string, final: string, q: Query, mode: string)
    requires dns.enable && (mode == "Direct" ==> DirectTag(FinalServers(dns, hosts, group, isIP)) == "")
    ensures var servers := FinalServers(dns, hosts, group, isIP);
            Answer(FinalRules(dns, hosts, group, isIP, echNames, cc), final, q, mode) ==
            if Filters(dns) && InFilter(q.name, dns.fakeIPFilter) then
              if dns.fakeIPFilterMode == "whitelist" then "fakeip-dns" else FirstNameserver(dns, group)
            else if KnowsHosts(dns, hosts) && q.name in hosts then "hosts"
            else if DirectTag(servers) != "" && q.name in echNames then
              if EchTag(servers) == "" then DirectTag(servers) else EchTag(servers)
            else if DirectTag(servers) != "" && Domestic(q, cc) then DirectTag(servers)
            else if DirectTag(servers) != "" && q.qtype in {"A", "AAAA"} && FakeIPTag(servers) != "" then
              FakeIPTag(servers)
            else if Filters(dns) && dns.fakeIPFilterMode == "whitelist" then FirstNameserver(dns, group)
            else final
  {
    var servers, user := FinalServers(dns, hosts, group, isIP), UserRules(dns, hosts, group);
    var terminal := TerminalRules(dns, group);
    var rules := Generated(true, servers, user, terminal, echNames, cc);
    NoDirectExactly(dns, hosts, group, isIP);
    SomeServer(dns, hosts, group, isIP);
    hide FinalServers, UserRules, TerminalRules, DirectTag, EchTag, FakeIPTag, Filters, KnowsHosts, InFilter, Domestic,
      NoDirect, FirstNameserver, AutoRules;
    RoutedAnswers(rules, final, q, mode);
    TerminalAnswers(dns, group, final, q, mode);
    var end := Answer(terminal, final, q, mode);
    if DirectTag(servers) != "" {
      GeneratedAnswer(servers, user, terminal, echNames, cc, final, q, mode);
      AutoAnswers(servers, echNames, cc, end, q, mode);
      UsersAnswer(dns, hosts, group, Answer(AutoRules(servers, echNames, cc), end, q, mode), q, mode);
    } else {
      AnswerJoin(user, terminal, final, q, mode);
      UsersAnswer(dns, hosts, group, end, q, mode);
    }
  }

  lemma SomeServer(dns: RawDns, hosts: seq<string>, group: string, isIP: string -> bool)
    ensures FinalServers(dns, hosts, group, isIP) != []
  {
    DomainResolverUsable(dns, hosts, group, isIP);
  }

  /** The server that answers is the first FakeIP one. */
  ghost predicate FirstPool(servers: seq<Server>, s: Server) {
    exists k :: 0 <= k < |servers| && servers[k] == s && FirstAt(servers, Pool, k)
  }

  /** What a query gets outside Direct mode, and in it if no server is direct. A name the filter catches goes to the
      first nameserver, or to FakeIP where the filter lists what FakeIP is for; a name in hosts to hosts. If any server
      is direct, an ECH name goes to a direct server, encrypted if there is one; a name of the country or a local one to
      a direct server, a plain one if there is one; and any other A or AAAA query to FakeIP, if there is such a server.
      What is left goes to the first nameserver under a whitelist, and to dns.final otherwise. */
  lemma AnswersExactly(dns: RawDns, hosts: seq<string>, group: string, isIP: string -> bool, echNames: seq<string>,
                       cc: string, final: string, q: Query, mode: string, ns: nat)
    requires dns.enable && (mode == "Direct" ==> !HasDirect(FinalServers(dns, hosts, group, isIP)))
    requires HasNameserver(dns) ==> FirstExpressible(dns.nameserver, ns)
    ensures var servers := FinalServers(dns, hosts, group, isIP);
            var answer := Answer(FinalRules(dns, hosts, group, isIP, echNames, cc), final, q, mode);
            var whitelist := dns.fakeIPFilterMode == "whitelist";
            if Filters(dns) && InFilter(q.name, dns.fakeIPFilter) then
              answer == if whitelist then "fakeip-dns" else "ns-" + Itoa(ns)
            else if KnowsHosts(dns, hosts) && q.name in hosts then answer == "hosts"
            else if HasDirect(servers) && q.name in echNames then
              exists s :: BestDirect(servers, Encrypted, s) && Lookup(servers, answer) == Some(s)
            else if HasDirect(servers) && Domestic(q, cc) then
              exists s :: BestDirect(servers, Plain, s) && Lookup(servers, answer) == Some(s)
            else if HasDirect(servers) && q.qtype in {"A", "AAAA"} && (exists s :: s in servers && Pool(s)) then
              exists s :: FirstPool(servers, s) && Lookup(servers, answer) == Some(s)
            else answer == if Filters(dns) && whitelist then "ns-" + Itoa(ns) else final
  {
    var servers := FinalServers(dns, hosts, group, isIP);
    PickedBest(dns, hosts, group, isIP);
    ListAnswers(dns, hosts, group, isIP, echNames, cc, final, q, mode);
    if HasNameserver(dns) { EntriesBegin(dns.nameserver, 0, "ns-", group, ns); }
    hide FinalServers, FinalRules, InFilter, Domestic, KnowsHosts, DirectTag, EchTag, FakeIPTag, BestDirect, FirstPool,
      FirstExpressible, HasDirect, Encrypted, Plain, Pool;
  }

  /** The tags that are picked are those of these servers. */
  lemma PickedBest(dns: RawDns, hosts: seq<string>, group: string, isIP: string -> bool)
    ensures var servers := FinalServers(dns, hosts, group, isIP);
            && (DirectTag(servers) != "" <==> HasDirect(servers))
            && (HasDirect(servers) ==> EchTag(servers) != "")
            && (HasDirect(servers) ==>
                  exists s :: BestDirect(servers, Plain, s) && Lookup(servers, DirectTag(servers)) == Some(s))
            && (HasDirect(servers) ==>
                  exists s :: BestDirect(servers, Encrypted, s) && Lookup(servers, EchTag(servers)) == Some(s))
            && (FakeIPTag(servers) != "" <==> exists s :: s in servers && Pool(s))
            && (FakeIPTag(servers) != "" ==>
                  exists s :: FirstPool(servers, s) && Lookup(servers, FakeIPTag(servers)) == Some(s))
  {
    var servers := FinalServers(dns, hosts, group, isIP);
    ServersNamed(dns, hosts, group, isIP);
    TagsDistinct(dns, hosts, group, isIP);
    hide FinalServers;
    SameLikings(servers);
    if HasDirect(servers) {
      var p :| BestDirect(servers, Plain, p) && Pick(servers, Plain, "") == p.tag;
      LookupFinds(servers, p);
      var e :| BestDirect(servers, Encrypted, e) && Pick(servers, Encrypted, "") == e.tag;
      LookupFinds(servers, e);
    }
    var k := FirstWanted(servers, Pool);
    PoolIsFirst(servers, 0, k);
    assert servers[0..] == servers;
    if k < |servers| {
      assert servers[k] in servers && FirstPool(servers, servers[k]);
      LookupFinds(servers, servers[k]);
    }
  }

  lemma {:induction false} PickSame(servers: seq<Server>, one: Server -> bool, two: Server -> bool, otherwise: string)
    requires forall s :: one(s) <==> two(s)
    ensures Pick(servers, one, otherwise) == Pick(servers, two, otherwise)
  {
    if servers != [] {
      PickSame(servers[1..], one, two, if IsDirect(servers[0]) && otherwise == "" then servers[0].tag else otherwise);
    }
  }

  lemma SameLikings(servers: seq<Server>)
    requires AllNamed(servers)
    ensures DirectTag(servers) == Pick(servers, Plain, "") && EchTag(servers) == Pick(servers, Encrypted, "")
    ensures DirectTag(servers) != "" <==> HasDirect(servers)
    ensures HasDirect(servers) ==> EchTag(servers) != ""
    ensures HasDirect(servers) ==> exists s :: BestDirect(servers, Plain, s) && Pick(servers, Plain, "") == s.tag
    ensures HasDirect(servers) ==>
              exists s :: BestDirect(servers, Encrypted, s) && Pick(servers, Encrypted, "") == s.tag
  {
    PickSame(servers, IsUdp, Plain, "");
    PickSame(servers, IsEncrypted, Encrypted, "");
    PickIsBest(servers, Plain);
    PickIsBest(servers, Encrypted);
  }

  // ---- is there a direct server? ----

  /** A default server can be expressed, and every entry that can is FakeIP or goes through the first group. */
  ghost predicate AllProxied(dns: RawDns, group: string) {
    && !NoneExpressible(dns.defaultNameserver)
    && forall i :: 0 <= i < |Sources(dns, group)| && Expressible(Sources(dns, group)[i].entry) ==>
         var from := Sources(dns, group)[i]; from.entry.FakeIPPool? || (from.entry.Url? && from.through.Some?)
  }

  lemma ProxiedSource(from: Source)
    requires Proper(from) && ParsedFrom(from).Some?
    ensures var s := ParsedFrom(from).value;
            s.kind == FakeIP || s.detour.Some? <==> from.entry.FakeIPPool? || (from.entry.Url? && from.through.Some?)
  {}

  lemma AllProxiedExactly(dns: RawDns, group: string)
    requires dns.enable
    ensures NoDirect(dns, group) <==> AllProxied(dns, group)
  {
    if NoneExpressible(dns.defaultNameserver) {
      NoEntries(dns.defaultNameserver, 0, "def-", "");
    } else {
      var k := LeastExpressible(dns.defaultNameserver, 0);
      EntriesBegin(dns.defaultNameserver, 0, "def-", "", k);
    }
    var at := ListedPicked(dns, group);
    var sources, listed := Sources(dns, group), Listed(dns, group);
    SourcesProper(dns, group);
    hide Sources, Listed, ParsedFrom, Defaults, Proper, Expressible;
    forall i | 0 <= i < |sources| && Expressible(sources[i].entry)
      ensures exists k :: 0 <= k < |listed| && ParsedFrom(sources[i]) == Some(listed[k])
    {
      ParsedIsWritten(sources[i], false);
      var k :| 0 <= k < |at| && at[k] == i;
      assert ParsedFrom(sources[i]) == Some(listed[k]);
    }
    if AllProxied(dns, group) {
      forall s | s in listed ensures s.kind == FakeIP || s.detour.Some? {
        var k :| 0 <= k < |listed| && listed[k] == s;
        ParsedIsWritten(sources[at[k]], false);
        ProxiedSource(sources[at[k]]);
      }
    }
    if NoDirect(dns, group) {
      forall i | 0 <= i < |sources| && Expressible(sources[i].entry)
        ensures sources[i].entry.FakeIPPool? || (sources[i].entry.Url? && sources[i].through.Some?)
      {
        var k :| 0 <= k < |listed| && ParsedFrom(sources[i]) == Some(listed[k]);
        assert listed[k] in listed;
        ProxiedSource(sources[i]);
      }
    }
  }

  /** With DNS on there is a direct server exactly unless the entries leave none, and then all queries in Direct mode go
      to one, a plain one if there is one. */
  lemma DirectExactly(dns: RawDns, hosts: seq<string>, group: string, isIP: string -> bool, echNames: seq<string>,
                      cc: string, final: string, q: Query)
    requires dns.enable
    ensures var servers := FinalServers(dns, hosts, group, isIP);
            var answer := Answer(FinalRules(dns, hosts, group, isIP, echNames, cc), final, q, "Direct");
            && (HasDirect(servers) <==> !AllProxied(dns, group))
            && (HasDirect(servers) ==> exists s :: BestDirect(servers, Plain, s) && Lookup(servers, answer) == Some(s))
  {
    hide FinalServers, FinalRules, AllProxied, NoDirect;
    PickedBest(dns, hosts, group, isIP);
    NoDirectExactly(dns, hosts, group, isIP);
    AllProxiedExactly(dns, group);
    DirectModeExactly(dns, hosts, group, isIP, echNames, cc, final, q);
  }
}
