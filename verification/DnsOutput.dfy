/** The DNS servers of the output, read off the nameserver entries alone: which entry becomes which server, in which
    order, through which group, looked up through which other server; and what stands behind them. */
module DnsOutput {
  import opened Basics
  import opened Text
  import opened Dns
  import opened Picking

  // ---- what the configuration says ----

  /** An entry with the tag of its server, and the group that server is to be reached through, if any. */
  datatype Source = Source(tag: string, entry: Nameserver, through: Option<string>)

  function Sourced(list: seq<Nameserver>, prefix: string, through: Option<string>): (r: seq<Source>)
    ensures |r| == |list| && forall i :: 0 <= i < |r| ==> r[i] == Source(prefix + Itoa(i), list[i], through)
  {
    seq(|list|, i requires 0 <= i < |list| => Source(prefix + Itoa(i), list[i], through))
  }

  /** The first group, where there is one. */
  function Through(group: string): Option<string> { if group == "" then None else Some(group) }

  /** All entries in the order of their servers. Only those of nameserver and fallback go through the first group. */
  function Sources(dns: RawDns, group: string): seq<Source> {
    Sourced(dns.defaultNameserver, "def-", None) + Sourced(dns.nameserver, "ns-", Through(group))
    + Sourced(dns.fallback, "fb-", Through(group)) + Sourced(dns.proxyServerNameserver, "psn-", None)
  }

  predicate AsksForH3(ns: Nameserver) { ns.Url? && ns.h3.Some? && ns.h3.value != "false" }

  /** Neither empty, nor a return code, nor plain HTTP. */
  predicate Expressible(ns: Nameserver) {
    !ns.Blank? && !ns.Rcode? && (ns.Url? && ns.scheme == "http" ==> AsksForH3(ns))
  }

  /** The type of server an entry asks for. */
  predicate OfType(ns: Nameserver, kind: ServerType, preferH3: bool) {
    match ns
    case System => kind == Local
    case FakeIPPool => kind == FakeIP
    case DhcpOn => kind == Dhcp
    case Url(_, _, scheme, _) =>
      if AsksForH3(ns) || scheme == "h3" then kind == H3
      else if scheme == "https" then kind == if preferH3 then H3 else Https
      else if scheme == "tls" then kind == Tls
      else if scheme == "quic" then kind == Quic
      else kind == Udp
    case _ => false
  }

  /** The server an entry is written as, but for its resolver: only one with an address goes through a group. */
  predicate WrittenFor(from: Source, s: Server, preferH3: bool) {
    && Expressible(from.entry) && s.tag == from.tag && OfType(from.entry, s.kind, preferH3)
    && s.address == (if from.entry.Url? then from.entry.host else "")
    && s.detour == (if from.entry.Url? then from.through else None)
  }

  /** The servers begin with those of the entries at these positions: all that can be expressed. */
  ghost predicate EntriesAt(sources: seq<Source>, servers: seq<Server>, preferH3: bool, at: seq<nat>) {
    && Increasing(at) && |at| <= |servers|
    && (forall k :: 0 <= k < |at| ==> at[k] < |sources| && WrittenFor(sources[at[k]], servers[k], preferH3))
    && (forall i: nat :: i < |sources| ==> (Expressible(sources[i].entry) <==> i in at))
  }

  /** The entry can stand in for a default server. */
  predicate StandsIn(ns: Nameserver, isIP: string -> bool) { ns.Url? && isIP(ns.rawHost) && Expressible(ns) }

  /** The first two entries of the list that can. */
  ghost predicate FirstTwo(list: seq<Nameserver>, isIP: string -> bool, at: seq<nat>) {
    && Increasing(at) && |at| <= 2
    && (forall k :: 0 <= k < |at| ==> at[k] < |list| && StandsIn(list[at[k]], isIP))
    && (forall i: nat :: i < |list| && StandsIn(list[i], isIP) && (|at| < 2 || i < at[1]) ==> i in at)
  }

  /** A server given by name is looked up through the first default server, or the second if it is the first itself. */
  predicate LookedUp(s: Server, defaults: seq<Server>, isIP: string -> bool) {
    s.resolver ==
      if s.address == "" || isIP(s.address) || defaults == [] then None
      else if defaults[0].tag != s.tag then Some(defaults[0].tag)
      else if |defaults| >= 2 then Some(defaults[1].tag)
      else None
  }

  /** Proxy names are looked up through the first plain default server, or else the first of all; without one, or where
      it is the system's, through the bootstrap server. */
  ghost predicate LooksUpNames(resolver: string, defaults: seq<Server>) {
    if defaults == [] then resolver == "bootstrap-dns"
    else exists k :: 0 <= k < |defaults| && First(defaults, k)
                     && resolver == if defaults[k].kind == Local then "bootstrap-dns" else defaults[k].tag
  }

  predicate First(defaults: seq<Server>, k: nat)
    requires k < |defaults|
  {
    if defaults[k].kind == Udp then forall j :: 0 <= j < k ==> defaults[j].kind != Udp
    else k == 0 && forall j :: 0 <= j < |defaults| ==> defaults[j].kind != Udp
  }

  /** What stands behind the servers of the entries. */
  function Others(dns: RawDns, hosts: seq<string>, resolver: string): seq<Server> {
    (if dns.enhancedMode == "fake-ip" then [Server("fakeip-dns", FakeIP, "", None, None)] else [])
    + (if hosts == [] || dns.useHosts == Some(false) then [] else [Server("hosts", Hosts, "", None, None)])
    + (if resolver == "bootstrap-dns" then [Server("bootstrap-dns", Udp, "223.5.5.5", None, None)] else [])
  }

  /** The default servers: the first d, those of the default entries, or else those standing in, from `from` on. */
  function DefaultsOf(servers: seq<Server>, d: nat, from: nat, count: nat): seq<Server>
    requires d <= |servers| && from + count <= |servers|
  {
    if d > 0 then servers[..d] else servers[from..from + count]
  }

  /** The first d of the positions are those of default entries. */
  predicate DefaultsFirst(dns: RawDns, at: seq<nat>, d: nat) {
    d <= |at| && forall k :: 0 <= k < |at| ==> (at[k] < |dns.defaultNameserver| <==> k < d)
  }

  /** From position `from` on stand servers in for the default ones: those of the first two nameservers that can,
      reached directly. */
  ghost predicate StandIns(dns: RawDns, isIP: string -> bool, servers: seq<Server>, from: nat, auto: seq<nat>) {
    && FirstTwo(dns.nameserver, isIP, auto) && from + |auto| <= |servers|
    && forall k :: 0 <= k < |auto| ==>
         WrittenFor(Source("def-auto-" + Itoa(k), dns.nameserver[auto[k]], None), servers[from + k], dns.preferH3)
  }

  /** The servers: those of the entries at the positions `at`, of which the first d are the default ones; if there are
      none, those of the nameservers at the positions `auto`, reached directly; and the others. */
  ghost predicate ServersAre(dns: RawDns, hosts: seq<string>, group: string, isIP: string -> bool,
                             servers: seq<Server>, resolver: string, at: seq<nat>, d: nat, auto: seq<nat>) {
    && EntriesAt(Sources(dns, group), servers, dns.preferH3, at)
    && DefaultsFirst(dns, at, d)
    && (if d > 0 then auto == [] else StandIns(dns, isIP, servers, |at|, auto))
    && |at| + |auto| <= |servers|
    && var defaults := DefaultsOf(servers, d, |at|, |auto|);
    && (forall k :: 0 <= k < |at| + |auto| ==> LookedUp(servers[k], defaults, isIP))
    && LooksUpNames(resolver, defaults)
    && servers[|at| + |auto|..] == Others(dns, hosts, resolver)
  }

  // ---- the entries ----

  function ParsedFrom(from: Source): Option<Server> {
    Parsed(from.entry, from.tag, if from.through.Some? then from.through.value else "")
  }

  /** A source names the group it goes through, if it goes through one. */
  predicate Proper(from: Source) { from.through != Some("") }

  lemma ParsedIsWritten(from: Source, preferH3: bool)
    requires Proper(from)
    ensures ParsedFrom(from).Some? <==> Expressible(from.entry)
    ensures ParsedFrom(from).Some? ==> WrittenFor(from, Upgraded(ParsedFrom(from).value, preferH3), preferH3)
                                       && ParsedFrom(from).value.resolver == None
  {}

  lemma {:induction false} EntriesPicked(list: seq<Nameserver>, i: nat, prefix: string, through: Option<string>)
    returns (at: seq<nat>)
    requires i <= |list| && through != Some("")
    ensures Picked(Sourced(list, prefix, through)[i..],
                   Entries(list, i, prefix, if through.Some? then through.value else ""), ParsedFrom, at)
    decreases |list| - i
  {
    at := [];
    if i < |list| {
      var rest := EntriesPicked(list, i + 1, prefix, through);
      hide Parsed, Picked, Behind;
      var all := Sourced(list, prefix, through);
      at := Behind(ParsedFrom(all[i]).Some?, rest);
      PickedCons(all[i], all[i + 1..], Entries(list, i + 1, prefix, if through.Some? then through.value else ""),
                 ParsedFrom, rest);
      assert [all[i]] + all[i + 1..] == all[i..];
    }
  }

  lemma ListedPicked(dns: RawDns, group: string) returns (at: seq<nat>)
    ensures Picked(Sources(dns, group), Listed(dns, group), ParsedFrom, at)
    ensures forall k :: 0 <= k < |at| ==> (at[k] < |dns.defaultNameserver| <==> k < |Defaults(dns)|)
  {
    var via := Through(group);
    var d := EntriesPicked(dns.defaultNameserver, 0, "def-", None);
    var n := EntriesPicked(dns.nameserver, 0, "ns-", via);
    var f := EntriesPicked(dns.fallback, 0, "fb-", via);
    var p := EntriesPicked(dns.proxyServerNameserver, 0, "psn-", None);
    var ds, ns := Sourced(dns.defaultNameserver, "def-", None), Sourced(dns.nameserver, "ns-", via);
    var fs, ps := Sourced(dns.fallback, "fb-", via), Sourced(dns.proxyServerNameserver, "psn-", None);
    hide Picked, Entries, Sourced, Parsed;
    assert ds[0..] == ds && ns[0..] == ns && fs[0..] == fs && ps[0..] == ps;
    PickedJoin(ds, ns, Defaults(dns), Nameservers(dns, group), ParsedFrom, d, n);
    var two := d + Shifted(n, |ds|);
    PickedJoin(ds + ns, fs, Defaults(dns) + Nameservers(dns, group), Fallbacks(dns, group), ParsedFrom, two, f);
    var three := two + Shifted(f, |ds + ns|);
    PickedJoin(ds + ns + fs, ps, Defaults(dns) + Nameservers(dns, group) + Fallbacks(dns, group), ProxyServers(dns),
               ParsedFrom, three, p);
    at := three + Shifted(p, |ds + ns + fs|);
  }

  lemma SourcesProper(dns: RawDns, group: string)
    ensures forall i :: 0 <= i < |Sources(dns, group)| ==> Proper(Sources(dns, group)[i])
  {}

  // ---- the servers that stand in ----

  /** The servers are those of the first entries from i on that can stand in, numbered from `count` on; two at most. */
  ghost predicate StandInsAt(list: seq<Nameserver>, i: nat, count: nat, isIP: string -> bool, autos: seq<Server>,
                             at: seq<nat>) {
    && Increasing(at) && |at| == |autos| && |at| + count <= 2
    && (forall k :: 0 <= k < |at| ==>
          i <= at[k] < |list| && StandsIn(list[at[k]], isIP)
          && Parsed(list[at[k]], "def-auto-" + Itoa(count + k), "") == Some(autos[k]))
    && (forall j: nat | i <= j < |list| && StandsIn(list[j], isIP) ::
          (|at| + count < 2 || (at != [] && j < at[|at| - 1])) ==> j in at)
  }

  lemma StandInFirst(list: seq<Nameserver>, i: nat, count: nat, isIP: string -> bool, a: Server, autos: seq<Server>,
                     rest: seq<nat>)
    requires i < |list| && StandsIn(list[i], isIP) && Parsed(list[i], "def-auto-" + Itoa(count), "") == Some(a)
    requires StandInsAt(list, i + 1, count + 1, isIP, autos, rest)
    ensures StandInsAt(list, i, count, isIP, [a] + autos, [i] + rest)
  {
    hide Itoa, Parsed, StandsIn;
    var at := [i] + rest;
    assert forall j :: j in rest ==> j in at;
    assert i in at;
    assert rest != [] ==> at[|at| - 1] == rest[|rest| - 1];
  }

  lemma {:induction false} AutosAre(list: seq<Nameserver>, i: nat, count: nat, isIP: string -> bool)
    returns (at: seq<nat>)
    requires i <= |list| && count <= 2
    ensures StandInsAt(list, i, count, isIP, Autos(list, i, count, isIP), at)
    decreases |list| - i
  {
    at := [];
    if i < |list| && count < 2 {
      ParsedIsWritten(Source("def-auto-" + Itoa(count), list[i], None), false);
      if StandsIn(list[i], isIP) {
        var rest := AutosAre(list, i + 1, count + 1, isIP);
        at := [i] + rest;
        StandInFirst(list, i, count, isIP, Parsed(list[i], "def-auto-" + Itoa(count), "").value,
                     Autos(list, i + 1, count + 1, isIP), rest);
        hide Itoa, Parsed, StandInsAt, Expressible;
      } else {
        at := AutosAre(list, i + 1, count, isIP);
        assert forall j: nat | i <= j < |list| && StandsIn(list[j], isIP) :: i + 1 <= j;
        hide Itoa, Parsed, StandsIn, Expressible;
      }
    }
  }

  // ---- the list as a whole ----

  /** What writing does to a server of an entry. */
  lemma WrittenOut(dns: RawDns, isIP: string -> bool, s: Server)
    requires s.resolver == None
    ensures var w := Written(s, dns, isIP);
            && w.(resolver := None) == Upgraded(s, dns.preferH3)
            && (w.kind == Udp <==> s.kind == Udp) && (w.kind == Local <==> s.kind == Local)
            && w.resolver == if s.address == "" || isIP(s.address) then None
                             else FirstOther(s.tag, TagsOf(Resolvers(dns, isIP)))
  {}

  lemma ServersJoined(dns: RawDns, hosts: seq<string>, group: string, isIP: string -> bool, k: nat)
    requires k < |Servers(dns, hosts, group, isIP)|
    ensures var all, servers := WithAutos(dns, group, isIP), Servers(dns, hosts, group, isIP);
            && |servers| == |all| + |Extras(dns, hosts)|
            && servers[k] == if k < |all| then Written(all[k], dns, isIP)
                             else Upgraded(Extras(dns, hosts)[k - |all|], dns.preferH3)
  {
    hide WithAutos, Resolvers, Extras, Upgraded, Resolved, TagsOf;
  }

  lemma ServersCount(dns: RawDns, hosts: seq<string>, group: string, isIP: string -> bool)
    ensures |Servers(dns, hosts, group, isIP)| == |WithAutos(dns, group, isIP)| + |Extras(dns, hosts)|
  {
    hide WithAutos, Resolvers, Extras, Upgraded, Resolved, TagsOf;
  }

  lemma ServersSplit(dns: RawDns, hosts: seq<string>, group: string, isIP: string -> bool)
    ensures var all, servers := WithAutos(dns, group, isIP), Servers(dns, hosts, group, isIP);
            && |servers| == |all| + |Extras(dns, hosts)|
            && (forall k :: 0 <= k < |all| ==> servers[k] == Written(all[k], dns, isIP))
            && servers[|all|..] == Extras(dns, hosts)
  {
    ExtrasStay(dns, hosts);
    ServersCount(dns, hosts, group, isIP);
    hide Servers, WithAutos, Resolvers, Extras, Upgraded, Written;
    var all, servers, extras := WithAutos(dns, group, isIP), Servers(dns, hosts, group, isIP), Extras(dns, hosts);
    forall k | 0 <= k < |all| ensures servers[k] == Written(all[k], dns, isIP) {
      ServersJoined(dns, hosts, group, isIP, k);
    }
    forall k | 0 <= k < |extras| ensures servers[|all| + k] == extras[k] {
      ServersJoined(dns, hosts, group, isIP, |all| + k);
    }
    assert servers[|all|..] == extras;
  }

  lemma ExtrasStay(dns: RawDns, hosts: seq<string>)
    ensures forall k :: 0 <= k < |Extras(dns, hosts)| ==>
              Upgraded(Extras(dns, hosts)[k], dns.preferH3) == Extras(dns, hosts)[k]
  {}

  /** Only the bootstrap server is called that. */
  lemma NamedBootstrap(dns: RawDns, hosts: seq<string>, group: string, isIP: string -> bool)
    requires dns.enable
    ensures DomainResolver(dns, hosts, group, isIP) == "bootstrap-dns" <==> NeedsBootstrap(dns, hosts, group, isIP)
  {
    if !NeedsBootstrap(dns, hosts, group, isIP) {
      var d, tags := Resolvers(dns, isIP), TagsOf(Resolvers(dns, isIP));
      FirstUdpIsCandidate(tags, WithAutos(dns, group, isIP), tags[0]);
      hide Resolvers, NeedsBootstrap, FirstUdp, HasUdp;
      var k :| 0 <= k < |d| && d[k].tag == FirstResolver(dns, group, isIP);
      DefaultsNotBootstrap(dns, group, isIP, d[k]);
    }
  }

  lemma DefaultsNotBootstrap(dns: RawDns, group: string, isIP: string -> bool, s: Server)
    requires s in Resolvers(dns, isIP)
    ensures s.tag != "bootstrap-dns" && s.tag != ""
  {
    ResolversListed(dns, group, isIP);
    WithAutosDistinct(dns, group, isIP);
    hide WithAutos, Resolvers;
    assert Family(s.tag) in {0, 1, 2, 3, 4} && Family("bootstrap-dns") == 7 && Family("") == 8;
  }

  lemma TailIsOthers(dns: RawDns, hosts: seq<string>, group: string, isIP: string -> bool)
    requires dns.enable
    ensures var all, servers := WithAutos(dns, group, isIP), FinalServers(dns, hosts, group, isIP);
            && |all| <= |servers|
            && (forall k :: 0 <= k < |all| ==> servers[k] == Written(all[k], dns, isIP))
            && servers[|all|..] == Others(dns, hosts, DomainResolver(dns, hosts, group, isIP))
  {
    ServersSplit(dns, hosts, group, isIP);
    NamedBootstrap(dns, hosts, group, isIP);
    hide Servers, WithAutos, NeedsBootstrap, FirstResolver;
    var all, most := WithAutos(dns, group, isIP), Servers(dns, hosts, group, isIP);
    var servers := FinalServers(dns, hosts, group, isIP);
    assert forall k :: 0 <= k < |most| ==> servers[k] == most[k];
    assert servers[|all|..] == most[|all|..] + servers[|most|..];
    assert FAKEIP_TAG == "fakeip-dns" && HOSTS_TAG == "hosts" && BOOTSTRAP_TAG == "bootstrap-dns";
  }

  // ---- who looks up proxy names ----

  /** Among servers with distinct tags, a plain one has that tag exactly if the server of that tag is plain. */
  lemma PlainExactly(servers: seq<Server>, s: Server)
    requires NoDup(TagsOf(servers)) && s in servers
    ensures HasUdp(servers, s.tag) <==> s.kind == Udp
  {
    if HasUdp(servers, s.tag) {
      var i :| 0 <= i < |servers| && servers[i].tag == s.tag && servers[i].kind == Udp;
      var j :| 0 <= j < |servers| && servers[j] == s;
      assert TagsOf(servers)[i] == TagsOf(servers)[j];
    }
  }

  lemma {:induction false} FirstPlain(defaults: seq<Server>, servers: seq<Server>, i: nat, otherwise: string)
    returns (k: nat)
    requires NoDup(TagsOf(servers)) && i <= |defaults| && forall s :: s in defaults ==> s in servers
    ensures k <= |defaults| && forall j :: i <= j < k ==> defaults[j].kind != Udp
    ensures var r := FirstUdp(TagsOf(defaults)[i..], servers, otherwise);
            if k < |defaults| then i <= k && defaults[k].kind == Udp && r == defaults[k].tag else r == otherwise
    decreases |defaults| - i
  {
    var tags := TagsOf(defaults);
    if i == |defaults| {
      k := i;
      assert tags[i..] == [];
    } else {
      assert tags[i..][0] == defaults[i].tag && tags[i..][1..] == tags[i + 1..];
      PlainExactly(servers, defaults[i]);
      if defaults[i].kind == Udp { k := i; } else { k := FirstPlain(defaults, servers, i + 1, otherwise); }
    }
  }

  lemma ResolverChosen(dns: RawDns, hosts: seq<string>, group: string, isIP: string -> bool) returns (k: nat)
    requires dns.enable && Resolvers(dns, isIP) != []
    ensures var d := Resolvers(dns, isIP);
            && k < |d| && First(d, k)
            && DomainResolver(dns, hosts, group, isIP) == if d[k].kind == Local then "bootstrap-dns" else d[k].tag
  {
    var d, all := Resolvers(dns, isIP), WithAutos(dns, group, isIP);
    ResolversListed(dns, group, isIP);
    WithAutosDistinct(dns, group, isIP);
    var tags := TagsOf(d);
    k := FirstPlain(d, all, 0, tags[0]);
    assert tags[0..] == tags;
    if k == |d| { k := 0; }
    assert FirstResolver(dns, group, isIP) == d[k].tag;
    ResolverLocal(dns, hosts, group, isIP, d[k]);
  }

  lemma ResolverLocal(dns: RawDns, hosts: seq<string>, group: string, isIP: string -> bool, s: Server)
    requires s in Resolvers(dns, isIP)
    ensures s.tag != "" && (IsLocal(Servers(dns, hosts, group, isIP), s.tag) <==> s.kind == Local)
  {
    var all, servers := WithAutos(dns, group, isIP), Servers(dns, hosts, group, isIP);
    ResolversListed(dns, group, isIP);
    EntriesBare(dns, group, isIP, s);
    DefaultsNotBootstrap(dns, group, isIP, s);
    ServersSplit(dns, hosts, group, isIP);
    ServersDistinct(dns, hosts, group, isIP);
    WrittenOut(dns, isIP, s);
    var w := Written(s, dns, isIP);
    assert w.tag == s.tag;
    hide WithAutos, Servers, Written, Resolvers;
    var i :| 0 <= i < |all| && all[i] == s;
    assert servers[i] == w;
    LookupFinds(servers, w);
  }

  // ---- all servers ----

  lemma EntriesWritten(dns: RawDns, hosts: seq<string>, group: string, isIP: string -> bool, at: seq<nat>)
    requires dns.enable && Picked(Sources(dns, group), Listed(dns, group), ParsedFrom, at)
    ensures EntriesAt(Sources(dns, group), FinalServers(dns, hosts, group, isIP), dns.preferH3, at)
  {
    var sources, listed, servers := Sources(dns, group), Listed(dns, group), FinalServers(dns, hosts, group, isIP);
    TailIsOthers(dns, hosts, group, isIP);
    SourcesProper(dns, group);
    assert forall k :: 0 <= k < |listed| ==> WithAutos(dns, group, isIP)[k] == listed[k];
    hide Sources, Listed, FinalServers, ParsedFrom, Expressible, WrittenFor, Written, WithAutos, Proper;
    forall k | 0 <= k < |at| ensures WrittenFor(sources[at[k]], servers[k], dns.preferH3) {
      EntryWritten(dns, isIP, sources[at[k]]);
    }
    forall i: nat | i < |sources| ensures Expressible(sources[i].entry) <==> i in at {
      ParsedIsWritten(sources[i], false);
      if i in at { var k :| 0 <= k < |at| && at[k] == i; }
    }
  }

  lemma EntryWritten(dns: RawDns, isIP: string -> bool, from: Source)
    requires Proper(from) && ParsedFrom(from).Some?
    ensures WrittenFor(from, Written(ParsedFrom(from).value, dns, isIP), dns.preferH3)
  {
    ParsedIsWritten(from, dns.preferH3);
    WrittenOut(dns, isIP, ParsedFrom(from).value);
  }

  /** Where the default servers stand in the list. */
  lemma ResolversStand(dns: RawDns, group: string, isIP: string -> bool)
    ensures var all, d, from := WithAutos(dns, group, isIP), |Defaults(dns)|, |Listed(dns, group)|;
            && d <= from <= |all| && all[..from] == Listed(dns, group)
            && (d > 0 ==> from == |all| && all[..d] == Resolvers(dns, isIP))
            && (d == 0 ==> all[from..] == Resolvers(dns, isIP) == Autos(dns.nameserver, 0, 0, isIP))
  {
    hide Entries, Autos;
    var all := WithAutos(dns, group, isIP);
    assert all[..|Defaults(dns)|] == Defaults(dns);
  }

  /** The default servers, as written, stand for the resolvers. */
  lemma DefaultsWritten(dns: RawDns, hosts: seq<string>, group: string, isIP: string -> bool)
    requires dns.enable
    ensures var servers, d, from := FinalServers(dns, hosts, group, isIP), |Defaults(dns)|, |Listed(dns, group)|;
            && d <= from && from + (if d > 0 then 0 else |Resolvers(dns, isIP)|) == |WithAutos(dns, group, isIP)|
            && |WithAutos(dns, group, isIP)| <= |servers|
            && var defaults := DefaultsOf(servers, d, from, if d > 0 then 0 else |Resolvers(dns, isIP)|);
            && |defaults| == |Resolvers(dns, isIP)|
            && forall k :: 0 <= k < |defaults| ==> defaults[k] == Written(Resolvers(dns, isIP)[k], dns, isIP)
  {
    TailIsOthers(dns, hosts, group, isIP);
    ResolversStand(dns, group, isIP);
    hide WithAutos, Listed, Defaults, Resolvers, FinalServers, Written, Others;
    var all, from, r := WithAutos(dns, group, isIP), |Listed(dns, group)|, Resolvers(dns, isIP);
    assert |Defaults(dns)| > 0 ==> forall k :: 0 <= k < |r| ==> all[k] == r[k];
    assert |Defaults(dns)| == 0 ==> forall k :: 0 <= k < |r| ==> all[from + k] == r[k];
  }

  lemma LookedUpSo(dns: RawDns, isIP: string -> bool, s: Server, defaults: seq<Server>)
    requires s.resolver == None && NoDup(TagsOf(Resolvers(dns, isIP)))
    requires |defaults| == |Resolvers(dns, isIP)|
    requires forall k :: 0 <= k < |defaults| ==> defaults[k] == Written(Resolvers(dns, isIP)[k], dns, isIP)
    ensures LookedUp(Written(s, dns, isIP), defaults, isIP)
  {
    WrittenOut(dns, isIP, s);
    FirstOtherIs(s.tag, TagsOf(Resolvers(dns, isIP)));
  }

  lemma AllLookedUp(dns: RawDns, hosts: seq<string>, group: string, isIP: string -> bool, defaults: seq<Server>, k: nat)
    requires dns.enable && k < |WithAutos(dns, group, isIP)| && |defaults| == |Resolvers(dns, isIP)|
    requires forall j :: 0 <= j < |defaults| ==> defaults[j] == Written(Resolvers(dns, isIP)[j], dns, isIP)
    ensures k < |FinalServers(dns, hosts, group, isIP)|
    ensures LookedUp(FinalServers(dns, hosts, group, isIP)[k], defaults, isIP)
  {
    TailIsOthers(dns, hosts, group, isIP);
    ResolversListed(dns, group, isIP);
    var s := WithAutos(dns, group, isIP)[k];
    EntriesBare(dns, group, isIP, s);
    LookedUpSo(dns, isIP, s, defaults);
  }

  lemma NamesLookedUp(dns: RawDns, hosts: seq<string>, group: string, isIP: string -> bool, defaults: seq<Server>)
    requires dns.enable && |defaults| == |Resolvers(dns, isIP)|
    requires forall j :: 0 <= j < |defaults| ==> defaults[j] == Written(Resolvers(dns, isIP)[j], dns, isIP)
    ensures LooksUpNames(DomainResolver(dns, hosts, group, isIP), defaults)
  {
    var d := Resolvers(dns, isIP);
    if d == [] {
      assert FirstResolver(dns, group, isIP) == "";
    } else {
      ResolversListed(dns, group, isIP);
      forall j | 0 <= j < |d|
        ensures (defaults[j].kind == Udp <==> d[j].kind == Udp) && (defaults[j].kind == Local <==> d[j].kind == Local)
                && defaults[j].tag == d[j].tag
      {
        assert d[j] in d;
        EntriesBare(dns, group, isIP, d[j]);
        WrittenOut(dns, isIP, d[j]);
      }
      hide Written, Resolvers, DomainResolver;
      var k := ResolverChosen(dns, hosts, group, isIP);
      assert First(defaults, k);
    }
  }

  lemma FirstTwoStandIn(list: seq<Nameserver>, isIP: string -> bool, autos: seq<Server>, auto: seq<nat>)
    requires StandInsAt(list, 0, 0, isIP, autos, auto)
    ensures FirstTwo(list, isIP, auto)
  {
    hide StandsIn, Parsed, Itoa;
  }

  /** The stand-ins among the servers, from `from` on. */
  lemma StandInsWritten(dns: RawDns, hosts: seq<string>, group: string, isIP: string -> bool, auto: seq<nat>)
    requires dns.enable && Defaults(dns) == []
    requires StandInsAt(dns.nameserver, 0, 0, isIP, Autos(dns.nameserver, 0, 0, isIP), auto)
    ensures StandIns(dns, isIP, FinalServers(dns, hosts, group, isIP), |Listed(dns, group)|, auto)
  {
    TailIsOthers(dns, hosts, group, isIP);
    ResolversStand(dns, group, isIP);
    FirstTwoStandIn(dns.nameserver, isIP, Autos(dns.nameserver, 0, 0, isIP), auto);
    hide FinalServers, WithAutos, Listed, WrittenFor, Written, Parsed, Itoa, Autos, StandsIn, Defaults, Resolvers,
      Others, FirstTwo;
    var all, listed, autos := WithAutos(dns, group, isIP), Listed(dns, group), Autos(dns.nameserver, 0, 0, isIP);
    assert forall k :: 0 <= k < |autos| ==> all[|listed| + k] == autos[k];
    forall k | 0 <= k < |auto|
      ensures WrittenFor(Source("def-auto-" + Itoa(k), dns.nameserver[auto[k]], None),
                         FinalServers(dns, hosts, group, isIP)[|listed| + k], dns.preferH3)
    {
      assert 0 + k == k && Parsed(dns.nameserver[auto[k]], "def-auto-" + Itoa(k), "") == Some(autos[k]);
      EntryWritten(dns, isIP, Source("def-auto-" + Itoa(k), dns.nameserver[auto[k]], None));
    }
  }

  lemma AllAt(dns: RawDns, hosts: seq<string>, group: string, isIP: string -> bool)
    returns (at: seq<nat>, auto: seq<nat>)
    requires dns.enable
    ensures |at| == |Listed(dns, group)| && |at| + |auto| == |WithAutos(dns, group, isIP)|
    ensures var servers := FinalServers(dns, hosts, group, isIP);
            && |at| + |auto| <= |servers| && EntriesAt(Sources(dns, group), servers, dns.preferH3, at)
            && DefaultsFirst(dns, at, |Defaults(dns)|)
            && (if |Defaults(dns)| > 0 then auto == [] else StandIns(dns, isIP, servers, |at|, auto))
  {
    at := ListedPicked(dns, group);
    EntriesWritten(dns, hosts, group, isIP, at);
    ResolversStand(dns, group, isIP);
    TailIsOthers(dns, hosts, group, isIP);
    auto := [];
    hide Listed, WithAutos, FinalServers, Autos, Sources, StandIns, EntriesAt, Resolvers, Others, ParsedFrom;
    if |Defaults(dns)| == 0 {
      auto := AutosAre(dns.nameserver, 0, 0, isIP);
      StandInsWritten(dns, hosts, group, isIP, auto);
    }
  }

  /** The servers of the output, and the one proxy names are looked up through, exactly. */
  lemma ServersExactly(dns: RawDns, hosts: seq<string>, group: string, isIP: string -> bool)
    returns (at: seq<nat>, d: nat, auto: seq<nat>)
    requires dns.enable
    ensures ServersAre(dns, hosts, group, isIP, FinalServers(dns, hosts, group, isIP),
                       DomainResolver(dns, hosts, group, isIP), at, d, auto)
  {
    at, auto := AllAt(dns, hosts, group, isIP);
    d := |Defaults(dns)|;
    DefaultsWritten(dns, hosts, group, isIP);
    TailIsOthers(dns, hosts, group, isIP);
    hide FinalServers, DomainResolver, Written, EntriesAt, Others, LookedUp, LooksUpNames, StandIns, DefaultsFirst,
      Sources, Listed, WithAutos, Defaults, Resolvers;
    var servers := FinalServers(dns, hosts, group, isIP);
    var defaults := DefaultsOf(servers, d, |at|, |auto|);
    forall k | 0 <= k < |at| + |auto| ensures LookedUp(servers[k], defaults, isIP) {
      AllLookedUp(dns, hosts, group, isIP, defaults, k);
    }
    NamesLookedUp(dns, hosts, group, isIP, defaults);
  }

  // ---- what is not matched, and what is reached directly ----

  /** The first entry of the list that can be expressed. */
  predicate FirstExpressible(list: seq<Nameserver>, k: nat) {
    k < |list| && Expressible(list[k]) && forall j :: 0 <= j < k ==> !Expressible(list[j])
  }

  lemma ParsedExactly(ns: Nameserver, tag: string, detour: string)
    ensures Parsed(ns, tag, detour).Some? <==> Expressible(ns)
    ensures Parsed(ns, tag, detour).Some? ==> Parsed(ns, tag, detour).value.tag == tag
  {}

  lemma {:induction false} EntriesBegin(list: seq<Nameserver>, i: nat, prefix: string, detour: string, k: nat)
    requires i <= k && FirstExpressible(list, k)
    ensures Entries(list, i, prefix, detour) != [] && Entries(list, i, prefix, detour)[0].tag == prefix + Itoa(k)
    decreases |list| - i
  {
    ParsedExactly(list[i], prefix + Itoa(i), detour);
    if i < k { EntriesBegin(list, i + 1, prefix, detour, k); }
  }

  lemma {:induction false} NoEntries(list: seq<Nameserver>, i: nat, prefix: string, detour: string)
    requires i <= |list| && forall j :: i <= j < |list| ==> !Expressible(list[j])
    ensures Entries(list, i, prefix, detour) == []
    decreases |list| - i
  {
    if i < |list| {
      ParsedExactly(list[i], prefix + Itoa(i), detour);
      NoEntries(list, i + 1, prefix, detour);
    }
  }

  predicate NoneExpressible(list: seq<Nameserver>) { forall i :: 0 <= i < |list| ==> !Expressible(list[i]) }

  /** dns.final is the first fallback that can be expressed, or else the first nameserver; a DNS that is off has only
      the bootstrap server. */
  lemma FinalExactly(dns: RawDns, hosts: seq<string>, group: string, isIP: string -> bool, k: nat)
    ensures !dns.enable ==>
              FinalTag(dns, group) == DomainResolver(dns, hosts, group, isIP) == "bootstrap-dns"
              && FinalServers(dns, hosts, group, isIP) == [Server("bootstrap-dns", Udp, "223.5.5.5", None, None)]
    ensures dns.enable && FirstExpressible(dns.fallback, k) ==> FinalTag(dns, group) == "fb-" + Itoa(k)
    ensures dns.enable && NoneExpressible(dns.fallback) && FirstExpressible(dns.nameserver, k) ==>
              FinalTag(dns, group) == "ns-" + Itoa(k)
    ensures dns.enable && NoneExpressible(dns.fallback) && NoneExpressible(dns.nameserver) ==>
              FinalTag(dns, group) == ""
  {
    if FirstExpressible(dns.fallback, k) { EntriesBegin(dns.fallback, 0, "fb-", group, k); }
    if FirstExpressible(dns.nameserver, k) { EntriesBegin(dns.nameserver, 0, "ns-", group, k); }
    if NoneExpressible(dns.fallback) { NoEntries(dns.fallback, 0, "fb-", group); }
    if NoneExpressible(dns.nameserver) { NoEntries(dns.nameserver, 0, "ns-", group); }
  }
}
