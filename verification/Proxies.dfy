/** Proxies: each becomes an outbound, or a stub that keeps an unsupported node visible; and the stub marks read
    back from a saved configuration. */
module Proxies {
  import opened Basics
  import opened Config
  import opened Text

  /** What the model takes from the libraries and the per-protocol translators: is a text an IP address; is a host
      (trimmed, brackets off) localhost, a loopback or the unspecified address; and what a proxy translates to, tag
      aside (None when the protocol is not supported). */
  datatype Env = Env(isIP: string -> bool, deadHost: string -> bool, body: RawProxy -> Option<Body>, country: string)

  datatype Body = Body(kind: string, server: string, port: int, username: string, echName: string)

  /** isInvalidHealthCheckEndpoint. */
  predicate InvalidEndpoint(p: RawProxy, env: Env) {
    var host := TrimSpace(p.server);
    host != "" && (env.deadHost(Unbracketed(host)) || (p.port != 0 && (p.port < 1 || p.port > 65535)))
  }

  function Unbracketed(host: string): string {
    if |host| >= 2 && host[0] == '[' && host[|host| - 1] == ']' then host[1..|host| - 1]
    else host
  }

  predicate HasEndpoint(p: RawProxy) { p.server != "" && (p.port != 0 || p.ports != "") }

  const MARK := "unsupported:"

  /** makeStubOutbound. */
  function Stub(p: RawProxy): Outbound { Node(p.name, "socks", "127.0.0.1", 1, MARK + p.kind, "", None) }

  predicate BecomesStub(p: RawProxy, env: Env) { !HasEndpoint(p) || env.body(p).None? }

  /** The outbound a proxy is to be reached through, as ApplyCommonFields copies it: nothing checks that it exists. */
  function Dialed(p: RawProxy): Option<string> { if p.dialer != "" then Some(p.dialer) else None }

  /** One named proxy. */
  function Translated(p: RawProxy, env: Env): (o: Outbound)
    ensures o.Node? && o.tag == p.name
  {
    if BecomesStub(p, env) then Stub(p)
    else var b := env.body(p).value; Node(p.name, b.kind, b.server, b.port, b.username, b.echName, Dialed(p))
  }

  function All(ps: seq<RawProxy>, env: Env): seq<Outbound> {
    if ps == [] then []
    else (if ps[0].name == "" then [] else [Translated(ps[0], env)]) + All(ps[1..], env)
  }

  function StubMap(ps: seq<RawProxy>, env: Env): map<string, string> {
    if ps == [] then map[]
    else
      var first := if ps[0].name != "" && BecomesStub(ps[0], env) then map[ps[0].name := ps[0].kind] else map[];
      first + StubMap(ps[1..], env)
  }

  /** Names that must not be probed. */
  function InvalidNames(ps: seq<RawProxy>, env: Env): set<string> {
    set i | 0 <= i < |ps| && ps[i].name != "" && (InvalidEndpoint(ps[i], env) || BecomesStub(ps[i], env)) :: ps[i].name
  }

  /** The ECH query names of translated proxies, each once, in order. */
  function EchNames(obs: seq<Outbound>, seen: seq<string>): seq<string> {
    if obs == [] then seen
    else
      var n := if obs[0].Node? then obs[0].echName else "";
      EchNames(obs[1..], if n == "" || n in seen then seen else seen + [n])
  }

  // ---- reading the marks back ----

  predicate StubShaped(o: Outbound) {
    o.Node? && o.kind == "socks" && o.server == "127.0.0.1" && o.port == 1 && HasPrefix(o.username, MARK)
  }

  function Mark(o: Outbound): map<string, string> {
    if StubShaped(o) then map[o.tag := o.username[|MARK|..]] else map[]
  }

  /** extractStubTagsFromJSON; a later outbound with the same tag wins. */
  function Extracted(obs: seq<Outbound>): map<string, string> {
    if obs == [] then map[] else Mark(obs[0]) + Extracted(obs[1..])
  }

  /** A genuine proxy that looks like a stub. */
  predicate Lookalike(p: RawProxy, env: Env) {
    p.name != "" && !BecomesStub(p, env) && StubShaped(Translated(p, env))
  }

  lemma MergeThree<K, V>(a: map<K, V>, b: map<K, V>, c: map<K, V>)
    ensures (a + b) + c == a + (b + c)
  {}

  lemma {:induction false} ExtractedJoin(one: seq<Outbound>, two: seq<Outbound>)
    ensures Extracted(one + two) == Extracted(one) + Extracted(two)
  {
    if one == [] {
      assert one + two == two;
    } else {
      ExtractedJoin(one[1..], two);
      assert (one + two)[1..] == one[1..] + two;
      MergeThree(Mark(one[0]), Extracted(one[1..]), Extracted(two));
    }
  }

  lemma {:induction false} NoMarks(obs: seq<Outbound>)
    requires forall o :: o in obs ==> !o.Node?
    ensures Extracted(obs) == map[]
  {
    if obs != [] {
      assert obs[0] in obs && forall o :: o in obs[1..] ==> o in obs;
      NoMarks(obs[1..]);
    }
  }

  lemma MarkOfStub(p: RawProxy)
    ensures StubShaped(Stub(p)) && Mark(Stub(p)) == map[p.name := p.kind]
  {
    assert (MARK + p.kind)[..|MARK|] == MARK && (MARK + p.kind)[|MARK|..] == p.kind;
  }

  /** Without look-alikes, reading the marks of the translated proxies gives exactly the map the translator built. */
  lemma {:induction false} StubsReadBack(ps: seq<RawProxy>, env: Env)
    requires forall p :: p in ps ==> !Lookalike(p, env)
    ensures Extracted(All(ps, env)) == StubMap(ps, env)
  {
    if ps != [] {
      assert ps[0] in ps && forall p :: p in ps[1..] ==> p in ps;
      StubsReadBack(ps[1..], env);
      var first := if ps[0].name == "" then [] else [Translated(ps[0], env)];
      ExtractedJoin(first, All(ps[1..], env));
      MarkOfStub(ps[0]);
      if ps[0].name != "" {
        assert first[1..] == [];
      }
    }
  }

  lemma {:induction false} ExtractedHas(obs: seq<Outbound>, o: Outbound)
    requires o in obs && StubShaped(o)
    ensures o.tag in Extracted(obs)
  {
    if o != obs[0] { ExtractedHas(obs[1..], o); }
  }

  lemma {:induction false} AllHas(ps: seq<RawProxy>, env: Env, p: RawProxy)
    requires p in ps && p.name != ""
    ensures Translated(p, env) in All(ps, env)
  {
    if p != ps[0] { AllHas(ps[1..], env, p); }
  }

  lemma {:induction false} StubMapKeys(ps: seq<RawProxy>, env: Env, name: string) returns (p: RawProxy)
    requires name in StubMap(ps, env)
    ensures p in ps && p.name == name && name != "" && BecomesStub(p, env)
  {
    if ps[0].name == name && name != "" && BecomesStub(ps[0], env) {
      p := ps[0];
    } else {
      p := StubMapKeys(ps[1..], env, name);
    }
  }

  /** With distinct names that is also the only case: the marks read back are the translator's map if and only if no
      genuine proxy looks like a stub. */
  lemma StubRoundTripExactly(ps: seq<RawProxy>, env: Env)
    requires forall p, q :: p in ps && q in ps && p.name == q.name && p.name != "" ==> p == q
    ensures Extracted(All(ps, env)) == StubMap(ps, env) <==> forall p :: p in ps ==> !Lookalike(p, env)
  {
    if forall p :: p in ps ==> !Lookalike(p, env) {
      StubsReadBack(ps, env);
    } else {
      var p :| p in ps && Lookalike(p, env);
      AllHas(ps, env, p);
      ExtractedHas(All(ps, env), Translated(p, env));
      if p.name in StubMap(ps, env) {
        var q := StubMapKeys(ps, env, p.name);
      }
    }
  }

  /** A genuine SOCKS proxy that looks like a stub, and a real stub. */
  const SOCKS_PROXY := RawProxy("s", "socks5", "127.0.0.1", 1, "", "", 0)
  const REAL_STUB := RawProxy("w", "wireguard", "", 0, "", "", 0)

  /** Read back, both are stubs. */
  lemma LookalikeIsTakenForAStub(env: Env)
    requires env.body(SOCKS_PROXY) == Some(Body("socks", "127.0.0.1", 1, "unsupported:x", ""))
    ensures "s" !in StubMap([SOCKS_PROXY, REAL_STUB], env) && "w" in StubMap([SOCKS_PROXY, REAL_STUB], env)
    ensures "s" in Extracted(All([SOCKS_PROXY, REAL_STUB], env))
  {
    var ps := [SOCKS_PROXY, REAL_STUB];
    assert ps[1..] == [REAL_STUB] && ps[1..][1..] == [];
    var o := Translated(SOCKS_PROXY, env);
    assert !BecomesStub(SOCKS_PROXY, env) && BecomesStub(REAL_STUB, env);
    assert StubMap([REAL_STUB], env) == map["w" := "wireguard"];
    assert StubMap(ps, env) == StubMap([REAL_STUB], env);
    assert "unsupported:x"[..12] == MARK;
    assert SOCKS_PROXY in ps;
    AllHas(ps, env, SOCKS_PROXY);
    ExtractedHas(All(ps, env), o);
  }

  // ---- the tags of the translated proxies ----

  lemma {:induction false} AllTags(ps: seq<RawProxy>, env: Env)
    ensures forall o :: o in All(ps, env) ==> o.Node? && o.tag != ""
  {
    if ps != [] { AllTags(ps[1..], env); }
  }
}
