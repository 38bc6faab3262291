/**
 The TPROXY chain agrees with the gates the program selects: on every packet
 that reaches the per-policy rules, for every configuration.
 */
module TproxyProofs {
  import opened Wrappers
  import opened Policy
  import opened PortRanges
  import opened ForwardChain
  import opened ForwardProofs
  import opened Tproxy

  // ----------------------------------------------------------- walking rules

  lemma {:induction false} WalkAppend(a: seq<ProxyRule>, b: seq<ProxyRule>, p: Arrival, live: set<nat>)
    requires ValidProxyRules(a) && ValidProxyRules(b)
    ensures ValidProxyRules(a + b)
    ensures Walk(a + b, p, live) == if Walk(a, p, live).Some? then Walk(a, p, live) else Walk(b, p, live)
  {
    if |a| == 0 {
      assert a + b == b;
    } else {
      assert (a + b)[1..] == a[1..] + b;
      WalkAppend(a[1..], b, p, live);
    }
  }

  // ------------------------------------------------------------- port ranges

  predicate EightyAlone(ports: seq<PortRange>) {
    forall r :: r in ports ==> r.Has(80) ==> r == PortRange(80, 80)
  }

  lemma SplitPorts(p: PortRange, port: nat)
    ensures EightyAlone(Split(p))
    ensures InRanges(Split(p), port) <==> p.Has(port)
  {
    var s := Split(p);
    if p.first <= 80 <= p.last && p.Has(port) {
      var k := if port < 80 || (p.first == 80 && port == 80) then 0
               else if port == 80 then 1
               else |s| - 1;
      assert s[k].Has(port) && s[k] in s;
    } else if p.Has(port) {
      assert s[0] in s;
    }
  }

  lemma InRangesAppend(a: seq<PortRange>, b: seq<PortRange>, port: nat)
    ensures InRanges(a + b, port) <==> InRanges(a, port) || InRanges(b, port)
  {
    if r :| r in a && r.Has(port) { assert r in a + b; }
    if r :| r in b && r.Has(port) { assert r in a + b; }
  }

  /** Splitting keeps the ports and isolates port 80. */
  lemma {:induction false} TransportPortsSame(ports: seq<PortRange>, port: nat)
    ensures EightyAlone(TransportPorts(ports))
    ensures InRanges(TransportPorts(ports), port) <==> InRanges(ports, port)
  {
    if |ports| > 0 {
      hide InRanges, Split;
      TransportPortsSame(ports[..|ports| - 1], port);
      SplitPorts(ports[|ports| - 1], port);
      InRangesAppend(TransportPorts(ports[..|ports| - 1]), Split(ports[|ports| - 1]), port);
      LastPorts(ports, port);
    }
  }

  // ------------------------------------------------------- rules of an entry

  /** The fate of a gated packet: over IPv4 to its listener, otherwise or without one dropped. */
  function Taken(a: Arrival, http: nat, https: nat, live: set<nat>): Verdict {
    var listener := if a.packet.destinationPort == 80 then http else https;
    if !a.packet.destination.v6 && listener in live then Intercept(listener) else Dropped
  }

  predicate UnicastTcp(a: Arrival) {
    a.unicast && a.packet.protocol == TCP
  }

  lemma {:induction false} GateRulesWalk(base: Match, ports: seq<PortRange>, http: nat, https: nat, a: Arrival,
                                         live: set<nat>)
    requires ValidBase(base) && EightyAlone(ports)
    ensures ValidProxyRules(GateRules(base, ports, http, https))
    ensures Walk(GateRules(base, ports, http, https), a, live) ==
            if MatchHits(base, a.packet, New) && UnicastTcp(a) && InRanges(ports, a.packet.destinationPort)
            then Some(Taken(a, http, https, live)) else None
  {
    if |ports| > 0 {
      hide MatchHits, InRanges;
      var init, p := ports[..|ports| - 1], ports[|ports| - 1];
      assert p in ports;
      var pair := [Tproxy(base, p, Listener(p, http, https)), NoListener(base, p)];
      GateRulesWalk(base, init, http, https, a, live);
      WalkAppend(GateRules(base, init, http, https), pair, a, live);
      LastPorts(ports, a.packet.destinationPort);
      PairWalk(base, p, http, https, a, live);
    }
  }

  lemma PairWalk(base: Match, p: PortRange, http: nat, https: nat, a: Arrival, live: set<nat>)
    requires ValidBase(base) && (p.Has(80) ==> p == PortRange(80, 80))
    ensures ValidProxyRules([Tproxy(base, p, Listener(p, http, https)), NoListener(base, p)])
    ensures Walk([Tproxy(base, p, Listener(p, http, https)), NoListener(base, p)], a, live) ==
            if MatchHits(base, a.packet, New) && UnicastTcp(a) && p.Has(a.packet.destinationPort)
            then Some(Taken(a, http, https, live)) else None
  {
    hide MatchHits;
    var pair := [Tproxy(base, p, Listener(p, http, https)), NoListener(base, p)];
    assert pair[1..] == [NoListener(base, p)];
    assert Walk(pair[1..], a, live) == if Ends(pair[1], a, live) then Some(Dropped) else None;
    assert p.Has(a.packet.destinationPort) ==>
        Listener(p, http, https) == if a.packet.destinationPort == 80 then http else https;
  }

  lemma {:induction false} ServiceReturnsWalk(base: Match, services: seq<Service>, a: Arrival, live: set<nat>)
    requires ValidBase(base)
    ensures ValidProxyRules(ServiceReturns(base, services))
    ensures Walk(ServiceReturns(base, services), a, live) ==
            if && MatchHits(base, a.packet, New)
               && exists s :: s in services && ServiceMatch(s, a.packet.protocol, a.packet.destinationPort)
            then Some(Passed) else None
  {
    if |services| > 0 {
      hide MatchHits;
      var init, s := services[..|services| - 1], services[|services| - 1];
      ServiceReturnsWalk(base, init, a, live);
      WalkAppend(ServiceReturns(base, init), [FirstMatchReturn(base, Some(s))], a, live);
      assert services == init + [s];
    }
  }

  lemma ReturnsWalk(base: Match, services: seq<Service>, a: Arrival, live: set<nat>)
    requires ValidBase(base)
    ensures ValidProxyRules(Returns(base, services))
    ensures Walk(Returns(base, services), a, live) ==
            if MatchHits(base, a.packet, New) && ServicesMatch(services, a.packet.protocol, a.packet.destinationPort)
            then Some(Passed) else None
  {
    if |services| > 0 { ServiceReturnsWalk(base, services, a, live); }
  }

  lemma GatePartWalk(e: Entry, base: Match, http: nat, https: nat, a: Arrival, live: set<nat>)
    requires ValidBase(base)
    ensures ValidProxyRules(GatePart(e, base, http, https))
    ensures Walk(GatePart(e, base, http, https), a, live) ==
            if e.gate.None? || !MatchHits(base, a.packet, New) then None
            else if UnicastTcp(a) && InRanges(e.gate.value.ports, a.packet.destinationPort)
              then Some(Taken(a, http, https, live))
            else if e.gate.value.blockQuic && a.packet.protocol == UDP && a.packet.destinationPort == 443
                    && ServicesMatch(e.rule.services, UDP, 443) then Some(Dropped)
            else None
  {
    if e.gate.Some? {
      hide MatchHits, InRanges, ServicesMatch;
      var ports := TransportPorts(e.gate.value.ports);
      TransportPortsSame(e.gate.value.ports, a.packet.destinationPort);
      GateRulesWalk(base, ports, http, https, a, live);
      var quic := if e.gate.value.blockQuic && ServicesMatch(e.rule.services, UDP, 443) then [QuicDrop(base)] else [];
      WalkAppend(GateRules(base, ports, http, https), quic, a, live);
    }
  }

  /** What the chain does with a packet whose first match is this entry. */
  function DecisionFor(e: Entry, a: Arrival, http: nat, https: nat, live: set<nat>): Verdict {
    if e.gate.Some? && UnicastTcp(a) && InRanges(e.gate.value.ports, a.packet.destinationPort)
      then Taken(a, http, https, live)
    else if e.gate.Some? && e.gate.value.blockQuic && a.packet.protocol == UDP && a.packet.destinationPort == 443
      then Dropped
    else Passed
  }

  /** Gate ports come from the rule itself. */
  predicate Fits(e: Entry) {
    e.gate.Some? ==> e.rule.action == Allow && e.gate.value.ports == GatePorts(e.rule)
  }

  lemma GatedIsServed(r: Rule, port: nat)
    ensures InRanges(GatePorts(r), port) ==> ServicesMatch(r.services, TCP, port)
  {
    GatePortsNormal(r);
  }

  lemma BaseIsMatch(c: Config, r: Rule, p: Packet)
    requires NamesUnique(c.interfaces) && ValidRule(r)
    requires forall z :: z in r.sourceZones + r.destinationZones ==> ZoneHasInterface(c.interfaces, z)
    ensures Matches(r, ViewOf(c, p)) <==>
            MatchHits(BaseOf(r, c.interfaces), p, New) && ServicesMatch(r.services, p.protocol, p.destinationPort)
  {
    NamesInIsZone(c.interfaces, r.sourceZones, p.iif);
    NamesInIsZone(c.interfaces, r.destinationZones, p.oif);
  }

  lemma NamesInIsZone(interfaces: seq<Iface>, zones: set<string>, name: string)
    requires NamesUnique(interfaces) && forall z :: z in zones ==> ZoneHasInterface(interfaces, z)
    ensures name in NamesIn(interfaces, zones) <==> ZoneOf(interfaces, name) in zones
  {
    ZoneOfMember(interfaces, name);
    assert name in NamesIn(interfaces, zones) <==>
        exists i :: i in interfaces && i.zone != "" && i.zone in zones && i.name == name;
    if ZoneOf(interfaces, name) in zones {
      assert ZoneHasInterface(interfaces, ZoneOf(interfaces, name));
    }
  }

  /** The rules of an entry end a packet exactly when its rule matches. */
  lemma EntryWalk(c: Config, e: Entry, http: nat, https: nat, a: Arrival, live: set<nat>)
    requires NamesUnique(c.interfaces) && ValidRule(e.rule) && Fits(e)
    requires forall z :: z in e.rule.sourceZones + e.rule.destinationZones ==> ZoneHasInterface(c.interfaces, z)
    ensures ValidProxyRules(EntryRules(e, c.interfaces, http, https))
    ensures Walk(EntryRules(e, c.interfaces, http, https), a, live) ==
            if Matches(e.rule, ViewOf(c, a.packet)) then Some(DecisionFor(e, a, http, https, live)) else None
  {
    hide MatchHits, InRanges, Matches, NamesUnique, ZoneHasInterface, ServicesMatch, GatePorts;
    var base := BaseOf(e.rule, c.interfaces);
    BaseIsMatch(c, e.rule, a.packet);
    GatePartWalk(e, base, http, https, a, live);
    ReturnsWalk(base, e.rule.services, a, live);
    WalkAppend(GatePart(e, base, http, https), Returns(base, e.rule.services), a, live);
    if e.gate.Some? { GatedIsServed(e.rule, a.packet.destinationPort); }
  }

  // ------------------------------------------------------------ whole chains

  predicate GatesFit(rules: seq<Rule>, gates: map<string, GatePlan>) {
    forall r :: r in rules ==> Fits(EntryFor(r, gates))
  }

  predicate ZonesServed(rules: seq<Rule>, interfaces: seq<Iface>) {
    forall r, z :: r in rules && z in r.sourceZones + r.destinationZones ==> ZoneHasInterface(interfaces, z)
  }

  /** All entries together decide as the first match does. */
  lemma {:induction false} EntriesWalk(c: Config, rules: seq<Rule>, gates: map<string, GatePlan>,
                                       http: nat, https: nat, a: Arrival, live: set<nat>)
    requires NamesUnique(c.interfaces) && ValidRules(rules) && GatesFit(rules, gates)
             && ZonesServed(rules, c.interfaces)
    ensures ValidProxyRules(AllEntryRules(EntriesOf(rules, gates), c.interfaces, http, https))
    ensures var m := FirstMatch(rules, ViewOf(c, a.packet));
            Walk(AllEntryRules(EntriesOf(rules, gates), c.interfaces, http, https), a, live) ==
            if m.Some? then Some(DecisionFor(EntryFor(m.value, gates), a, http, https, live)) else None
  {
    if |rules| > 0 {
      hide Matches, NamesUnique, ZoneHasInterface, EntryRules, DecisionFor, Fits, ValidRule;
      var init, r := rules[..|rules| - 1], rules[|rules| - 1];
      var es := EntriesOf(init, gates);
      assert r in rules && rules == init + [r];
      assert EntriesOf(rules, gates) == es + [EntryFor(r, gates)];
      assert (es + [EntryFor(r, gates)])[..|es|] == es;
      EntriesWalk(c, init, gates, http, https, a, live);
      EntryWalk(c, EntryFor(r, gates), http, https, a, live);
      WalkAppend(AllEntryRules(es, c.interfaces, http, https),
                 EntryRules(EntryFor(r, gates), c.interfaces, http, https), a, live);
      FirstMatchAppend(init, [r], ViewOf(c, a.packet));
      assert FirstMatch([r], ViewOf(c, a.packet)) == if Matches(r, ViewOf(c, a.packet)) then Some(r) else None;
    }
  }

  lemma CompiledGatesFit(ps: seq<SecurityPolicy>, profiles: seq<Profile>, usesM4: bool)
    requires UniqueIds(ps)
    ensures GatesFit(RulesOf(SortByPriority(ps)), if usesM4 then GatesOf(ps, profiles) else map[])
  {
    var gates := if usesM4 then GatesOf(ps, profiles) else map[];
    forall r | r in RulesOf(SortByPriority(ps)) ensures Fits(EntryFor(r, gates)) {
      RulesOfMember(SortByPriority(ps), r);
      var p :| p in SortByPriority(ps) && p.enabled && r == RuleOf(p);
      GatesLookup(ps, profiles, p);
    }
  }

  lemma CompiledZonesServed(c: Config)
    requires Compilable(c)
    ensures ZonesServed(RulesOf(SortByPriority(c.policies)), c.interfaces)
  {
    forall r, z | r in RulesOf(SortByPriority(c.policies)) && z in r.sourceZones + r.destinationZones
      ensures ZoneHasInterface(c.interfaces, z)
    {
      RulesOfMember(SortByPriority(c.policies), r);
    }
  }

  lemma {:induction false} GuardsValid(ds: seq<Dnat>, interfaces: seq<Iface>)
    requires forall d :: d in ds ==> ValidPrefixes(d.network)
    ensures ValidProxyRules(Guards(ds, interfaces))
  {
    if |ds| > 0 {
      assert ds[|ds| - 1] in ds;
      GuardsValid(ds[..|ds| - 1], interfaces);
    }
  }

  ghost predicate Sane(c: M4Config) {
    && Sound(c.forward) && UniqueIds(c.forward.policies)
    && forall d :: d in c.dnats ==> ValidPrefixes(d.network)
  }

  /** The verdict on a packet that no bypass or guard ends, from its first match. */
  lemma ChainDecides(c: M4Config, generation: nat, a: Arrival, live: set<nat>)
    requires Sane(c)
    ensures ValidRules(GatedOf(c, generation).program.rules)
    ensures ValidProxyRules(Prefixed(c)) && ValidProxyRules(ChainOf(c, PlanOf(c, GatedOf(c, generation))))
    ensures Walk(Prefixed(c), a, live).None? ==>
              var g := GatedOf(c, generation);
              var m := FirstMatch(g.program.rules, ViewOf(c.forward, a.packet));
              Fate(ChainOf(c, PlanOf(c, g)), a, live) ==
              if m.Some? then DecisionFor(EntryFor(m.value, g.gates), a, c.http, c.https, live) else Passed
  {
    hide NamesUnique, Compilable, Matches, EntryRules, GatesOf, RulesOf, SortByPriority, ViewOf;
    var g := GatedOf(c, generation);
    SortedPolicies(c.forward);
    RulesOfValid(SortByPriority(c.forward.policies));
    CompiledGatesFit(c.forward.policies, c.profiles, c.usesM4);
    CompiledZonesServed(c.forward);
    GuardsValid(c.dnats, c.forward.interfaces);
    EntriesWalk(c.forward, g.program.rules, g.gates, c.http, c.https, a, live);
    WalkAppend(Prefixed(c), AllEntryRules(EntriesOf(g.program.rules, g.gates), c.forward.interfaces, c.http, c.https),
               a, live);
    NoGateNoEntry(g, ViewOf(c.forward, a.packet));
  }

  /** Without any gated entry the first match has no gate. */
  lemma NoGateNoEntry(g: GatedProgram, v: View)
    requires ValidRules(g.program.rules)
    ensures var m := FirstMatch(g.program.rules, v);
            m.Some? && !HasGate(EntriesOf(g.program.rules, g.gates)) ==> m.value.id !in g.gates
  {
    FirstMatchIsFirst(g.program.rules, v);
    var m := FirstMatch(g.program.rules, v);
    if m.Some? { EntriesMember(g.program.rules, g.gates, m.value); }
  }

  /**
   For every configuration and every unicast TCP packet past the prefix, the
   chain intercepts exactly what the program gates: port 80 at the HTTP
   listener, every other gated port at the HTTPS one, and a drop in place of a
   missing listener.
   */
  lemma InterceptsExactlyGated(c: M4Config, generation: nat, a: Arrival, live: set<nat>)
    requires Sane(c)
    ensures ValidRules(GatedOf(c, generation).program.rules)
    ensures ValidProxyRules(Prefixed(c)) && ValidProxyRules(ChainOf(c, PlanOf(c, GatedOf(c, generation))))
    ensures Walk(Prefixed(c), a, live).None? && UnicastTcp(a) ==>
              Fate(ChainOf(c, PlanOf(c, GatedOf(c, generation))), a, live) ==
              if Selected(GatedOf(c, generation), ViewOf(c.forward, a.packet)).Some?
              then Taken(a, c.http, c.https, live) else Passed
  {
    hide Sane, ChainOf, PlanOf, Prefixed, Walk, Matches, ValidProxyRules, InRanges;
    ChainDecides(c, generation, a, live);
    FirstMatchFits(c, generation, ViewOf(c.forward, a.packet));
  }

  lemma FirstMatchFits(c: M4Config, generation: nat, v: View)
    requires Sane(c)
    ensures ValidRules(GatedOf(c, generation).program.rules)
    ensures var g := GatedOf(c, generation);
            var m := FirstMatch(g.program.rules, v);
            m.Some? ==> Fits(EntryFor(m.value, g.gates))
  {
    SortedPolicies(c.forward);
    RulesOfValid(SortByPriority(c.forward.policies));
    CompiledGatesFit(c.forward.policies, c.profiles, c.usesM4);
    FirstMatchIsFirst(GatedOf(c, generation).program.rules, v);
  }

  /** UDP to port 443 is dropped exactly when its first match is gated with QUIC blocked. */
  lemma DropsExactlyBlockedQuic(c: M4Config, generation: nat, a: Arrival, live: set<nat>)
    requires Sane(c)
    ensures ValidRules(GatedOf(c, generation).program.rules)
    ensures ValidProxyRules(Prefixed(c)) && ValidProxyRules(ChainOf(c, PlanOf(c, GatedOf(c, generation))))
    ensures Walk(Prefixed(c), a, live).None? && a.packet.protocol == UDP && a.packet.destinationPort == 443 ==>
              var g := GatedOf(c, generation);
              var m := FirstMatch(g.program.rules, ViewOf(c.forward, a.packet));
              Fate(ChainOf(c, PlanOf(c, g)), a, live) ==
              if m.Some? && m.value.id in g.gates && g.gates[m.value.id].blockQuic then Dropped else Passed
  {
    hide Sane, ChainOf, PlanOf, Prefixed, Walk, Matches, ValidProxyRules, InRanges;
    ChainDecides(c, generation, a, live);
  }

  /** Nothing else is touched. */
  lemma PassesTheRest(c: M4Config, generation: nat, a: Arrival, live: set<nat>)
    requires Sane(c)
    ensures ValidProxyRules(Prefixed(c)) && ValidProxyRules(ChainOf(c, PlanOf(c, GatedOf(c, generation))))
    ensures Walk(Prefixed(c), a, live).None? && !UnicastTcp(a)
            && !(a.packet.protocol == UDP && a.packet.destinationPort == 443)
            ==> Fate(ChainOf(c, PlanOf(c, GatedOf(c, generation))), a, live) == Passed
  {
    hide Sane, ChainOf, PlanOf, Prefixed, Walk, Matches, ValidProxyRules, InRanges;
    ChainDecides(c, generation, a, live);
  }
}
