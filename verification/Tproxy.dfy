/**
 Transparent interception.  Compiled request gates annotate the connectivity
 program; the TPROXY chain re-states the program's first match in front of the
 routing decision, and must intercept exactly what the program gates.
 */
module Tproxy {
  import opened Wrappers
  import opened Policy
  import opened PortRanges
  import opened ForwardChain
  import opened ForwardProofs

  // ------------------------------------------------------------ request gates

  datatype Gate = Gate(enabled: bool, blockQuic: bool)

  datatype Profile = Profile(id: string, gate: Option<Gate>)

  /** A destination translation; protocol and port zero mean any. */
  datatype Dnat = Dnat(
    enabled: bool, sourceZone: string, network: seq<Prefix>, target: Addr, protocol: nat, port: nat,
    destinationZone: string)

  datatype M4Config = M4Config(
    forward: Config, management: set<string>, profiles: seq<Profile>, dnats: seq<Dnat>, usesM4: bool, http: nat,
    https: nat)

  datatype GatePlan = GatePlan(profile: string, blockQuic: bool, ports: seq<PortRange>)

  datatype GatedProgram = GatedProgram(program: Program, gates: map<string, GatePlan>)

  /** The profile with an id; a later one replaces an earlier one. */
  function FindProfile(profiles: seq<Profile>, id: string): Option<Profile> {
    if |profiles| == 0 then None
    else if profiles[|profiles| - 1].id == id then Some(profiles[|profiles| - 1])
    else FindProfile(profiles[..|profiles| - 1], id)
  }

  function GateOf(p: SecurityPolicy, profiles: seq<Profile>): Option<GatePlan> {
    var profile := FindProfile(profiles, p.profile);
    if p.enabled && p.action == Allow && profile.Some? && profile.value.gate.Some? && profile.value.gate.value.enabled
    then Some(GatePlan(profile.value.id, profile.value.gate.value.blockQuic, GatePorts(RuleOf(p))))
    else None
  }

  function GatesOf(ps: seq<SecurityPolicy>, profiles: seq<Profile>): map<string, GatePlan> {
    if |ps| == 0 then map[]
    else
      var gate := GateOf(ps[|ps| - 1], profiles);
      if gate.Some? then GatesOf(ps[..|ps| - 1], profiles)[ps[|ps| - 1].id := gate.value]
      else GatesOf(ps[..|ps| - 1], profiles)
  }

  predicate UniqueIds(ps: seq<SecurityPolicy>) {
    forall p, q :: p in ps && q in ps && p.id == q.id ==> p == q
  }

  predicate SessionScoped(ps: seq<SecurityPolicy>) {
    forall p :: p in ps && p.enabled ==> p.sessionScope && !p.riskBounds
  }

  /** `CompileM4` */
  method CompileM4(c: M4Config, generation: nat) returns (r: Result<GatedProgram>)
    requires UniqueIds(c.forward.policies)
    ensures r.Success? <==>
            SessionScoped(c.forward.policies) && Supported(c.forward.policies)
                && DistinctPriorities(SortByPriority(c.forward.policies))
    ensures r.Success? ==> r.value.program == ProgramOf(c.forward, generation)
    ensures r.Success? ==> r.value.gates == if c.usesM4 then GatesOf(c.forward.policies, c.profiles) else map[]
  {
    var ps := c.forward.policies;
    var scoped := CheckScope(ps);
    if !scoped { return Failure("outside M4 session scope"); }
    var program := Compile(ps, c.forward.defaultDeny, generation);
    if program.Failure? { return Failure(program.error); }
    if !c.usesM4 { return Success(GatedProgram(program.value, map[])); }
    var gates := CompileGates(ps, c.profiles, program.value.rules);
    r := Success(GatedProgram(program.value, gates));
  }

  method CheckScope(ps: seq<SecurityPolicy>) returns (ok: bool)
    ensures ok == SessionScoped(ps)
  {
    for n := 0 to |ps|
      invariant forall i :: 0 <= i < n && ps[i].enabled ==> ps[i].sessionScope && !ps[i].riskBounds
    {
      if ps[n].enabled && (ps[n].riskBounds || !ps[n].sessionScope) {
        assert ps[n] in ps;
        return false;
      }
    }
    ok := true;
  }

  method CompileGates(ps: seq<SecurityPolicy>, profiles: seq<Profile>, rules: seq<Rule>)
    returns (gates: map<string, GatePlan>)
    requires UniqueIds(ps) && rules == RulesOf(SortByPriority(ps))
    ensures gates == GatesOf(ps, profiles)
  {
    hide UniqueIds, RulesOf, SortByPriority, GatePorts;
    var compiled := IndexRules(rules);
    gates := map[];
    for n := 0 to |ps|
      invariant gates == GatesOf(ps[..n], profiles)
    {
      assert ps[..n + 1][..n] == ps[..n];
      if ps[n].enabled && ps[n].action == Allow {
        var profile := LookupProfile(profiles, ps[n].profile);
        if profile.Some? && profile.value.gate.Some? && profile.value.gate.value.enabled {
          CompiledRule(ps, ps[n], compiled);
          var ports := RequestGateTCPPorts(compiled[ps[n].id]);
          gates := gates[ps[n].id := GatePlan(profile.value.id, profile.value.gate.value.blockQuic, ports)];
        }
      }
    }
    assert ps[..|ps|] == ps;
  }

  method LookupProfile(profiles: seq<Profile>, id: string) returns (found: Option<Profile>)
    ensures found == FindProfile(profiles, id)
  {
    found := None;
    for n := 0 to |profiles|
      invariant found == FindProfile(profiles[..n], id)
    {
      assert profiles[..n + 1][..n] == profiles[..n];
      if profiles[n].id == id { found := Some(profiles[n]); }
    }
    assert profiles[..|profiles|] == profiles;
  }

  method IndexRules(rules: seq<Rule>) returns (index: map<string, Rule>)
    ensures forall r :: r in rules ==> r.id in index
    ensures forall id :: id in index ==> index[id] in rules && index[id].id == id
  {
    index := map[];
    for n := 0 to |rules|
      invariant forall i :: 0 <= i < n ==> rules[i].id in index
      invariant forall id :: id in index ==> index[id] in rules && index[id].id == id
    {
      index := index[rules[n].id := rules[n]];
    }
  }

  lemma {:induction false} RulesOfMember(ps: seq<SecurityPolicy>, r: Rule)
    ensures r in RulesOf(ps) <==> exists p :: p in ps && p.enabled && r == RuleOf(p)
  {
    if |ps| > 0 {
      RulesOfMember(ps[..|ps| - 1], r);
      assert ps == ps[..|ps| - 1] + [ps[|ps| - 1]];
    }
  }

  lemma CompiledRule(ps: seq<SecurityPolicy>, p: SecurityPolicy, index: map<string, Rule>)
    requires UniqueIds(ps) && p in ps && p.enabled
    requires forall r :: r in RulesOf(SortByPriority(ps)) ==> r.id in index
    requires forall id :: id in index ==> index[id] in RulesOf(SortByPriority(ps)) && index[id].id == id
    ensures p.id in index && index[p.id] == RuleOf(p)
  {
    RulesOfMember(SortByPriority(ps), RuleOf(p));
    RulesOfMember(SortByPriority(ps), index[p.id]);
  }

  /** The gate compiled for a policy is found under its id. */
  lemma {:induction false} GatesLookup(ps: seq<SecurityPolicy>, profiles: seq<Profile>, p: SecurityPolicy)
    requires UniqueIds(ps) && p in ps
    ensures p.id in GatesOf(ps, profiles) <==> GateOf(p, profiles).Some?
    ensures GateOf(p, profiles).Some? ==> GatesOf(ps, profiles)[p.id] == GateOf(p, profiles).value
  {
    var init, last := ps[..|ps| - 1], ps[|ps| - 1];
    assert ps == init + [last];
    if p in init {
      GatesLookup(init, profiles, p);
    } else {
      NoGateFor(init, profiles, p.id);
    }
  }

  lemma {:induction false} NoGateFor(ps: seq<SecurityPolicy>, profiles: seq<Profile>, id: string)
    requires forall p :: p in ps ==> p.id != id
    ensures id !in GatesOf(ps, profiles)
  {
    if |ps| > 0 { NoGateFor(ps[..|ps| - 1], profiles, id); }
  }

  /** `SelectRequestGate`: the gate of the first match, on a gated TCP port. */
  function Selected(g: GatedProgram, v: View): Option<GatePlan>
    requires ValidRules(g.program.rules)
  {
    var m := FirstMatch(g.program.rules, v);
    if m.Some? && m.value.action == Allow && v.protocol == TCP && m.value.id in g.gates
       && InRanges(g.gates[m.value.id].ports, v.destinationPort)
    then Some(g.gates[m.value.id]) else None
  }

  method SelectRequestGate(g: GatedProgram, v: View) returns (gate: Option<GatePlan>)
    requires ValidRules(g.program.rules)
    ensures gate == Selected(g, v)
  {
    var decision := Evaluate(g.program, v);
    if decision.action != Allow || decision.policy.None? || v.protocol != TCP { return None; }
    if decision.policy.value !in g.gates { return None; }
    var plan := g.gates[decision.policy.value];
    for n := 0 to |plan.ports|
      invariant forall i :: 0 <= i < n ==> !plan.ports[i].Has(v.destinationPort)
    {
      if plan.ports[n].Has(v.destinationPort) { return Some(plan); }
    }
    gate := None;
  }

  // ---------------------------------------------------------------- the plan

  datatype Entry = Entry(rule: Rule, gate: Option<GatePlan>)

  datatype Plan = Plan(enabled: bool, entries: seq<Entry>, http: nat, https: nat)

  function EntriesOf(rules: seq<Rule>, gates: map<string, GatePlan>): seq<Entry> {
    if |rules| == 0 then []
    else
      var r := rules[|rules| - 1];
      EntriesOf(rules[..|rules| - 1], gates) + [EntryFor(r, gates)]
  }

  function EntryFor(r: Rule, gates: map<string, GatePlan>): Entry {
    Entry(r, if r.id in gates then Some(gates[r.id]) else None)
  }

  lemma {:induction false} EntriesMember(rules: seq<Rule>, gates: map<string, GatePlan>, r: Rule)
    requires r in rules
    ensures EntryFor(r, gates) in EntriesOf(rules, gates)
  {
    if r != rules[|rules| - 1] {
      assert r in rules[..|rules| - 1];
      EntriesMember(rules[..|rules| - 1], gates, r);
    }
  }

  predicate HasGate(es: seq<Entry>) {
    exists e :: e in es && e.gate.Some?
  }

  /** What remains to be checked of a compiled plan. */
  predicate PlanValid(p: Plan) {
    p.enabled ==>
      && 1 <= p.http <= 65535 && 1 <= p.https <= 65535 && p.http != p.https
      && (forall e :: e in p.entries ==> e.rule.id != "" && e.rule.priority >= 0 && e.rule.action != Unsupported
                                         && (e.gate.Some? ==>
                                             e.rule.action == Allow && e.gate.value.profile != ""
                                                 && |e.gate.value.ports| > 0))
      && (forall i, j :: 0 <= i < j < |p.entries| ==>
            p.entries[i].rule.priority < p.entries[j].rule.priority && p.entries[i].rule.id != p.entries[j].rule.id)
      && HasGate(p.entries)
  }

  function GatedOf(c: M4Config, generation: nat): GatedProgram {
    GatedProgram(ProgramOf(c.forward, generation), if c.usesM4 then GatesOf(c.forward.policies, c.profiles) else map[])
  }

  function PlanOf(c: M4Config, g: GatedProgram): Plan {
    var entries := EntriesOf(g.program.rules, g.gates);
    if c.usesM4 && HasGate(entries) then Plan(true, entries, c.http, c.https) else Plan(false, [], 0, 0)
  }

  /** `CompileM4ProxySelection` */
  method CompileM4ProxySelection(c: M4Config, generation: nat) returns (r: Result<Plan>)
    requires UniqueIds(c.forward.policies)
    ensures r.Success? <==>
            (c.usesM4 ==>
               && SessionScoped(c.forward.policies) && Supported(c.forward.policies)
               && DistinctPriorities(SortByPriority(c.forward.policies))
                  && PlanValid(PlanOf(c, GatedOf(c, generation))))
    ensures r.Success? ==> r.value == PlanOf(c, GatedOf(c, generation))
  {
    if !c.usesM4 { return Success(Plan(false, [], 0, 0)); }
    var compiled := CompileM4(c, generation);
    if compiled.Failure? { return Failure(compiled.error); }
    var g := compiled.value;
    var entries: seq<Entry>, enabled := [], false;
    for n := 0 to |g.program.rules|
      invariant entries == EntriesOf(g.program.rules[..n], g.gates)
      invariant enabled == HasGate(entries)
    {
      assert g.program.rules[..n + 1][..n] == g.program.rules[..n];
      var rule := g.program.rules[n];
      var entry := EntryFor(rule, g.gates);
      if entry.gate.Some? {
        if rule.action != Allow {
          EntriesMember(g.program.rules, g.gates, rule);
          return Failure("inconsistent compiled M4 gate");
        }
        enabled := true;
      }
      assert entry in entries + [entry];
      entries := entries + [entry];
    }
    assert g.program.rules[..|g.program.rules|] == g.program.rules;
    var plan := if enabled then Plan(true, entries, c.http, c.https) else Plan(false, [], 0, 0);
    if !PlanValid(plan) { return Failure("invalid plan"); }
    r := Success(plan);
  }

  // --------------------------------------------------------------- the chain

  /** A packet in the prerouting hook; `packet.oif` is the route to its destination. */
  datatype Arrival = Arrival(packet: Packet, unicast: bool, local: bool, translated: bool)

  datatype Verdict = Intercept(listener: nat) | Dropped | Passed

  datatype ProxyRule =
    | LoopReturn
    | LocalReturn
    | ManagementReturn(names: set<string>)
    | DnatGuard(sources: Option<set<string>>, network: seq<Prefix>, target: Addr, protocol: nat, port: nat,
                names: set<string>)
    | Tproxy(base: Match, ports: PortRange, listener: nat)
    | NoListener(base: Match, ports: PortRange)
    | QuicDrop(base: Match)
    | FirstMatchReturn(base: Match, service: Option<Service>)

  predicate ValidBase(m: Match) {
    ValidPrefixes(m.source) && ValidPrefixes(m.destination)
  }

  predicate ValidProxyRule(r: ProxyRule) {
    match r
    case DnatGuard(_, network, _, _, _, _) => ValidPrefixes(network)
    case Tproxy(base, _, _) => ValidBase(base)
    case NoListener(base, _) => ValidBase(base)
    case QuicDrop(base) => ValidBase(base)
    case FirstMatchReturn(base, _) => ValidBase(base)
    case _ => true
  }

  predicate ValidProxyRules(rs: seq<ProxyRule>) {
    forall r :: r in rs ==> ValidProxyRule(r)
  }

  predicate TcpIn(a: Arrival, ports: PortRange) {
    a.unicast && a.packet.protocol == TCP && ports.Has(a.packet.destinationPort)
  }

  /**
   A rule ends the walk of a packet; `tproxy ip` only handles IPv4 and fails
   without a listening socket.
   */
  predicate Ends(r: ProxyRule, a: Arrival, live: set<nat>)
    requires ValidProxyRule(r)
  {
    var p := a.packet;
    match r
    case LoopReturn => p.iif == "lo"
    case LocalReturn => a.local
    case ManagementReturn(names) => p.iif in names || p.oif in names
    case DnatGuard(sources, network, target, protocol, port, names) =>
      a.translated && (sources.Some? ==> p.iif in sources.value) && AddressMatch(network, p.source)
          && p.destination == target
      && (protocol != 0 ==> p.protocol == protocol) && (port != 0 ==> p.destinationPort == port) && p.oif !in names
    case Tproxy(base, ports, listener) =>
      MatchHits(base, p, New) && TcpIn(a, ports) && !p.destination.v6 && listener in live
    case NoListener(base, ports) => MatchHits(base, p, New) && TcpIn(a, ports)
    case QuicDrop(base) => MatchHits(base, p, New) && p.protocol == UDP && p.destinationPort == 443
    case FirstMatchReturn(base, service) =>
      MatchHits(base, p, New) && (service.Some? ==> ServiceMatch(service.value, p.protocol, p.destinationPort))
  }

  function VerdictOf(r: ProxyRule): Verdict {
    match r
    case Tproxy(_, _, listener) => Intercept(listener)
    case DnatGuard(_, _, _, _, _, _) => Dropped
    case NoListener(_, _) => Dropped
    case QuicDrop(_) => Dropped
    case _ => Passed
  }

  /** The verdict of the first rule that ends the walk, if any does. */
  function Walk(rs: seq<ProxyRule>, a: Arrival, live: set<nat>): Option<Verdict>
    requires ValidProxyRules(rs)
  {
    if |rs| == 0 then None
    else if Ends(rs[0], a, live) then Some(VerdictOf(rs[0]))
    else Walk(rs[1..], a, live)
  }

  /** The chain accepts what no rule ends. */
  function Fate(rs: seq<ProxyRule>, a: Arrival, live: set<nat>): Verdict
    requires ValidProxyRules(rs)
  {
    var w := Walk(rs, a, live);
    if w.Some? then w.value else Passed
  }

  // -------------------------------------------------------------- rendering

  /** Split a range that holds port 80 so that port 80 stands alone. */
  function Split(p: PortRange): seq<PortRange> {
    if p.first <= 80 <= p.last then
      (if p.first < 80 then [PortRange(p.first, 79)] else []) + [PortRange(80, 80)]
      + (if p.last > 80 then [PortRange(81, p.last)] else [])
    else [p]
  }

  function TransportPorts(ports: seq<PortRange>): seq<PortRange> {
    if |ports| == 0 then [] else TransportPorts(ports[..|ports| - 1]) + Split(ports[|ports| - 1])
  }

  /** `m4TransportPorts` */
  method SplitTransportPorts(ports: seq<PortRange>) returns (result: seq<PortRange>)
    ensures result == TransportPorts(ports)
  {
    result := [];
    for n := 0 to |ports|
      invariant result == TransportPorts(ports[..n])
    {
      assert ports[..n + 1][..n] == ports[..n];
      var port, before := ports[n], result;
      if port.first <= 80 && port.last >= 80 {
        if port.first < 80 { result := result + [PortRange(port.first, 79)]; }
        result := result + [PortRange(80, 80)];
        if port.last > 80 { result := result + [PortRange(81, port.last)]; }
      } else {
        result := result + [port];
      }
      assert result == before + Split(port);
    }
    assert ports[..|ports|] == ports;
  }

  function Listener(p: PortRange, http: nat, https: nat): nat {
    if p.first == 80 && p.last == 80 then http else https
  }

  function GateRules(base: Match, ports: seq<PortRange>, http: nat, https: nat): seq<ProxyRule> {
    if |ports| == 0 then []
    else
      var p := ports[|ports| - 1];
      GateRules(base, ports[..|ports| - 1], http, https)
          + [Tproxy(base, p, Listener(p, http, https)), NoListener(base, p)]
  }

  function ServiceReturns(base: Match, services: seq<Service>): seq<ProxyRule> {
    if |services| == 0 then []
    else ServiceReturns(base, services[..|services| - 1]) + [FirstMatchReturn(base, Some(services[|services| - 1]))]
  }

  function Returns(base: Match, services: seq<Service>): seq<ProxyRule> {
    if |services| == 0 then [FirstMatchReturn(base, None)] else ServiceReturns(base, services)
  }

  function NamesIn(interfaces: seq<Iface>, zones: set<string>): set<string> {
    set i | i in interfaces && i.zone != "" && i.name != "" && i.zone in zones :: i.name
  }

  /** `m4TPROXYBase` */
  function BaseOf(r: Rule, interfaces: seq<Iface>): Match {
    Match(false,
          if r.sourceZones != {} then Some(NamesIn(interfaces, r.sourceZones)) else None,
          if r.destinationZones != {} then Some(NamesIn(interfaces, r.destinationZones)) else None,
          r.sourceAddresses, r.destinationAddresses, None)
  }

  /** `m4AllowsQUIC` */
  method AllowsQuic(services: seq<Service>) returns (allows: bool)
    ensures allows == ServicesMatch(services, UDP, 443)
  {
    if |services| == 0 { return true; }
    for n := 0 to |services|
      invariant forall i :: 0 <= i < n ==> !ServiceMatch(services[i], UDP, 443)
    {
      if services[n].protocol == UDP && (services[n].AllPorts? || services[n].range.Has(443)) {
        assert services[n] in services;
        return true;
      }
    }
    allows := false;
  }

  function GatePart(e: Entry, base: Match, http: nat, https: nat): seq<ProxyRule> {
    if e.gate.None? then []
    else GateRules(base, TransportPorts(e.gate.value.ports), http, https)
         + if e.gate.value.blockQuic && ServicesMatch(e.rule.services, UDP, 443) then [QuicDrop(base)] else []
  }

  function EntryRules(e: Entry, interfaces: seq<Iface>, http: nat, https: nat): seq<ProxyRule> {
    var base := BaseOf(e.rule, interfaces);
    GatePart(e, base, http, https) + Returns(base, e.rule.services)
  }

  function AllEntryRules(es: seq<Entry>, interfaces: seq<Iface>, http: nat, https: nat): seq<ProxyRule> {
    if |es| == 0 then []
    else AllEntryRules(es[..|es| - 1], interfaces, http, https) + EntryRules(es[|es| - 1], interfaces, http, https)
  }

  function GuardOf(d: Dnat, interfaces: seq<Iface>): ProxyRule {
    DnatGuard(if d.sourceZone == "" then None else Some(NamesIn(interfaces, {d.sourceZone})), d.network, d.target,
              d.protocol, d.port, NamesIn(interfaces, {d.destinationZone}))
  }

  function Guards(ds: seq<Dnat>, interfaces: seq<Iface>): seq<ProxyRule> {
    if |ds| == 0 then []
    else Guards(ds[..|ds| - 1], interfaces) + if ds[|ds| - 1].enabled then [GuardOf(ds[|ds| - 1], interfaces)] else []
  }

  function Prefixed(c: M4Config): seq<ProxyRule> {
    [LoopReturn] + Guards(c.dnats, c.forward.interfaces) + [LocalReturn]
    + if c.management != {} then [ManagementReturn(c.management)] else []
  }

  function ChainOf(c: M4Config, plan: Plan): seq<ProxyRule> {
    if plan.enabled then Prefixed(c) + AllEntryRules(plan.entries, c.forward.interfaces, plan.http, plan.https) else []
  }

  predicate RenderableService(s: Service) {
    s.protocol in {1, TCP, UDP} && (s.Ports? ==> s.protocol != 1 && 1 <= s.range.first <= s.range.last)
  }

  /** What rendering one entry refuses. */
  predicate RenderableEntry(e: Entry, interfaces: seq<Iface>, http: nat, https: nat) {
    && (forall z :: z in e.rule.sourceZones + e.rule.destinationZones ==> ZoneHasInterface(interfaces, z))
    && AllV4(e.rule.sourceAddresses) && AllV4(e.rule.destinationAddresses)
    && (e.gate.Some? ==> !InRanges(e.gate.value.ports, http) && !InRanges(e.gate.value.ports, https))
    && (forall s :: s in e.rule.services ==> RenderableService(s))
  }

  predicate RenderableGuards(c: M4Config) {
    forall d :: d in c.dnats && d.enabled ==>
      ZoneHasInterface(c.forward.interfaces, d.destinationZone)
      && (d.sourceZone != "" ==> ZoneHasInterface(c.forward.interfaces, d.sourceZone))
  }

  method RenderGate(base: Match, ports: seq<PortRange>, http: nat, https: nat) returns (rules: seq<ProxyRule>)
    ensures rules == GateRules(base, ports, http, https)
  {
    rules := [];
    for n := 0 to |ports|
      invariant rules == GateRules(base, ports[..n], http, https)
    {
      assert ports[..n + 1][..n] == ports[..n];
      var listener := if ports[n].first == 80 && ports[n].last == 80 then http else https;
      rules := rules + [Tproxy(base, ports[n], listener), NoListener(base, ports[n])];
    }
    assert ports[..|ports|] == ports;
  }

  /** `m4TPROXYServices`; the order of returns does not matter and is kept. */
  method RenderReturns(base: Match, services: seq<Service>) returns (rules: seq<ProxyRule>)
    ensures rules == Returns(base, services)
  {
    if |services| == 0 { return [FirstMatchReturn(base, None)]; }
    rules := [];
    for n := 0 to |services|
      invariant rules == ServiceReturns(base, services[..n])
    {
      assert services[..n + 1][..n] == services[..n];
      rules := rules + [FirstMatchReturn(base, Some(services[n]))];
    }
    assert services[..|services|] == services;
  }

  method RenderEntry(e: Entry, interfaces: seq<Iface>, http: nat, https: nat) returns (rules: seq<ProxyRule>)
    ensures rules == EntryRules(e, interfaces, http, https)
  {
    var base := BaseOf(e.rule, interfaces);
    rules := [];
    if e.gate.Some? {
      var ports := SplitTransportPorts(e.gate.value.ports);
      rules := RenderGate(base, ports, http, https);
      var quic := AllowsQuic(e.rule.services);
      if e.gate.value.blockQuic && quic { rules := rules + [QuicDrop(base)]; }
    }
    var returns_ := RenderReturns(base, e.rule.services);
    rules := rules + returns_;
  }

  method RenderGuards(ds: seq<Dnat>, interfaces: seq<Iface>) returns (rules: seq<ProxyRule>)
    ensures rules == Guards(ds, interfaces)
  {
    rules := [];
    for n := 0 to |ds|
      invariant rules == Guards(ds[..n], interfaces)
    {
      assert ds[..n + 1][..n] == ds[..n];
      if ds[n].enabled { rules := rules + [GuardOf(ds[n], interfaces)]; }
    }
    assert ds[..|ds|] == ds;
  }

  /** `RenderM4TPROXYSelection` for the plan of the configuration */
  method RenderSelection(c: M4Config, plan: Plan) returns (r: Result<seq<ProxyRule>>)
    ensures r.Success? <==>
            plan.enabled ==> RenderableGuards(c) && forall e :: e in plan.entries ==>
                RenderableEntry(e, c.forward.interfaces, plan.http, plan.https)
    ensures r.Success? ==> r.value == ChainOf(c, plan)
  {
    if !plan.enabled { return Success([]); }
    if !RenderableGuards(c) { return Failure("DNAT zone has no interface"); }
    var guards := RenderGuards(c.dnats, c.forward.interfaces);
    var rules := RenderEntries(plan.entries, c.forward.interfaces, plan.http, plan.https);
    if rules.Failure? { return Failure(rules.error); }
    var prefix := [LoopReturn] + guards + [LocalReturn] + if c.management != {} then [ManagementReturn(c.management)]
        else [];
    r := Success(prefix + rules.value);
  }

  method RenderEntries(es: seq<Entry>, interfaces: seq<Iface>, http: nat, https: nat)
    returns (r: Result<seq<ProxyRule>>)
    ensures r.Success? <==> forall e :: e in es ==> RenderableEntry(e, interfaces, http, https)
    ensures r.Success? ==> r.value == AllEntryRules(es, interfaces, http, https)
  {
    hide RenderableEntry, EntryRules;
    var rules: seq<ProxyRule> := [];
    for n := 0 to |es|
      invariant rules == AllEntryRules(es[..n], interfaces, http, https)
      invariant forall i :: 0 <= i < n ==> RenderableEntry(es[i], interfaces, http, https)
    {
      assert es[..n + 1][..n] == es[..n];
      if !RenderableEntry(es[n], interfaces, http, https) {
        assert es[n] in es;
        return Failure("unsafe M4 policy");
      }
      var lines := RenderEntry(es[n], interfaces, http, https);
      rules := rules + lines;
    }
    assert es[..|es|] == es;
    r := Success(rules);
  }
}
