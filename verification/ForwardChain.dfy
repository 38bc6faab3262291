/**
 The forward chain as a list of structured rules.  M1 accepts every
 established packet; M2 replaces that rule by cache rules keyed by the
 conntrack mark, appends constrained reverse rules and turns default allow
 into an explicit last rule.
 */
module ForwardChain {
  import opened Wrappers
  import opened Policy
  import opened Marks

  datatype Iface = Iface(name: string, zone: string)

  datatype Config = Config(interfaces: seq<Iface>, policies: seq<SecurityPolicy>, defaultDeny: bool)

  /** `M2CompileOptions` */
  datatype Options = Options(epoch: nat, slots: map<string, nat>, cacheEnabled: bool)

  // ----------------------------------------------------------------- rules

  /** A service test on the destination port, or on the source port of a reply. */
  datatype PortTest = PortTest(service: Service, reply: bool)

  /** Absent interface sets and empty address lists match everything. */
  datatype Match = Match(
    established: bool, iif: Option<set<string>>, oif: Option<set<string>>,
    source: seq<Prefix>, destination: seq<Prefix>, service: Option<PortTest>)

  datatype NftRule =
    | InvalidDrop
    | EstablishedAccept
    | CacheAccept(value: nat)
    | PolicyLine(match_: Match, action: Action, mark: Option<nat>, policy: string, reverse: bool)
    | AcceptAll

  datatype Chain = Chain(rules: seq<NftRule>, policy: Action)

  datatype CtState = New | Established | Related | Invalid

  datatype Packet = Packet(
    iif: string, oif: string, source: Addr, destination: Addr, protocol: nat, sourcePort: nat, destinationPort: nat)

  predicate ValidNft(r: NftRule) {
    r.PolicyLine? ==> ValidPrefixes(r.match_.source) && ValidPrefixes(r.match_.destination)
  }

  predicate ValidChain(rules: seq<NftRule>) {
    forall r :: r in rules ==> ValidNft(r)
  }

  predicate MatchHits(m: Match, p: Packet, state: CtState)
    requires ValidPrefixes(m.source) && ValidPrefixes(m.destination)
  {
    && (m.established ==> state == Established || state == Related)
    && (m.iif.Some? ==> p.iif in m.iif.value)
    && (m.oif.Some? ==> p.oif in m.oif.value)
    && AddressMatch(m.source, p.source) && AddressMatch(m.destination, p.destination)
    && (m.service.Some? ==>
          ServiceMatch(m.service.value.service, p.protocol, if m.service.value.reply then p.sourcePort
                       else p.destinationPort))
  }

  predicate Hits(r: NftRule, p: Packet, state: CtState, mark: nat)
    requires ValidNft(r)
  {
    match r
    case InvalidDrop => state == Invalid
    case EstablishedAccept => state == Established || state == Related
    case CacheAccept(value) => state == Established && Owned(mark) == value
    case PolicyLine(m, _, _, _, _) => MatchHits(m, p, state)
    case AcceptAll => true
  }

  function ActionOf(r: NftRule): Action {
    match r
    case InvalidDrop => Drop
    case PolicyLine(_, action, _, _, _) => action
    case _ => Allow
  }

  /** The verdict, the mark the packet leaves behind, and the rule that decided. */
  datatype Outcome = Outcome(action: Action, mark: nat, decider: Option<NftRule>)

  function Traverse(rules: seq<NftRule>, policy: Action, p: Packet, state: CtState, mark: nat): Outcome
    requires ValidChain(rules)
  {
    if |rules| == 0 then Outcome(policy, mark, None)
    else if Hits(rules[0], p, state, mark) then
      Outcome(ActionOf(rules[0]),
              if rules[0].PolicyLine? && rules[0].mark.Some? then mark % LOW + rules[0].mark.value else mark,
              Some(rules[0]))
    else Traverse(rules[1..], policy, p, state, mark)
  }

  // -------------------------------------------------------------- compiling

  /** `zoneInterfaces` over `buildZoneInterfaces` */
  function ZoneNames(interfaces: seq<Iface>, zones: seq<string>): set<string> {
    set i | i in interfaces && i.zone != "" && i.name != "" && i.zone in zones :: i.name
  }

  function ZoneTest(interfaces: seq<Iface>, zones: seq<string>): Option<set<string>> {
    if |zones| > 0 then Some(ZoneNames(interfaces, zones)) else None
  }

  predicate ZoneHasInterface(interfaces: seq<Iface>, zone: string) {
    exists i :: i in interfaces && i.zone == zone && i.zone != "" && i.name != ""
  }

  predicate AllV4(ps: seq<Prefix>) {
    forall p :: p in ps ==> !p.v6
  }

  /** `validateForRender` for one policy */
  predicate Renderable(p: SecurityPolicy, interfaces: seq<Iface>) {
    && p.action != Unsupported
    && (forall z :: z in p.sourceZones + p.destinationZones ==> ZoneHasInterface(interfaces, z))
    && AllV4(p.sourceAddresses) && AllV4(p.destinationAddresses)
  }

  predicate Compilable(c: Config) {
    forall p :: p in c.policies && p.enabled ==> Renderable(p, c.interfaces)
  }

  function ForwardMatch(p: SecurityPolicy, interfaces: seq<Iface>): Match {
    Match(false, ZoneTest(interfaces, p.sourceZones), ZoneTest(interfaces, p.destinationZones),
          p.sourceAddresses, p.destinationAddresses, None)
  }

  function ReverseMatch(p: SecurityPolicy, interfaces: seq<Iface>): Match {
    Match(true, ZoneTest(interfaces, p.destinationZones), ZoneTest(interfaces, p.sourceZones),
          p.destinationAddresses, p.sourceAddresses, None)
  }

  function ServiceLines(base: Match, p: SecurityPolicy, services: seq<Service>, reverse: bool): seq<NftRule> {
    if |services| == 0 then []
    else ServiceLines(base, p, services[..|services| - 1], reverse)
         + [PolicyLine(base.(service := Some(PortTest(services[|services| - 1], reverse))), p.action, None, p.id,
                       reverse)]
  }

  /** `renderPolicyRules`, and `renderReversePolicyRules` with the directions swapped */
  function PolicyLines(p: SecurityPolicy, interfaces: seq<Iface>, reverse: bool): seq<NftRule> {
    var base := if reverse then ReverseMatch(p, interfaces) else ForwardMatch(p, interfaces);
    if |p.services| == 0 then [PolicyLine(base, p.action, None, p.id, reverse)]
    else ServiceLines(base, p, p.services, reverse)
  }

  function AllLines(ps: seq<SecurityPolicy>, interfaces: seq<Iface>, reverse: bool): seq<NftRule> {
    if |ps| == 0 then []
    else AllLines(ps[..|ps| - 1], interfaces, reverse)
         + if ps[|ps| - 1].enabled then PolicyLines(ps[|ps| - 1], interfaces, reverse) else []
  }

  /** `CompileRuleset`: the M1 forward chain. */
  function M1Chain(c: Config): Chain {
    Chain([InvalidDrop, EstablishedAccept] + AllLines(SortByPriority(c.policies), c.interfaces, false),
          if c.defaultDeny then Drop else Allow)
  }

  predicate CacheActive(o: Options) {
    o.cacheEnabled && o.epoch > 0 && |o.slots| > 0
  }

  /** The positive slots, in any order: all cache rules accept. */
  predicate SlotList(o: Options, slots: seq<nat>) {
    && (forall s :: s in slots ==> s > 0 && exists z :: z in o.slots && o.slots[z] == s)
    && (forall z :: z in o.slots && o.slots[z] > 0 ==> o.slots[z] in slots)
  }

  function CacheRow(epoch: nat, source: nat, slots: seq<nat>): seq<NftRule> {
    if |slots| == 0 then []
    else
      CacheRow(epoch, source, slots[..|slots| - 1])
      + [CacheAccept(Pack(CacheMark(epoch, source, slots[|slots| - 1])))]
  }

  function CacheGrid(epoch: nat, sources: seq<nat>, slots: seq<nat>): seq<NftRule> {
    if |sources| == 0 then []
    else CacheGrid(epoch, sources[..|sources| - 1], slots) + CacheRow(epoch, sources[|sources| - 1], slots)
  }

  function CacheRules(o: Options, slots: seq<nat>): seq<NftRule> {
    if CacheActive(o) then CacheGrid(o.epoch, slots, slots) else []
  }

  /** The mark of a policy with exactly one zone on each side, both with a slot. */
  function PolicyMark(p: SecurityPolicy, o: Options): Option<CacheMark> {
    if p.enabled && p.action == Allow && |p.sourceZones| == 1 && |p.destinationZones| == 1
       && p.sourceZones[0] in o.slots && p.destinationZones[0] in o.slots
       && Packable(CacheMark(o.epoch, o.slots[p.sourceZones[0]], o.slots[p.destinationZones[0]]))
    then Some(CacheMark(o.epoch, o.slots[p.sourceZones[0]], o.slots[p.destinationZones[0]]))
    else None
  }

  /** `markByPolicy` */
  function MarksOf(ps: seq<SecurityPolicy>, o: Options): map<string, nat> {
    if |ps| == 0 then map[]
    else
      var last := ps[|ps| - 1];
      var m := PolicyMark(last, o);
      if m.Some? then MarksOf(ps[..|ps| - 1], o)[last.id := Pack(m.value)] else MarksOf(ps[..|ps| - 1], o)
  }

  function Marked(r: NftRule, marks: map<string, nat>): NftRule {
    if r.PolicyLine? && r.action == Allow && r.policy in marks then r.(mark := Some(marks[r.policy])) else r
  }

  function MarkedAll(rules: seq<NftRule>, marks: map<string, nat>): seq<NftRule> {
    seq(|rules|, i requires 0 <= i < |rules| => Marked(rules[i], marks))
  }

  function Tail(c: Config): seq<NftRule> {
    if c.defaultDeny then [] else [AcceptAll]
  }

  /** `CompileM2Ruleset`: the M2 forward chain. */
  function M2Chain(c: Config, o: Options, slots: seq<nat>): Chain {
    var ps := SortByPriority(c.policies);
    var marks := if CacheActive(o) then MarksOf(c.policies, o) else map[];
    Chain([InvalidDrop] + CacheRules(o, slots)
          + MarkedAll(AllLines(ps, c.interfaces, false), marks)
          + MarkedAll(AllLines(ps, c.interfaces, true), marks)
          + Tail(c), Drop)
  }

  // --------------------------------------------------------- the compilers

  method RenderPolicies(ps: seq<SecurityPolicy>, interfaces: seq<Iface>, reverse: bool) returns (rules: seq<NftRule>)
    ensures rules == AllLines(ps, interfaces, reverse)
  {
    rules := [];
    for n := 0 to |ps|
      invariant rules == AllLines(ps[..n], interfaces, reverse)
    {
      assert ps[..n + 1][..n] == ps[..n];
      if ps[n].enabled {
        var lines := RenderPolicy(ps[n], interfaces, reverse);
        rules := rules + lines;
      }
    }
    assert ps[..|ps|] == ps;
  }

  method RenderPolicy(p: SecurityPolicy, interfaces: seq<Iface>, reverse: bool) returns (lines: seq<NftRule>)
    ensures lines == PolicyLines(p, interfaces, reverse)
  {
    var base := if reverse then ReverseMatch(p, interfaces) else ForwardMatch(p, interfaces);
    if |p.services| == 0 { return [PolicyLine(base, p.action, None, p.id, reverse)]; }
    lines := [];
    for n := 0 to |p.services|
      invariant lines == ServiceLines(base, p, p.services[..n], reverse)
    {
      assert p.services[..n + 1][..n] == p.services[..n];
      lines := lines + [PolicyLine(base.(service := Some(PortTest(p.services[n], reverse))), p.action, None, p.id,
                                   reverse)];
    }
    assert p.services[..|p.services|] == p.services;
  }

  method CompileRuleset(c: Config) returns (r: Result<Chain>)
    ensures r.Success? <==> Compilable(c)
    ensures r.Success? ==> r.value == M1Chain(c)
  {
    if !Compilable(c) { return Failure("cannot compile dataplane"); }
    var lines := RenderPolicies(SortByPriority(c.policies), c.interfaces, false);
    r := Success(Chain([InvalidDrop, EstablishedAccept] + lines, if c.defaultDeny then Drop else Allow));
  }

  method CompileCacheRules(epoch: nat, slots: seq<nat>) returns (rules: seq<NftRule>)
    ensures rules == CacheGrid(epoch, slots, slots)
  {
    rules := [];
    for s := 0 to |slots|
      invariant rules == CacheGrid(epoch, slots[..s], slots)
    {
      assert slots[..s + 1][..s] == slots[..s];
      var row: seq<NftRule> := [];
      for d := 0 to |slots|
        invariant row == CacheRow(epoch, slots[s], slots[..d])
      {
        assert slots[..d + 1][..d] == slots[..d];
        row := row + [CacheAccept(Pack(CacheMark(epoch, slots[s], slots[d])))];
      }
      assert slots[..|slots|] == slots;
      rules := rules + row;
    }
    assert slots[..|slots|] == slots;
  }

  method CompileMarks(ps: seq<SecurityPolicy>, o: Options) returns (marks: map<string, nat>)
    ensures marks == MarksOf(ps, o)
  {
    marks := map[];
    for n := 0 to |ps|
      invariant marks == MarksOf(ps[..n], o)
    {
      assert ps[..n + 1][..n] == ps[..n];
      var m := PolicyMark(ps[n], o);
      if m.Some? { marks := marks[ps[n].id := Pack(m.value)]; }
    }
    assert ps[..|ps|] == ps;
  }

  /** The positive slots, sorted as the rules list them. */
  method CollectSlots(o: Options) returns (slots: seq<nat>)
    ensures SlotList(o, slots) && forall i, j :: 0 <= i < j < |slots| ==> slots[i] <= slots[j]
  {
    slots := [];
    var rest := o.slots.Keys;
    while rest != {}
      invariant rest <= o.slots.Keys
      invariant forall s :: s in slots ==> s > 0 && exists z :: z in o.slots && o.slots[z] == s
      invariant forall z :: z in o.slots && z !in rest && o.slots[z] > 0 ==> o.slots[z] in slots
      invariant forall i, j :: 0 <= i < j < |slots| ==> slots[i] <= slots[j]
      decreases rest
    {
      var z :| z in rest;
      rest := rest - {z};
      if o.slots[z] > 0 { slots := InsertSlot(slots, o.slots[z]); }
    }
  }

  method InsertSlot(slots: seq<nat>, slot: nat) returns (r: seq<nat>)
    requires forall i, j :: 0 <= i < j < |slots| ==> slots[i] <= slots[j]
    ensures forall i, j :: 0 <= i < j < |r| ==> r[i] <= r[j]
    ensures forall s :: s in r <==> s == slot || s in slots
  {
    var p := 0;
    while p < |slots| && slots[p] <= slot
      invariant p <= |slots| && forall i :: 0 <= i < p ==> slots[i] <= slot
    {
      p := p + 1;
    }
    assert slots == slots[..p] + slots[p..];
    r := slots[..p] + [slot] + slots[p..];
  }

  /** `CompileM2Ruleset`: rewrite the M1 chain in place, one concern at a time. */
  method CompileM2Ruleset(c: Config, o: Options) returns (r: Result<Chain>)
    ensures r.Success? <==> Compilable(c)
    ensures r.Success? ==> exists slots :: SlotList(o, slots) && r.value == M2Chain(c, o, slots)
  {
    var m1 := CompileRuleset(c);
    if m1.Failure? { return Failure(m1.error); }
    var forward := m1.value.rules[2..];
    assert forward == AllLines(SortByPriority(c.policies), c.interfaces, false);
    var slots := CollectSlots(o);
    var cache: seq<NftRule>, marks: map<string, nat> := [], map[];
    if CacheActive(o) {
      cache := CompileCacheRules(o.epoch, slots);
      marks := CompileMarks(c.policies, o);
    }
    var reverse := RenderPolicies(SortByPriority(c.policies), c.interfaces, true);
    var chain := Chain([InvalidDrop] + cache + MarkedAll(forward, marks) + MarkedAll(reverse, marks) + Tail(c), Drop);
    assert SlotList(o, slots) && chain == M2Chain(c, o, slots);
    r := Success(chain);
  }
}
