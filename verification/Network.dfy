/**
 Managed interface, address and route state.

 `PlanNetwork` turns two configurations into an ordered list of iproute2
 operations.  `Exec` gives each operation its effect on the kernel tables,
 including the addresses and routes that disappear with a deleted link.  An
 environment is the list of answers the kernel gives, so a plan may stop after
 any operation, or half way through the re-creation of a VLAN.
 */
module Network {
  import opened Wrappers

  /** Configuration identifiers: compared only for equality and order. */
  type Id = nat

  /** Linux interface names. */
  type Name = string

  datatype Cidr = Cidr(ip: nat, bits: nat)

  datatype Interface = Interface(
    id: Id, sysName: Name, vlanSub: bool, parentId: Id, vlanId: nat,
    mtu: nat, up: bool, v4: seq<Cidr>, v6: seq<Cidr>)

  datatype Route = Route(
    id: Id, enabled: bool, v6: bool, dest: Cidr,
    gateway: Option<nat>, ifaceId: Option<Id>, metric: nat)

  datatype NetConfig = NetConfig(interfaces: seq<Interface>, routes: seq<Route>)

  const EMPTY_CONFIG := NetConfig([], [])

  // ---------------------------------------------------------------- objects

  datatype Address = Address(v6: bool, dev: Name, cidr: Cidr)

  datatype RouteKey = RouteKey(v6: bool, dest: Cidr, metric: nat)

  /** A configured route in canonical form; the device is optional. */
  datatype RouteSpec = RouteSpec(key: RouteKey, gateway: Option<nat>, dev: Option<Name>)

  datatype VlanSpec = VlanSpec(dev: Name, parent: Name, id: nat)

  datatype Objects = Objects(vlans: set<VlanSpec>, addresses: set<Address>, routes: set<RouteSpec>)

  function Union(a: Objects, b: Objects): Objects {
    Objects(a.vlans + b.vlans, a.addresses + b.addresses, a.routes + b.routes)
  }

  /** `interfaceMap`: a later interface with the same identifier wins. */
  function InterfaceMap(interfaces: seq<Interface>): map<Id, Interface> {
    if |interfaces| == 0 then map[]
    else
      var last := interfaces[|interfaces| - 1];
      InterfaceMap(interfaces[..|interfaces| - 1])[last.id := last]
  }

  /** The metric the kernel records when none is configured. */
  function EffectiveMetric(v6: bool, metric: nat): nat {
    if metric > 0 then metric else if v6 then 1024 else 0
  }

  predicate Resolved(route: Route, interfaces: map<Id, Interface>) {
    route.ifaceId.Some? ==>
      route.ifaceId.value in interfaces && interfaces[route.ifaceId.value].sysName != ""
  }

  /** `routeArgs` followed by `routeSignature`. */
  function SpecOf(route: Route, interfaces: map<Id, Interface>): RouteSpec
    requires Resolved(route, interfaces)
  {
    RouteSpec(RouteKey(route.v6, route.dest, EffectiveMetric(route.v6, route.metric)), route.gateway,
              if route.ifaceId.Some? then Some(interfaces[route.ifaceId.value].sysName) else None)
  }

  predicate ParentKnown(iface: Interface, interfaces: map<Id, Interface>) {
    iface.parentId in interfaces && interfaces[iface.parentId].sysName != ""
  }

  function VlanOf(iface: Interface, interfaces: map<Id, Interface>): VlanSpec
    requires ParentKnown(iface, interfaces)
  {
    VlanSpec(iface.sysName, interfaces[iface.parentId].sysName, iface.vlanId)
  }

  predicate RoutesResolved(c: NetConfig) {
    forall r :: r in c.routes && r.enabled ==> Resolved(r, InterfaceMap(c.interfaces))
  }

  predicate ParentsKnown(c: NetConfig) {
    forall i :: i in c.interfaces && i.vlanSub ==> ParentKnown(i, InterfaceMap(c.interfaces))
  }

  function AddressesOf(c: NetConfig): set<Address> {
    (set i, a | i in c.interfaces && a in i.v4 :: Address(false, i.sysName, a))
    + (set i, a | i in c.interfaces && a in i.v6 :: Address(true, i.sysName, a))
  }

  function SpecsOf(c: NetConfig): set<RouteSpec>
    requires RoutesResolved(c)
  {
    var interfaces := InterfaceMap(c.interfaces);
    set r | r in c.routes && r.enabled :: SpecOf(r, interfaces)
  }

  function VlansOf(c: NetConfig): set<VlanSpec>
    requires ParentsKnown(c)
  {
    var interfaces := InterfaceMap(c.interfaces);
    set i | i in c.interfaces && i.vlanSub :: VlanOf(i, interfaces)
  }

  function ObjectsOf(c: NetConfig): Objects
    requires RoutesResolved(c) && ParentsKnown(c)
  {
    Objects(VlansOf(c), AddressesOf(c), SpecsOf(c))
  }

  /**
   What validation establishes: identifiers and system names are unique, a
   VLAN sits on a non-VLAN interface of the same configuration and every
   reference resolves.
   */
  ghost predicate Validated(c: NetConfig) {
    && (forall i, j :: 0 <= i < j < |c.interfaces| ==>
          c.interfaces[i].id != c.interfaces[j].id && c.interfaces[i].sysName != c.interfaces[j].sysName)
    && RoutesResolved(c)
    && ParentsKnown(c)
    && (forall i :: i in c.interfaces && i.vlanSub ==>
          !InterfaceMap(c.interfaces)[i.parentId].vlanSub)
  }

  /** The kernel holds one route per key; validation does not ask for this. */
  ghost predicate DistinctKeys(c: NetConfig)
    requires RoutesResolved(c)
  {
    forall s, t :: s in SpecsOf(c) && t in SpecsOf(c) && s.key == t.key ==> s == t
  }

  ghost predicate WellFormed(c: NetConfig) {
    Validated(c) && DistinctKeys(c)
  }

  /** No two routes that differ only in one of them leaving its device open. */
  ghost predicate NoLooseTwins(c: NetConfig)
    requires RoutesResolved(c)
  {
    forall s, t :: s in SpecsOf(c) && t in SpecsOf(c) && s.key == t.key && s.gateway == t.gateway && s.dev.None? ==>
      s == t
  }

  // ------------------------------------------------------------ the planner

  datatype Operation =
    | DelRoute(route: RouteSpec)
    | DelAddress(address: Address)
    | DelLink(dev: Name)
    | ShowLink(dev: Name)
    | EnsureVlan(vlan: VlanSpec)
    | SetMtu(dev: Name, mtu: nat)
    | PutAddress(address: Address)
    | SetAdmin(dev: Name, up: bool)
    | PutRoute(route: RouteSpec)

  function InsertInterface(x: Interface, s: seq<Interface>): (r: seq<Interface>)
    ensures forall y :: y in r <==> y == x || y in s
  {
    if |s| == 0 || x.id < s[0].id then [x] + s
    else [s[0]] + InsertInterface(x, s[1..])
  }

  function SortedInterfaces(s: seq<Interface>): (r: seq<Interface>)
    ensures forall y :: y in r <==> y in s
  {
    if |s| == 0 then [] else
      var last := s[|s| - 1];
      assert s == s[..|s| - 1] + [last];
      InsertInterface(last, SortedInterfaces(s[..|s| - 1]))
  }

  function InsertRoute(x: Route, s: seq<Route>): (r: seq<Route>)
    ensures forall y :: y in r <==> y == x || y in s
  {
    if |s| == 0 || x.id < s[0].id then [x] + s
    else [s[0]] + InsertRoute(x, s[1..])
  }

  function SortedRoutes(s: seq<Route>): (r: seq<Route>)
    ensures forall y :: y in r <==> y in s
  {
    if |s| == 0 then [] else
      var last := s[|s| - 1];
      assert s == s[..|s| - 1] + [last];
      InsertRoute(last, SortedRoutes(s[..|s| - 1]))
  }

  predicate SameVlan(before: Interface, desired: Interface,
                     oldMap: map<Id, Interface>, desiredMap: map<Id, Interface>) {
    && desired.vlanSub && before.sysName == desired.sysName && before.vlanId == desired.vlanId
    && before.parentId in oldMap && desired.parentId in desiredMap
    && oldMap[before.parentId].sysName == desiredMap[desired.parentId].sysName
  }

  function DelRouteOps(rs: seq<Route>, interfaces: map<Id, Interface>, keep: set<RouteSpec>): seq<Operation>
    requires forall r :: r in rs && r.enabled ==> Resolved(r, interfaces)
  {
    if |rs| == 0 then [] else
      var last := rs[|rs| - 1];
      DelRouteOps(rs[..|rs| - 1], interfaces, keep)
      + if last.enabled && SpecOf(last, interfaces) !in keep then [DelRoute(SpecOf(last, interfaces))] else []
  }

  function DelAddressList(v6: bool, dev: Name, cs: seq<Cidr>, keep: set<Address>): seq<Operation> {
    if |cs| == 0 then [] else
      var a := Address(v6, dev, cs[|cs| - 1]);
      DelAddressList(v6, dev, cs[..|cs| - 1], keep) + if a !in keep then [DelAddress(a)] else []
  }

  function DelAddressOps(ifs: seq<Interface>, keep: set<Address>): seq<Operation> {
    if |ifs| == 0 then [] else
      var last := ifs[|ifs| - 1];
      DelAddressOps(ifs[..|ifs| - 1], keep)
      + DelAddressList(false, last.sysName, last.v4, keep) + DelAddressList(true, last.sysName, last.v6, keep)
  }

  function DelLinkOps(ifs: seq<Interface>, oldMap: map<Id, Interface>, desiredMap: map<Id, Interface>): seq<Operation> {
    if |ifs| == 0 then [] else
      var last := ifs[|ifs| - 1];
      DelLinkOps(ifs[..|ifs| - 1], oldMap, desiredMap)
      + if last.vlanSub && (last.id !in desiredMap || !SameVlan(last, desiredMap[last.id], oldMap, desiredMap))
        then [DelLink(last.sysName)] else []
  }

  function ShowLinkOps(ifs: seq<Interface>): seq<Operation> {
    if |ifs| == 0 then [] else
      var last := ifs[|ifs| - 1];
      ShowLinkOps(ifs[..|ifs| - 1]) + if last.vlanSub then [] else [ShowLink(last.sysName)]
  }

  function EnsureVlanOps(ifs: seq<Interface>, interfaces: map<Id, Interface>): seq<Operation>
    requires forall i :: i in ifs && i.vlanSub ==> ParentKnown(i, interfaces)
  {
    if |ifs| == 0 then [] else
      var last := ifs[|ifs| - 1];
      EnsureVlanOps(ifs[..|ifs| - 1], interfaces) + if last.vlanSub then [EnsureVlan(VlanOf(last, interfaces))] else []
  }

  function MtuOps(ifs: seq<Interface>): seq<Operation> {
    if |ifs| == 0 then [] else
      var last := ifs[|ifs| - 1];
      MtuOps(ifs[..|ifs| - 1]) + if last.mtu > 0 then [SetMtu(last.sysName, last.mtu)] else []
  }

  function PutAddressList(v6: bool, dev: Name, cs: seq<Cidr>): seq<Operation> {
    if |cs| == 0 then [] else
      PutAddressList(v6, dev, cs[..|cs| - 1]) + [PutAddress(Address(v6, dev, cs[|cs| - 1]))]
  }

  function PutAddressOps(ifs: seq<Interface>): seq<Operation> {
    if |ifs| == 0 then [] else
      var last := ifs[|ifs| - 1];
      PutAddressOps(ifs[..|ifs| - 1]) + PutAddressList(false, last.sysName, last.v4)
      + PutAddressList(true, last.sysName, last.v6)
  }

  function AdminOps(ifs: seq<Interface>): seq<Operation> {
    if |ifs| == 0 then [] else
      var last := ifs[|ifs| - 1];
      AdminOps(ifs[..|ifs| - 1]) + [SetAdmin(last.sysName, last.up)]
  }

  function PutRouteOps(rs: seq<Route>, interfaces: map<Id, Interface>): seq<Operation>
    requires forall r :: r in rs && r.enabled ==> Resolved(r, interfaces)
  {
    if |rs| == 0 then [] else
      var last := rs[|rs| - 1];
      PutRouteOps(rs[..|rs| - 1], interfaces) + if last.enabled then [PutRoute(SpecOf(last, interfaces))] else []
  }

  predicate Plannable(previous: NetConfig, desired: NetConfig) {
    RoutesResolved(previous) && RoutesResolved(desired) && ParentsKnown(desired)
  }

  /** Removals, while the old links still exist. */
  function RemovalOps(previous: NetConfig, desired: NetConfig): seq<Operation>
    requires Plannable(previous, desired)
  {
    var before := SortedInterfaces(previous.interfaces);
    DelRouteOps(SortedRoutes(previous.routes), InterfaceMap(previous.interfaces), SpecsOf(desired))
    + DelAddressOps(before, AddressesOf(desired))
    + DelLinkOps(before, InterfaceMap(previous.interfaces), InterfaceMap(desired.interfaces))
  }

  function LinkOps(desired: NetConfig): seq<Operation>
    requires ParentsKnown(desired)
  {
    var ifs := SortedInterfaces(desired.interfaces);
    ShowLinkOps(ifs) + EnsureVlanOps(ifs, InterfaceMap(desired.interfaces)) + MtuOps(ifs)
  }

  function AddressOps(desired: NetConfig): seq<Operation> {
    var ifs := SortedInterfaces(desired.interfaces);
    PutAddressOps(ifs) + AdminOps(ifs)
  }

  function RouteOps(desired: NetConfig): seq<Operation>
    requires RoutesResolved(desired)
  {
    PutRouteOps(SortedRoutes(desired.routes), InterfaceMap(desired.interfaces))
  }

  /** The whole plan: routes and addresses go first, routes come last. */
  function Plan(previous: NetConfig, desired: NetConfig): seq<Operation>
    requires Plannable(previous, desired)
  {
    RemovalOps(previous, desired) + LinkOps(desired) + AddressOps(desired) + RouteOps(desired)
  }

  // -------------------------------------------------------- kernel effects

  datatype Link = Physical | Vlan(parent: Name, id: nat)

  /** A route as installed: the kernel always resolves a device. */
  datatype HopRoute = HopRoute(gateway: Option<nat>, dev: Name)

  datatype Kernel = Kernel(links: map<Name, Link>, addresses: set<Address>, routes: map<RouteKey, HopRoute>)

  /** `networkRouteMatches`: an unset device matches any device. */
  predicate Realises(actual: HopRoute, spec: RouteSpec) {
    actual.gateway == spec.gateway && (spec.dev.Some? ==> actual.dev == spec.dev.value)
  }

  predicate LinkMatches(link: Link, vlan: VlanSpec) {
    link.Vlan? && link.parent == vlan.parent && link.id == vlan.id
  }

  function VlanChildren(k: Kernel, dev: Name): set<Name> {
    set m | m in k.links && k.links[m].Vlan? && k.links[m].parent == dev
  }

  function FlushRoutes(k: Kernel, devs: set<Name>): Kernel {
    k.(routes := map key | key in k.routes && k.routes[key].dev !in devs :: k.routes[key])
  }

  /** Deleting a link takes its VLANs, and all their addresses and routes, with it. */
  function DeleteLink(k: Kernel, dev: Name): Kernel {
    var gone := {dev} + VlanChildren(k, dev);
    FlushRoutes(Kernel(k.links - gone, (set a | a in k.addresses && a.dev !in gone), k.routes), gone)
  }

  predicate CanAddVlan(k: Kernel, vlan: VlanSpec) {
    && vlan.parent in k.links
    && vlan.dev !in k.links
    && forall m :: m in k.links ==> !LinkMatches(k.links[m], vlan)
  }

  function AddVlan(k: Kernel, vlan: VlanSpec): Kernel {
    k.(links := k.links[vlan.dev := Vlan(vlan.parent, vlan.id)])
  }

  /** The kernel's answer to one operation; `hop` resolves a device-less route. */
  datatype Reply = Refused(half: bool) | Answered(hop: Name)

  datatype Effect = Effect(kernel: Kernel, ok: bool)

  /** `ensureVLAN`: keep a matching link, otherwise delete it and create it again. */
  function ExecEnsureVlan(vlan: VlanSpec, k: Kernel, refused: bool): Effect {
    if vlan.dev !in k.links then
      if !refused && CanAddVlan(k, vlan) then Effect(AddVlan(k, vlan), true) else Effect(k, false)
    else if LinkMatches(k.links[vlan.dev], vlan) then Effect(k, !refused)
    else if k.links[vlan.dev].Physical? then Effect(k, false)
    else
      var cleared := DeleteLink(k, vlan.dev);
      if !refused && CanAddVlan(cleared, vlan) then Effect(AddVlan(cleared, vlan), true) else Effect(cleared, false)
  }

  /** Removals ignore "not found"; everything else needs its link. */
  function Exec(op: Operation, k: Kernel, reply: Reply): Effect {
    if reply.Refused? then
      if reply.half && op.EnsureVlan? then ExecEnsureVlan(op.vlan, k, true) else Effect(k, false)
    else
      match op
      case DelRoute(r) =>
        Effect(if r.key in k.routes && Realises(k.routes[r.key], r) then k.(routes := k.routes - {r.key}) else k, true)
      case DelAddress(a) => Effect(k.(addresses := k.addresses - {a}), true)
      case DelLink(dev) =>
        if dev !in k.links then Effect(k, true)
        else if k.links[dev].Physical? then Effect(k, false)
        else Effect(DeleteLink(k, dev), true)
      case ShowLink(dev) => Effect(k, dev in k.links)
      case EnsureVlan(v) => ExecEnsureVlan(v, k, false)
      case SetMtu(dev, _) => Effect(k, dev in k.links)
      case PutAddress(a) =>
        if a.dev in k.links then Effect(k.(addresses := k.addresses + {a}), true) else Effect(k, false)
      case SetAdmin(dev, up) =>
        if dev !in k.links then Effect(k, false)
        else if up then Effect(k, true)
        else Effect(FlushRoutes(k, {dev} + VlanChildren(k, dev)), true)
      case PutRoute(r) =>
        var dev := if r.dev.Some? then r.dev.value else reply.hop;
        if dev in k.links then Effect(k.(routes := k.routes[r.key := HopRoute(r.gateway, dev)]), true)
        else Effect(k, false)
  }

  /** `applyPlan`: stop at the first failure, or when the answers run out. */
  function ExecPlan(plan: seq<Operation>, k: Kernel, env: seq<Reply>): Effect
    decreases |plan|
  {
    if |plan| == 0 then Effect(k, true)
    else if |env| == 0 then Effect(k, false)
    else
      var step := Exec(plan[0], k, env[0]);
      if step.ok then ExecPlan(plan[1..], step.kernel, env[1..]) else step
  }

  // ------------------------------------------------- observing a transition

  /** Every desired object is present. */
  predicate Covers(k: Kernel, o: Objects) {
    && (forall v :: v in o.vlans ==> v.dev in k.links && LinkMatches(k.links[v.dev], v))
    && o.addresses <= k.addresses
    && (forall s :: s in o.routes ==> s.key in k.routes && Realises(k.routes[s.key], s))
  }

  /** Nothing outside `o` is present. */
  predicate Within(k: Kernel, o: Objects) {
    && (forall n :: n in k.links && k.links[n].Vlan? ==> VlanSpec(n, k.links[n].parent, k.links[n].id) in o.vlans)
    && k.addresses <= o.addresses
    && (forall key :: key in k.routes ==> exists s :: s in o.routes && s.key == key && Realises(k.routes[key], s))
  }

  /** The managed objects are exactly those of the configuration. */
  predicate Exactly(k: Kernel, c: NetConfig)
    requires RoutesResolved(c) && ParentsKnown(c)
  {
    Within(k, ObjectsOf(c)) && Covers(k, ObjectsOf(c))
  }

  /** A VLAN interface whose name the new configuration does not use. */
  predicate Stale(i: Interface, desired: NetConfig) {
    i.vlanSub && forall d :: d in desired.interfaces ==> d.sysName != i.sysName
  }

  /** `VerifyTransition`: desired objects present, objects of `previous` alone absent. */
  predicate TransitionVerified(k: Kernel, previous: NetConfig, desired: NetConfig)
    requires Plannable(previous, desired)
  {
    && Covers(k, ObjectsOf(desired))
    && (forall i :: i in desired.interfaces ==> i.sysName in k.links)
    && (forall a :: a in AddressesOf(previous) && a !in AddressesOf(desired) ==> a !in k.addresses)
    && (forall i :: i in previous.interfaces && Stale(i, desired) ==> i.sysName !in k.links)
    && (forall s :: s in SpecsOf(previous) && s !in SpecsOf(desired) ==>
          s.key !in k.routes || !Realises(k.routes[s.key], s))
  }
}
