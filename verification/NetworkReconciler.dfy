/**
 The reconciler itself: it appends operations to a plan, applies them to the
 kernel one by one, checks the transition and, outside recovery, walks back.
 */
module NetworkReconciler {
  import opened Wrappers
  import opened Network

  /** `PlanNetwork`: fails exactly when a route or a VLAN parent is unresolved. */
  method PlanNetwork(previous: NetConfig, desired: NetConfig) returns (r: Result<seq<Operation>>)
    ensures r.Success? <==> Plannable(previous, desired)
    ensures r.Success? ==> r.value == Plan(previous, desired)
  {
    var before, after := InterfaceMap(previous.interfaces), InterfaceMap(desired.interfaces);
    var ok := CheckRoutes(desired.routes, after);
    if !ok { return Failure("desired route interface is unresolved"); }
    ok := CheckRoutes(previous.routes, before);
    if !ok { return Failure("previous route interface is unresolved"); }
    var links := Links(desired);
    if links.None? { return Failure("VLAN interface has an unresolved parent"); }
    var removals := Removals(previous, desired);
    var rest := Installs(desired);
    r := Success(removals + links.value + rest);
  }

  method Links(desired: NetConfig) returns (r: Option<seq<Operation>>)
    ensures r.Some? <==> ParentsKnown(desired)
    ensures r.Some? ==> r.value == LinkOps(desired)
  {
    var ifs := SortedInterfaces(desired.interfaces);
    var show := ShowLinks(ifs);
    var vlans := EnsureVlans(ifs, InterfaceMap(desired.interfaces));
    var mtus := SetMtus(ifs);
    if vlans.None? { return None; }
    r := Some(show + vlans.value + mtus);
  }

  method ShowLinks(ifs: seq<Interface>) returns (ops: seq<Operation>)
    ensures ops == ShowLinkOps(ifs)
  {
    ops := [];
    for n := 0 to |ifs|
      invariant ops == ShowLinkOps(ifs[..n])
    {
      assert ifs[..n + 1][..n] == ifs[..n];
      if !ifs[n].vlanSub { ops := ops + [ShowLink(ifs[n].sysName)]; }
    }
    assert ifs[..|ifs|] == ifs;
  }

  method EnsureVlans(ifs: seq<Interface>, interfaces: map<Id, Interface>) returns (r: Option<seq<Operation>>)
    ensures r.Some? <==> forall i :: i in ifs && i.vlanSub ==> ParentKnown(i, interfaces)
    ensures r.Some? ==> r.value == EnsureVlanOps(ifs, interfaces)
  {
    var ops: seq<Operation> := [];
    for n := 0 to |ifs|
      invariant forall i :: i in ifs[..n] && i.vlanSub ==> ParentKnown(i, interfaces)
      invariant ops == EnsureVlanOps(ifs[..n], interfaces)
    {
      assert ifs[..n + 1][..n] == ifs[..n];
      if ifs[n].vlanSub {
        if !ParentKnown(ifs[n], interfaces) { return None; }
        ops := ops + [EnsureVlan(VlanOf(ifs[n], interfaces))];
      }
    }
    assert ifs[..|ifs|] == ifs;
    r := Some(ops);
  }

  method SetMtus(ifs: seq<Interface>) returns (ops: seq<Operation>)
    ensures ops == MtuOps(ifs)
  {
    ops := [];
    for n := 0 to |ifs|
      invariant ops == MtuOps(ifs[..n])
    {
      assert ifs[..n + 1][..n] == ifs[..n];
      if ifs[n].mtu > 0 { ops := ops + [SetMtu(ifs[n].sysName, ifs[n].mtu)]; }
    }
    assert ifs[..|ifs|] == ifs;
  }

  method CheckRoutes(routes: seq<Route>, interfaces: map<Id, Interface>) returns (ok: bool)
    ensures ok <==> forall r :: r in routes && r.enabled ==> Resolved(r, interfaces)
  {
    for n := 0 to |routes|
      invariant forall r :: r in routes[..n] && r.enabled ==> Resolved(r, interfaces)
    {
      if routes[n].enabled && !Resolved(routes[n], interfaces) { return false; }
    }
    assert routes[..|routes|] == routes;
    return true;
  }

  method Removals(previous: NetConfig, desired: NetConfig) returns (ops: seq<Operation>)
    requires Plannable(previous, desired)
    ensures ops == RemovalOps(previous, desired)
  {
    var before, after := InterfaceMap(previous.interfaces), InterfaceMap(desired.interfaces);
    var ifs := SortedInterfaces(previous.interfaces);
    var routes := StaleRoutes(SortedRoutes(previous.routes), before, SpecsOf(desired));
    var addresses := StaleInterfaceAddresses(ifs, AddressesOf(desired));
    var links := StaleLinks(ifs, before, after);
    ops := routes + addresses + links;
  }

  method StaleRoutes(routes: seq<Route>, interfaces: map<Id, Interface>, keep: set<RouteSpec>)
    returns (ops: seq<Operation>)
    requires forall r :: r in routes && r.enabled ==> Resolved(r, interfaces)
    ensures ops == DelRouteOps(routes, interfaces, keep)
  {
    ops := [];
    for n := 0 to |routes|
      invariant ops == DelRouteOps(routes[..n], interfaces, keep)
    {
      assert routes[..n + 1][..n] == routes[..n];
      if routes[n].enabled && SpecOf(routes[n], interfaces) !in keep {
        ops := ops + [DelRoute(SpecOf(routes[n], interfaces))];
      }
    }
    assert routes[..|routes|] == routes;
  }

  method StaleInterfaceAddresses(ifs: seq<Interface>, keep: set<Address>) returns (ops: seq<Operation>)
    ensures ops == DelAddressOps(ifs, keep)
  {
    ops := [];
    for n := 0 to |ifs|
      invariant ops == DelAddressOps(ifs[..n], keep)
    {
      assert ifs[..n + 1][..n] == ifs[..n];
      var four := StaleAddresses(false, ifs[n].sysName, ifs[n].v4, keep);
      var six := StaleAddresses(true, ifs[n].sysName, ifs[n].v6, keep);
      ops := ops + four + six;
    }
    assert ifs[..|ifs|] == ifs;
  }

  method StaleLinks(ifs: seq<Interface>, before: map<Id, Interface>, after: map<Id, Interface>)
    returns (ops: seq<Operation>)
    ensures ops == DelLinkOps(ifs, before, after)
  {
    ops := [];
    for n := 0 to |ifs|
      invariant ops == DelLinkOps(ifs[..n], before, after)
    {
      assert ifs[..n + 1][..n] == ifs[..n];
      if ifs[n].vlanSub && (ifs[n].id !in after || !SameVlan(ifs[n], after[ifs[n].id], before, after)) {
        ops := ops + [DelLink(ifs[n].sysName)];
      }
    }
    assert ifs[..|ifs|] == ifs;
  }

  method StaleAddresses(v6: bool, dev: Name, cs: seq<Cidr>, keep: set<Address>) returns (ops: seq<Operation>)
    ensures ops == DelAddressList(v6, dev, cs, keep)
  {
    ops := [];
    for n := 0 to |cs|
      invariant ops == DelAddressList(v6, dev, cs[..n], keep)
    {
      assert cs[..n + 1][..n] == cs[..n];
      if Address(v6, dev, cs[n]) !in keep { ops := ops + [DelAddress(Address(v6, dev, cs[n]))]; }
    }
    assert cs[..|cs|] == cs;
  }

  method Installs(desired: NetConfig) returns (ops: seq<Operation>)
    requires RoutesResolved(desired)
    ensures ops == AddressOps(desired) + RouteOps(desired)
  {
    var ifs := SortedInterfaces(desired.interfaces);
    var addresses := FreshInterfaceAddresses(ifs);
    var admin := SetAdmins(ifs);
    var routes := FreshRoutes(SortedRoutes(desired.routes), InterfaceMap(desired.interfaces));
    ops := addresses + admin + routes;
  }

  method FreshInterfaceAddresses(ifs: seq<Interface>) returns (ops: seq<Operation>)
    ensures ops == PutAddressOps(ifs)
  {
    ops := [];
    for n := 0 to |ifs|
      invariant ops == PutAddressOps(ifs[..n])
    {
      assert ifs[..n + 1][..n] == ifs[..n];
      var four := FreshAddresses(false, ifs[n].sysName, ifs[n].v4);
      var six := FreshAddresses(true, ifs[n].sysName, ifs[n].v6);
      ops := ops + four + six;
    }
    assert ifs[..|ifs|] == ifs;
  }

  method SetAdmins(ifs: seq<Interface>) returns (ops: seq<Operation>)
    ensures ops == AdminOps(ifs)
  {
    ops := [];
    for n := 0 to |ifs|
      invariant ops == AdminOps(ifs[..n])
    {
      assert ifs[..n + 1][..n] == ifs[..n];
      ops := ops + [SetAdmin(ifs[n].sysName, ifs[n].up)];
    }
    assert ifs[..|ifs|] == ifs;
  }

  method FreshRoutes(routes: seq<Route>, interfaces: map<Id, Interface>) returns (ops: seq<Operation>)
    requires forall r :: r in routes && r.enabled ==> Resolved(r, interfaces)
    ensures ops == PutRouteOps(routes, interfaces)
  {
    ops := [];
    for n := 0 to |routes|
      invariant ops == PutRouteOps(routes[..n], interfaces)
    {
      assert routes[..n + 1][..n] == routes[..n];
      if routes[n].enabled { ops := ops + [PutRoute(SpecOf(routes[n], interfaces))]; }
    }
    assert routes[..|routes|] == routes;
  }

  method FreshAddresses(v6: bool, dev: Name, cs: seq<Cidr>) returns (ops: seq<Operation>)
    ensures ops == PutAddressList(v6, dev, cs)
  {
    ops := [];
    for n := 0 to |cs|
      invariant ops == PutAddressList(v6, dev, cs[..n])
    {
      assert cs[..n + 1][..n] == cs[..n];
      ops := ops + [PutAddress(Address(v6, dev, cs[n]))];
    }
    assert cs[..|cs|] == cs;
  }

  // ------------------------------------------------------- kernel mutation

  /** What the kernel answers during one directed reconciliation. */
  datatype Attempt = Attempt(env: seq<Reply>, observed: bool)

  /** A plan followed by the transition check; `observed` is the read-back working. */
  function RestoreEffect(k: Kernel, previous: NetConfig, desired: NetConfig, a: Attempt): Effect {
    if !Plannable(previous, desired) then Effect(k, false)
    else
      var done := ExecPlan(Plan(previous, desired), k, a.env);
      Effect(done.kernel, done.ok && a.observed && TransitionVerified(done.kernel, previous, desired))
  }

  /** Outside recovery a failed reconciliation is walked back before it is reported. */
  function ReconcileEffect(k: Kernel, previous: NetConfig, desired: NetConfig, a: Attempt, back: Attempt): Effect {
    if !Plannable(previous, desired) then Effect(k, false)
    else
      var there := RestoreEffect(k, previous, desired, a);
      if there.ok then there else Effect(RestoreEffect(there.kernel, desired, previous, back).kernel, false)
  }

  class Reconciler {
    var kernel: Kernel

    constructor (initial: Kernel)
      ensures kernel == initial
    {
      kernel := initial;
    }

    method EnsureVLAN(vlan: VlanSpec, refused: bool) returns (ok: bool)
      modifies this
      ensures Effect(kernel, ok) == ExecEnsureVlan(vlan, old(kernel), refused)
    {
      if vlan.dev in kernel.links {
        if LinkMatches(kernel.links[vlan.dev], vlan) { return !refused; }
        if kernel.links[vlan.dev].Physical? { return false; }
        kernel := DeleteLink(kernel, vlan.dev);
      }
      if refused || !CanAddVlan(kernel, vlan) { return false; }
      kernel := AddVlan(kernel, vlan);
      return true;
    }

    method ApplyPlan(plan: seq<Operation>, env: seq<Reply>) returns (ok: bool)
      modifies this
      ensures Effect(kernel, ok) == ExecPlan(plan, old(kernel), env)
    {
      var n := 0;
      while n < |plan|
        invariant 0 <= n <= |plan| && n <= |env|
        invariant ExecPlan(plan, old(kernel), env) == ExecPlan(plan[n..], kernel, env[n..])
      {
        if n == |env| { return false; }
        var step := Effect(kernel, false);
        if env[n].Answered? && plan[n].EnsureVlan? {
          ok := EnsureVLAN(plan[n].vlan, false);
          step := Effect(kernel, ok);
        } else {
          step := Exec(plan[n], kernel, env[n]);
        }
        kernel := step.kernel;
        if !step.ok { return false; }
        n := n + 1;
      }
      return true;
    }

    method Restore(previous: NetConfig, desired: NetConfig, a: Attempt) returns (ok: bool)
      modifies this
      ensures Effect(kernel, ok) == RestoreEffect(old(kernel), previous, desired, a)
    {
      var plan := PlanNetwork(previous, desired);
      if plan.Failure? { return false; }
      ok := ApplyPlan(plan.value, a.env);
      if ok { ok := a.observed && TransitionVerified(kernel, previous, desired); }
    }

    method Reconcile(previous: NetConfig, desired: NetConfig, a: Attempt, back: Attempt) returns (ok: bool)
      modifies this
      ensures Effect(kernel, ok) == ReconcileEffect(old(kernel), previous, desired, a, back)
    {
      var plan := PlanNetwork(previous, desired);
      if plan.Failure? { return false; }
      ok := ApplyPlan(plan.value, a.env);
      if ok { ok := a.observed && TransitionVerified(kernel, previous, desired); }
      if !ok {
        var _ := Restore(desired, previous, back);
      }
    }
  }
}
