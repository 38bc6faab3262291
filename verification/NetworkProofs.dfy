/**
 A plan converges.  Every stop of a plan stays inside the objects it started
 from and its target, a completed plan leaves no object of its source alone
 and installs its whole target, and the two plans replayed by recovery end in
 exactly the target from any mixture of the journaled configurations.
 */
module NetworkProofs {
  import opened Wrappers
  import opened Network

  // ------------------------------------------------------ splitting a plan

  lemma {:induction false} ExecSplit(a: seq<Operation>, b: seq<Operation>, k: Kernel, env: seq<Reply>)
    requires ExecPlan(a + b, k, env).ok
    ensures |env| >= |a|
    ensures ExecPlan(a, k, env[..|a|]).ok
    ensures ExecPlan(b, ExecPlan(a, k, env[..|a|]).kernel, env[|a|..]) == ExecPlan(a + b, k, env)
    decreases |a|
  {
    if |a| == 0 {
      assert a + b == b;
      assert env[|a|..] == env;
    } else {
      assert (a + b)[1..] == a[1..] + b;
      ExecSplit(a[1..], b, Exec(a[0], k, env[0]).kernel, env[1..]);
      assert env[1..][..|a| - 1] == env[..|a|][1..];
      assert env[1..][|a| - 1..] == env[|a|..];
    }
  }

  // ------------------------------------------------------------ upper bound

  predicate AddsOnly(op: Operation, o: Objects) {
    && (op.EnsureVlan? ==> op.vlan in o.vlans)
    && (op.PutAddress? ==> op.address in o.addresses)
    && (op.PutRoute? ==> op.route in o.routes)
  }

  lemma ExecWithin(op: Operation, k: Kernel, reply: Reply, o: Objects)
    requires Within(k, o) && AddsOnly(op, o)
    ensures Within(Exec(op, k, reply).kernel, o)
  {
    var k' := Exec(op, k, reply).kernel;
    forall key | key in k'.routes
      ensures exists s :: s in o.routes && s.key == key && Realises(k'.routes[key], s)
    {
      if op.PutRoute? && key == op.route.key && reply.Answered? && k' != k {
        assert Realises(k'.routes[key], op.route);
      } else {
        assert key in k.routes && k.routes[key] == k'.routes[key];
      }
    }
  }

  lemma {:induction false} PlanWithin(plan: seq<Operation>, k: Kernel, env: seq<Reply>, o: Objects)
    requires Within(k, o)
    requires forall op :: op in plan ==> AddsOnly(op, o)
    ensures Within(ExecPlan(plan, k, env).kernel, o)
    decreases |plan|
  {
    if |plan| > 0 && |env| > 0 {
      assert plan[0] in plan;
      ExecWithin(plan[0], k, env[0], o);
      if Exec(plan[0], k, env[0]).ok {
        PlanWithin(plan[1..], Exec(plan[0], k, env[0]).kernel, env[1..], o);
      }
    }
  }

  // ---------------------------------------------------------------- removal

  /** What a removal takes out of a universe of objects. */
  function Without(o: Objects, op: Operation): Objects {
    match op
    case DelRoute(r) => o.(routes := o.routes - {r})
    case DelAddress(a) => o.(addresses := o.addresses - {a})
    case DelLink(dev) => o.(vlans := set v | v in o.vlans && v.dev != dev)
    case _ => o
  }

  predicate IsRemoval(op: Operation) {
    op.DelRoute? || op.DelAddress? || op.DelLink?
  }

  lemma ExecRemoves(op: Operation, k: Kernel, reply: Reply, o: Objects)
    requires Within(k, o) && IsRemoval(op) && Exec(op, k, reply).ok
    ensures Within(Exec(op, k, reply).kernel, Without(o, op))
  {
    var k' := Exec(op, k, reply).kernel;
    forall key | key in k'.routes
      ensures exists s :: s in Without(o, op).routes && s.key == key && Realises(k'.routes[key], s)
    {
      var s :| s in o.routes && s.key == key && Realises(k.routes[key], s);
      assert k.routes[key] == k'.routes[key];
      if op.DelRoute? && s == op.route {
        assert false;
      }
    }
  }

  /** `x` leaves the universe exactly when some removal of the list names it. */
  function WithoutAll(o: Objects, ops: seq<Operation>): Objects
    decreases |ops|
  {
    if |ops| == 0 then o else WithoutAll(Without(o, ops[0]), ops[1..])
  }

  lemma {:induction false} PlanRemoves(ops: seq<Operation>, k: Kernel, env: seq<Reply>, o: Objects)
    requires Within(k, o)
    requires forall op :: op in ops ==> IsRemoval(op)
    requires ExecPlan(ops, k, env).ok
    ensures Within(ExecPlan(ops, k, env).kernel, WithoutAll(o, ops))
    decreases |ops|
  {
    if |ops| > 0 {
      assert ops[0] in ops;
      ExecRemoves(ops[0], k, env[0], o);
      PlanRemoves(ops[1..], Exec(ops[0], k, env[0]).kernel, env[1..], Without(o, ops[0]));
    }
  }

  lemma {:induction false} WithoutAllLeaves(o: Objects, ops: seq<Operation>)
    ensures WithoutAll(o, ops).routes <= o.routes
    ensures WithoutAll(o, ops).addresses <= o.addresses
    ensures WithoutAll(o, ops).vlans <= o.vlans
    ensures forall r :: DelRoute(r) in ops ==> r !in WithoutAll(o, ops).routes
    ensures forall a :: DelAddress(a) in ops ==> a !in WithoutAll(o, ops).addresses
    ensures forall v :: v in WithoutAll(o, ops).vlans ==> DelLink(v.dev) !in ops
    decreases |ops|
  {
    if |ops| > 0 {
      WithoutAllLeaves(Without(o, ops[0]), ops[1..]);
      assert ops == [ops[0]] + ops[1..];
    }
  }

  // ------------------------------------------------- what the plan contains

  lemma {:induction false} DelRouteMember(rs: seq<Route>, m: map<Id, Interface>, keep: set<RouteSpec>)
    requires forall r :: r in rs && r.enabled ==> Resolved(r, m)
    ensures forall op :: op in DelRouteOps(rs, m, keep) ==> op.DelRoute?
    ensures forall r :: r in rs && r.enabled && SpecOf(r, m) !in keep ==>
            DelRoute(SpecOf(r, m)) in DelRouteOps(rs, m, keep)
  {
    if |rs| > 0 {
      DelRouteMember(rs[..|rs| - 1], m, keep);
      assert rs == rs[..|rs| - 1] + [rs[|rs| - 1]];
    }
  }

  lemma {:induction false} DelListMember(v6: bool, dev: Name, cs: seq<Cidr>, keep: set<Address>)
    ensures forall op :: op in DelAddressList(v6, dev, cs, keep) ==> op.DelAddress?
    ensures forall c :: c in cs && Address(v6, dev, c) !in keep ==>
            DelAddress(Address(v6, dev, c)) in DelAddressList(v6, dev, cs, keep)
  {
    if |cs| > 0 {
      DelListMember(v6, dev, cs[..|cs| - 1], keep);
      assert cs == cs[..|cs| - 1] + [cs[|cs| - 1]];
    }
  }

  lemma {:induction false} DelAddressMember(ifs: seq<Interface>, keep: set<Address>)
    ensures forall op :: op in DelAddressOps(ifs, keep) ==> op.DelAddress?
    ensures forall i, c :: i in ifs && c in i.v4 && Address(false, i.sysName, c) !in keep
              ==> DelAddress(Address(false, i.sysName, c)) in DelAddressOps(ifs, keep)
    ensures forall i, c :: i in ifs && c in i.v6 && Address(true, i.sysName, c) !in keep
              ==> DelAddress(Address(true, i.sysName, c)) in DelAddressOps(ifs, keep)
  {
    if |ifs| > 0 {
      var last := ifs[|ifs| - 1];
      DelAddressMember(ifs[..|ifs| - 1], keep);
      DelListMember(false, last.sysName, last.v4, keep);
      DelListMember(true, last.sysName, last.v6, keep);
      assert ifs == ifs[..|ifs| - 1] + [last];
    }
  }

  lemma {:induction false} DelLinkMember(ifs: seq<Interface>, old': map<Id, Interface>, new': map<Id, Interface>)
    ensures forall op :: op in DelLinkOps(ifs, old', new') ==> op.DelLink?
    ensures forall i :: i in ifs && i.vlanSub && (i.id !in new' || !SameVlan(i, new'[i.id], old', new'))
              ==> DelLink(i.sysName) in DelLinkOps(ifs, old', new')
  {
    if |ifs| > 0 {
      DelLinkMember(ifs[..|ifs| - 1], old', new');
      assert ifs == ifs[..|ifs| - 1] + [ifs[|ifs| - 1]];
    }
  }

  lemma {:induction false} ShowLinkMember(ifs: seq<Interface>)
    ensures forall op :: op in ShowLinkOps(ifs) ==> op.ShowLink?
    ensures forall i :: i in ifs && !i.vlanSub ==> ShowLink(i.sysName) in ShowLinkOps(ifs)
  {
    if |ifs| > 0 {
      ShowLinkMember(ifs[..|ifs| - 1]);
      assert ifs == ifs[..|ifs| - 1] + [ifs[|ifs| - 1]];
    }
  }

  lemma {:induction false} EnsureVlanMember(ifs: seq<Interface>, m: map<Id, Interface>)
    requires forall i :: i in ifs && i.vlanSub ==> ParentKnown(i, m)
    ensures forall op :: op in EnsureVlanOps(ifs, m) ==>
              exists i :: i in ifs && i.vlanSub && op == EnsureVlan(VlanOf(i, m))
    ensures forall i :: i in ifs && i.vlanSub ==> EnsureVlan(VlanOf(i, m)) in EnsureVlanOps(ifs, m)
  {
    if |ifs| > 0 {
      EnsureVlanMember(ifs[..|ifs| - 1], m);
      assert ifs == ifs[..|ifs| - 1] + [ifs[|ifs| - 1]];
    }
  }

  lemma {:induction false} MtuMember(ifs: seq<Interface>)
    ensures forall op :: op in MtuOps(ifs) ==> op.SetMtu?
  {
    if |ifs| > 0 {
      MtuMember(ifs[..|ifs| - 1]);
    }
  }

  lemma {:induction false} PutListMember(v6: bool, dev: Name, cs: seq<Cidr>)
    ensures forall op :: op in PutAddressList(v6, dev, cs) <==>
              op.PutAddress? && op.address.v6 == v6 && op.address.dev == dev && op.address.cidr in cs
  {
    if |cs| > 0 {
      PutListMember(v6, dev, cs[..|cs| - 1]);
      assert cs == cs[..|cs| - 1] + [cs[|cs| - 1]];
    }
  }

  lemma {:induction false} PutAddressMember(ifs: seq<Interface>)
    ensures forall op :: op in PutAddressOps(ifs) <==>
              op.PutAddress? && (exists i :: i in ifs && op.address.dev == i.sysName
                                   && op.address.cidr in (if op.address.v6 then i.v6 else i.v4))
  {
    if |ifs| > 0 {
      var last := ifs[|ifs| - 1];
      PutAddressMember(ifs[..|ifs| - 1]);
      PutListMember(false, last.sysName, last.v4);
      PutListMember(true, last.sysName, last.v6);
      assert ifs == ifs[..|ifs| - 1] + [last];
    }
  }

  lemma {:induction false} AdminMember(ifs: seq<Interface>)
    ensures forall op :: op in AdminOps(ifs) ==> op.SetAdmin?
  {
    if |ifs| > 0 {
      AdminMember(ifs[..|ifs| - 1]);
    }
  }

  lemma {:induction false} PutRouteMember(rs: seq<Route>, m: map<Id, Interface>)
    requires forall r :: r in rs && r.enabled ==> Resolved(r, m)
    ensures forall op :: op in PutRouteOps(rs, m) ==>
              exists r :: r in rs && r.enabled && op == PutRoute(SpecOf(r, m))
    ensures forall r :: r in rs && r.enabled ==> PutRoute(SpecOf(r, m)) in PutRouteOps(rs, m)
  {
    if |rs| > 0 {
      PutRouteMember(rs[..|rs| - 1], m);
      assert rs == rs[..|rs| - 1] + [rs[|rs| - 1]];
    }
  }

  lemma {:induction false} MapMember(ifs: seq<Interface>)
    ensures forall id :: id in InterfaceMap(ifs) ==> InterfaceMap(ifs)[id] in ifs && InterfaceMap(ifs)[id].id == id
  {
    if |ifs| > 0 {
      MapMember(ifs[..|ifs| - 1]);
      assert ifs == ifs[..|ifs| - 1] + [ifs[|ifs| - 1]];
    }
  }

  /** Objects of `previous` that survive the removals are also desired. */
  lemma RemovalOpsComplete(previous: NetConfig, desired: NetConfig)
    requires Plannable(previous, desired) && ParentsKnown(previous)
    ensures forall op :: op in RemovalOps(previous, desired) ==> IsRemoval(op)
    ensures forall s :: s in SpecsOf(previous) && s !in SpecsOf(desired) ==>
            DelRoute(s) in RemovalOps(previous, desired)
    ensures forall a :: a in AddressesOf(previous) && a !in AddressesOf(desired) ==>
            DelAddress(a) in RemovalOps(previous, desired)
    ensures forall v :: v in VlansOf(previous) && v !in VlansOf(desired) ==>
            DelLink(v.dev) in RemovalOps(previous, desired)
  {
    var before := SortedInterfaces(previous.interfaces);
    var old', new' := InterfaceMap(previous.interfaces), InterfaceMap(desired.interfaces);
    DelRouteMember(SortedRoutes(previous.routes), old', SpecsOf(desired));
    DelAddressMember(before, AddressesOf(desired));
    DelLinkMember(before, old', new');
    MapMember(desired.interfaces);
    forall v | v in VlansOf(previous) && v !in VlansOf(desired)
      ensures DelLink(v.dev) in RemovalOps(previous, desired)
    {
      var i :| i in previous.interfaces && i.vlanSub && v == VlanOf(i, old');
      if i.id in new' && SameVlan(i, new'[i.id], old', new') {
        assert false;
      }
    }
  }

  lemma RemovalsOnly(previous: NetConfig, desired: NetConfig)
    requires Plannable(previous, desired)
    ensures forall op :: op in RemovalOps(previous, desired) ==> IsRemoval(op)
  {
    var before := SortedInterfaces(previous.interfaces);
    DelRouteMember(SortedRoutes(previous.routes), InterfaceMap(previous.interfaces), SpecsOf(desired));
    DelAddressMember(before, AddressesOf(desired));
    DelLinkMember(before, InterfaceMap(previous.interfaces), InterfaceMap(desired.interfaces));
  }

  lemma InstallOpsMember(desired: NetConfig)
    requires RoutesResolved(desired) && ParentsKnown(desired)
    ensures forall op :: op in LinkOps(desired) ==>
            op.ShowLink? || op.SetMtu? || (op.EnsureVlan? && op.vlan in VlansOf(desired))
    ensures forall v :: v in VlansOf(desired) ==> EnsureVlan(v) in LinkOps(desired)
    ensures forall op :: op in AddressOps(desired) ==>
            op.SetAdmin? || (op.PutAddress? && op.address in AddressesOf(desired))
    ensures forall a :: a in AddressesOf(desired) ==> PutAddress(a) in AddressOps(desired)
    ensures forall op :: op in RouteOps(desired) ==> op.PutRoute? && op.route in SpecsOf(desired)
    ensures forall s :: s in SpecsOf(desired) ==> PutRoute(s) in RouteOps(desired)
  {
    var ifs := SortedInterfaces(desired.interfaces);
    var m := InterfaceMap(desired.interfaces);
    ShowLinkMember(ifs);
    EnsureVlanMember(ifs, m);
    MtuMember(ifs);
    PutAddressMember(ifs);
    AdminMember(ifs);
    PutRouteMember(SortedRoutes(desired.routes), m);
    forall op | op in AddressOps(desired)
      ensures op.SetAdmin? || (op.PutAddress? && op.address in AddressesOf(desired))
    {
      if op in PutAddressOps(ifs) {
        var i :| i in ifs && op.address.dev == i.sysName && op.address.cidr in (if op.address.v6 then i.v6 else i.v4);
        assert op.address == Address(op.address.v6, i.sysName, op.address.cidr);
      }
    }
  }

  // ----------------------------------------------------------- installation

  lemma {:induction false} VlanInstalled(plan: seq<Operation>, k: Kernel, env: seq<Reply>, v: VlanSpec)
    requires ExecPlan(plan, k, env).ok
    requires forall op :: op in plan ==> !op.DelLink?
    requires forall op :: op in plan && op.EnsureVlan? ==>
               op.vlan.dev != v.parent && (op.vlan.dev == v.dev ==> op.vlan == v)
    requires EnsureVlan(v) in plan || (v.dev in k.links && LinkMatches(k.links[v.dev], v))
    ensures var k' := ExecPlan(plan, k, env).kernel; v.dev in k'.links && LinkMatches(k'.links[v.dev], v)
    decreases |plan|
  {
    if |plan| > 0 {
      assert plan[0] in plan;
      assert plan == [plan[0]] + plan[1..];
      VlanInstalled(plan[1..], Exec(plan[0], k, env[0]).kernel, env[1..], v);
    }
  }

  lemma {:induction false} AddressInstalled(plan: seq<Operation>, k: Kernel, env: seq<Reply>, a: Address)
    requires ExecPlan(plan, k, env).ok
    requires forall op :: op in plan ==> op.PutAddress? || op.SetAdmin? || op.PutRoute?
    requires PutAddress(a) in plan || a in k.addresses
    ensures a in ExecPlan(plan, k, env).kernel.addresses
    decreases |plan|
  {
    if |plan| > 0 {
      assert plan[0] in plan;
      assert plan == [plan[0]] + plan[1..];
      AddressInstalled(plan[1..], Exec(plan[0], k, env[0]).kernel, env[1..], a);
    }
  }

  /** What the last put of a key leaves, given the answers of the kernel. */
  function Landed(plan: seq<Operation>, env: seq<Reply>, key: RouteKey): Option<HopRoute>
    decreases |plan|
  {
    if |plan| == 0 || |env| == 0 then None
    else
      var later := Landed(plan[1..], env[1..], key);
      if later.Some? || !plan[0].PutRoute? || plan[0].route.key != key then later
      else Some(Hop(plan[0].route, env[0]))
  }

  /** The device of a put route is its own or the one the kernel resolves. */
  function Hop(s: RouteSpec, reply: Reply): HopRoute {
    HopRoute(s.gateway, if s.dev.Some? then s.dev.value else if reply.Answered? then reply.hop else "")
  }

  lemma {:induction false} PutsLand(plan: seq<Operation>, k: Kernel, env: seq<Reply>, key: RouteKey)
    requires ExecPlan(plan, k, env).ok && forall op :: op in plan ==> op.PutRoute?
    ensures var k', l := ExecPlan(plan, k, env).kernel, Landed(plan, env, key);
            if l.Some? then key in k'.routes && k'.routes[key] == l.value
            else (key in k'.routes <==> key in k.routes) && (key in k.routes ==> k'.routes[key] == k.routes[key])
    decreases |plan|
  {
    if |plan| > 0 {
      assert plan[0] in plan;
      PutsLand(plan[1..], Exec(plan[0], k, env[0]).kernel, env[1..], key);
    }
  }

  lemma {:induction false} LandedSkips(a: seq<Operation>, d: seq<Operation>, env: seq<Reply>, key: RouteKey)
    requires |a| <= |env| && forall op :: op in a ==> !op.PutRoute?
    ensures Landed(a + d, env, key) == Landed(d, env[|a|..], key)
  {
    if |a| == 0 {
      assert a + d == d && env[|a|..] == env;
    } else {
      assert (a + d)[1..] == a[1..] + d && env[1..][|a| - 1..] == env[|a|..];
      assert a[0] in a;
      LandedSkips(a[1..], d, env[1..], key);
    }
  }

  /** Some put of a key lands, with its own gateway and device. */
  lemma {:induction false} LandedFrom(plan: seq<Operation>, k: Kernel, env: seq<Reply>, s: RouteSpec)
    returns (t: RouteSpec)
    requires ExecPlan(plan, k, env).ok && PutRoute(s) in plan
    ensures PutRoute(t) in plan && t.key == s.key && Landed(plan, env, s.key).Some?
            && Realises(Landed(plan, env, s.key).value, t)
    decreases |plan|
  {
    assert plan == [plan[0]] + plan[1..];
    if PutRoute(s) in plan[1..] {
      t := LandedFrom(plan[1..], Exec(plan[0], k, env[0]).kernel, env[1..], s);
    } else {
      t := s;
      if Landed(plan[1..], env[1..], s.key).Some? {
        t := LaterPut(plan[1..], env[1..], s.key);
      }
    }
  }

  lemma {:induction false} LaterPut(plan: seq<Operation>, env: seq<Reply>, key: RouteKey) returns (t: RouteSpec)
    requires Landed(plan, env, key).Some?
    ensures PutRoute(t) in plan && t.key == key && Realises(Landed(plan, env, key).value, t)
    decreases |plan|
  {
    if Landed(plan[1..], env[1..], key).Some? {
      t := LaterPut(plan[1..], env[1..], key);
    } else {
      t := plan[0].route;
      assert plan[0] in plan;
    }
  }

  lemma VlanNamesDistinct(c: NetConfig, v: VlanSpec, w: VlanSpec)
    requires Validated(c) && v in VlansOf(c) && w in VlansOf(c)
    ensures w.dev != v.parent && (w.dev == v.dev ==> w == v)
  {
    var m := InterfaceMap(c.interfaces);
    var i :| i in c.interfaces && i.vlanSub && v == VlanOf(i, m);
    var j :| j in c.interfaces && j.vlanSub && w == VlanOf(j, m);
    MapMember(c.interfaces);
    assert m[i.parentId] in c.interfaces;
  }

  /** The three installing stages of a plan for the objects `o`. */
  ghost predicate Stages(b: seq<Operation>, c: seq<Operation>, d: seq<Operation>, o: Objects) {
    && (forall op :: op in b ==> op.ShowLink? || op.SetMtu? || (op.EnsureVlan? && op.vlan in o.vlans))
    && (forall v :: v in o.vlans ==> EnsureVlan(v) in b)
    && (forall op :: op in c ==> op.SetAdmin? || (op.PutAddress? && op.address in o.addresses))
    && (forall a :: a in o.addresses ==> PutAddress(a) in c)
    && (forall op :: op in d ==> op.PutRoute? && op.route in o.routes)
    && (forall s :: s in o.routes ==> PutRoute(s) in d)
    && (forall v, w :: v in o.vlans && w in o.vlans ==> w.dev != v.parent && (w.dev == v.dev ==> w == v))
  }

  lemma StageVlans(b: seq<Operation>, c: seq<Operation>, d: seq<Operation>, o: Objects, k: Kernel, env: seq<Reply>)
    requires Stages(b, c, d, o) && ExecPlan(b + c + d, k, env).ok
    ensures var k' := ExecPlan(b + c + d, k, env).kernel;
            forall v :: v in o.vlans ==> v.dev in k'.links && LinkMatches(k'.links[v.dev], v)
  {
    var k' := ExecPlan(b + c + d, k, env).kernel;
    forall v | v in o.vlans ensures v.dev in k'.links && LinkMatches(k'.links[v.dev], v) {
      assert EnsureVlan(v) in b;
      VlanInstalled(b + c + d, k, env, v);
    }
  }

  lemma StageAddresses(b: seq<Operation>, c: seq<Operation>, d: seq<Operation>, o: Objects, k: Kernel, env: seq<Reply>)
    requires Stages(b, c, d, o) && ExecPlan(c + d, k, env).ok
    ensures o.addresses <= ExecPlan(c + d, k, env).kernel.addresses
  {
    forall a | a in o.addresses ensures a in ExecPlan(c + d, k, env).kernel.addresses {
      assert PutAddress(a) in c;
      AddressInstalled(c + d, k, env, a);
    }
  }

  /** All of a target but its routes is in place. */
  lemma StagesCover(b: seq<Operation>, c: seq<Operation>, d: seq<Operation>, o: Objects, k: Kernel, env: seq<Reply>)
    requires Stages(b, c, d, o) && ExecPlan(b + c + d, k, env).ok
    ensures Covers(ExecPlan(b + c + d, k, env).kernel, o.(routes := {}))
  {
    StageVlans(b, c, d, o, k, env);
    assert b + c + d == b + (c + d);
    ExecSplit(b, c + d, k, env);
    StageAddresses(b, c, d, o, ExecPlan(b, k, env[..|b|]).kernel, env[|b|..]);
  }

  lemma PlanStages(desired: NetConfig)
    requires Validated(desired)
    ensures Stages(LinkOps(desired), AddressOps(desired), RouteOps(desired), ObjectsOf(desired))
  {
    InstallOpsMember(desired);
    forall v, w | v in VlansOf(desired) && w in VlansOf(desired)
      ensures w.dev != v.parent && (w.dev == v.dev ==> w == v)
    {
      VlanNamesDistinct(desired, v, w);
    }
  }

  lemma PlanShape(previous: NetConfig, desired: NetConfig)
    requires Plannable(previous, desired)
    ensures Plan(previous, desired)
         == RemovalOps(previous, desired) + (LinkOps(desired) + AddressOps(desired) + RouteOps(desired))
  {
  }

  lemma RemovedThenCovered(plan: seq<Operation>, a: seq<Operation>, b: seq<Operation>, c: seq<Operation>,
                           d: seq<Operation>,
                           k: Kernel, env: seq<Reply>, o: Objects)
    requires plan == a + (b + c + d) && Stages(b, c, d, o) && ExecPlan(plan, k, env).ok
    ensures Covers(ExecPlan(plan, k, env).kernel, o.(routes := {}))
  {
    ExecSplit(a, b + c + d, k, env);
    StagesCover(b, c, d, o, ExecPlan(a, k, env[..|a|]).kernel, env[|a|..]);
  }

  lemma PutsComeLast(plan: seq<Operation>, a: seq<Operation>, d: seq<Operation>, k: Kernel, env: seq<Reply>,
                     s: RouteSpec)
    requires plan == a + d && ExecPlan(plan, k, env).ok && PutRoute(s) in d
    requires (forall op :: op in a ==> !op.PutRoute?) && forall op :: op in d ==> op.PutRoute?
    ensures var l, k' := Landed(plan, env, s.key), ExecPlan(plan, k, env).kernel;
            l.Some? && s.key in k'.routes && k'.routes[s.key] == l.value
    ensures exists t :: PutRoute(t) in d && t.key == s.key && Realises(Landed(plan, env, s.key).value, t)
  {
    hide Landed;
    ExecSplit(a, d, k, env);
    var k1 := ExecPlan(a, k, env[..|a|]).kernel;
    LandedSkips(a, d, env, s.key);
    PutsLand(d, k1, env[|a|..], s.key);
    var t := LandedFrom(d, k1, env[|a|..], s);
  }

  /** The route of a key, after a completed plan, is the one that landed last. */
  lemma RouteLands(previous: NetConfig, desired: NetConfig, k: Kernel, env: seq<Reply>, s: RouteSpec)
    requires Plannable(previous, desired) && s in SpecsOf(desired)
    requires ExecPlan(Plan(previous, desired), k, env).ok
    ensures var l, k' := Landed(Plan(previous, desired), env, s.key), ExecPlan(Plan(previous, desired), k, env).kernel;
            l.Some? && s.key in k'.routes && k'.routes[s.key] == l.value
    ensures exists t :: && t in SpecsOf(desired) && t.key == s.key
                        && Realises(Landed(Plan(previous, desired), env, s.key).value, t)
  {
    hide ExecPlan, Landed, SpecsOf;
    RemovalsOnly(previous, desired);
    InstallOpsMember(desired);
    PutsComeLast(Plan(previous, desired), RemovalOps(previous, desired) + LinkOps(desired) + AddressOps(desired),
                 RouteOps(desired), k, env, s);
  }

  /** A completed plan has installed all of its target but the routes. */
  lemma PlanCoversRest(previous: NetConfig, desired: NetConfig, k: Kernel, env: seq<Reply>)
    requires Plannable(previous, desired) && Validated(desired)
    requires ExecPlan(Plan(previous, desired), k, env).ok
    ensures Covers(ExecPlan(Plan(previous, desired), k, env).kernel, ObjectsOf(desired).(routes := {}))
  {
    PlanStages(desired);
    PlanShape(previous, desired);
    RemovedThenCovered(Plan(previous, desired), RemovalOps(previous, desired), LinkOps(desired),
                       AddressOps(desired), RouteOps(desired), k, env, ObjectsOf(desired));
  }

  /** Every desired route is served by the one that landed under its key. */
  ghost predicate AllLanded(previous: NetConfig, desired: NetConfig, env: seq<Reply>)
    requires Plannable(previous, desired)
  {
    forall s :: s in SpecsOf(desired) ==>
      var l := Landed(Plan(previous, desired), env, s.key); l.Some? && Realises(l.value, s)
  }

  lemma CoversIff(previous: NetConfig, desired: NetConfig, k: Kernel, env: seq<Reply>)
    requires Plannable(previous, desired) && Validated(desired)
    requires ExecPlan(Plan(previous, desired), k, env).ok
    ensures Covers(ExecPlan(Plan(previous, desired), k, env).kernel, ObjectsOf(desired)) <==>
            AllLanded(previous, desired, env)
  {
    hide ExecPlan, Plan, Landed, SpecsOf, VlansOf, AddressesOf;
    PlanCoversRest(previous, desired, k, env);
    forall s | s in SpecsOf(desired)
      ensures var l, k' := Landed(Plan(previous, desired), env, s.key),
              ExecPlan(Plan(previous, desired), k, env).kernel;
              l.Some? && s.key in k'.routes && k'.routes[s.key] == l.value
    {
      RouteLands(previous, desired, k, env, s);
    }
  }

  lemma DistinctLand(previous: NetConfig, desired: NetConfig, k: Kernel, env: seq<Reply>)
    requires Plannable(previous, desired) && DistinctKeys(desired)
    requires ExecPlan(Plan(previous, desired), k, env).ok
    ensures AllLanded(previous, desired, env)
  {
    hide ExecPlan, Plan, Landed, SpecsOf;
    forall s | s in SpecsOf(desired)
      ensures var l := Landed(Plan(previous, desired), env, s.key); l.Some? && Realises(l.value, s)
    {
      RouteLands(previous, desired, k, env, s);
    }
  }

  /** A completed plan has installed the whole of its target. */
  lemma PlanCovers(previous: NetConfig, desired: NetConfig, k: Kernel, env: seq<Reply>)
    requires Plannable(previous, desired) && WellFormed(desired)
    requires ExecPlan(Plan(previous, desired), k, env).ok
    ensures Covers(ExecPlan(Plan(previous, desired), k, env).kernel, ObjectsOf(desired))
  {
    hide ExecPlan, Plan, AllLanded;
    CoversIff(previous, desired, k, env);
    DistinctLand(previous, desired, k, env);
  }

  // ------------------------------------------------------------ convergence

  function Minus(o: Objects, p: Objects): Objects {
    Objects(o.vlans - p.vlans, o.addresses - p.addresses, o.routes - p.routes)
  }

  lemma WithinMonotone(k: Kernel, o: Objects, p: Objects)
    requires Within(k, o)
    requires o.vlans <= p.vlans && o.addresses <= p.addresses && o.routes <= p.routes
    ensures Within(k, p)
  {
    forall key | key in k.routes
      ensures exists s :: s in p.routes && s.key == key && Realises(k.routes[key], s)
    {
      var s :| s in o.routes && s.key == key && Realises(k.routes[key], s);
      assert s in p.routes;
    }
  }

  lemma InstallsOnly(desired: NetConfig, o: Objects)
    requires RoutesResolved(desired) && ParentsKnown(desired)
    requires VlansOf(desired) <= o.vlans && AddressesOf(desired) <= o.addresses && SpecsOf(desired) <= o.routes
    ensures forall op :: op in LinkOps(desired) + AddressOps(desired) + RouteOps(desired) ==> AddsOnly(op, o)
  {
    InstallOpsMember(desired);
  }

  lemma PlanAddsOnlyTarget(previous: NetConfig, desired: NetConfig, o: Objects)
    requires Plannable(previous, desired) && ParentsKnown(previous)
    requires VlansOf(desired) <= o.vlans && AddressesOf(desired) <= o.addresses && SpecsOf(desired) <= o.routes
    ensures forall op :: op in Plan(previous, desired) ==> AddsOnly(op, o)
  {
    RemovalOpsComplete(previous, desired);
    InstallsOnly(desired, o);
    PlanShape(previous, desired);
  }

  /** However far a plan gets, it stays inside its start and its target. */
  lemma PlanStaysWithin(previous: NetConfig, desired: NetConfig, k: Kernel, env: seq<Reply>, o: Objects)
    requires Plannable(previous, desired) && ParentsKnown(previous)
    requires Within(k, o)
    requires VlansOf(desired) <= o.vlans && AddressesOf(desired) <= o.addresses && SpecsOf(desired) <= o.routes
    ensures Within(ExecPlan(Plan(previous, desired), k, env).kernel, o)
  {
    PlanAddsOnlyTarget(previous, desired, o);
    PlanWithin(Plan(previous, desired), k, env, o);
  }

  lemma RemovedThenInstalled(plan: seq<Operation>, a: seq<Operation>, b: seq<Operation>, k: Kernel, env: seq<Reply>,
                             o: Objects, goal: Objects)
    requires plan == a + b && Within(k, o) && ExecPlan(plan, k, env).ok
    requires forall op :: op in a ==> IsRemoval(op)
    requires forall op :: op in b ==> AddsOnly(op, goal)
    requires forall r :: r in o.routes && DelRoute(r) !in a ==> r in goal.routes
    requires forall x :: x in o.addresses && DelAddress(x) !in a ==> x in goal.addresses
    requires forall v :: v in o.vlans && DelLink(v.dev) !in a ==> v in goal.vlans
    ensures Within(ExecPlan(plan, k, env).kernel, goal)
  {
    ExecSplit(a, b, k, env);
    var k1 := ExecPlan(a, k, env[..|a|]).kernel;
    PlanRemoves(a, k, env[..|a|], o);
    WithoutAllLeaves(o, a);
    WithinMonotone(k1, WithoutAll(o, a), goal);
    PlanWithin(b, k1, env[|a|..], goal);
  }

  /** A completed plan has removed every object that only `previous` had. */
  lemma PlanRemovesPrevious(previous: NetConfig, desired: NetConfig, k: Kernel, env: seq<Reply>, o: Objects)
    requires Plannable(previous, desired) && ParentsKnown(previous)
    requires Within(k, o)
    requires ExecPlan(Plan(previous, desired), k, env).ok
    ensures Within(ExecPlan(Plan(previous, desired), k, env).kernel,
                   Union(Minus(o, ObjectsOf(previous)), ObjectsOf(desired)))
  {
    var goal := Union(Minus(o, ObjectsOf(previous)), ObjectsOf(desired));
    PlanShape(previous, desired);
    RemovalOpsComplete(previous, desired);
    InstallsOnly(desired, goal);
    RemovedThenInstalled(Plan(previous, desired), RemovalOps(previous, desired),
                         LinkOps(desired) + AddressOps(desired) + RouteOps(desired), k, env, o, goal);
  }

  /**
   The whole truth about validated targets: a completed plan reaches one if and
   only if every route is served by the last put of its key.
   */
  lemma ReachesIffLanded(previous: NetConfig, desired: NetConfig, k: Kernel, env: seq<Reply>)
    ensures Validated(previous) && Validated(desired) ==>
              var r := ExecPlan(Plan(previous, desired), k, env);
              Within(k, Union(ObjectsOf(previous), ObjectsOf(desired))) && r.ok ==>
                (Exactly(r.kernel, desired) <==> AllLanded(previous, desired, env))
  {
    if Validated(previous) && Validated(desired) {
      hide ExecPlan, Plan, Within, Covers, ObjectsOf, AllLanded;
      var o, r := Union(ObjectsOf(previous), ObjectsOf(desired)), ExecPlan(Plan(previous, desired), k, env);
      if Within(k, o) && r.ok {
        PlanRemovesPrevious(previous, desired, k, env, o);
        CoversIff(previous, desired, k, env);
        WithinMonotone(r.kernel, Union(Minus(o, ObjectsOf(previous)), ObjectsOf(desired)), ObjectsOf(desired));
      }
    }
  }

  /** One plan from a mixture of `previous` and `desired` ends in exactly `desired`. */
  lemma PlanReachesTarget(previous: NetConfig, desired: NetConfig, k: Kernel, env: seq<Reply>)
    ensures Validated(previous) && WellFormed(desired) ==>
              var r := ExecPlan(Plan(previous, desired), k, env);
              Within(k, Union(ObjectsOf(previous), ObjectsOf(desired))) && r.ok ==> Exactly(r.kernel, desired)
  {
    if Validated(previous) && WellFormed(desired) {
      hide ExecPlan, Plan, Within, Covers, ObjectsOf, AllLanded;
      ReachesIffLanded(previous, desired, k, env);
      if ExecPlan(Plan(previous, desired), k, env).ok { DistinctLand(previous, desired, k, env); }
    }
  }

  /** Two routes of one key that disagree cannot both be in the kernel. */
  lemma ConflictNeverCovered(c: NetConfig, k: Kernel, s: RouteSpec, t: RouteSpec)
    requires RoutesResolved(c) && ParentsKnown(c) && NoLooseTwins(c)
    requires s in SpecsOf(c) && t in SpecsOf(c) && s.key == t.key && s != t
    ensures !Exactly(k, c)
  {
    assert forall h :: !(Realises(h, s) && Realises(h, t));
  }

  /**
   For every validated target without loose twins, a completed plan reaches it
   if and only if no two of its enabled routes share destination and metric.
   */
  lemma ReachesIffDistinct(previous: NetConfig, desired: NetConfig, k: Kernel, env: seq<Reply>)
    ensures Validated(previous) && Validated(desired) && NoLooseTwins(desired) ==>
              var r := ExecPlan(Plan(previous, desired), k, env);
              Within(k, Union(ObjectsOf(previous), ObjectsOf(desired))) && r.ok ==>
                (Exactly(r.kernel, desired) <==> DistinctKeys(desired))
  {
    if Validated(previous) && Validated(desired) && NoLooseTwins(desired) {
      hide ExecPlan, Plan, Within, Covers, ObjectsOf;
      if DistinctKeys(desired) {
        PlanReachesTarget(previous, desired, k, env);
      } else {
        var s, t :| s in SpecsOf(desired) && t in SpecsOf(desired) && s.key == t.key && s != t;
        ConflictNeverCovered(desired, ExecPlan(Plan(previous, desired), k, env).kernel, s, t);
      }
    }
  }

  /**
   Recovery: from any mixture of the two journaled configurations, the plan
   from the attempted source and then the plan from the previous one leave
   nothing that is not of the target.
   */
  lemma RecoveryCleans(source: NetConfig, previous: NetConfig, target: NetConfig, k: Kernel,
                       env1: seq<Reply>, env2: seq<Reply>)
    ensures Validated(source) && Validated(previous) && Validated(target) ==>
              var r1 := ExecPlan(Plan(source, target), k, env1);
              var r2 := ExecPlan(Plan(previous, target), r1.kernel, env2);
              Within(k, Union(ObjectsOf(source), ObjectsOf(previous))) && r1.ok && r2.ok ==>
                Within(r2.kernel, ObjectsOf(target))
  {
    if Validated(source) && Validated(previous) && Validated(target) {
      hide ExecPlan, Plan, Within, ObjectsOf;
      var both := Union(ObjectsOf(source), ObjectsOf(previous));
      var r1 := ExecPlan(Plan(source, target), k, env1);
      var r2 := ExecPlan(Plan(previous, target), r1.kernel, env2);
      if Within(k, both) && r1.ok && r2.ok {
        PlanRemovesPrevious(source, target, k, env1, both);
        var left := Union(Minus(both, ObjectsOf(source)), ObjectsOf(target));
        PlanRemovesPrevious(previous, target, r1.kernel, env2, left);
        WithinMonotone(r2.kernel, Union(Minus(left, ObjectsOf(previous)), ObjectsOf(target)), ObjectsOf(target));
      }
    }
  }

  /** It ends in exactly the target if and only if every route is served by the last put of its key. */
  lemma RecoveryIffLanded(source: NetConfig, previous: NetConfig, target: NetConfig, k: Kernel,
                          env1: seq<Reply>, env2: seq<Reply>)
    ensures Validated(source) && Validated(previous) && Validated(target) ==>
              var r1 := ExecPlan(Plan(source, target), k, env1);
              var r2 := ExecPlan(Plan(previous, target), r1.kernel, env2);
              Within(k, Union(ObjectsOf(source), ObjectsOf(previous))) && r1.ok && r2.ok ==>
                (Exactly(r2.kernel, target) <==> AllLanded(previous, target, env2))
  {
    if Validated(source) && Validated(previous) && Validated(target) {
      hide ExecPlan, Plan, Within, Covers, ObjectsOf, AllLanded;
      var r1 := ExecPlan(Plan(source, target), k, env1);
      RecoveryCleans(source, previous, target, k, env1, env2);
      if ExecPlan(Plan(previous, target), r1.kernel, env2).ok { CoversIff(previous, target, r1.kernel, env2); }
    }
  }

  /** With distinct route keys it always does. */
  lemma RecoveryConverges(source: NetConfig, previous: NetConfig, target: NetConfig, k: Kernel,
                          env1: seq<Reply>, env2: seq<Reply>)
    ensures Validated(source) && Validated(previous) && WellFormed(target) ==>
              var r1 := ExecPlan(Plan(source, target), k, env1);
              var r2 := ExecPlan(Plan(previous, target), r1.kernel, env2);
              Within(k, Union(ObjectsOf(source), ObjectsOf(previous))) && r1.ok && r2.ok ==> Exactly(r2.kernel, target)
  {
    if Validated(source) && Validated(previous) && WellFormed(target) {
      hide ExecPlan, Plan, Within, Covers, ObjectsOf, AllLanded;
      var r1 := ExecPlan(Plan(source, target), k, env1);
      RecoveryIffLanded(source, previous, target, k, env1, env2);
      if ExecPlan(Plan(previous, target), r1.kernel, env2).ok { DistinctLand(previous, target, r1.kernel, env2); }
    }
  }

  /**
   Compensation: the plans from the attempted configuration and from the
   source back to the rollback target, when the kernel holds a mixture of two
   configurations of which one is the target and the other is a plan source.
   */
  lemma CompensationCleans(attempted: NetConfig, source: NetConfig, rollback: NetConfig, other: NetConfig, k: Kernel,
                           env1: seq<Reply>, env2: seq<Reply>)
    ensures Validated(attempted) && Validated(source) && Validated(rollback)
            && (other == attempted || other == source) ==>
              var r1 := ExecPlan(Plan(attempted, rollback), k, env1);
              var r2 := ExecPlan(Plan(source, rollback), r1.kernel, env2);
              Within(k, Union(ObjectsOf(rollback), ObjectsOf(other))) && r1.ok && r2.ok ==>
                Within(r2.kernel, ObjectsOf(rollback))
  {
    if Validated(attempted) && Validated(source) && Validated(rollback) && (other == attempted || other == source) {
      hide ExecPlan, Plan, Within, ObjectsOf;
      var both := Union(ObjectsOf(rollback), ObjectsOf(other));
      var r1 := ExecPlan(Plan(attempted, rollback), k, env1);
      var r2 := ExecPlan(Plan(source, rollback), r1.kernel, env2);
      if Within(k, both) && r1.ok && r2.ok {
        PlanRemovesPrevious(attempted, rollback, k, env1, both);
        var left := Union(Minus(both, ObjectsOf(attempted)), ObjectsOf(rollback));
        PlanRemovesPrevious(source, rollback, r1.kernel, env2, left);
        WithinMonotone(r2.kernel, Union(Minus(left, ObjectsOf(source)), ObjectsOf(rollback)), ObjectsOf(rollback));
      }
    }
  }

  lemma CompensationIffLanded(attempted: NetConfig, source: NetConfig, rollback: NetConfig, other: NetConfig, k: Kernel,
                              env1: seq<Reply>, env2: seq<Reply>)
    ensures Validated(attempted) && Validated(source) && Validated(rollback)
            && (other == attempted || other == source) ==>
              var r1 := ExecPlan(Plan(attempted, rollback), k, env1);
              var r2 := ExecPlan(Plan(source, rollback), r1.kernel, env2);
              Within(k, Union(ObjectsOf(rollback), ObjectsOf(other))) && r1.ok && r2.ok ==>
                (Exactly(r2.kernel, rollback) <==> AllLanded(source, rollback, env2))
  {
    if Validated(attempted) && Validated(source) && Validated(rollback) && (other == attempted || other == source) {
      hide ExecPlan, Plan, Within, Covers, ObjectsOf, AllLanded;
      var r1 := ExecPlan(Plan(attempted, rollback), k, env1);
      CompensationCleans(attempted, source, rollback, other, k, env1, env2);
      if ExecPlan(Plan(source, rollback), r1.kernel, env2).ok { CoversIff(source, rollback, r1.kernel, env2); }
    }
  }

  lemma CompensationConverges(attempted: NetConfig, source: NetConfig, rollback: NetConfig, other: NetConfig, k: Kernel,
                              env1: seq<Reply>, env2: seq<Reply>)
    ensures Validated(attempted) && Validated(source) && WellFormed(rollback)
            && (other == attempted || other == source) ==>
              var r1 := ExecPlan(Plan(attempted, rollback), k, env1);
              var r2 := ExecPlan(Plan(source, rollback), r1.kernel, env2);
              Within(k, Union(ObjectsOf(rollback), ObjectsOf(other))) && r1.ok && r2.ok ==> Exactly(r2.kernel, rollback)
  {
    if Validated(attempted) && Validated(source) && WellFormed(rollback) && (other == attempted || other == source) {
      hide ExecPlan, Plan, Within, Covers, ObjectsOf, AllLanded;
      var r1 := ExecPlan(Plan(attempted, rollback), k, env1);
      CompensationIffLanded(attempted, source, rollback, other, k, env1, env2);
      if ExecPlan(Plan(source, rollback), r1.kernel, env2).ok { DistinctLand(source, rollback, r1.kernel, env2); }
    }
  }

  // ------------------------------------------------------------ verification

  /** The objects a kernel holds; any kernel is within its own objects. */
  function OwnObjects(k: Kernel): Objects {
    Objects(set n | n in k.links && k.links[n].Vlan? :: VlanSpec(n, k.links[n].parent, k.links[n].id),
            k.addresses,
            set key | key in k.routes :: RouteSpec(key, k.routes[key].gateway, Some(k.routes[key].dev)))
  }

  lemma OwnWithin(k: Kernel)
    ensures Within(k, OwnObjects(k))
  {
    forall key | key in k.routes
      ensures exists s :: s in OwnObjects(k).routes && s.key == key && Realises(k.routes[key], s)
    {
      var s := RouteSpec(key, k.routes[key].gateway, Some(k.routes[key].dev));
      assert s in OwnObjects(k).routes && Realises(k.routes[key], s);
    }
  }

  lemma {:induction false} LinkGone(plan: seq<Operation>, k: Kernel, env: seq<Reply>, dev: Name)
    requires ExecPlan(plan, k, env).ok
    requires DelLink(dev) in plan || dev !in k.links
    requires forall op :: op in plan && op.EnsureVlan? ==> op.vlan.dev != dev
    ensures dev !in ExecPlan(plan, k, env).kernel.links
    decreases |plan|
  {
    if |plan| > 0 {
      assert plan[0] in plan;
      assert plan == [plan[0]] + plan[1..];
      LinkGone(plan[1..], Exec(plan[0], k, env[0]).kernel, env[1..], dev);
    }
  }

  /** No VLAN in the kernel sits on a link the configuration uses as a VLAN. */
  predicate Flat(k: Kernel, vlans: set<VlanSpec>) {
    forall n, v :: n in k.links && k.links[n].Vlan? && v in vlans ==> k.links[n].parent != v.dev
  }

  lemma LinkStep(op: Operation, k: Kernel, reply: Reply, dev: Name, vlans: set<VlanSpec>)
    requires Exec(op, k, reply).ok && Flat(k, vlans) && !op.DelLink?
    requires op.EnsureVlan? ==> op.vlan in vlans && op.vlan.dev != dev
    requires forall v, w :: v in vlans && w in vlans ==> w.dev != v.parent
    ensures Flat(Exec(op, k, reply).kernel, vlans)
    ensures dev in k.links || op == ShowLink(dev) ==> dev in Exec(op, k, reply).kernel.links
  {
  }

  lemma {:induction false} LinkShown(plan: seq<Operation>, k: Kernel, env: seq<Reply>, dev: Name, vlans: set<VlanSpec>)
    requires ExecPlan(plan, k, env).ok && Flat(k, vlans)
    requires ShowLink(dev) in plan || dev in k.links
    requires forall op :: op in plan ==> !op.DelLink? && (op.EnsureVlan? ==> op.vlan in vlans && op.vlan.dev != dev)
    requires forall v, w :: v in vlans && w in vlans ==> w.dev != v.parent
    ensures dev in ExecPlan(plan, k, env).kernel.links
    decreases |plan|
  {
    if |plan| > 0 {
      hide Flat, Exec;
      assert plan[0] in plan;
      assert plan == [plan[0]] + plan[1..];
      LinkStep(plan[0], k, env[0], dev, vlans);
      LinkShown(plan[1..], Exec(plan[0], k, env[0]).kernel, env[1..], dev, vlans);
    }
  }

  lemma {:induction false} RemovalKeepsFlat(plan: seq<Operation>, k: Kernel, env: seq<Reply>, vlans: set<VlanSpec>)
    requires Flat(k, vlans) && forall op :: op in plan ==> IsRemoval(op)
    ensures Flat(ExecPlan(plan, k, env).kernel, vlans)
    decreases |plan|
  {
    if |plan| > 0 && |env| > 0 {
      assert plan[0] in plan;
      if Exec(plan[0], k, env[0]).ok {
        RemovalKeepsFlat(plan[1..], Exec(plan[0], k, env[0]).kernel, env[1..], vlans);
      }
    }
  }

  lemma NamePresent(c: NetConfig, i: Interface, a: seq<Operation>, rest: seq<Operation>, k: Kernel, env: seq<Reply>)
    requires Validated(c) && i in c.interfaces && !i.vlanSub
    requires forall op :: op in a ==> IsRemoval(op)
    requires rest == LinkOps(c) + AddressOps(c) + RouteOps(c)
    requires ExecPlan(a + rest, k, env).ok && Flat(k, VlansOf(c))
    ensures i.sysName in ExecPlan(a + rest, k, env).kernel.links
  {
    hide ExecPlan, Flat, VlansOf, SpecsOf, LinkOps, AddressOps, RouteOps, AddressesOf;
    ExecSplit(a, rest, k, env);
    RemovalKeepsFlat(a, k, env[..|a|], VlansOf(c));
    InstallOpsMember(c);
    LinkIsShown(c, i);
    forall v, w | v in VlansOf(c) && w in VlansOf(c) ensures w.dev != v.parent { VlanNamesDistinct(c, v, w); }
    forall v | v in VlansOf(c) ensures v.dev != i.sysName { VlanIsOther(c, i, v); }
    LinkShown(rest, ExecPlan(a, k, env[..|a|]).kernel, env[|a|..], i.sysName, VlansOf(c));
  }

  lemma LinkIsShown(c: NetConfig, i: Interface)
    requires RoutesResolved(c) && ParentsKnown(c) && i in c.interfaces && !i.vlanSub
    ensures ShowLink(i.sysName) in LinkOps(c)
  {
    ShowLinkMember(SortedInterfaces(c.interfaces));
  }

  lemma VlanIsOther(c: NetConfig, i: Interface, v: VlanSpec)
    requires Validated(c) && i in c.interfaces && !i.vlanSub && v in VlansOf(c)
    ensures v.dev != i.sysName
  {
    var j :| j in c.interfaces && j.vlanSub && v == VlanOf(j, InterfaceMap(c.interfaces));
  }

  lemma InterfacesPresent(previous: NetConfig, desired: NetConfig, k: Kernel, env: seq<Reply>)
    requires Plannable(previous, desired) && ParentsKnown(previous) && Validated(desired) && Flat(k, VlansOf(desired))
    requires ExecPlan(Plan(previous, desired), k, env).ok
    ensures forall i :: i in desired.interfaces ==> i.sysName in ExecPlan(Plan(previous, desired), k, env).kernel.links
  {
    PlanCoversRest(previous, desired, k, env);
    RemovalOpsComplete(previous, desired);
    PlanShape(previous, desired);
    forall i | i in desired.interfaces
      ensures i.sysName in ExecPlan(Plan(previous, desired), k, env).kernel.links
    {
      if i.vlanSub {
        assert VlanOf(i, InterfaceMap(desired.interfaces)) in VlansOf(desired);
      } else {
        NamePresent(desired, i, RemovalOps(previous, desired),
                    LinkOps(desired) + AddressOps(desired) + RouteOps(desired), k, env);
      }
    }
  }

  lemma ListContents(plan: seq<Operation>, a: seq<Operation>, b: seq<Operation>, o: Objects)
    requires plan == a + b
    requires forall op :: op in a ==> IsRemoval(op)
    requires forall op :: op in b ==> AddsOnly(op, o)
    ensures forall op :: op in plan ==> AddsOnly(op, o)
    ensures forall op :: op in a ==> op in plan
  {
  }

  /** The members of a whole plan that the checks below rely on. */
  lemma PlanContents(previous: NetConfig, desired: NetConfig)
    requires Plannable(previous, desired) && ParentsKnown(previous)
    ensures forall op :: op in Plan(previous, desired) && op.EnsureVlan? ==> op.vlan in VlansOf(desired)
    ensures forall op :: op in Plan(previous, desired) && op.PutRoute? ==> op.route in SpecsOf(desired)
    ensures forall s :: s in SpecsOf(previous) && s !in SpecsOf(desired) ==> DelRoute(s) in Plan(previous, desired)
    ensures forall v :: v in VlansOf(previous) && v !in VlansOf(desired) ==> DelLink(v.dev) in Plan(previous, desired)
  {
    RemovalOpsComplete(previous, desired);
    InstallsOnly(desired, ObjectsOf(desired));
    PlanShape(previous, desired);
    ListContents(Plan(previous, desired), RemovalOps(previous, desired),
                 LinkOps(desired) + AddressOps(desired) + RouteOps(desired), ObjectsOf(desired));
  }

  lemma StaleLinksGone(previous: NetConfig, desired: NetConfig, k: Kernel, env: seq<Reply>, i: Interface)
    requires Plannable(previous, desired) && ParentsKnown(previous)
    requires ExecPlan(Plan(previous, desired), k, env).ok
    requires i in previous.interfaces && Stale(i, desired)
    ensures i.sysName !in ExecPlan(Plan(previous, desired), k, env).kernel.links
  {
    PlanContents(previous, desired);
    var v := VlanOf(i, InterfaceMap(previous.interfaces));
    assert v in VlansOf(previous) && v.dev == i.sysName;
    forall w | w in VlansOf(desired) ensures w.dev != i.sysName {
      var j :| j in desired.interfaces && j.vlanSub && w == VlanOf(j, InterfaceMap(desired.interfaces));
    }
    LinkGone(Plan(previous, desired), k, env, i.sysName);
  }

  /** If the kernel still answers for `s`, a put route accounts for it. */
  predicate Explained(k: Kernel, s: RouteSpec, put: set<RouteSpec>) {
    s.key in k.routes && Realises(k.routes[s.key], s) ==>
      exists t :: t in put && t.key == s.key && t.gateway == s.gateway
  }

  lemma {:induction false} RouteExplained(plan: seq<Operation>, k: Kernel, env: seq<Reply>, s: RouteSpec,
                                          put: set<RouteSpec>)
    requires ExecPlan(plan, k, env).ok
    requires DelRoute(s) in plan || Explained(k, s, put)
    requires forall op :: op in plan && op.PutRoute? ==> op.route in put
    ensures Explained(ExecPlan(plan, k, env).kernel, s, put)
    decreases |plan|
  {
    if |plan| > 0 {
      assert plan[0] in plan;
      assert plan == [plan[0]] + plan[1..];
      RouteExplained(plan[1..], Exec(plan[0], k, env[0]).kernel, env[1..], s, put);
    }
  }

  /** A stale route and a desired one the kernel cannot tell apart. */
  predicate Confusable(stale: RouteSpec, wanted: RouteSpec, k: Kernel) {
    && stale.key == wanted.key && stale.gateway == wanted.gateway
    && (stale.dev.Some? ==> stale.key in k.routes && k.routes[stale.key].dev == stale.dev.value)
  }

  lemma PlanExplains(previous: NetConfig, desired: NetConfig, k: Kernel, env: seq<Reply>, s: RouteSpec)
    requires Plannable(previous, desired) && ParentsKnown(previous)
    requires ExecPlan(Plan(previous, desired), k, env).ok
    requires s in SpecsOf(previous) && s !in SpecsOf(desired)
    ensures Explained(ExecPlan(Plan(previous, desired), k, env).kernel, s, SpecsOf(desired))
  {
    PlanContents(previous, desired);
    RouteExplained(Plan(previous, desired), k, env, s, SpecsOf(desired));
  }

  lemma StaleRouteObserved(k: Kernel, s: RouteSpec, wanted: set<RouteSpec>)
    requires Explained(k, s, wanted)
    requires forall t :: t in wanted ==> t.key in k.routes && Realises(k.routes[t.key], t)
    ensures (s.key !in k.routes || !Realises(k.routes[s.key], s)) <==>
            (forall t :: t in wanted ==> !Confusable(s, t, k))
  {
    if s.key in k.routes && Realises(k.routes[s.key], s) {
      var t :| t in wanted && t.key == s.key && t.gateway == s.gateway;
      assert Confusable(s, t, k);
    }
  }

  lemma StaleAddressesGone(previous: NetConfig, desired: NetConfig, k: Kernel, env: seq<Reply>)
    requires Plannable(previous, desired) && ParentsKnown(previous)
    requires ExecPlan(Plan(previous, desired), k, env).ok
    ensures forall a :: a in AddressesOf(previous) && a !in AddressesOf(desired) ==>
              a !in ExecPlan(Plan(previous, desired), k, env).kernel.addresses
  {
    OwnWithin(k);
    PlanRemovesPrevious(previous, desired, k, env, OwnObjects(k));
  }

  lemma VerifiedIff(k: Kernel, previous: NetConfig, desired: NetConfig)
    requires Plannable(previous, desired)
    requires Covers(k, ObjectsOf(desired))
    requires forall i :: i in desired.interfaces ==> i.sysName in k.links
    requires forall a :: a in AddressesOf(previous) && a !in AddressesOf(desired) ==> a !in k.addresses
    requires forall i :: i in previous.interfaces && Stale(i, desired) ==> i.sysName !in k.links
    requires forall s :: s in SpecsOf(previous) && s !in SpecsOf(desired) ==> Explained(k, s, SpecsOf(desired))
    ensures TransitionVerified(k, previous, desired) <==>
            forall s, t :: s in SpecsOf(previous) && s !in SpecsOf(desired) && t in SpecsOf(desired) ==>
              !Confusable(s, t, k)
  {
    forall s | s in SpecsOf(previous) && s !in SpecsOf(desired)
      ensures (s.key !in k.routes || !Realises(k.routes[s.key], s)) <==>
              (forall t :: t in SpecsOf(desired) ==> !Confusable(s, t, k))
    {
      StaleRouteObserved(k, s, SpecsOf(desired));
    }
  }

  /**
   After a completed plan the transition check passes exactly when no removed
   route is indistinguishable from a desired one.
   */
  lemma CompletedPlanVerifies(previous: NetConfig, desired: NetConfig, k: Kernel, env: seq<Reply>)
    ensures Validated(previous) && Validated(desired) && Flat(k, VlansOf(desired)) ==>
              var r := ExecPlan(Plan(previous, desired), k, env);
              r.ok ==> (TransitionVerified(r.kernel, previous, desired) <==>
                        AllLanded(previous, desired, env) && NoneConfusable(previous, desired, r.kernel))
  {
    if Validated(previous) && Validated(desired) && Flat(k, VlansOf(desired)) {
      hide ExecPlan, Plan, NoneConfusable, Flat, AllLanded, Covers, ObjectsOf;
      if ExecPlan(Plan(previous, desired), k, env).ok {
        CoversIff(previous, desired, k, env);
        if AllLanded(previous, desired, env) { RunVerifies(previous, desired, k, env); }
      }
    }
  }

  /** No route to be removed looks, to the check, like a route to be kept. */
  ghost predicate NoneConfusable(previous: NetConfig, desired: NetConfig, k: Kernel)
    requires Validated(previous) && Validated(desired)
  {
    forall s, t :: s in SpecsOf(previous) && s !in SpecsOf(desired) && t in SpecsOf(desired) ==> !Confusable(s, t, k)
  }

  lemma RunVerifies(previous: NetConfig, desired: NetConfig, k: Kernel, env: seq<Reply>)
    requires Validated(previous) && Validated(desired) && Flat(k, VlansOf(desired))
    requires ExecPlan(Plan(previous, desired), k, env).ok && AllLanded(previous, desired, env)
    ensures var k' := ExecPlan(Plan(previous, desired), k, env).kernel;
            TransitionVerified(k', previous, desired) <==> NoneConfusable(previous, desired, k')
  {
    var k' := ExecPlan(Plan(previous, desired), k, env).kernel;
    CoversIff(previous, desired, k, env);
    InterfacesPresent(previous, desired, k, env);
    StaleAddressesGone(previous, desired, k, env);
    forall i | i in previous.interfaces && Stale(i, desired)
      ensures i.sysName !in k'.links
    {
      StaleLinksGone(previous, desired, k, env, i);
    }
    forall s | s in SpecsOf(previous) && s !in SpecsOf(desired) ensures Explained(k', s, SpecsOf(desired)) {
      PlanExplains(previous, desired, k, env, s);
    }
    VerifiedIff(k', previous, desired);
  }

  /** A stale and a desired route of one key and gateway. */
  ghost predicate Rival(previous: NetConfig, desired: NetConfig, s: RouteSpec, t: RouteSpec)
    requires Plannable(previous, desired)
  {
    s in SpecsOf(previous) && s !in SpecsOf(desired) && t in SpecsOf(desired) && s.key == t.key
        && s.gateway == t.gateway
  }

  /** The check can tell a stale route from its rival: only by its device, which the kernel may choose. */
  predicate Told(s: RouteSpec, t: RouteSpec, landed: Option<HopRoute>) {
    s.dev.Some? && (t.dev.None? ==> landed.Some? && landed.value.dev != s.dev.value)
  }

  /**
   The condition before the call: the check passes if and only if every route
   is served by the last put of its key, every stale route with a rival names
   its device, and the kernel resolves a rival that leaves its device open to
   another one.
   */
  lemma VerifiesIffTold(previous: NetConfig, desired: NetConfig, k: Kernel, env: seq<Reply>)
    ensures Validated(previous) && Validated(desired) && Flat(k, VlansOf(desired)) ==>
              var r := ExecPlan(Plan(previous, desired), k, env);
              r.ok ==> (TransitionVerified(r.kernel, previous, desired) <==>
                        && AllLanded(previous, desired, env)
                        && forall s, t :: Rival(previous, desired, s, t) ==>
                             Told(s, t, Landed(Plan(previous, desired), env, t.key)))
  {
    if Validated(previous) && Validated(desired) && Flat(k, VlansOf(desired)) {
      hide TransitionVerified, ExecPlan, Plan, Flat, Landed, SpecsOf;
      CompletedPlanVerifies(previous, desired, k, env);
      var r := ExecPlan(Plan(previous, desired), k, env);
      if r.ok && AllLanded(previous, desired, env) {
        forall s, t | Rival(previous, desired, s, t)
          ensures Confusable(s, t, r.kernel) <==> !Told(s, t, Landed(Plan(previous, desired), env, t.key))
        {
          RouteLands(previous, desired, k, env, t);
        }
      }
    }
  }

  lemma DistinctVerifiesIff(previous: NetConfig, desired: NetConfig, k: Kernel, env: seq<Reply>)
    requires Validated(previous) && WellFormed(desired) && Flat(k, VlansOf(desired))
    requires ExecPlan(Plan(previous, desired), k, env).ok
    ensures TransitionVerified(ExecPlan(Plan(previous, desired), k, env).kernel, previous, desired) <==>
            forall s, t :: Rival(previous, desired, s, t) ==> Told(s, t, Landed(Plan(previous, desired), env, t.key))
  {
    hide TransitionVerified, ExecPlan, Plan, Flat, Landed, Rival, AllLanded;
    VerifiesIffTold(previous, desired, k, env);
    DistinctLand(previous, desired, k, env);
  }

  /** Without an open device on either side of a pair of rivals the check always passes. */
  lemma NamedDevicesVerify(previous: NetConfig, desired: NetConfig, k: Kernel, env: seq<Reply>)
    ensures Validated(previous) && WellFormed(desired) && Flat(k, VlansOf(desired)) ==>
              var r := ExecPlan(Plan(previous, desired), k, env);
              r.ok && (forall s, t :: Rival(previous, desired, s, t) ==> s.dev.Some? && t.dev.Some?)
              ==> TransitionVerified(r.kernel, previous, desired)
  {
    if Validated(previous) && WellFormed(desired) && Flat(k, VlansOf(desired)) {
      hide TransitionVerified, ExecPlan, Plan, Flat, Landed, Rival;
      if ExecPlan(Plan(previous, desired), k, env).ok { DistinctVerifiesIff(previous, desired, k, env); }
    }
  }

  /**
   Opening the device of a gateway route, the only rivals with an open device:
   the check passes if and only if the kernel resolves it to another device.
   */
  lemma DeviceRemovedIff(previous: NetConfig, desired: NetConfig, k: Kernel, env: seq<Reply>, s: RouteSpec)
    ensures Validated(previous) && WellFormed(desired) && Flat(k, VlansOf(desired)) ==>
              var r := ExecPlan(Plan(previous, desired), k, env);
              var t := s.(dev := None);
              r.ok && s.dev.Some? && Rival(previous, desired, s, t)
              && (forall x, y :: Rival(previous, desired, x, y) && (x, y) != (s, t) ==> x.dev.Some? && y.dev.Some?)
              ==> (TransitionVerified(r.kernel, previous, desired) <==>
                   Told(s, t, Landed(Plan(previous, desired), env, s.key)))
  {
    if Validated(previous) && WellFormed(desired) && Flat(k, VlansOf(desired)) {
      hide TransitionVerified, ExecPlan, Plan, Flat, Landed, Rival;
      if ExecPlan(Plan(previous, desired), k, env).ok { DistinctVerifiesIff(previous, desired, k, env); }
    }
  }

  /** Naming the device of an existing gateway route can never pass the check. */
  lemma DeviceAddedNeverVerifies(previous: NetConfig, desired: NetConfig, k: Kernel, env: seq<Reply>, s: RouteSpec,
                                 dev: Name)
    ensures Validated(previous) && Validated(desired) && Flat(k, VlansOf(desired)) ==>
              var r := ExecPlan(Plan(previous, desired), k, env);
              r.ok && s in SpecsOf(previous) && s.dev.None? && s !in SpecsOf(desired)
                  && s.(dev := Some(dev)) in SpecsOf(desired)
              ==> !TransitionVerified(r.kernel, previous, desired)
  {
    if Validated(previous) && Validated(desired) && Flat(k, VlansOf(desired)) {
      hide TransitionVerified, Flat, ExecPlan, Plan;
      CompletedPlanVerifies(previous, desired, k, env);
      assert s.dev.None? ==> Confusable(s, s.(dev := Some(dev)), ExecPlan(Plan(previous, desired), k, env).kernel);
    }
  }

  const WAN := Interface(1, "wan", false, 0, 0, 0, true, [], [])
  const PLAIN_ROUTE := Route(1, true, false, Cidr(0, 0), Some(7), None, 0)
  const PINNED_ROUTE := PLAIN_ROUTE.(ifaceId := Some(1))
  const DEFAULT_KEY := RouteKey(false, Cidr(0, 0), 0)
  const PLAIN_SPEC := RouteSpec(DEFAULT_KEY, Some(7), None)
  const PINNED_SPEC := RouteSpec(DEFAULT_KEY, Some(7), Some("wan"))

  lemma WitnessObjects()
    ensures InterfaceMap([WAN]) == map[1 := WAN]
    ensures WellFormed(NetConfig([WAN], [PLAIN_ROUTE])) && WellFormed(NetConfig([WAN], [PINNED_ROUTE]))
    ensures ObjectsOf(NetConfig([WAN], [PLAIN_ROUTE])) == Objects({}, {}, {PLAIN_SPEC})
    ensures ObjectsOf(NetConfig([WAN], [PINNED_ROUTE])) == Objects({}, {}, {PINNED_SPEC})
  {
    assert InterfaceMap([WAN]) == map[1 := WAN];
    assert SpecsOf(NetConfig([WAN], [PLAIN_ROUTE])) == {PLAIN_SPEC};
    assert SpecsOf(NetConfig([WAN], [PINNED_ROUTE])) == {PINNED_SPEC};
  }

  lemma WitnessPlan()
    ensures Plannable(NetConfig([WAN], [PLAIN_ROUTE]), NetConfig([WAN], [PINNED_ROUTE]))
    ensures Plan(NetConfig([WAN], [PLAIN_ROUTE]), NetConfig([WAN], [PINNED_ROUTE]))
         == [DelRoute(PLAIN_SPEC), ShowLink("wan"), SetAdmin("wan", true), PutRoute(PINNED_SPEC)]
  {
    var previous, desired := NetConfig([WAN], [PLAIN_ROUTE]), NetConfig([WAN], [PINNED_ROUTE]);
    WitnessObjects();
    BareInterface(WAN);
    SingleRoute(PLAIN_ROUTE);
    SingleRoute(PINNED_ROUTE);
    assert [PLAIN_ROUTE][..0] == [] && [PINNED_ROUTE][..0] == [];
    assert DelRouteOps([PLAIN_ROUTE], map[1 := WAN], {PINNED_SPEC}) == [DelRoute(PLAIN_SPEC)];
    assert RemovalOps(previous, desired) == [DelRoute(PLAIN_SPEC)] + [] + [];
    assert LinkOps(desired) == [ShowLink("wan")] + [] + [];
    assert AddressOps(desired) == [] + [SetAdmin("wan", true)];
    assert PutRouteOps([PINNED_ROUTE], map[1 := WAN]) == [] + [PutRoute(PINNED_SPEC)];
    assert RouteOps(desired) == [PutRoute(PINNED_SPEC)];
  }

  const WITNESS_KERNEL := Kernel(map["wan" := Physical], {}, map[DEFAULT_KEY := HopRoute(Some(7), "wan")])
  const WITNESS_ENV := [Answered("wan"), Answered("wan"), Answered("wan"), Answered("wan")]

  lemma WitnessRuns()
    ensures ExecPlan([DelRoute(PLAIN_SPEC), ShowLink("wan"), SetAdmin("wan", true), PutRoute(PINNED_SPEC)],
                     WITNESS_KERNEL, WITNESS_ENV).ok
    ensures Within(WITNESS_KERNEL, Objects({}, {}, {PLAIN_SPEC}))
            && Covers(WITNESS_KERNEL, Objects({}, {}, {PLAIN_SPEC}))
  {
    FourSteps(DelRoute(PLAIN_SPEC), ShowLink("wan"), SetAdmin("wan", true), PutRoute(PINNED_SPEC), WITNESS_KERNEL,
              WITNESS_ENV);
    assert Realises(WITNESS_KERNEL.routes[DEFAULT_KEY], PLAIN_SPEC);
  }

  /** A concrete instance: one interface, one default route, a plan that completes. */
  lemma DeviceAddedWitness(previous: NetConfig, desired: NetConfig)
    requires previous == NetConfig([WAN], [PLAIN_ROUTE]) && desired == NetConfig([WAN], [PINNED_ROUTE])
    ensures WellFormed(previous) && WellFormed(desired) && Exactly(WITNESS_KERNEL, previous)
    ensures ExecPlan(Plan(previous, desired), WITNESS_KERNEL, WITNESS_ENV).ok
    ensures !TransitionVerified(ExecPlan(Plan(previous, desired), WITNESS_KERNEL, WITNESS_ENV).kernel, previous,
                                desired)
  {
    WitnessObjects();
    WitnessPlan();
    WitnessRuns();
    DeviceAddedNeverVerifies(previous, desired, WITNESS_KERNEL, WITNESS_ENV, PLAIN_SPEC, "wan");
  }

  lemma OpenedPlan()
    ensures Plannable(NetConfig([WAN], [PINNED_ROUTE]), NetConfig([WAN], [PLAIN_ROUTE]))
    ensures Plan(NetConfig([WAN], [PINNED_ROUTE]), NetConfig([WAN], [PLAIN_ROUTE]))
         == [DelRoute(PINNED_SPEC), ShowLink("wan"), SetAdmin("wan", true), PutRoute(PLAIN_SPEC)]
  {
    var previous, desired := NetConfig([WAN], [PINNED_ROUTE]), NetConfig([WAN], [PLAIN_ROUTE]);
    WitnessObjects();
    BareInterface(WAN);
    SingleRoute(PLAIN_ROUTE);
    SingleRoute(PINNED_ROUTE);
    assert [PLAIN_ROUTE][..0] == [] && [PINNED_ROUTE][..0] == [];
    assert DelRouteOps([PINNED_ROUTE], map[1 := WAN], {PLAIN_SPEC}) == [DelRoute(PINNED_SPEC)];
    assert RemovalOps(previous, desired) == [DelRoute(PINNED_SPEC)] + [] + [];
    assert LinkOps(desired) == [ShowLink("wan")] + [] + [];
    assert AddressOps(desired) == [] + [SetAdmin("wan", true)];
    assert PutRouteOps([PLAIN_ROUTE], map[1 := WAN]) == [] + [PutRoute(PLAIN_SPEC)];
    assert RouteOps(desired) == [PutRoute(PLAIN_SPEC)];
  }

  lemma OpenedRuns()
    ensures var plan := [DelRoute(PINNED_SPEC), ShowLink("wan"), SetAdmin("wan", true), PutRoute(PLAIN_SPEC)];
            ExecPlan(plan, WITNESS_KERNEL, WITNESS_ENV).ok
                && Landed(plan, WITNESS_ENV, DEFAULT_KEY) == Some(HopRoute(Some(7), "wan"))
    ensures Within(WITNESS_KERNEL, Objects({}, {}, {PINNED_SPEC}))
            && Covers(WITNESS_KERNEL, Objects({}, {}, {PINNED_SPEC}))
  {
    var a, d := [DelRoute(PINNED_SPEC), ShowLink("wan"), SetAdmin("wan", true)], [PutRoute(PLAIN_SPEC)];
    FourSteps(DelRoute(PINNED_SPEC), ShowLink("wan"), SetAdmin("wan", true), PutRoute(PLAIN_SPEC), WITNESS_KERNEL,
              WITNESS_ENV);
    LandedSkips(a, d, WITNESS_ENV, DEFAULT_KEY);
    assert a + d == [DelRoute(PINNED_SPEC), ShowLink("wan"), SetAdmin("wan", true), PutRoute(PLAIN_SPEC)];
    assert WITNESS_ENV[3..] == [Answered("wan")] && d[1..] == [];
    assert Realises(WITNESS_KERNEL.routes[DEFAULT_KEY], PINNED_SPEC);
  }

  /** Opening the device of the only default route, which the kernel resolves to the same device. */
  lemma DeviceRemovedWitness(previous: NetConfig, desired: NetConfig)
    requires previous == NetConfig([WAN], [PINNED_ROUTE]) && desired == NetConfig([WAN], [PLAIN_ROUTE])
    ensures WellFormed(previous) && WellFormed(desired) && Exactly(WITNESS_KERNEL, previous)
    ensures ExecPlan(Plan(previous, desired), WITNESS_KERNEL, WITNESS_ENV).ok
    ensures !TransitionVerified(ExecPlan(Plan(previous, desired), WITNESS_KERNEL, WITNESS_ENV).kernel, previous,
                                desired)
  {
    WitnessObjects();
    OpenedPlan();
    OpenedRuns();
    VerifiesIffTold(previous, desired, WITNESS_KERNEL, WITNESS_ENV);
    assert Rival(previous, desired, PINNED_SPEC, PLAIN_SPEC);
  }

  const OTHER_ROUTE := PLAIN_ROUTE.(id := 2, gateway := Some(8))
  const OTHER_SPEC := RouteSpec(DEFAULT_KEY, Some(8), None)
  const BARE_KERNEL := Kernel(map["wan" := Physical], {}, map[])

  lemma SharedKeyObjects()
    ensures InterfaceMap([WAN]) == map[1 := WAN]
    ensures Validated(NetConfig([WAN], [])) && Validated(NetConfig([WAN], [PLAIN_ROUTE, OTHER_ROUTE]))
    ensures ObjectsOf(NetConfig([WAN], [])) == Objects({}, {}, {})
    ensures SpecsOf(NetConfig([WAN], [PLAIN_ROUTE, OTHER_ROUTE])) == {PLAIN_SPEC, OTHER_SPEC}
  {
    assert InterfaceMap([WAN]) == map[1 := WAN];
    assert SpecsOf(NetConfig([WAN], [])) == {};
    assert SpecsOf(NetConfig([WAN], [PLAIN_ROUTE, OTHER_ROUTE])) == {PLAIN_SPEC, OTHER_SPEC};
  }

  lemma SharedKeyPlan()
    ensures Plannable(NetConfig([WAN], []), NetConfig([WAN], [PLAIN_ROUTE, OTHER_ROUTE]))
    ensures Plan(NetConfig([WAN], []), NetConfig([WAN], [PLAIN_ROUTE, OTHER_ROUTE]))
         == [ShowLink("wan"), SetAdmin("wan", true), PutRoute(PLAIN_SPEC), PutRoute(OTHER_SPEC)]
  {
    var previous, desired := NetConfig([WAN], []), NetConfig([WAN], [PLAIN_ROUTE, OTHER_ROUTE]);
    SharedKeyObjects();
    BareInterface(WAN);
    TwoRoutes(PLAIN_ROUTE, OTHER_ROUTE);
    assert [PLAIN_ROUTE, OTHER_ROUTE][..1] == [PLAIN_ROUTE] && [PLAIN_ROUTE][..0] == [];
    assert RemovalOps(previous, desired) == [] + [] + [];
    assert LinkOps(desired) == [ShowLink("wan")] + [] + [];
    assert AddressOps(desired) == [] + [SetAdmin("wan", true)];
    assert PutRouteOps([PLAIN_ROUTE], map[1 := WAN]) == [PutRoute(PLAIN_SPEC)];
    assert RouteOps(desired) == [PutRoute(PLAIN_SPEC)] + [PutRoute(OTHER_SPEC)];
  }

  lemma SharedKeyRuns()
    ensures ExecPlan([ShowLink("wan"), SetAdmin("wan", true), PutRoute(PLAIN_SPEC), PutRoute(OTHER_SPEC)],
                     BARE_KERNEL, WITNESS_ENV).ok
    ensures Within(BARE_KERNEL, Objects({}, {}, {})) && Covers(BARE_KERNEL, Objects({}, {}, {}))
  {
    FourSteps(ShowLink("wan"), SetAdmin("wan", true), PutRoute(PLAIN_SPEC), PutRoute(OTHER_SPEC), BARE_KERNEL,
              WITNESS_ENV);
  }

  /** Two default routes of one metric: validated, planned, completed and not what was asked for. */
  lemma SharedKeyWitness(previous: NetConfig, desired: NetConfig)
    requires previous == NetConfig([WAN], []) && desired == NetConfig([WAN], [PLAIN_ROUTE, OTHER_ROUTE])
    ensures Validated(previous) && Validated(desired) && Exactly(BARE_KERNEL, previous)
    ensures ExecPlan(Plan(previous, desired), BARE_KERNEL, WITNESS_ENV).ok
    ensures !Exactly(ExecPlan(Plan(previous, desired), BARE_KERNEL, WITNESS_ENV).kernel, desired)
  {
    hide ExecPlan, Plan, Within, Covers, ObjectsOf, SpecsOf;
    SharedKeyObjects();
    SharedKeyPlan();
    SharedKeyRuns();
    ConflictNeverCovered(desired, ExecPlan(Plan(previous, desired), BARE_KERNEL, WITNESS_ENV).kernel, PLAIN_SPEC,
                         OTHER_SPEC);
  }

  lemma BareInterface(i: Interface)
    requires !i.vlanSub && i.mtu == 0 && i.v4 == [] && i.v6 == []
    ensures SortedInterfaces([i]) == [i] && MtuOps([i]) == [] && PutAddressOps([i]) == []
    ensures ShowLinkOps([i]) == [ShowLink(i.sysName)] && AdminOps([i]) == [SetAdmin(i.sysName, i.up)]
    ensures forall keep :: DelAddressOps([i], keep) == []
    ensures forall m :: EnsureVlanOps([i], m) == []
    ensures forall m, m' :: DelLinkOps([i], m, m') == []
  {
    assert [i][..0] == [];
    assert PutAddressList(false, i.sysName, []) == [] && PutAddressList(true, i.sysName, []) == [];
    forall keep ensures DelAddressOps([i], keep) == [] {
      assert DelAddressList(false, i.sysName, [], keep) == [] && DelAddressList(true, i.sysName, [], keep) == [];
    }
  }

  lemma SingleRoute(r: Route)
    ensures SortedRoutes([r]) == [r]
  {
    assert [r][..0] == [];
  }

  lemma TwoRoutes(a: Route, b: Route)
    requires a.id < b.id
    ensures SortedRoutes([a, b]) == [a, b]
  {
    SingleRoute(a);
    assert [a, b][..1] == [a] && [a][1..] == [] && InsertRoute(b, []) == [b];
  }

  lemma FourSteps(a: Operation, b: Operation, c: Operation, d: Operation, k: Kernel, env: seq<Reply>)
    requires |env| == 4 && Exec(a, k, env[0]).ok
    requires Exec(b, Exec(a, k, env[0]).kernel, env[1]).ok
    requires Exec(c, Exec(b, Exec(a, k, env[0]).kernel, env[1]).kernel, env[2]).ok
    requires Exec(d, Exec(c, Exec(b, Exec(a, k, env[0]).kernel, env[1]).kernel, env[2]).kernel, env[3]).ok
    ensures ExecPlan([a, b, c, d], k, env).ok
  {
    var k1 := Exec(a, k, env[0]).kernel;
    var k2 := Exec(b, k1, env[1]).kernel;
    var k3 := Exec(c, k2, env[2]).kernel;
    assert [a, b, c, d][1..] == [b, c, d] && [b, c, d][1..] == [c, d] && [c, d][1..] == [d];
    assert ExecPlan([d], k3, env[3..]).ok;
    assert env[2..][1..] == env[3..];
    assert ExecPlan([c, d], k2, env[2..]).ok;
    assert env[1..][1..] == env[2..];
    assert ExecPlan([b, c, d], k1, env[1..]).ok;
  }
}
