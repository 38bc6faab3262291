/**
 Application guards in the kernel: a verdict map from conntrack ids to chains,
 one chain per id with one rule per zone, and one timeout set of five-tuples
 per zone and id.  Together they must behave like a flat set of keys.
 */
module Guards {
  import opened Wrappers

  datatype Tuple = Tuple(v4: bool, source: nat, sourcePort: nat, destination: nat, destinationPort: nat, protocol: nat)

  datatype Key = Key(zone: nat, id: nat, tuple: Tuple)

  /** Identifies a set; its name spells out zone and id. */
  datatype Group = Group(zone: nat, id: nat)

  /** `BuildInspectionGuardKey` accepts it. */
  predicate ValidKey(k: Key) {
    k.id != 0 && k.tuple.v4 && k.tuple.protocol in {6, 17}
  }

  function GroupOf(k: Key): Group {
    Group(k.zone, k.id)
  }

  // ------------------------------------------------------------- the kernel

  datatype GuardRule = GuardRule(zone: nat, group: Group)

  datatype Table = Table(root: map<nat, nat>, chains: map<nat, seq<GuardRule>>, sets: map<Group, set<Tuple>>)

  datatype Op =
    | AddSet(group: Group)
    | AddChain(id: nat)
    | FlushChain(id: nat)
    | AddRule(id: nat, rule: GuardRule)
    | DeleteRoot(id: nat)
    | AddRoot(id: nat)
    | AddElement(group: Group, tuple: Tuple)
    | DeleteElement(group: Group, tuple: Tuple)
    | DeleteChain(id: nat)
    | DeleteSet(group: Group)

  predicate ChainReferenced(t: Table, id: nat) {
    exists i :: i in t.root && t.root[i] == id
  }

  predicate SetReferenced(t: Table, g: Group) {
    exists i :: i in t.chains && exists r :: r in t.chains[i] && r.group == g
  }

  /** One command of a batch; the kernel refuses to delete what is referenced or missing. */
  function Exec(t: Table, op: Op): Option<Table> {
    match op
    case AddSet(g) => Some(if g in t.sets then t else t.(sets := t.sets[g := {}]))
    case AddChain(id) => Some(if id in t.chains then t else t.(chains := t.chains[id := []]))
    case FlushChain(id) => if id in t.chains then Some(t.(chains := t.chains[id := []])) else None
    case AddRule(id, r) =>
      if id in t.chains && r.group in t.sets then Some(t.(chains := t.chains[id := t.chains[id] + [r]])) else None
    case DeleteRoot(id) => if id in t.root then Some(t.(root := t.root - {id})) else None
    case AddRoot(id) => if id in t.chains && id !in t.root then Some(t.(root := t.root[id := id])) else None
    case AddElement(g, x) => if g in t.sets then Some(t.(sets := t.sets[g := t.sets[g] + {x}])) else None
    case DeleteElement(g, x) =>
      if g in t.sets && x in t.sets[g] then Some(t.(sets := t.sets[g := t.sets[g] - {x}])) else None
    case DeleteChain(id) =>
      if id in t.chains && t.chains[id] == [] && !ChainReferenced(t, id) then Some(t.(chains := t.chains - {id}))
        else None
    case DeleteSet(g) => if g in t.sets && !SetReferenced(t, g) then Some(t.(sets := t.sets - {g})) else None
  }

  /** A batch takes effect as a whole or not at all. */
  function ExecBatch(t: Table, ops: seq<Op>): Option<Table>
    decreases |ops|
  {
    if |ops| == 0 then Some(t)
    else
      var u := Exec(t, ops[0]);
      if u.None? then None else ExecBatch(u.value, ops[1..])
  }

  lemma {:induction false} ExecAppend(t: Table, a: seq<Op>, b: seq<Op>)
    ensures ExecBatch(t, a + b) == if ExecBatch(t, a).None? then None else ExecBatch(ExecBatch(t, a).value, b)
    decreases |a|
  {
    if |a| == 0 {
      assert a + b == b;
    } else {
      assert (a + b)[1..] == a[1..] + b;
      if Exec(t, a[0]).Some? { ExecAppend(Exec(t, a[0]).value, a[1..], b); }
    }
  }

  /** Timed-out elements disappear; sets, chains and the map do not. */
  function Expire(t: Table, gone: set<Key>): Table {
    t.(sets := map g | g in t.sets :: set x | x in t.sets[g] && Key(g.zone, g.id, x) !in gone)
  }

  predicate Live(t: Table, k: Key) {
    GroupOf(k) in t.sets && k.tuple in t.sets[GroupOf(k)]
  }

  /** The path of a packet: id to chain, chain to the rule of its zone, rule to set. */
  predicate Drops(t: Table, k: Key) {
    && k.id in t.root && t.root[k.id] in t.chains
    && exists r :: r in t.chains[t.root[k.id]] && r.zone == k.zone && r.group in t.sets && k.tuple in t.sets[r.group]
  }

  // -------------------------------------------------------------- invariant

  function Ids(owned: set<Key>): set<nat> {
    set k | k in owned :: k.id
  }

  function Groups(owned: set<Key>): set<Group> {
    set k | k in owned :: GroupOf(k)
  }

  function Zones(owned: set<Key>, id: nat): set<nat> {
    set k | k in owned && k.id == id :: k.zone
  }

  /** The rules of a chain are one per zone, each on the set of its zone and id. */
  predicate RulesFor(rules: seq<GuardRule>, id: nat, zones: set<nat>) {
    && (forall r :: r in rules ==> r.zone in zones && r.group == Group(r.zone, id))
    && (forall z :: z in zones ==> GuardRule(z, Group(z, id)) in rules)
  }

  predicate Shaped(owned: set<Key>, t: Table) {
    && t.root.Keys == Ids(owned) && t.chains.Keys == Ids(owned) && t.sets.Keys == Groups(owned)
    && forall id :: id in t.root ==> t.root[id] == id
  }

  predicate Ruled(owned: set<Key>, t: Table) {
    forall id :: id in t.chains ==> RulesFor(t.chains[id], id, Zones(owned, id))
  }

  predicate Filled(owned: set<Key>, t: Table) {
    forall g, x :: g in t.sets && x in t.sets[g] ==> Key(g.zone, g.id, x) in owned
  }

  /** Exactly the objects that owned keys need, holding no other element. */
  predicate Inv(owned: set<Key>, t: Table) {
    Shaped(owned, t) && Ruled(owned, t) && Filled(owned, t)
  }

  /** The lookup drops exactly the live owned keys. */
  lemma DropsExactlyLive(owned: set<Key>, t: Table, k: Key)
    requires Inv(owned, t)
    ensures Drops(t, k) <==> k in owned && Live(t, k)
    ensures Live(t, k) ==> k in owned
  {
    if Live(t, k) {
      assert Key(GroupOf(k).zone, GroupOf(k).id, k.tuple) == k;
      assert k.id in Ids(owned) && k.zone in Zones(owned, k.id);
      assert GuardRule(k.zone, Group(k.zone, k.id)) in t.chains[k.id];
    }
  }

  /** With nothing owned nothing is left behind. */
  lemma NothingOwnedNothingLeft(t: Table)
    ensures Inv({}, t) <==> t == Table(map[], map[], map[])
  {
    if Inv({}, t) {
      assert t.root == map[] && t.chains == map[] && t.sets == map[];
    }
  }

  lemma ExpireKeeps(owned: set<Key>, t: Table, gone: set<Key>)
    requires Inv(owned, t)
    ensures Inv(owned, Expire(t, gone))
    ensures forall k :: Live(Expire(t, gone), k) <==> Live(t, k) && k !in gone
  {
    assert Expire(t, gone).sets.Keys == t.sets.Keys;
    forall k ensures Live(Expire(t, gone), k) <==> Live(t, k) && k !in gone {
      assert Key(GroupOf(k).zone, GroupOf(k).id, k.tuple) == k;
    }
  }

  // ---------------------------------------------------------------- batches

  function RuleOps(id: nat, zones: seq<nat>): seq<Op> {
    if |zones| == 0 then []
    else RuleOps(id, zones[..|zones| - 1]) + [AddRule(id, GuardRule(zones[|zones| - 1], Group(zones[|zones| - 1], id)))]
  }

  function RulesOf(id: nat, zones: seq<nat>): seq<GuardRule> {
    seq(|zones|, i requires 0 <= i < |zones| => GuardRule(zones[i], Group(zones[i], id)))
  }

  /** `inspectionGuardChainScript` */
  function ChainOps(id: nat, zones: seq<nat>): seq<Op> {
    [AddChain(id), FlushChain(id)] + RuleOps(id, zones)
  }

  function InstallOps(k: Key, zones: seq<nat>, rooted: bool): seq<Op> {
    [AddSet(GroupOf(k))] + ChainOps(k.id, zones) + (if rooted then [DeleteRoot(k.id)] else [])
    + [AddRoot(k.id), AddElement(GroupOf(k), k.tuple)]
  }

  /** The removal script; `zones` are the zones still needed for the id. */
  function RemoveOps(k: Key, present: bool, zones: seq<nat>, rooted: bool): seq<Op> {
    (if present then [DeleteElement(GroupOf(k), k.tuple)] else [])
    + if k.zone in zones then []
      else (if zones == [] then (if rooted then [DeleteRoot(k.id)] else []) + [FlushChain(k.id), DeleteChain(k.id)]
            else ChainOps(k.id, zones)) + [DeleteSet(GroupOf(k))]
  }

  function RenewOps(k: Key): seq<Op> {
    [DeleteElement(GroupOf(k), k.tuple), AddElement(GroupOf(k), k.tuple)]
  }

  function Elements(t: Table, g: Group): set<Tuple> {
    if g in t.sets then t.sets[g] else {}
  }

  function InstallTable(t: Table, k: Key, zones: seq<nat>): Table {
    Table(t.root[k.id := k.id], t.chains[k.id := RulesOf(k.id, zones)],
          t.sets[GroupOf(k) := Elements(t, GroupOf(k)) + {k.tuple}])
  }

  function RemoveTable(t: Table, k: Key, zones: seq<nat>): Table {
    var g := GroupOf(k);
    if k.zone in zones then t.(sets := t.sets[g := Elements(t, g) - {k.tuple}])
    else if zones == [] then Table(t.root - {k.id}, t.chains - {k.id}, t.sets - {g})
    else Table(t.root, t.chains[k.id := RulesOf(k.id, zones)], t.sets - {g})
  }

  function Members(zones: seq<nat>): set<nat> {
    set z | z in zones
  }

  /** Zones as a list, in ascending order as the script writes them. */
  predicate ListOf(zones: seq<nat>, s: set<nat>) {
    && Members(zones) == s
    && forall i, j :: 0 <= i < j < |zones| ==> zones[i] < zones[j]
  }

  lemma {:induction false} RuleOpsExec(t: Table, id: nat, zones: seq<nat>)
    requires id in t.chains && forall z :: z in zones ==> Group(z, id) in t.sets
    ensures ExecBatch(t, RuleOps(id, zones)) == Some(t.(chains := t.chains[id := t.chains[id] + RulesOf(id, zones)]))
  {
    if |zones| == 0 {
      assert t.chains[id] + RulesOf(id, zones) == t.chains[id];
      assert t.chains[id := t.chains[id]] == t.chains;
    } else {
      var init, z := zones[..|zones| - 1], zones[|zones| - 1];
      assert z in zones;
      var op := AddRule(id, GuardRule(z, Group(z, id)));
      RuleOpsExec(t, id, init);
      ExecAppend(t, RuleOps(id, init), [op]);
      var u := t.(chains := t.chains[id := t.chains[id] + RulesOf(id, init)]);
      ExecOne(u, op);
      assert RulesOf(id, zones) == RulesOf(id, init) + [GuardRule(z, Group(z, id))];
      assert u.chains[id] + [GuardRule(z, Group(z, id))] == t.chains[id] + RulesOf(id, zones);
      assert u.chains[id := t.chains[id] + RulesOf(id, zones)] == t.chains[id := t.chains[id] + RulesOf(id, zones)];
    }
  }

  lemma ExecOne(t: Table, op: Op)
    ensures ExecBatch(t, [op]) == Exec(t, op)
  {
    assert [op][1..] == [];
  }

  lemma ExecTwo(t: Table, a: Op, b: Op)
    ensures ExecBatch(t, [a, b]) == if Exec(t, a).None? then None else Exec(Exec(t, a).value, b)
  {
    ExecOne(t, a);
    if Exec(t, a).Some? { ExecOne(Exec(t, a).value, b); }
    assert [a, b] == [a] + [b];
    ExecAppend(t, [a], [b]);
  }

  /** Rewriting a chain needs only that the sets of its zones exist. */
  lemma ChainOpsExec(t: Table, id: nat, zones: seq<nat>)
    requires forall z :: z in zones ==> Group(z, id) in t.sets
    ensures ExecBatch(t, ChainOps(id, zones)) == Some(t.(chains := t.chains[id := RulesOf(id, zones)]))
  {
    var u := t.(chains := t.chains[id := []]);
    ExecTwo(t, AddChain(id), FlushChain(id));
    assert t.chains[id := []][id := []] == t.chains[id := []];
    ExecAppend(t, [AddChain(id), FlushChain(id)], RuleOps(id, zones));
    RuleOpsExec(u, id, zones);
    assert [] + RulesOf(id, zones) == RulesOf(id, zones);
    assert u.chains[id := RulesOf(id, zones)] == t.chains[id := RulesOf(id, zones)];
  }

  // ------------------------------------------------- batches on valid tables

  lemma InstallExec(owned: set<Key>, t: Table, k: Key, zones: seq<nat>)
    requires Inv(owned, t) && ListOf(zones, Zones(owned + {k}, k.id))
    ensures ExecBatch(t, InstallOps(k, zones, k.id in t.root)) == Some(InstallTable(t, k, zones))
    ensures Inv(owned + {k}, InstallTable(t, k, zones))
    ensures forall x :: Live(InstallTable(t, k, zones), x) <==> x == k || Live(t, x)
  {
    hide InstallOps, ExecBatch, Inv, ListOf, Zones, RulesOf;
    InstallRuns(owned, t, k, zones);
    InstallKeeps(owned, t, k, zones);
    forall x ensures Live(InstallTable(t, k, zones), x) <==> x == k || Live(t, x) {
      assert GroupOf(x) == GroupOf(k) && x.tuple == k.tuple <==> x == k;
    }
  }

  lemma ZonesHaveSets(owned: set<Key>, t: Table, k: Key, zones: seq<nat>, z: nat)
    requires Inv(owned, t) && ListOf(zones, Zones(owned + {k}, k.id)) && z in zones
    ensures Group(z, k.id) == GroupOf(k) || Group(z, k.id) in t.sets
  {
    assert z in Members(zones);
    assert z in Zones(owned + {k}, k.id);
    var x :| x in owned + {k} && x.id == k.id && x.zone == z;
    assert x in owned ==> GroupOf(x) in Groups(owned);
  }

  /** Batches compose. */
  lemma Then(t: Table, a: seq<Op>, u: Table, b: seq<Op>, v: Option<Table>)
    requires ExecBatch(t, a) == Some(u) && ExecBatch(u, b) == v
    ensures ExecBatch(t, a + b) == v
  {
    ExecAppend(t, a, b);
  }

  lemma AddSetExec(t: Table, g: Group)
    ensures ExecBatch(t, [AddSet(g)]) == Some(t.(sets := t.sets[g := Elements(t, g)]))
  {
    ExecOne(t, AddSet(g));
    assert t.sets[g := Elements(t, g)] == if g in t.sets then t.sets else t.sets[g := {}];
  }

  function RootOps(id: nat, rooted: bool): seq<Op> {
    (if rooted then [DeleteRoot(id)] else []) + [AddRoot(id)]
  }

  lemma RerootExec(t: Table, id: nat)
    requires id in t.chains && id in t.root
    ensures Exec(t, DeleteRoot(id)) == Some(t.(root := t.root - {id}))
    ensures Exec(t.(root := t.root - {id}), AddRoot(id)) == Some(t.(root := t.root[id := id]))
  {
    assert (t.root - {id})[id := id] == t.root[id := id];
  }

  lemma RootExec(t: Table, id: nat)
    requires id in t.chains
    ensures ExecBatch(t, RootOps(id, id in t.root)) == Some(t.(root := t.root[id := id]))
  {
    hide ExecBatch;
    if id in t.root {
      RerootExec(t, id);
      hide Exec;
      assert RootOps(id, true) == [DeleteRoot(id), AddRoot(id)];
      ExecTwo(t, DeleteRoot(id), AddRoot(id));
    } else {
      assert Exec(t, AddRoot(id)) == Some(t.(root := t.root[id := id]));
      hide Exec;
      assert RootOps(id, false) == [AddRoot(id)];
      ExecOne(t, AddRoot(id));
    }
  }

  lemma InstallRuns(owned: set<Key>, t: Table, k: Key, zones: seq<nat>)
    requires Inv(owned, t) && ListOf(zones, Zones(owned + {k}, k.id))
    ensures ExecBatch(t, InstallOps(k, zones, k.id in t.root)) == Some(InstallTable(t, k, zones))
  {
    hide ChainOps, RuleOps, Inv, RulesOf, RootOps, ExecBatch, Exec, ListOf, Zones;
    var g, id, rooted := GroupOf(k), k.id, k.id in t.root;
    AddSetExec(t, g);
    var t1 := t.(sets := t.sets[g := Elements(t, g)]);
    forall z | z in zones ensures Group(z, id) in t1.sets { ZonesHaveSets(owned, t, k, zones, z); }
    ChainOpsExec(t1, id, zones);
    var t2 := t1.(chains := t1.chains[id := RulesOf(id, zones)]);
    RootExec(t2, id);
    var t3 := t2.(root := t2.root[id := id]);
    AddedElement(t3, g, k.tuple);
    var t4 := t3.(sets := t3.sets[g := t3.sets[g] + {k.tuple}]);
    assert t4 == InstallTable(t, k, zones) by { assert t4.sets == t.sets[g := Elements(t, g) + {k.tuple}]; }
    Then(t2, RootOps(id, rooted), t3, [AddElement(g, k.tuple)], Some(t4));
    Then(t1, ChainOps(id, zones), t2, RootOps(id, rooted) + [AddElement(g, k.tuple)], Some(t4));
    Then(t, [AddSet(g)], t1, ChainOps(id, zones) + (RootOps(id, rooted) + [AddElement(g, k.tuple)]), Some(t4));
    InstallOpsAre(k, zones, rooted);
  }

  lemma InstallOpsAre(k: Key, zones: seq<nat>, rooted: bool)
    ensures InstallOps(k, zones, rooted) ==
            [AddSet(GroupOf(k))] + (ChainOps(k.id, zones) + (RootOps(k.id, rooted) + [AddElement(GroupOf(k), k.tuple)]))
  {
  }

  lemma AddedElement(t: Table, g: Group, x: Tuple)
    requires g in t.sets
    ensures ExecBatch(t, [AddElement(g, x)]) == Some(t.(sets := t.sets[g := t.sets[g] + {x}]))
  {
    hide ExecBatch, Exec;
    ExecOne(t, AddElement(g, x));
    ElementAdds(t, g, x);
  }

  lemma ElementAdds(t: Table, g: Group, x: Tuple)
    requires g in t.sets
    ensures Exec(t, AddElement(g, x)) == Some(t.(sets := t.sets[g := t.sets[g] + {x}]))
  {
  }

  lemma RulesOfFor(id: nat, zones: seq<nat>, s: set<nat>)
    requires ListOf(zones, s)
    ensures RulesFor(RulesOf(id, zones), id, s)
  {
    var rules := RulesOf(id, zones);
    forall r | r in rules ensures r.zone in s && r.group == Group(r.zone, id) {
      var i :| 0 <= i < |rules| && rules[i] == r;
      assert zones[i] in zones;
    }
    forall z | z in s ensures GuardRule(z, Group(z, id)) in rules {
      assert z in Members(zones);
      var i :| 0 <= i < |zones| && zones[i] == z;
      assert rules[i] == GuardRule(z, Group(z, id));
    }
  }

  lemma InstallKeeps(owned: set<Key>, t: Table, k: Key, zones: seq<nat>)
    requires Inv(owned, t) && ListOf(zones, Zones(owned + {k}, k.id))
    ensures Inv(owned + {k}, InstallTable(t, k, zones))
  {
    hide RulesOf;
    InstallShaped(owned, t, k, zones);
    InstallRuled(owned, t, k, zones);
    InstallFilled(owned, t, k, zones);
  }

  lemma InstallShaped(owned: set<Key>, t: Table, k: Key, zones: seq<nat>)
    requires Shaped(owned, t)
    ensures Shaped(owned + {k}, InstallTable(t, k, zones))
  {
    hide RulesOf;
    assert Ids(owned + {k}) == Ids(owned) + {k.id};
    assert Groups(owned + {k}) == Groups(owned) + {GroupOf(k)};
  }

  lemma InstallRuled(owned: set<Key>, t: Table, k: Key, zones: seq<nat>)
    requires Ruled(owned, t) && ListOf(zones, Zones(owned + {k}, k.id))
    ensures Ruled(owned + {k}, InstallTable(t, k, zones))
  {
    hide RulesOf, RulesFor, ListOf;
    var u, all := InstallTable(t, k, zones), owned + {k};
    RulesOfFor(k.id, zones, Zones(all, k.id));
    forall id | id in u.chains ensures RulesFor(u.chains[id], id, Zones(all, id)) {
      if id != k.id { assert Zones(all, id) == Zones(owned, id); }
    }
  }

  lemma InstallFilled(owned: set<Key>, t: Table, k: Key, zones: seq<nat>)
    requires Filled(owned, t)
    ensures Filled(owned + {k}, InstallTable(t, k, zones))
  {
    hide RulesOf;
    var u := InstallTable(t, k, zones);
    forall g, x | g in u.sets && x in u.sets[g] ensures Key(g.zone, g.id, x) in owned + {k} {
      if g == GroupOf(k) && x == k.tuple { assert Key(g.zone, g.id, x) == k; }
    }
  }

  // ---------------------------------------------------------------- removing

  /** The part of the removal script after the element is gone. */
  function DropOps(k: Key, zones: seq<nat>): seq<Op> {
    if k.zone in zones then []
    else (if zones == [] then [DeleteRoot(k.id), FlushChain(k.id), DeleteChain(k.id)] else ChainOps(k.id, zones))
         + [DeleteSet(GroupOf(k))]
  }

  lemma RemoveOpsAre(k: Key, present: bool, zones: seq<nat>)
    ensures RemoveOps(k, present, zones, true) ==
            (if present then [DeleteElement(GroupOf(k), k.tuple)] else []) + DropOps(k, zones)
  {
    assert [DeleteRoot(k.id)] + [FlushChain(k.id), DeleteChain(k.id)] ==
        [DeleteRoot(k.id), FlushChain(k.id), DeleteChain(k.id)];
  }

  function DropTable(t: Table, k: Key, zones: seq<nat>): Table {
    if k.zone in zones then t
    else if zones == [] then Table(t.root - {k.id}, t.chains - {k.id}, t.sets - {GroupOf(k)})
    else Table(t.root, t.chains[k.id := RulesOf(k.id, zones)], t.sets - {GroupOf(k)})
  }

  lemma UnchainExec(t: Table, id: nat)
    requires id in t.root && id in t.chains && forall i :: i in t.root ==> t.root[i] == i
    ensures ExecBatch(t, [DeleteRoot(id), FlushChain(id), DeleteChain(id)]) ==
            Some(t.(root := t.root - {id}, chains := t.chains - {id}))
  {
    var t1 := t.(root := t.root - {id});
    var t2 := t1.(chains := t1.chains[id := []]);
    ExecTwo(t, DeleteRoot(id), FlushChain(id));
    ExecOne(t2, DeleteChain(id));
    assert t2.chains - {id} == t.chains - {id};
    Then(t, [DeleteRoot(id), FlushChain(id)], t2, [DeleteChain(id)],
         Some(t.(root := t.root - {id}, chains := t.chains - {id})));
    assert [DeleteRoot(id), FlushChain(id)] + [DeleteChain(id)] == [DeleteRoot(id), FlushChain(id), DeleteChain(id)];
  }

  /** After its chain is rewritten or gone, no rule refers to the set any more. */
  lemma SetUnreferenced(owned: set<Key>, t: Table, k: Key, zones: seq<nat>)
    requires Ruled(owned, t) && ListOf(zones, Zones(owned - {k}, k.id)) && k.zone !in zones
    ensures !SetReferenced(t.(chains := t.chains - {k.id}), GroupOf(k))
    ensures !SetReferenced(t.(chains := t.chains[k.id := RulesOf(k.id, zones)]), GroupOf(k))
  {
    RulesOfFor(k.id, zones, Zones(owned - {k}, k.id));
    assert k.zone !in Members(zones);
  }

  lemma DropRuns(owned: set<Key>, t: Table, k: Key, zones: seq<nat>)
    requires Shaped(owned, t) && Ruled(owned, t) && k in owned && ListOf(zones, Zones(owned - {k}, k.id))
    ensures ExecBatch(t, DropOps(k, zones)) == Some(DropTable(t, k, zones))
  {
    hide ChainOps, RuleOps, RulesOf, ExecBatch, Exec, ListOf, Zones, SetReferenced, Ruled;
    var g, id := GroupOf(k), k.id;
    if k.zone in zones {
      ExecNone(t);
    } else {
      SetUnreferenced(owned, t, k, zones);
      assert id in Ids(owned) && g in Groups(owned);
      if zones == [] {
        UnchainExec(t, id);
        var u := t.(root := t.root - {id}, chains := t.chains - {id});
        SameReferences(u, t.(chains := t.chains - {id}), g);
        DeleteSetExec(u, g);
        Then(t, [DeleteRoot(id), FlushChain(id), DeleteChain(id)], u, [DeleteSet(g)], Some(DropTable(t, k, zones)));
      } else {
        forall z | z in zones ensures Group(z, id) in t.sets { KeptZonesHaveSets(owned, t, k, zones, z); }
        ChainOpsExec(t, id, zones);
        var u := t.(chains := t.chains[id := RulesOf(id, zones)]);
        DeleteSetExec(u, g);
        Then(t, ChainOps(id, zones), u, [DeleteSet(g)], Some(DropTable(t, k, zones)));
      }
    }
  }

  lemma ExecNone(t: Table)
    ensures ExecBatch(t, []) == Some(t)
  {
  }

  lemma SameReferences(t: Table, u: Table, g: Group)
    requires t.chains == u.chains
    ensures SetReferenced(t, g) <==> SetReferenced(u, g)
  {
  }

  lemma DeleteSetExec(t: Table, g: Group)
    requires g in t.sets && !SetReferenced(t, g)
    ensures ExecBatch(t, [DeleteSet(g)]) == Some(t.(sets := t.sets - {g}))
  {
    ExecOne(t, DeleteSet(g));
  }

  lemma KeptZonesHaveSets(owned: set<Key>, t: Table, k: Key, zones: seq<nat>, z: nat)
    requires Shaped(owned, t) && ListOf(zones, Zones(owned - {k}, k.id)) && z in zones
    ensures Group(z, k.id) in t.sets
  {
    assert z in Members(zones);
    assert z in Zones(owned - {k}, k.id);
    var x :| x in owned - {k} && x.id == k.id && x.zone == z;
    assert GroupOf(x) in Groups(owned);
  }

  /**
   The removal script runs exactly when what it read of the element still holds,
   and then deletes only what nothing refers to.
   */
  lemma RemoveRuns(owned: set<Key>, t: Table, k: Key, zones: seq<nat>, present: bool)
    requires Inv(owned, t) && k in owned && ListOf(zones, Zones(owned - {k}, k.id)) && (Live(t, k) ==> present)
    ensures ExecBatch(t, RemoveOps(k, present, zones, true)) == if present && !Live(t, k) then None
            else Some(RemoveTable(t, k, zones))
  {
    hide ChainOps, RulesOf, DropOps, ExecBatch, ListOf, Zones, Ruled, RemoveOps;
    var g := GroupOf(k);
    assert g in Groups(owned);
    RemoveOpsAre(k, present, zones);
    if !present {
      assert [] + DropOps(k, zones) == DropOps(k, zones);
      DropRuns(owned, t, k, zones);
      assert t.sets[g] - {k.tuple} == t.sets[g];
      assert t.sets[g := t.sets[g]] == t.sets;
    } else {
      var op := DeleteElement(g, k.tuple);
      ExecOne(t, op);
      if !Live(t, k) {
        ExecAppend(t, [op], DropOps(k, zones));
      } else {
        var u := t.(sets := t.sets[g := t.sets[g] - {k.tuple}]);
        SameRules(owned, t, u);
        DropRuns(owned, u, k, zones);
        Then(t, [op], u, DropOps(k, zones), Some(DropTable(u, k, zones)));
        assert u.sets - {g} == t.sets - {g};
      }
    }
  }

  lemma SameRules(owned: set<Key>, t: Table, u: Table)
    requires Shaped(owned, t) && Ruled(owned, t) && u.root == t.root && u.chains == t.chains
             && u.sets.Keys == t.sets.Keys
    ensures Shaped(owned, u) && Ruled(owned, u)
  {
  }

  lemma RemoveKeeps(owned: set<Key>, t: Table, k: Key, zones: seq<nat>)
    requires Inv(owned, t) && k in owned && ListOf(zones, Zones(owned - {k}, k.id))
    ensures Inv(owned - {k}, RemoveTable(t, k, zones))
    ensures forall x :: Live(RemoveTable(t, k, zones), x) <==> x != k && Live(t, x)
  {
    hide RulesOf;
    RemoveShaped(owned, t, k, zones);
    RemoveRuled(owned, t, k, zones);
    RemoveFilled(owned, t, k, zones);
  }

  /** Whether another owned key shares the zone and id. */
  predicate GroupKept(owned: set<Key>, k: Key) {
    exists x :: x in owned && x != k && GroupOf(x) == GroupOf(k)
  }

  lemma ZoneKept(owned: set<Key>, k: Key, zones: seq<nat>)
    requires ListOf(zones, Zones(owned - {k}, k.id))
    ensures k.zone in zones <==> GroupKept(owned, k)
    ensures zones == [] <==> k.id !in Ids(owned - {k})
  {
    assert k.zone in zones <==> k.zone in Members(zones);
    assert k.zone in Zones(owned - {k}, k.id) <==> GroupKept(owned, k);
    if zones == [] {
      assert Zones(owned - {k}, k.id) == {};
      forall x | x in owned - {k} ensures x.id != k.id {
        assert x.id == k.id ==> x.zone in Zones(owned - {k}, k.id);
      }
    } else {
      assert zones[0] in Members(zones);
      assert zones[0] in Zones(owned - {k}, k.id);
      var x :| x in owned - {k} && x.id == k.id && x.zone == zones[0];
      assert x.id in Ids(owned - {k});
    }
  }

  lemma RemoveShaped(owned: set<Key>, t: Table, k: Key, zones: seq<nat>)
    requires Shaped(owned, t) && k in owned && ListOf(zones, Zones(owned - {k}, k.id))
    ensures Shaped(owned - {k}, RemoveTable(t, k, zones))
  {
    hide RulesOf, ListOf, Zones;
    ZoneKept(owned, k, zones);
    assert owned == (owned - {k}) + {k};
    assert Ids(owned) == Ids(owned - {k}) + {k.id};
    assert Groups(owned) == Groups(owned - {k}) + {GroupOf(k)};
    assert GroupKept(owned, k) <==> GroupOf(k) in Groups(owned - {k});
  }

  lemma RemoveRuled(owned: set<Key>, t: Table, k: Key, zones: seq<nat>)
    requires Ruled(owned, t) && k in owned && ListOf(zones, Zones(owned - {k}, k.id))
    ensures Ruled(owned - {k}, RemoveTable(t, k, zones))
  {
    hide RulesOf, RulesFor, ListOf;
    var u, rest := RemoveTable(t, k, zones), owned - {k};
    ZoneKept(owned, k, zones);
    RulesOfFor(k.id, zones, Zones(rest, k.id));
    forall id | id in u.chains ensures RulesFor(u.chains[id], id, Zones(rest, id)) {
      if id != k.id || k.zone in zones { assert Zones(rest, id) == Zones(owned, id); }
    }
  }

  lemma RemoveFilled(owned: set<Key>, t: Table, k: Key, zones: seq<nat>)
    requires Inv(owned, t) && k in owned && ListOf(zones, Zones(owned - {k}, k.id))
    ensures Filled(owned - {k}, RemoveTable(t, k, zones))
    ensures forall x :: Live(RemoveTable(t, k, zones), x) <==> x != k && Live(t, x)
  {
    hide RulesOf, ListOf, Zones, Ruled;
    var u := RemoveTable(t, k, zones);
    ZoneKept(owned, k, zones);
    forall x ensures Live(u, x) <==> x != k && Live(t, x) {
      if Live(t, x) { assert Key(GroupOf(x).zone, GroupOf(x).id, x.tuple) == x; }
      assert GroupOf(x) == GroupOf(k) && x.tuple == k.tuple <==> x == k;
    }
    forall g, x | g in u.sets && x in u.sets[g] ensures Key(g.zone, g.id, x) in owned - {k} {
      assert Live(u, Key(g.zone, g.id, x));
    }
  }

  // ---------------------------------------------------------------- renewing

  /** Renewal finds the element, or fails as a whole; it never shows a gap. */
  lemma RenewRuns(t: Table, k: Key)
    ensures ExecBatch(t, RenewOps(k)) == if Live(t, k) then Some(t) else None
  {
    var g := GroupOf(k);
    ExecTwo(t, DeleteElement(g, k.tuple), AddElement(g, k.tuple));
    if Live(t, k) {
      var u := t.(sets := t.sets[g := t.sets[g] - {k.tuple}]);
      assert u.sets[g] + {k.tuple} == t.sets[g];
      assert u.sets[g := t.sets[g]] == t.sets;
    }
  }
}
