/**
 The guard manager: installs, removals and renewals against a kernel whose
 replies can be lost and whose elements expire between any two calls.
 */
module GuardManager {
  import opened Wrappers
  import opened Guards

  /** A batch is executed and acknowledged, never reaches the kernel, or is executed unacknowledged. */
  datatype Fate = Applied | NotApplied | LostReply

  /** Which of the two reads of a readback fail. */
  datatype Readback = Readback(element: bool, root: bool) {
    predicate Fails() {
      element || root
    }
  }

  /**
   What happens around one install: expiries before the batch, before the
   readback of a failed batch, and before the final one.
   */
  datatype InstallEnv = InstallEnv(
    rootFails: bool, before: set<Key>, fate: Fate, after: set<Key>, confirm: Readback, late: set<Key>,
    final: Readback)

  datatype RemoveEnv = RemoveEnv(readFails: bool, before: set<Key>, rootFails: bool, between: set<Key>, fate: Fate)

  datatype RenewEnv = RenewEnv(before: set<Key>, fate: Fate, after: set<Key>, read: Readback, install: InstallEnv)

  /** What the manager owns and what the kernel holds. */
  datatype State = State(owned: set<Key>, table: Table)

  predicate Present(t: Table, k: Key) {
    Live(t, k) && k.id in t.root
  }

  function AfterBatch(t: Table, ops: seq<Op>, fate: Fate): Table {
    var r := ExecBatch(t, ops);
    if fate == NotApplied || r.None? then t else r.value
  }

  predicate Accepted(t: Table, ops: seq<Op>, fate: Fate) {
    fate == Applied && ExecBatch(t, ops).Some?
  }

  class Kernel {
    var table: Table
    constructor (t: Table)
      ensures table == t
    {
      table := t;
    }

    method Apply(ops: seq<Op>, gone: set<Key>, fate: Fate) returns (ok: bool)
      modifies this
      ensures table == AfterBatch(Expire(old(table), gone), ops, fate)
      ensures ok == Accepted(Expire(old(table), gone), ops, fate)
    {
      table := Expire(table, gone);
      var r := ExecBatch(table, ops);
      ok := fate == Applied && r.Some?;
      if fate != NotApplied && r.Some? { table := r.value; }
    }

    /** `InspectionSetContains` on a guard set */
    method ReadElement(k: Key, gone: set<Key>, fails: bool) returns (r: Option<bool>)
      modifies this
      ensures table == Expire(old(table), gone)
      ensures r == if fails then None else Some(Live(table, k))
    {
      table := Expire(table, gone);
      r := if fails then None else Some(Live(table, k));
    }

    /** `InspectionSetContains` on the verdict map */
    method ReadRoot(id: nat, fails: bool) returns (r: Option<bool>)
      ensures r == if fails then None else Some(id in table.root)
    {
      r := if fails then None else Some(id in table.root);
    }
  }

  // ------------------------------------------------------ what each call does

  ghost predicate InstallStep(max: nat, s: State, k: Key, e: InstallEnv, t: State, ok: bool) {
    if !ValidKey(k) || (k !in s.owned && |s.owned| >= max) || e.rootFails then t == s && !ok
    else exists zones ::
      && ListOf(zones, Zones(s.owned + {k}, k.id))
      && InstallTail(s, k, e, InstallOps(k, zones, k.id in s.table.root), t, ok)
  }

  predicate InstallTail(s: State, k: Key, e: InstallEnv, ops: seq<Op>, t: State, ok: bool) {
    var u := Expire(s.table, e.before);
    var done := Accepted(u, ops, e.fate);
    var v := if done then AfterBatch(u, ops, e.fate) else Expire(AfterBatch(u, ops, e.fate), e.after);
    if !done && (e.confirm.Fails() || !Present(v, k)) then t == State(s.owned, v) && !ok
    else
      && t == State(s.owned + {k}, Expire(v, e.late))
      && ok == (!e.final.Fails() && Present(t.table, k))
  }

  ghost predicate RemoveStep(s: State, k: Key, e: RemoveEnv, t: State, ok: bool) {
    var u := Expire(s.table, e.before);
    if k !in s.owned then t == s && ok
    else if e.readFails then t == State(s.owned, u) && !ok
    else exists zones ::
      && ListOf(zones, Zones(s.owned - {k}, k.id))
      && if zones == [] && e.rootFails then t == State(s.owned, u) && !ok
         else RemoveTail(State(s.owned, u), k, e, RemoveOps(k, Live(u, k), zones, k.id in u.root), t, ok)
  }

  predicate RemoveTail(s: State, k: Key, e: RemoveEnv, ops: seq<Op>, t: State, ok: bool) {
    if ops == [] then t == State(s.owned - {k}, s.table) && ok
    else
      var v := Expire(s.table, e.between);
      && ok == Accepted(v, ops, e.fate)
      && t == State(if ok then s.owned - {k} else s.owned, AfterBatch(v, ops, e.fate))
  }

  ghost predicate RenewStep(max: nat, s: State, k: Key, e: RenewEnv, t: State, ok: bool) {
    if k !in s.owned then InstallStep(max, s, k, e.install, t, ok)
    else
      var u := Expire(s.table, e.before);
      if Accepted(u, RenewOps(k), e.fate) then
        && t == State(s.owned, Expire(AfterBatch(u, RenewOps(k), e.fate), e.after))
        && ok == (!e.read.Fails() && Present(t.table, k))
      else InstallStep(max, State(s.owned, AfterBatch(u, RenewOps(k), e.fate)), k, e.install, t, ok)
  }

  // -------------------------------------------------------------- the manager

  class InspectionGuardManager {
    const kernel: Kernel
    const max: nat
    var owned: set<Key>

    /** `NewInspectionGuardManager` */
    constructor (k: Kernel, limit: int)
      ensures kernel == k && owned == {} && max == if limit <= 0 then 10000 else limit
    {
      kernel := k;
      max := if limit <= 0 then 10000 else limit;
      owned := {};
    }

    ghost function S(): State
      reads this, kernel
    {
      State(owned, kernel.table)
    }

    /** `groups`: the zones an id needs, with one key added or left out. */
    method ZonesNeeded(id: nat, add: Option<Key>, remove: Option<Key>) returns (zones: seq<nat>)
      requires add.Some? ==> add.value.id == id
      ensures ListOf(zones,
                     Zones(owned - (if remove.Some? then {remove.value} else {})
                           + (if add.Some? then {add.value} else {}), id))
    {
      ghost var kept := owned - (if remove.Some? then {remove.value} else {});
      var rest, byZone: set<nat> := owned, {};
      while rest != {}
        invariant rest <= owned
        invariant byZone == Zones(kept - rest, id)
        decreases rest
      {
        var key :| key in rest;
        ghost var before := rest;
        rest := rest - {key};
        if key.id == id && (remove.None? || key != remove.value) {
          byZone := byZone + {key.zone};
        }
        OneMoreZone(kept, before, key, id);
      }
      assert kept - {} == kept;
      if add.Some? {
        byZone := byZone + {add.value.zone};
        AddedZone(kept, add.value, id);
      }
      zones := Ascending(byZone);
    }

    /** `InstallAppGuard` */
    method Install(k: Key, e: InstallEnv) returns (ok: bool)
      modifies this, kernel
      ensures InstallStep(max, old(S()), k, e, S(), ok)
    {
      hide ExecBatch, Live, Expire, InstallOps, Zones, ValidKey, ListOf;
      if !ValidKey(k) { return false; }
      if k !in owned && |owned| >= max { return false; }
      var root := kernel.ReadRoot(k.id, e.rootFails);
      if root.None? { return false; }
      var zones := ZonesNeeded(k.id, Some(k), None);
      assert owned - {} + {k} == owned + {k};
      var ops := InstallOps(k, zones, root.value);
      var accepted := kernel.Apply(ops, e.before, e.fate);
      if !accepted {
        var already := Installed(k, e.after, e.confirm);
        if already.None? || !already.value { return false; }
      }
      owned := owned + {k};
      var present := Installed(k, e.late, e.final);
      ok := present.Some? && present.value;
    }

    /** `installed`: the element, after an expiry, and then its map entry, which never expires. */
    method Installed(k: Key, gone: set<Key>, read: Readback) returns (r: Option<bool>)
      modifies kernel
      ensures kernel.table == Expire(old(kernel.table), gone)
      ensures r == if read.element then None else if !Live(kernel.table, k) then Some(false)
                   else if read.root then None else Some(Present(kernel.table, k))
      ensures (r.Some? && r.value) == (!read.Fails() && Present(kernel.table, k))
    {
      var element := kernel.ReadElement(k, gone, read.element);
      if element.None? || !element.value { return element; }
      r := kernel.ReadRoot(k.id, read.root);
    }

    /** `RemoveAppGuard` */
    method Remove(k: Key, e: RemoveEnv) returns (ok: bool)
      modifies this, kernel
      ensures RemoveStep(old(S()), k, e, S(), ok)
    {
      if k !in owned { return true; }
      var present := kernel.ReadElement(k, e.before, e.readFails);
      if present.None? { return false; }
      var zones := ZonesNeeded(k.id, None, Some(k));
      assert owned - {k} + {} == owned - {k};
      var rooted := k.id in kernel.table.root;
      if zones == [] {
        var root := kernel.ReadRoot(k.id, e.rootFails);
        if root.None? { return false; }
        rooted := root.value;
      }
      var ops := RemoveOps(k, present.value, zones, rooted);
      ok := true;
      if ops != [] { ok := kernel.Apply(ops, e.between, e.fate); }
      if ok { owned := owned - {k}; }
    }

    /** `RenewAppGuard` */
    method Renew(k: Key, e: RenewEnv) returns (ok: bool)
      modifies this, kernel
      ensures RenewStep(max, old(S()), k, e, S(), ok)
    {
      if k !in owned {
        ok := Install(k, e.install);
        return;
      }
      var accepted := kernel.Apply(RenewOps(k), e.before, e.fate);
      if !accepted {
        ok := Install(k, e.install);
        return;
      }
      var present := Installed(k, e.after, e.read);
      ok := present.Some? && present.value;
    }
  }

  lemma OneMoreZone(kept: set<Key>, before: set<Key>, key: Key, id: nat)
    requires key in before
    ensures Zones(kept - (before - {key}), id) ==
            Zones(kept - before, id) + if key in kept && key.id == id then {key.zone} else {}
  {
    var now := kept - (before - {key});
    assert now == (kept - before) + (if key in kept then {key} else {});
  }

  lemma AddedZone(kept: set<Key>, key: Key, id: nat)
    requires key.id == id
    ensures Zones(kept + {key}, id) == Zones(kept, id) + {key.zone}
  {
  }

  lemma HasMinimum(s: set<nat>) returns (m: nat)
    requires s != {}
    ensures m in s && forall x :: x in s ==> m <= x
  {
    var a :| a in s;
    m := a;
    if s - {a} != {} {
      var rest := HasMinimum(s - {a});
      m := if rest < a then rest else a;
    }
    forall x | x in s ensures m <= x {
      if x != a { assert x in s - {a}; }
    }
  }

  method Ascending(s: set<nat>) returns (r: seq<nat>)
    ensures ListOf(r, s)
  {
    r := [];
    var rest := s;
    while rest != {}
      invariant rest <= s && Members(r) == s - rest
      invariant forall i, j :: 0 <= i < j < |r| ==> r[i] < r[j]
      invariant forall x, y :: x in r && y in rest ==> x < y
      decreases rest
    {
      ghost var least := HasMinimum(rest);
      var m :| m in rest && forall x :: x in rest ==> m <= x;
      assert forall i :: 0 <= i < |r| ==> r[i] in r;
      assert Members(r + [m]) == Members(r) + {m};
      r := r + [m];
      rest := rest - {m};
    }
  }
}
