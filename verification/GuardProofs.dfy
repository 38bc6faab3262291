/**
 The guard index refines a flat set of keys, call by call and over whole runs,
 exactly as long as no unacknowledged batch goes unnoticed.
 */
module GuardProofs {
  import opened Wrappers
  import opened Guards
  import opened GuardManager

  ghost predicate Good(s: State) {
    Inv(s.owned, s.table)
  }

  // ------------------------------------------------------------- installing

  predicate Reaches(max: nat, s: State, k: Key, e: InstallEnv) {
    ValidKey(k) && (k in s.owned || |s.owned| < max) && !e.rootFails
  }

  /**
   The install leaves objects nobody owns: the batch ran, its reply was lost,
   the readback did not confirm it, and the key was not owned before, unless
   the element is already gone from a set that another key needs anyway.
   */
  predicate Orphans(max: nat, s: State, k: Key, e: InstallEnv) {
    && Reaches(max, s, k, e) && e.fate == LostReply && k !in s.owned
    && (e.confirm.Fails() || k in e.after)
    && !(k in e.after && GroupKept(s.owned, k))
  }

  /** The install batch always runs on a good table. */
  lemma InstallRan(s: State, k: Key, e: InstallEnv, zones: seq<nat>)
    requires Good(s) && ListOf(zones, Zones(s.owned + {k}, k.id))
    ensures var u := Expire(s.table, e.before);
            && Inv(s.owned, u)
               && ExecBatch(u, InstallOps(k, zones, k.id in s.table.root)) == Some(InstallTable(u, k, zones))
            && Inv(s.owned + {k}, InstallTable(u, k, zones))
            && forall x :: Live(InstallTable(u, k, zones), x) <==> x == k || (Live(s.table, x) && x !in e.before)
  {
    hide Inv, ListOf, Zones, InstallOps, InstallTable, ExecBatch, Live;
    ExpireKeeps(s.owned, s.table, e.before);
    InstallExec(s.owned, Expire(s.table, e.before), k, zones);
  }

  lemma OwnedRoot(owned: set<Key>, t: Table, k: Key)
    requires Inv(owned, t) && k in owned
    ensures k.id in t.root && GroupOf(k) in t.sets
  {
    assert k.id in Ids(owned) && GroupOf(k) in Groups(owned);
  }

  /** A live key of a good table is found by the readback. */
  lemma PresentIsLive(owned: set<Key>, t: Table, k: Key)
    requires Inv(owned, t)
    ensures Present(t, k) <==> Live(t, k)
  {
    DropsExactlyLive(owned, t, k);
    if Live(t, k) { OwnedRoot(owned, t, k); }
  }

  /** A key that shares its group with an owned one needs no objects of its own. */
  lemma SharedGroup(owned: set<Key>, k: Key)
    requires GroupKept(owned, k)
    ensures Ids(owned + {k}) == Ids(owned) && Groups(owned + {k}) == Groups(owned)
    ensures forall id :: Zones(owned + {k}, id) == Zones(owned, id)
  {
    var x :| x in owned && x != k && GroupOf(x) == GroupOf(k);
    assert x.id in Ids(owned) && GroupOf(x) in Groups(owned);
    forall id ensures Zones(owned + {k}, id) == Zones(owned, id) {
      if id == k.id { assert x.zone in Zones(owned, id); }
    }
  }

  /** An unowned key in the table breaks the invariant unless its group is shared and its element gone. */
  lemma OrphanBreaks(owned: set<Key>, t: Table, k: Key)
    requires Inv(owned + {k}, t) && k !in owned
    ensures Inv(owned, t) <==> GroupKept(owned, k) && !Live(t, k)
  {
    if Inv(owned, t) {
      hide Ruled;
      OwnedRoot(owned + {k}, t, k);
      assert GroupOf(k) in Groups(owned);
      if Live(t, k) { DropsExactlyLive(owned, t, k); }
    }
    if GroupKept(owned, k) && !Live(t, k) { SharedOrphan(owned, t, k); }
  }

  lemma SharedOrphan(owned: set<Key>, t: Table, k: Key)
    requires Inv(owned + {k}, t) && GroupKept(owned, k) && !Live(t, k)
    ensures Inv(owned, t)
  {
    hide GroupKept, RulesFor, Ids, Groups, Zones;
    SharedGroup(owned, k);
    forall g, y | g in t.sets && y in t.sets[g] ensures Key(g.zone, g.id, y) in owned {
      assert Live(t, Key(g.zone, g.id, y));
    }
  }

  /** An install keeps the index exact if and only if it does not orphan its key. */
  lemma InstallExact(max: nat, s: State, k: Key, e: InstallEnv, t: State, ok: bool)
    requires Good(s) && InstallStep(max, s, k, e, t, ok)
    ensures Good(t) <==> !Orphans(max, s, k, e)
  {
    if Reaches(max, s, k, e) {
      var zones :| ListOf(zones, Zones(s.owned + {k}, k.id))
          && InstallTail(s, k, e, InstallOps(k, zones, k.id in s.table.root), t, ok);
      InstallRan(s, k, e, zones);
      InstallTailExact(s, k, e, zones, t, ok);
    }
  }

  lemma InstallTailExact(s: State, k: Key, e: InstallEnv, zones: seq<nat>, t: State, ok: bool)
    requires Good(s) && ListOf(zones, Zones(s.owned + {k}, k.id))
    requires InstallTail(s, k, e, InstallOps(k, zones, k.id in s.table.root), t, ok)
    ensures Good(t) <==> !(e.fate == LostReply && k !in s.owned && (e.confirm.Fails() || k in e.after)
                           && !(k in e.after && GroupKept(s.owned, k)))
  {
    hide Inv, ListOf, Zones, InstallOps, InstallTable, ExecBatch, Live, GroupKept, Expire;
    var u := Expire(s.table, e.before);
    var w := InstallTable(u, k, zones);
    InstallRan(s, k, e, zones);
    ExpireKeeps(s.owned, u, e.after);
    ExpireKeeps(s.owned + {k}, w, e.after);
    PresentIsLive(s.owned, Expire(u, e.after), k);
    PresentIsLive(s.owned + {k}, Expire(w, e.after), k);
    if e.fate == Applied {
      ExpireKeeps(s.owned + {k}, w, e.late);
    } else if e.fate == NotApplied {
      if Live(u, k) { DropsExactlyLive(s.owned, u, k); }
      assert k in s.owned ==> s.owned + {k} == s.owned;
      ExpireKeeps(s.owned, Expire(u, e.after), e.late);
    } else {
      assert k in s.owned ==> s.owned + {k} == s.owned;
      if k !in s.owned { OrphanBreaks(s.owned, Expire(w, e.after), k); }
      ExpireKeeps(s.owned + {k}, Expire(w, e.after), e.late);
    }
  }

  /**
   A successful install adds exactly its key to what the kernel drops; what
   else changes has expired.
   */
  lemma InstallRefines(max: nat, s: State, k: Key, e: InstallEnv, t: State, x: Key)
    requires Good(s) && InstallStep(max, s, k, e, t, true)
    ensures Drops(t.table, k) && t.owned == s.owned + {k}
    ensures x != k && Drops(t.table, x) ==> Drops(s.table, x)
    ensures x != k && Drops(s.table, x) && x !in e.before + e.after + e.late ==> Drops(t.table, x)
  {
    hide Inv, ListOf, Zones, InstallOps, InstallTable, ExecBatch, Live, Expire, Drops;
    InstallExact(max, s, k, e, t, true);
    var zones :| ListOf(zones, Zones(s.owned + {k}, k.id))
        && InstallTail(s, k, e, InstallOps(k, zones, k.id in s.table.root), t, true);
    InstallRan(s, k, e, zones);
    var u := Expire(s.table, e.before);
    var w := InstallTable(u, k, zones);
    ExpireKeeps(s.owned, s.table, e.before);
    ExpireKeeps(s.owned, u, e.after);
    ExpireKeeps(s.owned + {k}, w, e.after);
    ExpireKeeps(s.owned + {k}, w, e.late);
    ExpireKeeps(s.owned + {k}, Expire(w, e.after), e.late);
    ExpireKeeps(s.owned, Expire(u, e.after), e.late);
    SuccessIsGood(max, s, k, e, t);
    DropsExactlyLive(s.owned, s.table, x);
    DropsExactlyLive(t.owned, t.table, x);
    DropsExactlyLive(t.owned, t.table, k);
  }

  lemma SuccessIsGood(max: nat, s: State, k: Key, e: InstallEnv, t: State)
    requires Good(s) && InstallStep(max, s, k, e, t, true)
    ensures Good(t) && Live(t.table, k) && t.owned == s.owned + {k}
  {
    hide Inv, ListOf, Zones, InstallOps, ExecBatch, Live, Expire;
    var zones :| ListOf(zones, Zones(s.owned + {k}, k.id))
        && InstallTail(s, k, e, InstallOps(k, zones, k.id in s.table.root), t, true);
    InstallExact(max, s, k, e, t, true);
    if Orphans(max, s, k, e) { OrphanFails(s, k, e, zones, t); }
  }

  lemma OrphanFails(s: State, k: Key, e: InstallEnv, zones: seq<nat>, t: State)
    requires Good(s) && ListOf(zones, Zones(s.owned + {k}, k.id))
    requires e.fate == LostReply && (e.confirm.Fails() || k in e.after)
    ensures !InstallTail(s, k, e, InstallOps(k, zones, k.id in s.table.root), t, true)
  {
    InstallRan(s, k, e, zones);
    ExpireKeeps(s.owned + {k}, InstallTable(Expire(s.table, e.before), k, zones), e.after);
  }

  /** A lost reply to the very first install, with the readback failing too, leaves a dropped key nobody owns. */
  lemma OrphanWitness(k: Key)
    requires ValidKey(k)
    ensures var s := State({}, Table(map[], map[], map[]));
            var e := InstallEnv(false, {}, LostReply, {}, Readback(true, false), {}, Readback(false, false));
            var t := State({}, InstallTable(s.table, k, [k.zone]));
            InstallStep(1, s, k, e, t, false) && !Good(t) && Drops(t.table, k) && k !in t.owned
  {
    var s := State({}, Table(map[], map[], map[]));
    var e := InstallEnv(false, {}, LostReply, {}, Readback(true, false), {}, Readback(false, false));
    var t := State({}, InstallTable(s.table, k, [k.zone]));
    NothingOwnedNothingLeft(s.table);
    assert ListOf([k.zone], Zones({} + {k}, k.id));
    assert s.owned + {k} == {k};
    InstallRan(s, k, e, [k.zone]);
    ExpireNothing(s.table);
    ExpireNothing(t.table);
    assert InstallTail(s, k, e, InstallOps(k, [k.zone], k.id in s.table.root), t, false);
    InstallExact(1, s, k, e, t, false);
    DropsExactlyLive({k}, t.table, k);
  }

  lemma ExpireNothing(t: Table)
    ensures Expire(t, {}) == t
  {
    var u := Expire(t, {});
    forall g | g in t.sets ensures u.sets[g] == t.sets[g] {
      assert forall x :: x in u.sets[g] <==> x in t.sets[g];
    }
    assert u.sets == t.sets;
  }

  // ---------------------------------------------------------------- removing

  /** The removal batch runs: the element it saw, if any, is still there. */
  predicate RemovalRuns(s: State, k: Key, e: RemoveEnv) {
    Live(Expire(s.table, e.before), k) ==> k !in e.between
  }

  /**
   The removal forgets to forget: its batch deleted the last objects of the
   group but the reply was lost, so the key stays owned.
   */
  predicate Strands(s: State, k: Key, e: RemoveEnv) {
    && k in s.owned && !e.readFails && !(k.id !in Ids(s.owned - {k}) && e.rootFails)
    && e.fate == LostReply && RemovalRuns(s, k, e) && !GroupKept(s.owned, k)
  }

  lemma RemovalRan(s: State, k: Key, e: RemoveEnv, zones: seq<nat>)
    requires Good(s) && k in s.owned && ListOf(zones, Zones(s.owned - {k}, k.id))
    ensures var u := Expire(s.table, e.before);
            var v := Expire(u, e.between);
            && Inv(s.owned, u) && Inv(s.owned, v) && k.id in u.root
            && ExecBatch(v, RemoveOps(k, Live(u, k), zones, true)) ==
               (if RemovalRuns(s, k, e) then Some(RemoveTable(v, k, zones)) else None)
            && Inv(s.owned - {k}, RemoveTable(v, k, zones))
            && forall x :: Live(RemoveTable(v, k, zones), x) <==>
               x != k && Live(s.table, x) && x !in e.before && x !in e.between
  {
    hide Inv, ListOf, Zones, RemoveOps, RemoveTable, ExecBatch, Live, Expire;
    var u := Expire(s.table, e.before);
    var v := Expire(u, e.between);
    ExpireKeeps(s.owned, s.table, e.before);
    ExpireKeeps(s.owned, u, e.between);
    OwnedRoot(s.owned, u, k);
    RemoveRuns(s.owned, v, k, zones, Live(u, k));
    RemoveKeeps(s.owned, v, k, zones);
  }

  /** A removal without its group: the owned key has no set any more. */
  lemma StrandBreaks(owned: set<Key>, t: Table, k: Key)
    requires Inv(owned - {k}, t) && k in owned
    ensures Inv(owned, t) <==> GroupKept(owned, k)
  {
    hide Ruled;
    if Inv(owned, t) {
      assert GroupOf(k) in Groups(owned);
      assert GroupOf(k) in Groups(owned - {k});
    }
    if GroupKept(owned, k) { SharedStrand(owned, t, k); }
  }

  lemma SharedStrand(owned: set<Key>, t: Table, k: Key)
    requires Inv(owned - {k}, t) && k in owned && GroupKept(owned, k)
    ensures Inv(owned, t)
  {
    hide RulesFor, Ids, Groups, Zones;
    assert (owned - {k}) + {k} == owned;
    assert GroupKept(owned - {k}, k) by {
      var x :| x in owned && x != k && GroupOf(x) == GroupOf(k);
      assert x in owned - {k};
    }
    SharedGroup(owned - {k}, k);
  }

  /** A removal keeps the index exact if and only if it does not strand its key. */
  lemma RemoveExact(s: State, k: Key, e: RemoveEnv, t: State, ok: bool)
    requires Good(s) && RemoveStep(s, k, e, t, ok)
    ensures Good(t) <==> !Strands(s, k, e)
    ensures ok ==> k !in t.owned && Good(t)
  {
    ExpireKeeps(s.owned, s.table, e.before);
    if k in s.owned && !e.readFails {
      hide Inv, Zones, RemoveOps, RemoveTable, ExecBatch, Live, Expire, GroupKept, RemoveTail;
      var u := Expire(s.table, e.before);
      var zones :| && ListOf(zones, Zones(s.owned - {k}, k.id))
                   && if zones == [] && e.rootFails then t == State(s.owned, u) && !ok
                      else RemoveTail(State(s.owned, u), k, e, RemoveOps(k, Live(u, k), zones, k.id in u.root), t, ok);
      ZoneKept(s.owned, k, zones);
      if !(zones == [] && e.rootFails) {
        OwnedRoot(s.owned, u, k);
        RemoveTailExact(s, k, e, zones, t, ok);
      }
    }
  }

  lemma RemoveTailExact(s: State, k: Key, e: RemoveEnv, zones: seq<nat>, t: State, ok: bool)
    requires Good(s) && k in s.owned && ListOf(zones, Zones(s.owned - {k}, k.id))
    requires var u := Expire(s.table, e.before);
             RemoveTail(State(s.owned, u), k, e, RemoveOps(k, Live(u, k), zones, true), t, ok)
    ensures Good(t) <==> !(e.fate == LostReply && RemovalRuns(s, k, e) && !GroupKept(s.owned, k))
    ensures ok ==> k !in t.owned && Good(t)
  {
    hide Inv, Zones, ListOf, RemoveTable, ExecBatch, Live, Expire, GroupKept, RemoveOps;
    var u := Expire(s.table, e.before);
    var v := Expire(u, e.between);
    RemovalRan(s, k, e, zones);
    ZoneKept(s.owned, k, zones);
    EmptyRemoval(s, k, e, zones);
    StrandBreaks(s.owned, RemoveTable(v, k, zones), k);
  }

  /** The script is empty only when the element is gone and its set still needed. */
  lemma EmptyRemoval(s: State, k: Key, e: RemoveEnv, zones: seq<nat>)
    requires Good(s) && k in s.owned && ListOf(zones, Zones(s.owned - {k}, k.id))
    ensures var u := Expire(s.table, e.before);
            RemoveOps(k, Live(u, k), zones, true) == [] ==> GroupKept(s.owned, k) && Inv(s.owned - {k}, u)
  {
    hide Inv, Zones, ListOf, Expire, GroupKept;
    var u := Expire(s.table, e.before);
    ZoneKept(s.owned, k, zones);
    ExpireKeeps(s.owned, s.table, e.before);
    if RemoveOps(k, Live(u, k), zones, true) == [] {
      OwnedRoot(s.owned, u, k);
      RemoveKeeps(s.owned, u, k, zones);
      assert Elements(u, GroupOf(k)) - {k.tuple} == Elements(u, GroupOf(k));
      assert u.sets[GroupOf(k) := u.sets[GroupOf(k)]] == u.sets;
      assert RemoveTable(u, k, zones) == u;
    }
  }

  /** A successful removal takes exactly its key out of what the kernel drops. */
  lemma RemoveRefines(s: State, k: Key, e: RemoveEnv, t: State, x: Key)
    requires Good(s) && RemoveStep(s, k, e, t, true)
    ensures !Drops(t.table, k) && t.owned == s.owned - {k}
    ensures Drops(t.table, x) ==> Drops(s.table, x)
    ensures x != k && Drops(s.table, x) && x !in e.before + e.between ==> Drops(t.table, x)
  {
    hide Inv, Live, Drops, RemoveStep;
    RemoveExact(s, k, e, t, true);
    DropsExactlyLive(s.owned, s.table, x);
    DropsExactlyLive(t.owned, t.table, x);
    DropsExactlyLive(t.owned, t.table, k);
    RemovedLive(s, k, e, t, x);
  }

  lemma RemovedLive(s: State, k: Key, e: RemoveEnv, t: State, x: Key)
    requires Good(s) && RemoveStep(s, k, e, t, true)
    ensures t.owned == s.owned - {k}
    ensures Live(t.table, x) ==> Live(s.table, x)
    ensures x != k && Live(s.table, x) && x !in e.before + e.between ==> Live(t.table, x)
  {
    hide Inv, Live, Zones, RemoveTable, ExecBatch, Expire, GroupKept, RemoveOps;
    if k in s.owned {
      var u := Expire(s.table, e.before);
      var zones :| && ListOf(zones, Zones(s.owned - {k}, k.id))
                   && if zones == [] && e.rootFails then t == State(s.owned, u) && !true
                      else RemoveTail(State(s.owned, u), k, e, RemoveOps(k, Live(u, k), zones, k.id in u.root), t,
                                      true);
      ExpireKeeps(s.owned, s.table, e.before);
      RemovalRan(s, k, e, zones);
    }
  }

  /**
   A stranded last key of an id can never be removed again: whatever happens
   around the call, the script flushes a chain that no longer exists.
   */
  lemma StrandedStays(s: State, k: Key, e: RemoveEnv, t: State, ok: bool)
    requires k in s.owned && k.id !in s.table.chains && k.id !in Ids(s.owned - {k})
    requires RemoveStep(s, k, e, t, ok)
    ensures !ok && t.owned == s.owned
  {
    var u := Expire(s.table, e.before);
    if !e.readFails {
      var zones :| && ListOf(zones, Zones(s.owned - {k}, k.id))
                   && if zones == [] && e.rootFails then t == State(s.owned, u) && !ok
                      else RemoveTail(State(s.owned, u), k, e, RemoveOps(k, Live(u, k), zones, k.id in u.root), t, ok);
      ZoneKept(s.owned, k, zones);
      FlushFails(Expire(u, e.between), k, Live(u, k), k.id in u.root);
    }
  }

  lemma FlushFails(t: Table, k: Key, present: bool, rooted: bool)
    requires k.id !in t.chains
    ensures ExecBatch(t, RemoveOps(k, present, [], rooted)).None? && RemoveOps(k, present, [], rooted) != []
  {
    var first := (if present then [DeleteElement(GroupOf(k), k.tuple)] else [])
        + (if rooted then [DeleteRoot(k.id)] else []);
    var rest := [FlushChain(k.id), DeleteChain(k.id), DeleteSet(GroupOf(k))];
    assert RemoveOps(k, present, [], rooted) == first + rest;
    ExecAppend(t, first, rest);
    NoNewChain(t, first, k.id);
  }

  lemma {:induction false} NoNewChain(t: Table, ops: seq<Op>, id: nat)
    requires id !in t.chains && forall op :: op in ops ==> op.DeleteElement? || op.DeleteRoot?
    ensures ExecBatch(t, ops).Some? ==> id !in ExecBatch(t, ops).value.chains
    decreases |ops|
  {
    if |ops| > 0 && Exec(t, ops[0]).Some? {
      assert ops[0] in ops;
      NoNewChain(Exec(t, ops[0]).value, ops[1..], id);
    }
  }

  // ---------------------------------------------------------------- renewing

  /** Renewal of an owned key always keeps the index exact. */
  lemma RenewExact(max: nat, s: State, k: Key, e: RenewEnv, t: State, ok: bool)
    requires Good(s) && RenewStep(max, s, k, e, t, ok)
    ensures Good(t) <==> !(k !in s.owned && Orphans(max, s, k, e.install))
    ensures ok ==> Drops(t.table, k)
  {
    hide Inv, Live, Expire, ExecBatch, Drops, InstallStep;
    if k !in s.owned {
      InstallExact(max, s, k, e.install, t, ok);
      if ok { InstallRefines(max, s, k, e.install, t, k); }
    } else {
      var u := Expire(s.table, e.before);
      ExpireKeeps(s.owned, s.table, e.before);
      RenewRuns(u, k);
      ExpireKeeps(s.owned, u, e.after);
      if Accepted(u, RenewOps(k), e.fate) {
        DropsExactlyLive(s.owned, t.table, k);
      } else {
        InstallExact(max, State(s.owned, u), k, e.install, t, ok);
        if ok { InstallRefines(max, State(s.owned, u), k, e.install, t, k); }
      }
    }
  }

  // -------------------------------------------------------------------- runs

  datatype Command =
    | InstallKey(key: Key, install: InstallEnv)
    | RemoveKey(key: Key, remove: RemoveEnv)
    | RenewKey(key: Key, renew: RenewEnv)
    | Timeout(gone: set<Key>)

  ghost predicate Does(max: nat, s: State, c: Command, t: State) {
    match c
    case InstallKey(k, e) => InstallStep(max, s, k, e, t, true) || InstallStep(max, s, k, e, t, false)
    case RemoveKey(k, e) => RemoveStep(s, k, e, t, true) || RemoveStep(s, k, e, t, false)
    case RenewKey(k, e) => RenewStep(max, s, k, e, t, true) || RenewStep(max, s, k, e, t, false)
    case Timeout(gone) => t == State(s.owned, Expire(s.table, gone))
  }

  /** The command leaves the index inexact: an unacknowledged batch goes unnoticed. */
  predicate Slips(max: nat, s: State, c: Command) {
    match c
    case InstallKey(k, e) => Orphans(max, s, k, e)
    case RemoveKey(k, e) => Strands(s, k, e)
    case RenewKey(k, e) => k !in s.owned && Orphans(max, s, k, e.install)
    case Timeout(_) => false
  }

  lemma CommandExact(max: nat, s: State, c: Command, t: State)
    requires Good(s) && Does(max, s, c, t)
    ensures Good(t) <==> !Slips(max, s, c)
  {
    hide Inv, InstallStep, RemoveStep, RenewStep, Expire, Orphans, Strands;
    match c
    case InstallKey(k, e) => InstallExact(max, s, k, e, t, InstallStep(max, s, k, e, t, true));
    case RemoveKey(k, e) => RemoveExact(s, k, e, t, RemoveStep(s, k, e, t, true));
    case RenewKey(k, e) => RenewExact(max, s, k, e, t, RenewStep(max, s, k, e, t, true));
    case Timeout(gone) => ExpireKeeps(s.owned, s.table, gone);
  }

  ghost predicate Trace(max: nat, states: seq<State>, commands: seq<Command>) {
    && |states| == |commands| + 1 && states[0] == State({}, Table(map[], map[], map[]))
    && forall i :: 0 <= i < |commands| ==> Does(max, states[i], commands[i], states[i + 1])
  }

  /**
   Through any sequence of installs, removals, renewals and expiries, with
   replies lost anywhere, the index is exact at every point up to `n` if and
   only if no command before it slips.
   */
  lemma {:induction false} RunExact(max: nat, states: seq<State>, commands: seq<Command>, n: nat)
    requires Trace(max, states, commands) && n <= |commands|
    ensures (forall j :: 0 <= j <= n ==> Good(states[j])) <==>
            (forall j :: 0 <= j < n ==> !Slips(max, states[j], commands[j]))
  {
    hide Does, Slips, Inv;
    if n > 0 {
      RunExact(max, states, commands, n - 1);
      if forall j :: 0 <= j <= n - 1 ==> Good(states[j]) {
        CommandExact(max, states[n - 1], commands[n - 1], states[n]);
      } else {
        var j :| 0 <= j <= n - 1 && !Good(states[j]);
        assert j <= n;
      }
    } else {
      NothingOwnedNothingLeft(states[0].table);
    }
  }

  /**
   As long as no command slips, the index drops exactly the live owned keys,
   and nothing is left once nothing is owned.
   */
  lemma IndexIsFlatSet(max: nat, states: seq<State>, commands: seq<Command>, i: nat, k: Key)
    requires Trace(max, states, commands) && i < |states|
    requires forall j :: 0 <= j < i ==> !Slips(max, states[j], commands[j])
    ensures Good(states[i])
    ensures Drops(states[i].table, k) <==> k in states[i].owned && Live(states[i].table, k)
    ensures states[i].owned == {} ==> states[i].table == Table(map[], map[], map[])
  {
    hide Does, Drops, Live, Slips;
    RunExact(max, states, commands, i);
    DropsExactlyLive(states[i].owned, states[i].table, k);
    if states[i].owned == {} { NothingOwnedNothingLeft(states[i].table); }
  }

  /**
   A stranded key is mended by exactly the installs whose batch is executed: it
   rebuilds the objects of the key, which is still owned.
   */
  lemma InstallMends(max: nat, s: State, k: Key, e: InstallEnv, t: State, ok: bool)
    requires k in s.owned && Inv(s.owned - {k}, s.table) && !GroupKept(s.owned, k) && InstallStep(max, s, k, e, t, ok)
    ensures Good(t) <==> Reaches(max, s, k, e) && e.fate != NotApplied
  {
    if Reaches(max, s, k, e) {
      var zones :| ListOf(zones, Zones(s.owned + {k}, k.id))
          && InstallTail(s, k, e, InstallOps(k, zones, k.id in s.table.root), t, ok);
      MendTail(s, k, e, zones, t, ok);
    } else {
      StrandBreaks(s.owned, s.table, k);
    }
  }

  lemma MendTail(s: State, k: Key, e: InstallEnv, zones: seq<nat>, t: State, ok: bool)
    requires k in s.owned && Inv(s.owned - {k}, s.table) && !GroupKept(s.owned, k)
    requires ListOf(zones, Zones(s.owned + {k}, k.id))
    requires InstallTail(s, k, e, InstallOps(k, zones, k.id in s.table.root), t, ok)
    ensures Good(t) <==> e.fate != NotApplied
  {
    hide Inv, ListOf, Zones, InstallOps, InstallTable, ExecBatch, Live, GroupKept, Expire;
    var u, rest := Expire(s.table, e.before), s.owned - {k};
    var w := InstallTable(u, k, zones);
    assert rest + {k} == s.owned && s.owned + {k} == s.owned;
    InstallRan(State(rest, s.table), k, e, zones);
    if e.fate == NotApplied {
      ExpireKeeps(rest, u, e.after);
      DropsExactlyLive(rest, Expire(u, e.after), k);
      StrandBreaks(s.owned, Expire(u, e.after), k);
    } else if e.fate == Applied {
      ExpireKeeps(s.owned, w, e.late);
    } else {
      ExpireKeeps(s.owned, w, e.after);
      ExpireKeeps(s.owned, Expire(w, e.after), e.late);
    }
  }

  /** So does a renewal: its own batch cannot run, and it turns into an install. */
  lemma RenewMends(max: nat, s: State, k: Key, e: RenewEnv, t: State, ok: bool)
    requires k in s.owned && Inv(s.owned - {k}, s.table) && !GroupKept(s.owned, k) && RenewStep(max, s, k, e, t, ok)
    ensures Good(t) <==> Reaches(max, s, k, e.install) && e.install.fate != NotApplied
  {
    hide Inv, Live, ExecBatch, GroupKept, Expire, InstallStep;
    var u, rest := Expire(s.table, e.before), s.owned - {k};
    ExpireKeeps(rest, s.table, e.before);
    RenewRuns(u, k);
    DropsExactlyLive(rest, u, k);
    InstallMends(max, State(s.owned, u), k, e.install, t, ok);
  }

  /** Nothing goes wrong around the call. */
  const CALM := InstallEnv(false, {}, Applied, {}, Readback(false, false), {}, Readback(false, false))

  /** The removal runs and its reply is lost. */
  const DEAF := RemoveEnv(false, {}, false, {}, LostReply)

  lemma FirstInstall(k: Key)
    requires ValidKey(k)
    ensures var s := State({}, Table(map[], map[], map[]));
            var t := State({k}, InstallTable(s.table, k, [k.zone]));
            InstallStep(1, s, k, CALM, t, true) && Good(t) && Live(t.table, k)
  {
    hide Inv, InstallTable, Live;
    var s := State({}, Table(map[], map[], map[]));
    var t := State({k}, InstallTable(s.table, k, [k.zone]));
    NothingOwnedNothingLeft(s.table);
    assert ListOf([k.zone], Zones({} + {k}, k.id));
    assert s.owned + {k} == {k};
    InstallRan(s, k, CALM, [k.zone]);
    ExpireNothing(s.table);
    ExpireNothing(t.table);
    PresentIsLive({k}, t.table, k);
    assert InstallTail(s, k, CALM, InstallOps(k, [k.zone], k.id in s.table.root), t, true);
  }

  lemma LastRemoval(s: State, k: Key)
    requires Good(s) && s.owned == {k} && Live(s.table, k)
    ensures var t := State({k}, RemoveTable(s.table, k, []));
            RemoveStep(s, k, DEAF, t, false) && Strands(s, k, DEAF) && !Good(t) && k.id !in t.table.chains
  {
    hide Inv, RemoveTable, Live, ExecBatch;
    var t := State({k}, RemoveTable(s.table, k, []));
    assert s.owned - {k} == {} && ListOf([], Zones({}, k.id));
    ExpireNothing(s.table);
    OwnedRoot(s.owned, s.table, k);
    RemovalRan(s, k, DEAF, []);
    assert RemoveTail(s, k, DEAF, RemoveOps(k, true, [], true), t, false);
    RemoveExact(s, k, DEAF, t, false);
    NothingOwnedNothingLeft(t.table);
  }

  /**
   From the empty table: one install, one removal whose reply is lost.  The
   key stays owned without objects, and no removal ever succeeds again.
   */
  lemma StrandWitness(k: Key, e: RemoveEnv, u: State, ok: bool)
    requires ValidKey(k)
    ensures var a := State({}, Table(map[], map[], map[]));
            var b := State({k}, InstallTable(a.table, k, [k.zone]));
            var c := State({k}, RemoveTable(b.table, k, []));
            && Trace(1, [a, b, c], [InstallKey(k, CALM), RemoveKey(k, DEAF)])
            && Strands(b, k, DEAF) && !Good(c)
            && (RemoveStep(c, k, e, u, ok) ==> !ok && u.owned == {k})
  {
    hide Inv, InstallTable, RemoveTable, InstallStep, RemoveStep, Live, Strands;
    var a := State({}, Table(map[], map[], map[]));
    var b := State({k}, InstallTable(a.table, k, [k.zone]));
    var c := State({k}, RemoveTable(b.table, k, []));
    FirstInstall(k);
    LastRemoval(b, k);
    if RemoveStep(c, k, e, u, ok) {
      assert c.owned - {k} == {};
      StrandedStays(c, k, e, u, ok);
    }
  }
}
