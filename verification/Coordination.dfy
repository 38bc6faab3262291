/**
 Commit and rollback of a configuration across three parties: the manager's
 running version, the applied dataplane and the runtime generation.  Every
 outside call can fail; a failed activation leaves the dataplane anywhere.
 */
module Coordination {
  import opened Wrappers

  const MAX_VERSION: nat := 0xffff_ffff_ffff_ffff
  const MAX_RECEIPTS: nat := 1024

  /** A configuration, with what validation, policy analysis and compilation say of it. */
  datatype Config = Config(body: string, valid: bool, sensible: bool, compiles: bool)

  datatype Applied = Applied(config: Config, generation: nat) | Unknown

  datatype ApplyFate = Done | Failed(left: Applied)

  /** How the outside calls of one manager operation end. */
  datatype Faults = Faults(apply: ApplyFate, restore: ApplyFate, persisted: bool)

  /** How the outside calls of one service operation end. */
  datatype ServiceFaults = ServiceFaults(
    saved: bool, preflight: bool, change: Faults, hook: bool, finalized: bool, recovery: Faults, finished: bool)

  datatype ManagerState = ManagerState(
    running: Config, candidate: Config, version: nat, previous: Option<Config>, validated: Option<Config>)

  class Dataplane {
    var applied: Applied

    constructor (a: Applied)
      ensures applied == a
    {
      applied := a;
    }

    method Apply(c: Config, generation: nat, fate: ApplyFate) returns (ok: bool)
      modifies this
      ensures ok <==> fate.Done?
      ensures applied == if ok then Applied(c, generation) else fate.left
    {
      ok := fate.Done?;
      applied := if fate.Done? then Applied(c, generation) else fate.left;
    }
  }

  predicate Works(f: Faults) {
    f.apply.Done? && f.persisted
  }

  /** Undoing a published change worked, or left the published change in place everywhere. */
  predicate Undone(published: nat, fallback: Config, f: Faults) {
    published != MAX_VERSION ==> if Works(f) then fallback.compiles else f.restore.Done?
  }

  /** Every compensation a commit needs under these faults works. */
  predicate CommitCompensated(m: ManagerState, f: ServiceFaults) {
    if !Works(f.change) then f.change.restore.Done?
    else (f.hook && f.finalized) || Undone(m.version + 1, m.running, f.recovery)
  }

  /** The same for a rollback, which can also find that its target does not compile. */
  predicate RollbackCompensated(m: ManagerState, f: ServiceFaults) {
    if !Works(f.change) then f.change.restore.Done?
    else if m.previous.Some? && !m.previous.value.compiles then
      m.version + 1 != MAX_VERSION && Works(f.recovery) && m.running.compiles
    else (f.hook && f.finalized) || Undone(m.version + 1, m.running, f.recovery)
  }

  class Manager {
    var s: ManagerState
    const dataplane: Dataplane

    constructor (initial: ManagerState, d: Dataplane)
      ensures s == initial && dataplane == d
    {
      s, dataplane := initial, d;
    }

    /** `SetCandidate` */
    method SetCandidate(c: Config, saved: bool) returns (ok: bool)
      modifies this
      ensures ok <==> saved && c.valid
      ensures s == if saved then old(s).(candidate := c, validated := None) else old(s)
    {
      ok := saved && c.valid;
      if saved { s := s.(candidate := c, validated := None); }
    }

    /** `CommitWithGeneration`: activate, persist, then publish. */
    method Commit(expected: nat, f: Faults) returns (ok: bool)
      modifies this, dataplane
      ensures ok <==> old(Committable(expected)) && Works(f)
      ensures ok ==>
                && s == ManagerState(old(s.candidate), old(s.candidate), old(s.version) + 1, Some(old(s.running)),
                                     Some(old(s.candidate)))
                && dataplane.applied == Applied(s.running, s.version)
      ensures !ok ==> s == old(s)
      ensures !old(Committable(expected)) ==> dataplane.applied == old(dataplane.applied)
      ensures !ok && old(Committable(expected)) ==>
                dataplane.applied == if f.restore.Done? then Applied(s.running, s.version) else f.restore.left
    {
      var current, target, was := s.version, s.candidate, s.running;
      if expected != current { return false; }
      if !target.valid || !target.sensible { return false; }
      if current == MAX_VERSION { return false; }
      var next := current + 1;
      var applied := dataplane.Apply(target, next, f.apply);
      if !applied || !f.persisted {
        var _ := dataplane.Apply(was, current, f.restore);
        return false;
      }
      s := ManagerState(target, target, next, Some(was), Some(target));
      ok := true;
    }

    predicate Committable(expected: nat)
      reads this
    {
      expected == s.version && s.candidate.valid && s.candidate.sensible && s.version != MAX_VERSION
    }

    /** `rollbackGenerationLocked`: the previous configuration as a newer generation. */
    method Rollback(f: Faults) returns (ok: bool)
      modifies this, dataplane
      ensures ok <==> old(Revertible()) && Works(f)
      ensures ok ==>
                && s == ManagerState(old(s.previous).value, old(s.previous).value, old(s.version) + 1,
                                     Some(old(s.running)), old(s.previous))
                && dataplane.applied == Applied(s.running, s.version)
      ensures !ok ==> s == old(s)
      ensures !old(Revertible()) ==> dataplane.applied == old(dataplane.applied)
      ensures !ok && old(Revertible()) ==>
                dataplane.applied == if f.restore.Done? then Applied(s.running, s.version) else f.restore.left
    {
      if s.previous.None? { return false; }
      var current, was, target := s.version, s.running, s.previous.value;
      if current == MAX_VERSION { return false; }
      var next := current + 1;
      var applied := dataplane.Apply(target, next, f.apply);
      if !applied || !f.persisted {
        var _ := dataplane.Apply(was, current, f.restore);
        return false;
      }
      s := ManagerState(target, target, next, Some(was), Some(target));
      ok := true;
    }

    predicate Revertible()
      reads this
    {
      s.previous.Some? && s.version != MAX_VERSION
    }
  }

  // -------------------------------------------------------------- the runtime

  datatype Session = Session(revoked: bool, generation: nat, evaluated: bool)

  /** Every session that is not revoked now waits for the new generation. */
  function Cutover(sessions: map<string, Session>, generation: nat): map<string, Session> {
    map id | id in sessions ::
      if sessions[id].revoked then sessions[id] else Session(false, generation, false)
  }

  class Runtime {
    var program: Config
    var generation: nat
    var sessions: map<string, Session>

    constructor (c: Config, g: nat, stored: map<string, Session>)
      ensures program == c && generation == g && sessions == stored
    {
      program, generation, sessions := c, g, stored;
    }

    /** `activateWhileInspectionPaused` */
    method Activate(c: Config, g: nat) returns (ok: bool)
      modifies this
      ensures ok <==> g > old(generation)
      ensures ok ==> program == c && generation == g && sessions == Cutover(old(sessions), g)
      ensures !ok ==> program == old(program) && generation == old(generation) && sessions == old(sessions)
    {
      if g == 0 || g <= generation { return false; }
      program, generation := c, g;
      var rest := sessions.Keys;
      ghost var was := sessions;
      while rest != {}
        invariant program == c && generation == g
        invariant rest <= was.Keys && sessions.Keys == was.Keys
        invariant forall id :: id in was ==> sessions[id] == if id in rest then was[id] else Cutover(was, g)[id]
        decreases rest
      {
        var id :| id in rest;
        if !sessions[id].revoked { sessions := sessions[id := Session(false, g, false)]; }
        rest := rest - {id};
      }
      assert sessions == Cutover(was, g);
      ok := true;
    }
  }

  // -------------------------------------------------------------- the service

  class Service {
    const manager: Manager
    const runtime: Runtime
    var receipts: map<string, nat>

    constructor (m: Manager, r: Runtime)
      ensures manager == m && runtime == r && receipts == map[]
    {
      manager, runtime, receipts := m, r, map[];
    }

    /** The three parties name one configuration and one generation. */
    ghost predicate Agree()
      reads manager, manager.dataplane, runtime
    {
      && manager.dataplane.applied == Applied(manager.s.running, manager.s.version)
      && runtime.program == manager.s.running && runtime.generation == manager.s.version
    }

    /** The runtime is never ahead of the manager. */
    ghost predicate Ordered()
      reads manager, runtime
    {
      runtime.generation <= manager.s.version
    }

    /**
     `restoreAfterActivationFailure`: roll back as a newer generation and
     activate it.
     */
    method RestoreAfterFailure(f: Faults) returns (ok: bool)
      modifies manager, manager.dataplane, runtime
      ensures old(manager.Revertible()) && Works(f) ==>
                && manager.s.version == old(manager.s.version) + 1 && manager.s.previous == Some(old(manager.s.running))
                && Some(manager.s.running) == old(manager.s.previous)
                && manager.dataplane.applied == Applied(manager.s.running, manager.s.version)
                && (ok <==> manager.s.running.compiles && manager.s.version > old(runtime.generation))
                && (ok ==> runtime.program == manager.s.running && runtime.generation == manager.s.version)
      ensures !(old(manager.Revertible()) && Works(f)) ==>
                && !ok && manager.s == old(manager.s)
                && (old(Agree()) && (old(manager.Revertible()) ==> f.restore.Done?) ==> Agree())
      ensures !ok ==> runtime.program == old(runtime.program) && runtime.generation == old(runtime.generation)
    {
      ok := manager.Rollback(f);
      if !ok { return; }
      if !manager.s.running.compiles { return false; }
      ok := runtime.Activate(manager.s.running, manager.s.version);
    }

    /** Remember what an operation produced, forgetting any one receipt when full. */
    method Record(op: string, version: nat)
      requires |receipts| <= MAX_RECEIPTS
      modifies this
      ensures |receipts| <= MAX_RECEIPTS
      ensures op != "" ==> op in receipts && receipts[op] == version
      ensures forall id :: id in receipts && id != op ==> id in old(receipts) && receipts[id] == old(receipts)[id]
      ensures op == "" ==> receipts == old(receipts)
    {
      if op == "" { return; }
      if |receipts| >= MAX_RECEIPTS {
        var id :| id in receipts;
        Forget(receipts, id);
        receipts := receipts - {id};
      }
      receipts := receipts[op := version];
    }

    /** The request is one that a commit accepts. */
    predicate Acceptable(desired: Config, expected: nat)
      reads manager
    {
      desired.valid && desired.sensible && desired.compiles && expected == manager.s.version && expected != MAX_VERSION
    }

    /** `CommitConfig` */
    method CommitConfig(desired: Config, expected: nat, op: string, f: ServiceFaults)
      returns (version: nat, ok: bool)
      requires |receipts| <= MAX_RECEIPTS
      modifies this, manager, manager.dataplane, runtime
      ensures |receipts| <= MAX_RECEIPTS
      // a repeated operation changes nothing
      ensures op != "" && op in old(receipts) ==>
                && (version, ok) == (old(receipts)[op], true)
                   && Unchanged(old(manager.s), old(manager.dataplane.applied), old(runtime.program),
                                old(runtime.generation))
                && receipts == old(receipts)
      // success
      ensures ok && !(op != "" && op in old(receipts)) ==>
                && Agree() && manager.s.running == desired && manager.s.previous == Some(old(manager.s.running))
                && version == manager.s.version == expected + 1 == old(manager.s.version) + 1
                && (op != "" ==> op in receipts && receipts[op] == version)
      ensures !ok ==> receipts == old(receipts)
      ensures old(Ordered()) && !(op != "" && op in old(receipts)) ==>
                (ok <==> && old(Acceptable(desired, expected)) && f.saved && f.preflight
                         && Works(f.change) && f.hook && f.finalized)
      // every return
      ensures old(Agree()) && CommitCompensated(old(manager.s), f) ==> Agree()
      ensures old(Ordered()) ==> Ordered()
      ensures manager.s.version >= old(manager.s.version) && runtime.generation >= old(runtime.generation)
      ensures !ok && manager.s.running != old(manager.s.running) ==>
                manager.s.running == desired && (!Works(f.recovery) || manager.s.version == MAX_VERSION)
    {
      if op != "" && op in receipts { return receipts[op], true; }
      version, ok := manager.s.version, false;
      if !desired.sensible || !desired.valid { return; }
      var staged := manager.SetCandidate(desired, f.saved);
      if !staged { return; }
      if expected == MAX_VERSION || !desired.compiles { return; }
      if !f.preflight { return; }
      var committed := manager.Commit(expected, f.change);
      if !committed { return; }
      version := manager.s.version;
      var activated := runtime.Activate(desired, version);
      if !activated {
        var restored := RestoreAfterFailure(f.recovery);
        if restored && f.finished { version := manager.s.version; }
        return;
      }
      if !f.hook || !f.finalized {
        var _ := RestoreAfterFailure(f.recovery);
        version := manager.s.version;
        return;
      }
      Record(op, version);
      ok := true;
    }

    ghost predicate Unchanged(m: ManagerState, a: Applied, program: Config, generation: nat)
      reads manager, manager.dataplane, runtime
    {
      manager.s == m && manager.dataplane.applied == a && runtime.program == program && runtime.generation == generation
    }

    /** `RollbackConfig` */
    method RollbackConfig(op: string, f: ServiceFaults) returns (version: nat, ok: bool)
      requires |receipts| <= MAX_RECEIPTS
      modifies this, manager, manager.dataplane, runtime
      ensures |receipts| <= MAX_RECEIPTS
      ensures op != "" && op in old(receipts) ==>
                && (version, ok) == (old(receipts)[op], true)
                   && Unchanged(old(manager.s), old(manager.dataplane.applied), old(runtime.program),
                                old(runtime.generation))
                && receipts == old(receipts)
      ensures ok && !(op != "" && op in old(receipts)) ==>
                && Agree() && Some(manager.s.running) == old(manager.s.previous)
                   && manager.s.previous == Some(old(manager.s.running))
                && version == manager.s.version == old(manager.s.version) + 1
                && (op != "" ==> op in receipts && receipts[op] == version)
      ensures !ok ==> receipts == old(receipts)
      ensures old(Ordered()) && !(op != "" && op in old(receipts)) ==>
                (ok <==> old(manager.Revertible()) && f.preflight && Works(f.change)
                         && old(manager.s.previous).value.compiles && f.hook && f.finalized)
      ensures old(Agree()) && RollbackCompensated(old(manager.s), f) ==> Agree()
      ensures old(Ordered()) ==> Ordered()
      ensures manager.s.version >= old(manager.s.version) && runtime.generation >= old(runtime.generation)
      ensures !ok && manager.s.running != old(manager.s.running) ==>
                Some(manager.s.running) == old(manager.s.previous)
                    && (!Works(f.recovery) || manager.s.version == MAX_VERSION)
    {
      if op != "" && op in receipts { return receipts[op], true; }
      version, ok := manager.s.version, false;
      if manager.s.version == MAX_VERSION || manager.s.previous.None? || !f.preflight { return; }
      var reverted := manager.Rollback(f.change);
      if !reverted { return; }
      version := manager.s.version;
      var activated := false;
      if manager.s.running.compiles { activated := runtime.Activate(manager.s.running, version); }
      if !activated {
        var restored := RestoreAfterFailure(f.recovery);
        if restored && f.finished { version := manager.s.version; }
        return;
      }
      if !f.hook || !f.finalized {
        var _ := RestoreAfterFailure(f.recovery);
        version := manager.s.version;
        return;
      }
      Record(op, version);
      ok := true;
    }
  }

  lemma Forget(receipts: map<string, nat>, id: string)
    requires id in receipts
    ensures |receipts - {id}| == |receipts| - 1
  {
    assert receipts.Keys == (receipts - {id}).Keys + {id};
  }

  // -------------------------------------------------------------------- runs

  datatype Request =
    | Commit(desired: Config, expected: nat, op: string, faults: ServiceFaults)
    | Rollback(op: string, faults: ServiceFaults)

  /** The manager and the runtime generation between requests. */
  datatype Snapshot = Snapshot(m: ManagerState, generation: nat)

  /** The compensations the request needs in this state work. */
  predicate Compensated(r: Request, m: ManagerState) {
    match r
    case Commit(_, _, _, f) => CommitCompensated(m, f)
    case Rollback(_, f) => RollbackCompensated(m, f)
  }

  predicate Climbs(trace: seq<Snapshot>) {
    forall i, j :: 0 <= i < j < |trace| ==>
      trace[i].m.version <= trace[j].m.version && trace[i].generation <= trace[j].generation
  }

  predicate CleanBefore(clean: seq<bool>, n: nat) {
    forall j :: 0 <= j < n && j < |clean| ==> clean[j]
  }

  predicate AgreeWhileClean(agreed: seq<bool>, clean: seq<bool>) {
    forall i :: 0 <= i < |agreed| && CleanBefore(clean, i) ==> agreed[i]
  }

  lemma StillAgree(agreed: seq<bool>, clean: seq<bool>, now: bool, fine: bool)
    requires |agreed| == |clean| + 1 && AgreeWhileClean(agreed, clean) && (agreed[|clean|] && fine ==> now)
    ensures AgreeWhileClean(agreed + [now], clean + [fine])
  {
    forall i | 0 <= i <= |agreed| && CleanBefore(clean + [fine], i) ensures (agreed + [now])[i] {
      forall j | 0 <= j < i && j < |clean| ensures clean[j] { assert (clean + [fine])[j] == clean[j]; }
      assert CleanBefore(clean, i);
      if i == |agreed| {
        assert (clean + [fine])[|clean|] == fine;
        assert CleanBefore(clean, |clean|);
      }
    }
  }

  method Handle(s: Service, r: Request)
    requires |s.receipts| <= MAX_RECEIPTS && s.Ordered()
    modifies s, s.manager, s.manager.dataplane, s.runtime
    ensures |s.receipts| <= MAX_RECEIPTS && s.Ordered()
    ensures old(s.manager.s.version) <= s.manager.s.version && old(s.runtime.generation) <= s.runtime.generation
    ensures old(s.Agree()) && Compensated(r, old(s.manager.s)) ==> s.Agree()
  {
    match r {
      case Commit(desired, expected, op, f) => var _, _ := s.CommitConfig(desired, expected, op, f);
      case Rollback(op, f) => var _, _ := s.RollbackConfig(op, f);
    }
  }

  /**
   Any sequence of commits and rollbacks, from agreement: versions and
   generations only climb, and the parties agree after every request up to the
   first one whose compensation fails.
   */
  method Serve(s: Service, requests: seq<Request>)
    returns (ghost trace: seq<Snapshot>, ghost agreed: seq<bool>, ghost clean: seq<bool>)
    requires |s.receipts| <= MAX_RECEIPTS && s.Agree()
    modifies s, s.manager, s.manager.dataplane, s.runtime
    ensures |trace| == |agreed| == |clean| + 1 == |requests| + 1
    ensures Climbs(trace) && s.Ordered()
    ensures AgreeWhileClean(agreed, clean) && forall i :: 0 <= i < |requests| ==>
            clean[i] == Compensated(requests[i], trace[i].m)
    ensures trace[|requests|] == Snapshot(s.manager.s, s.runtime.generation) && agreed[|requests|] == s.Agree()
  {
    trace, agreed, clean := [Snapshot(s.manager.s, s.runtime.generation)], [s.Agree()], [];
    for n := 0 to |requests|
      invariant |s.receipts| <= MAX_RECEIPTS && s.Ordered()
      invariant |trace| == |agreed| == |clean| + 1 == n + 1
      invariant Climbs(trace)
      invariant AgreeWhileClean(agreed, clean) && forall i :: 0 <= i < n ==>
                clean[i] == Compensated(requests[i], trace[i].m)
      invariant trace[n] == Snapshot(s.manager.s, s.runtime.generation) && agreed[n] == s.Agree()
    {
      hide Compensated;
      ghost var fine := Compensated(requests[n], s.manager.s);
      Handle(s, requests[n]);
      trace := trace + [Snapshot(s.manager.s, s.runtime.generation)];
      StillAgree(agreed, clean, s.Agree(), fine);
      agreed := agreed + [s.Agree()];
      clean := clean + [fine];
    }
  }

  /** Two rollbacks that succeed give back the configuration and the one before it. */
  method RollbackTwice(s: Service, f: ServiceFaults, g: ServiceFaults) returns (first: bool, second: bool)
    requires |s.receipts| <= MAX_RECEIPTS
    modifies s, s.manager, s.manager.dataplane, s.runtime
    ensures first && second ==>
              && s.manager.s.running == old(s.manager.s.running) && s.manager.s.previous == old(s.manager.s.previous)
              && s.manager.s.version == old(s.manager.s.version) + 2 && s.Agree()
  {
    var v, w;
    v, first := s.RollbackConfig("", f);
    w, second := s.RollbackConfig("", g);
  }
}
