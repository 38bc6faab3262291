/**
 The activation controller: journal, reconcile, load, persist, finalize, and
 compensate when a step fails.  A `Fate` decides what each external call does.
 */
module ActivationController {
  import opened Wrappers
  import opened Network
  import opened NetworkReconciler
  import opened NetworkProofs
  import opened Activation

  /** A call succeeds, reports an error, or is where the process dies. */
  datatype Fate = Fine | Errs(done: bool) | Dies(done: bool) {
    /** The effect happened, whatever was reported. */
    predicate Took() {
      Fine? || done
    }
  }

  datatype Exit = Done | Failed | Crashed

  function ExitOf(f: Fate): Exit {
    match f
    case Fine => Done
    case Errs(_) => Failed
    case Dies(_) => Crashed
  }

  /** A network call: the answers it gets, and whether the process dies in it. */
  datatype NetFate = NetFate(there: Attempt, back: Attempt, dies: bool)

  datatype UndoFates = UndoFates(
    proxyReady: bool, route: Fate, nft: Fate, unroute: Fate, undoTarget: NetFate, undoSource: NetFate,
    save: Fate, remove: Fate)

  datatype ApplyFates = ApplyFates(
    compiles: bool, proxyReady: bool, forwarding: Fate, journal: Fate, reconcile: NetFate, replay: NetFate,
    route: Fate, nft: Fate, unroute: Fate, clean: Fate, save: Fate, remove: Fate, metadata: Fate, undo: UndoFates)

  // ---------------------------------------------------------------- memory

  /** What the controller remembers of one configuration. */
  datatype View = View(
    config: Config, known: bool, options: Option<Options>, generation: nat, usesM3: bool, snapshot: Option<Snapshot>)
  {
    predicate UsesM4() {
      snapshot.Some? && snapshot.value.config.usesM4
    }
  }

  const NOTHING := View(ZERO_CONFIG, false, None, 0, false, None)

  function ViewOf(s: Snapshot): View {
    View(s.config, true, Some(s.options), s.generation, s.config.usesM3, Some(s))
  }

  /** `recovery` is present exactly while an activation is pending recovery. */
  datatype Memory = Memory(current: View, recovery: Option<View>, prepared: bool)

  /** Options that compile no cache rules. */
  const NO_CACHE := Options(0, map[], false)

  function BaseOf(m: Memory): View {
    if m.recovery.Some? then m.recovery.value else m.current
  }

  /** Absent options are replaced by those of the target. */
  function FallbackOf(m: Memory, target: Snapshot): Snapshot {
    var base := BaseOf(m);
    if base.snapshot.Some? then base.snapshot.value
    else Snapshot(if base.known then base.config else DENY_ALL, base.generation,
                  if base.options.Some? then base.options.value else target.options)
  }

  /** The configuration the plain path goes back to, always compiled with the options of the target. */
  function PlainFallback(base: View): Config {
    if base.known then base.config else DENY_ALL
  }

  /**
   The fallback of a legacy state borrows the target's epoch and zone slots:
   for every target, exactly when neither a snapshot nor options are recorded.
   */
  lemma LegacyBorrows(m: Memory)
    ensures (forall target :: FallbackOf(m, target).options == target.options) <==>
            BaseOf(m).snapshot.None? && BaseOf(m).options.None?
  {
    var some, other := Snapshot(ZERO_CONFIG, 0, NO_CACHE), Snapshot(ZERO_CONFIG, 0, NO_CACHE.(epoch := 1));
    if forall target :: FallbackOf(m, target).options == target.options {
      assert FallbackOf(m, some).options == some.options && FallbackOf(m, other).options == other.options;
    }
  }

  /** Outside recovery the memory, the applied record and the kernel are one configuration. */
  ghost predicate Synced(s: State, m: Memory) {
    var c := m.current;
    && Settled(s)
    && (c.known <==> s.applied.Some?)
    && (c.known ==> c.config == s.applied.value.Config())
    && (!c.known ==> c.config == ZERO_CONFIG && c.snapshot.None?)
    && (c.snapshot.Some? ==> s.applied == Some(AppliedSnapshot(c.snapshot.value)))
    && (c.config.usesM3 ==> c.usesM3)
    && (c.config.usesM4 ==> c.snapshot.Some?)
  }

  /** In recovery the memory mirrors the journal. */
  predicate Mirrors(current: View, previous: View, j: Journal) {
    && current.known && current.config == j.desired
    && previous.config == j.previous && previous.known == j.previousKnown
    && previous.snapshot == j.previousSnapshot
    && (j.desiredSnapshot.Some? ==> current.snapshot == j.desiredSnapshot)
    && (j.desiredSnapshot.None? ==> !current.UsesM4() && !current.usesM3)
    && (j.previous.usesM3 ==> previous.usesM3)
    && (j.desired.usesM3 ==> current.usesM3)
  }

  ghost predicate Coherent(s: State, m: Memory) {
    if m.recovery.Some? then s.journal.Some? && Mirrors(m.current, m.recovery.value, s.journal.value) && !m.prepared
    else Synced(s, m)
  }

  /** Memory, applied record and kernel are back at the rollback configuration. */
  ghost predicate Restored(s: State, m: Memory, rollback: Config, known: bool) {
    m.recovery.None? && s.journal.None? && Synced(s, m) && m.current.known == known && m.current.config == rollback
  }

  /** The memory after a completed compensation. */
  function RolledBack(previous: Snapshot, rollback: Config, known: bool): Memory {
    Memory(ViewOf(previous).(config := rollback, known := known, snapshot := if known then Some(previous) else None),
           None, false)
  }

  lemma RolledBackRestores(s: State, previous: Snapshot, rollback: Config, known: bool)
    requires Durable(s) && s.journal.None?
    requires s.applied == if known then Some(AppliedSnapshot(previous)) else None
    requires known ==> rollback == previous.config
    requires !known ==> rollback == ZERO_CONFIG
    ensures Coherent(s, RolledBack(previous, rollback, known))
            && Restored(s, RolledBack(previous, rollback, known), rollback, known)
  {
    hide Agrees, Empty;
  }

  /** The journal names the rollback and the configuration the kernel may hold besides it. */
  ghost predicate Undoable(s: State, j: Journal, source: Config, attempted: Config, rollback: Config, known: bool) {
    && s.journal == Some(j) && Journaled(s, j)
    && rollback == j.previous && known == j.previousKnown
    && (source == j.previous || source == j.desired)
    && (attempted == j.previous || attempted == j.desired)
    && (j.desired == attempted || j.desired == source)
  }

  /** Replaying the attempted configuration onto itself when nothing preceded it. */
  lemma WithinSelf(k: Kernel, source: Config, desired: Config, previous: Config, a: Attempt)
    requires Configured(source) && Configured(previous) && Within(k, Mixture(previous, source)) && desired == source
    requires previous == ZERO_CONFIG
    requires RestoreEffect(k, source.net, desired.net, a).ok
    ensures Exactly(RestoreEffect(k, source.net, desired.net, a).kernel, desired.net)
  {
    hide ExecPlan, Plan, RestoreEffect;
    WithinMonotone(k, Mixture(previous, source), Mixture(source, desired));
    RestoreReaches(k, source, desired, a);
  }

  /** Kernel and disk: what outlives the process. */
  class World {
    var applied: Option<Applied>
    var journal: Option<Journal>
    var nft: Nft
    var proxyRouting: bool
    const network: Reconciler

    constructor (network: Reconciler)
      requires Exactly(network.kernel, EMPTY_CONFIG)
      ensures this.network == network && applied.None? && journal.None?
      ensures Durable(S())
    {
      this.network := network;
      applied, journal := None, None;
      nft, proxyRouting := Nft(None, false, false), false;
    }

    ghost function S(): State
      reads this, network
    {
      State(applied, journal, nft, proxyRouting, network.kernel)
    }
  }

  class Controller {
    const world: World
    var current: View
    var recovery: Option<View>
    var prepared: bool

    /** A compensation failed: only a restart may retry. */
    var stuck: bool

    ghost function M(): Memory
      reads this
    {
      Memory(current, recovery, prepared)
    }

    ghost predicate Valid()
      reads this, world, world.network
    {
      Durable(world.S()) && (stuck || Coherent(world.S(), M()))
    }

    /** `NewController`: memory comes from the applied record, then from the journal. */
    constructor (world: World)
      requires Durable(world.S())
      ensures this.world == world && Valid() && !stuck
      ensures recovery.Some? == world.journal.Some?
      ensures world.applied.None? && world.journal.None? ==> M() == Memory(NOTHING, None, false)
    {
      hide Within, Exactly, Configured, Mixture;
      this.world := world;
      var known := NOTHING;
      if world.applied.Some? {
        var a := world.applied.value;
        known := if a.AppliedSnapshot? then ViewOf(a.snapshot) else NOTHING.(config := a.value, known := true);
      }
      current, recovery := known, None;
      if world.journal.Some? {
        var j := world.journal.value;
        recovery := Some(NOTHING.(config := j.previous, known := j.previousKnown));
        if j.previousSnapshot.Some? {
          recovery := Some(ViewOf(j.previousSnapshot.value).(config := j.previous, known := j.previousKnown));
        }
        current := known.(config := j.desired, known := true, generation := 0, usesM3 := false);
        if j.desiredSnapshot.Some? {
          current := ViewOf(j.desiredSnapshot.value).(config := j.desired);
        }
      }
      prepared, stuck := false, false;
    }

    /** `validateRecoveryTarget`: a pending journal admits only its own two configurations. */
    predicate RecoveryTarget(desired: Config)
      reads this
    {
      recovery.Some? ==> desired == current.config || (recovery.value.known && desired == recovery.value.config)
    }

    /** `reconcileActivationNetwork` */
    method ReconcileNetwork(source: Config, desired: Config, previous: Config, known: bool, f: ApplyFates)
      returns (exit: Exit)
      requires recovery.None? ==>
               Configured(source) && Configured(desired) && Within(world.network.kernel, Mixture(source, desired))
      requires recovery.Some? ==>
                 && Configured(source) && Configured(previous)
                    && Within(world.network.kernel, Mixture(previous, source))
                 && (desired == source || (known && desired == previous)) && (!known ==> previous == ZERO_CONFIG)
      modifies world.network
      ensures recovery.None? ==> Within(world.network.kernel, Mixture(source, desired))
      ensures recovery.Some? ==> Within(world.network.kernel, Mixture(previous, source))
      ensures exit.Done? ==> Exactly(world.network.kernel, desired.net)
    {
      hide Within, Covers, ExecPlan, Plan, RestoreEffect, ReconcileEffect, ObjectsOf, Union;
      ghost var k := world.network.kernel;
      if recovery.None? {
        ReconcileKeeps(k, source, desired, source, desired, f.reconcile.there, f.reconcile.back);
        var ok := world.network.Reconcile(source.net, desired.net, f.reconcile.there, f.reconcile.back);
        if ok { ReconcileReaches(k, source, desired, f.reconcile.there, f.reconcile.back); }
        return if f.reconcile.dies then Crashed else if ok then Done else Failed;
      }
      RestoreKeeps(k, source, desired, previous, source, f.reconcile.there);
      var ok := world.network.Restore(source.net, desired.net, f.reconcile.there);
      if f.reconcile.dies { return Crashed; }
      if !ok { return Failed; }
      if !known {
        WithinSelf(k, source, desired, previous, f.reconcile.there);
        return Done;
      }
      RestoreKeeps(world.network.kernel, previous, desired, previous, source, f.replay.there);
      ok := world.network.Restore(previous.net, desired.net, f.replay.there);
      if ok { ReplayReaches(k, source, previous, desired, f.reconcile.there, f.replay.there); }
      return if f.replay.dies then Crashed else if ok then Done else Failed;
    }

    // ---------------------------------------------------------- compensation

    /** The kernel half of a compensation: routing, nft, then both network plans. */
    method UndoKernel(source: Config, attempted: Snapshot, rollback: Config, known: bool,
                      previous: Snapshot, f: UndoFates, ghost j: Journal) returns (exit: Exit)
      requires Undoable(world.S(), j, source, attempted.config, rollback, known)
      requires previous.config == if known then rollback else DENY_ALL
      requires j.desired.usesM4 ==> attempted.config.usesM4 || current.UsesM4()
      modifies world, world.network
      ensures world.applied == old(world.applied) && world.journal == old(world.journal)
      ensures Journaled(world.S(), j)
      ensures exit.Done? ==> Exactly(world.network.kernel, rollback.net) && world.nft == BundleOf(previous)
                             && world.proxyRouting == previous.config.usesM4
    {
      hide Within, Covers, ExecPlan, Plan, RestoreEffect, ObjectsOf, Union, Validated;
      var errs := false;
      if previous.config.usesM4 {
        if !f.proxyReady { errs := true; }
        if f.route.Took() { world.proxyRouting := true; }
        if f.route.Dies? { return Crashed; }
        if f.route.Errs? { errs := true; }
      }
      if f.nft.Took() { world.nft := BundleOf(previous); }
      if f.nft.Dies? { return Crashed; }
      if f.nft.Errs? { errs := true; }
      if !previous.config.usesM4 && (attempted.config.usesM4 || current.UsesM4()) {
        if f.unroute.Took() { world.proxyRouting := false; }
        if f.unroute.Dies? { return Crashed; }
        if f.unroute.Errs? { errs := true; }
      }
      exit := UndoNetwork(source, attempted.config, rollback, f, j.desired);
      if exit.Done? && errs { exit := Failed; }
    }

    method UndoNetwork(source: Config, attempted: Config, rollback: Config, f: UndoFates, ghost d: Config)
      returns (exit: Exit)
      requires Configured(rollback) && Configured(d) && Within(world.network.kernel, Mixture(rollback, d))
      requires source == rollback || source == d
      requires attempted == rollback || attempted == d
      requires d == attempted || d == source
      modifies world.network
      ensures Within(world.network.kernel, Mixture(rollback, d))
      ensures exit.Done? ==> Exactly(world.network.kernel, rollback.net)
    {
      hide Within, Covers, ExecPlan, Plan, RestoreEffect, ObjectsOf, Union;
      ghost var k := world.network.kernel;
      RestoreKeeps(k, attempted, rollback, rollback, d, f.undoTarget.there);
      var ok := world.network.Restore(attempted.net, rollback.net, f.undoTarget.there);
      if f.undoTarget.dies { return Crashed; }
      RestoreKeeps(world.network.kernel, source, rollback, rollback, d, f.undoSource.there);
      var ok' := world.network.Restore(source.net, rollback.net, f.undoSource.there);
      if f.undoSource.dies { return Crashed; }
      if !ok || !ok' { return Failed; }
      UndoReaches(k, attempted, source, rollback, d, f.undoTarget.there, f.undoSource.there);
      return Done;
    }

    /** The file half: the applied record first, the journal last. */
    method UndoFiles(previous: Snapshot, known: bool, f: UndoFates, ghost j: Journal) returns (exit: Exit)
      requires world.journal == Some(j) && Journaled(world.S(), j) && known == j.previousKnown
      requires previous.config == if known then j.previous else DENY_ALL
      requires Exactly(world.network.kernel, j.previous.net) && world.nft == BundleOf(previous)
      requires world.proxyRouting == previous.config.usesM4
      modifies world
      ensures world.nft == old(world.nft)
      ensures Durable(world.S())
      ensures exit.Done? ==>
              world.journal.None? && world.applied == if known then Some(AppliedSnapshot(previous)) else None
    {
      hide Within, Covers, ObjectsOf, Union, Validated, Mixture;
      if f.save.Took() { world.applied := if known then Some(AppliedSnapshot(previous)) else None; }
      if !f.save.Fine? { return ExitOf(f.save); }
      if f.remove.Took() { world.journal := None; }
      return ExitOf(f.remove);
    }

    /** `restoreM3AfterFailure`: put the previous snapshot back and forget the attempt. */
    method RestoreM3AfterFailure(source: Config, attempted: Snapshot, rollback: Config, known: bool,
                                 previous: Snapshot, f: UndoFates, ghost j: Journal) returns (exit: Exit)
      requires Undoable(world.S(), j, source, attempted.config, rollback, known)
      requires previous.config == if known then rollback else DENY_ALL
      requires j.desired.usesM4 ==> attempted.config.usesM4 || current.UsesM4()
      modifies this, world, world.network
      ensures exit.Failed? || exit.Crashed?
      ensures Durable(world.S())
      ensures exit.Failed? ==> Valid()
      ensures exit.Failed? && !stuck ==> Restored(world.S(), M(), rollback, known) && world.nft == BundleOf(previous)
    {
      hide Within, Exactly, Validated, Mixture;
      exit := UndoKernel(source, attempted, rollback, known, previous, f, j);
      if exit.Done? { exit := UndoFiles(previous, known, f, j); }
      if exit.Crashed? { return; }
      if exit.Done? {
        RolledBackRestores(world.S(), previous, rollback, known);
        var m := RolledBack(previous, rollback, known);
        current, recovery, prepared, stuck := m.current, m.recovery, m.prepared, false;
      } else {
        current, recovery := ViewOf(attempted), Some(ViewOf(previous).(config := rollback, known := known));
        prepared, stuck := false, true;
      }
      return Failed;
    }

    // ------------------------------------------------------------ activation

    /** The forward half: network, routing, nft, cleanup, then the applied record. */
    method Activate(source: Config, target: Snapshot, rollback: Config, known: bool, previous: Snapshot,
                    f: ApplyFates, ghost j: Journal) returns (exit: Exit)
      requires Undoable(world.S(), j, source, target.config, rollback, known)
      requires recovery.None? ==> source == j.previous && target.config == j.desired
      requires recovery.Some? ==> source == j.desired && (target.config == j.desired || known)
      requires previous.config == if known then rollback else DENY_ALL
      requires j.desired.usesM4 ==> target.config.usesM4 || current.UsesM4()
      modifies world, world.network
      ensures world.journal == Some(j) && Journaled(world.S(), j)
      ensures exit.Done? ==>
              world.applied == Some(AppliedSnapshot(target)) && Agrees(world.S(), AppliedSnapshot(target))
    {
      hide Within, Covers, ExecPlan, Plan, ReconcileEffect, ObjectsOf, Union, Validated;
      exit := ReconcileNetwork(source, target.config, rollback, known, f);
      if !exit.Done? { return; }
      if target.config.usesM4 {
        if f.route.Took() { world.proxyRouting := true; }
        if !f.route.Fine? { return ExitOf(f.route); }
      }
      if f.nft.Took() { world.nft := BundleOf(target); }
      if !f.nft.Fine? { return ExitOf(f.nft); }
      if !target.config.usesM4 && (previous.config.usesM4 || current.UsesM4()) {
        if f.unroute.Took() { world.proxyRouting := false; }
        if !f.unroute.Fine? { return ExitOf(f.unroute); }
      }
      if !target.config.usesM3 && !f.clean.Fine? { return ExitOf(f.clean); }
      if f.save.Took() { world.applied := Some(AppliedSnapshot(target)); }
      return ExitOf(f.save);
    }

    /** The snapshot a failed activation falls back to, as `applySnapshot` prepares it. */
    method PrepareFallback(target: Snapshot) returns (previous: Snapshot)
      ensures previous == FallbackOf(M(), target)
    {
      var base := if recovery.Some? then recovery.value else current;
      var config := if base.known then base.config else DENY_ALL;
      var options := base.options;
      if options.None? { options := Some(target.options); }
      if recovery.Some? && recovery.value.snapshot.Some? { return recovery.value.snapshot.value; }
      if recovery.None? && current.snapshot.Some? { return current.snapshot.value; }
      previous := Snapshot(config, base.generation, options.value);
      // absent options have been replaced above, so this is never taken
      if current.snapshot.None? && (recovery.Some? ==> recovery.value.snapshot.None?) && options.None? {
        previous := Snapshot(config, base.generation, NO_CACHE);
      }
    }

    /** `applySnapshot` */
    method ApplySnapshot(target: Snapshot, retain: bool, f: ApplyFates) returns (exit: Exit)
      requires Valid() && !stuck && Configured(target.config)
      modifies this, world, world.network
      ensures Durable(world.S())
      ensures !exit.Crashed? ==> Valid()
      ensures exit.Done? ==>
                && !stuck && recovery.None? && current == ViewOf(target) && prepared == retain
                && Agrees(world.S(), AppliedSnapshot(target)) && world.journal.Some? == retain
                && (retain && old(recovery).None? ==>
                      world.journal.value.previousSnapshot == Some(FallbackOf(old(M()), target)))
      ensures exit.Failed? && !stuck ==>
                || (M() == old(M()) && world.nft == old(world.nft))
                || current == ViewOf(target)
                || (&& Restored(world.S(), M(), old(BaseOf(M())).config, old(BaseOf(M())).known)
                    && world.nft == BundleOf(FallbackOf(old(M()), target)))
    {
      hide Within, Exactly, Covers, Mixture, Validated;
      if !RecoveryTarget(target.config) || !f.compiles || (target.config.usesM4 && !f.proxyReady) { return Failed; }
      var base := if recovery.Some? then recovery.value else current;
      var previous := PrepareFallback(target);
      if !f.forwarding.Fine? { return ExitOf(f.forwarding); }
      if recovery.None? {
        var entry := Journal(base.config, base.known, Some(previous), target.config, Some(target));
        StartJournal(world.S(), M(), target, previous);
        if f.journal.Took() { world.journal := Some(entry); }
        if !f.journal.Fine? { return ExitOf(f.journal); }
      }
      exit := Activate(current.config, target, base.config, base.known, previous, f, world.journal.value);
      if exit.Failed? {
        exit := RestoreM3AfterFailure(current.config, target, base.config, base.known, previous, f.undo,
                                      world.journal.value);
        return;
      }
      if exit.Crashed? { return; }
      current, recovery, prepared := ViewOf(target), None, retain;
      if !retain {
        if f.remove.Took() { world.journal := None; }
        exit := ExitOf(f.remove);
      }
    }

    /** `FinalizeActivation`: drop the journal once disk and memory name the same target. */
    method FinalizeActivation(expected: Config, generation: nat, verified: bool, f: Fate) returns (exit: Exit)
      requires Valid() && !stuck
      modifies this, world
      ensures Durable(world.S())
      ensures !exit.Crashed? ==> Valid() && !stuck
      ensures exit.Done? && old(prepared) ==>
                && world.journal.None? && current.snapshot.Some?
                && current.snapshot.value.generation == generation && current.snapshot.value.config == expected
                && Agrees(world.S(), AppliedSnapshot(current.snapshot.value))
    {
      hide Within, Exactly, Covers, Mixture, Validated;
      if !prepared { return Done; }
      if current.snapshot.None? || current.snapshot.value.generation != generation { return Failed; }
      if current.snapshot.value.config != expected { return Failed; }
      if world.applied != Some(AppliedSnapshot(current.snapshot.value)) { return Failed; }
      if current.UsesM4() && !verified { return Failed; }
      if f.Took() { world.journal := None; }
      if f.Fine? { prepared := false; }
      return ExitOf(f);
    }

    // ------------------------------------------------- the plain M2 path

    /** Neither side of the transition, nor anything it may undo, uses inspection or interception. */
    predicate Plain()
      reads this
    {
      Uninspected() && !current.UsesM4() && (recovery.Some? ==> !recovery.value.UsesM4())
    }

    predicate Uninspected()
      reads this
    {
      !current.usesM3 && (recovery.Some? ==> !recovery.value.usesM3)
    }

    /** `restoreAfterFailure`: the old rules are recompiled with the target's options. */
    method RestoreAfterFailure(source: Config, attempted: Config, rollback: Config, known: bool, options: Options,
                               f: UndoFates, ghost j: Journal) returns (exit: Exit)
      requires Undoable(world.S(), j, source, attempted, rollback, known)
      requires !j.previous.usesM3 && !j.previous.usesM4 && !j.desired.usesM3 && !j.desired.usesM4
      modifies this, world, world.network
      ensures exit.Failed? || exit.Crashed?
      ensures Durable(world.S())
      ensures exit.Failed? ==> Valid()
      ensures exit.Failed? && !stuck ==>
                && Restored(world.S(), M(), rollback, known)
                && world.nft.policy == Some((if known then rollback else DENY_ALL, options))
    {
      hide Within, Exactly, Validated, Mixture;
      if f.nft.Took() { world.nft := world.nft.(policy := Some((if known then rollback else DENY_ALL, options))); }
      if f.nft.Dies? { return Crashed; }
      exit := UndoNetwork(source, attempted, rollback, f, j.desired);
      if exit.Crashed? { return; }
      if exit.Done? && f.nft.Fine? {
        if f.save.Took() { world.applied := if known then Some(AppliedConfig(rollback)) else None; }
        exit := ExitOf(f.save);
        if exit.Done? {
          if f.remove.Took() { world.journal := None; }
          exit := ExitOf(f.remove);
        }
        if exit.Crashed? { return; }
        if exit.Done? {
          current := current.(config := rollback, known := known, snapshot := None);
          recovery, stuck := None, false;
          return Failed;
        }
      }
      current, recovery := current.(config := attempted, known := true, snapshot := None),
                           Some(NOTHING.(config := rollback, known := known));
      stuck := true;
      return Failed;
    }

    /** The forward half of `apply`. */
    method ActivatePlain(source: Config, desired: Config, rollback: Config, known: bool, options: Options,
                         f: ApplyFates, ghost j: Journal) returns (exit: Exit)
      requires Undoable(world.S(), j, source, desired, rollback, known)
      requires recovery.None? ==> source == j.previous && desired == j.desired
      requires recovery.Some? ==> source == j.desired && (desired == j.desired || known)
      requires !j.previous.usesM3 && !j.previous.usesM4 && !j.desired.usesM3 && !j.desired.usesM4
      modifies world, world.network
      ensures world.journal == Some(j) && Journaled(world.S(), j)
      ensures exit.Done? ==> world.applied == Some(AppliedConfig(desired)) && Agrees(world.S(), AppliedConfig(desired))
                             && world.nft.policy == Some((desired, options))
    {
      hide Within, Exactly, Validated, Mixture;
      exit := ReconcileNetwork(source, desired, rollback, known, f);
      if !exit.Done? { return; }
      if f.nft.Took() { world.nft := world.nft.(policy := Some((desired, options))); }
      if !f.nft.Fine? { return ExitOf(f.nft); }
      if f.save.Took() { world.applied := Some(AppliedConfig(desired)); }
      return ExitOf(f.save);
    }

    /** `ApplyM2` over `apply` */
    method ApplyM2(desired: Config, options: Options, f: ApplyFates) returns (exit: Exit)
      requires Valid() && !stuck && Configured(desired) && Uninspected() && !desired.usesM3
      modifies this, world, world.network
      ensures Durable(world.S())
      ensures !exit.Crashed? ==> Valid()
      ensures exit.Done? ==>
                && !stuck && recovery.None? && current.config == desired && world.journal.None?
                && world.applied == Some(AppliedConfig(desired)) && world.nft.policy == Some((desired, options))
      ensures exit.Failed? && !stuck ==>
                || (M() == old(M()) && world.nft == old(world.nft))
                || (current.config == desired && world.nft.policy == Some((desired, options)))
                || (&& Restored(world.S(), M(), old(BaseOf(M())).config, old(BaseOf(M())).known)
                    && world.nft.policy == Some((PlainFallback(old(BaseOf(M()))), options)))
    {
      hide Within, Exactly, Covers, Mixture, Validated;
      if desired.usesM4 || !RecoveryTarget(desired) { return Failed; }
      if current.UsesM4() || (recovery.Some? && recovery.value.UsesM4()) { return Failed; }
      if !f.compiles { return Failed; }
      var base := if recovery.Some? then recovery.value else current;
      if !f.forwarding.Fine? { return ExitOf(f.forwarding); }
      if recovery.None? {
        var entry := Journal(base.config, base.known, None, desired, None);
        StartPlainJournal(world.S(), M(), desired);
        if f.journal.Took() { world.journal := Some(entry); }
        if !f.journal.Fine? { return ExitOf(f.journal); }
      }
      exit := ActivatePlain(current.config, desired, base.config, base.known, options, f, world.journal.value);
      if exit.Failed? {
        exit := RestoreAfterFailure(current.config, desired, base.config, base.known, options, f.undo,
                                    world.journal.value);
        return;
      }
      if exit.Crashed? { return; }
      current, recovery := current.(config := desired, known := true, snapshot := None), None;
      if f.remove.Took() { world.journal := None; }
      if !f.remove.Fine? { return ExitOf(f.remove); }
      current := current.(options := Some(options), usesM3 := false);
      return Done;
    }

    /** `ApplyRuntime`: the bundle only when inspection or interception is, or was, in use. */
    method ApplyRuntime(desired: Config, options: Options, generation: nat, f: ApplyFates) returns (exit: Exit)
      requires Valid() && !stuck && Configured(desired)
      modifies this, world, world.network
      ensures Durable(world.S())
      ensures !exit.Crashed? ==> Valid()
      ensures exit.Done? ==>
                && !stuck && recovery.None? && world.journal.None?
                && current == ViewOf(Snapshot(desired, generation, options))
                && world.applied == Some(AppliedSnapshot(Snapshot(desired, generation, options)))
    {
      hide Within, Exactly, Covers, Mixture, Validated;
      var snapshot := Snapshot(desired, generation, options);
      if desired.usesM3 || desired.usesM4 || !Plain() {
        exit := ApplySnapshot(snapshot, false, f);
        return;
      }
      exit := ApplyM2(desired, options, f);
      if !exit.Done? { return; }
      if f.metadata.Took() { world.applied := Some(AppliedSnapshot(snapshot)); }
      if f.metadata.Fine? { current := ViewOf(snapshot); }
      return ExitOf(f.metadata);
    }

    /** `ApplyRuntimePrepared`: the commit path, which keeps the journal for finalization. */
    method ApplyRuntimePrepared(desired: Config, options: Options, generation: nat, f: ApplyFates) returns (exit: Exit)
      requires Valid() && !stuck && Configured(desired)
      modifies this, world, world.network
      ensures Durable(world.S())
      ensures !exit.Crashed? ==> Valid()
      ensures exit.Done? ==>
                && !stuck && recovery.None?
                && current.config == desired && current.generation == generation && current.snapshot.Some?
                && world.applied == Some(AppliedSnapshot(current.snapshot.value))
                && Agrees(world.S(), AppliedSnapshot(current.snapshot.value))
    {
      hide Within, Exactly, Covers, Mixture, Validated;
      if prepared && world.journal.Some? && world.journal.value.previousSnapshot.Some? {
        var stored := world.journal.value.previousSnapshot.value;
        if stored.generation == generation && stored.config == desired {
          exit := ApplySnapshot(stored, true, f);
          return;
        }
      }
      if desired.usesM3 || desired.usesM4 || !Plain() {
        exit := ApplySnapshot(Snapshot(desired, generation, options), true, f);
      } else {
        exit := ApplyRuntime(desired, options, generation, f);
      }
    }
  }

  /** One thing that can happen to an appliance between two quiet moments. */
  datatype Event =
    | Restart
    | Commit(desired: Config, options: Options, generation: nat, fates: ApplyFates)
    | Finalize(expected: Config, generation: nat, verified: bool, fate: Fate)

  /**
   Every run of activations, finalizations, failures and crashes.  A crash, and
   a compensation that failed, are followed by a restart.  The trace holds the
   state after each event; as a fate may end a call at any of its steps, every
   moment of every run is the end of some trace.
   */
  method Run(world: World, script: seq<Event>) returns (ghost trace: seq<State>)
    requires Durable(world.S())
    requires forall e :: e in script && e.Commit? ==> Configured(e.desired)
    modifies world, world.network
    ensures |trace| == |script| + 1
    ensures forall i :: 0 <= i < |trace| ==> Safe(trace[i])
    ensures trace[|script|] == world.S() && Durable(world.S())
  {
    hide Within, Exactly, Covers, Mixture, Validated, Agrees, Journaled, Settled, Coherent, Configured;
    trace := [world.S()];
    DurableIsSafe(world.S());
    var c := new Controller(world);
    for n := 0 to |script|
      invariant c.world == world && c.Valid() && fresh(c)
      invariant |trace| == n + 1 && trace[n] == world.S()
      invariant forall i :: 0 <= i <= n ==> Safe(trace[i])
    {
      var exit := if script[n].Restart? || c.stuck then Crashed else Failed;
      if exit.Failed? {
        match script[n]
        case Restart =>
        case Commit(desired, options, generation, fates) =>
          assert script[n] in script;
          exit := c.ApplyRuntimePrepared(desired, options, generation, fates);
        case Finalize(expected, generation, verified, fate) =>
          exit := c.FinalizeActivation(expected, generation, verified, fate);
      }
      if exit.Crashed? { c := new Controller(world); }
      DurableIsSafe(world.S());
      trace := trace + [world.S()];
    }
  }

  /**
   The first activation of an appliance: the journal names a fallback that
   denies everything under the options of the target, and a compensated failure
   leaves that fallback loaded.
   */
  method FirstActivation(world: World, target: Snapshot, f: ApplyFates) returns (exit: Exit, c: Controller)
    requires Durable(world.S()) && world.applied.None? && world.journal.None? && Configured(target.config)
    modifies world, world.network
    ensures var fallback := Snapshot(DENY_ALL, 0, target.options);
            && (exit.Done? ==>
                  world.journal.Some? && world.journal.value.previousSnapshot == Some(fallback))
            && (exit.Failed? && !c.stuck && world.nft != old(world.nft) && c.current != ViewOf(target) ==>
                  world.nft == BundleOf(fallback))
  {
    hide Within, Exactly, Covers, Mixture, Validated;
    c := new Controller(world);
    exit := c.ApplySnapshot(target, true, f);
  }

  lemma StartJournal(s: State, m: Memory, target: Snapshot, previous: Snapshot)
    requires Coherent(s, m) && m.recovery.None? && Configured(target.config)
    requires previous.config == if m.current.known then m.current.config else DENY_ALL
    ensures var j := Journal(m.current.config, m.current.known, Some(previous), target.config, Some(target));
            Journaled(s.(journal := Some(j)), j)
  {
    hide Within, Exactly, Covers, Mixture, Validated;
    EmptyConfigured();
    JournalStarts(s, Journal(m.current.config, m.current.known, Some(previous), target.config, Some(target)));
  }

  lemma StartPlainJournal(s: State, m: Memory, desired: Config)
    requires Coherent(s, m) && m.recovery.None? && Configured(desired)
    requires !desired.usesM3 && !desired.usesM4 && !m.current.usesM3 && !m.current.UsesM4()
    ensures var j := Journal(m.current.config, m.current.known, None, desired, None);
            Journaled(s.(journal := Some(j)), j)
  {
    hide Within, Exactly, Covers, Mixture, Validated;
    EmptyConfigured();
    JournalStarts(s, Journal(m.current.config, m.current.known, None, desired, None));
  }
}
