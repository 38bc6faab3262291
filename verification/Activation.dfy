/**
 Journaled activation.

 The controller coordinates four stores: the managed network objects, the nft
 tables, the policy routing of the interception proxy and two files, the
 applied record and the activation journal.  Every call to one of them may
 fail, with or without having taken effect, and the process may die before or
 after any of them.  The predicates on `State` say what survives a crash; the
 class below is the controller.
 */
module Activation {
  import opened Wrappers
  import opened Network
  import opened NetworkReconciler
  import opened NetworkProofs

  /** Compiler metadata of one activation. */
  datatype Options = Options(epoch: nat, zoneSlots: map<string, nat>, cacheEnabled: bool)

  /** A configuration: its network part and the identity of everything else. */
  datatype Config = Config(net: NetConfig, rest: nat, usesM3: bool, usesM4: bool)

  const ZERO_CONFIG := Config(EMPTY_CONFIG, 0, false, false)

  /** The fail-closed policy restored when no previous configuration is known. */
  const DENY_ALL := Config(EMPTY_CONFIG, 1, false, false)

  datatype Snapshot = Snapshot(config: Config, generation: nat, options: Options)

  datatype Applied = AppliedConfig(value: Config) | AppliedSnapshot(snapshot: Snapshot) {
    function Config(): Config {
      if AppliedConfig? then value else snapshot.config
    }
  }

  /** The write-ahead record; both snapshots are absent for the plain M2 path. */
  datatype Journal = Journal(
    previous: Config, previousKnown: bool, previousSnapshot: Option<Snapshot>,
    desired: Config, desiredSnapshot: Option<Snapshot>)

  /** The policy in force, and whether inspection and interception selectors are loaded. */
  datatype Nft = Nft(policy: Option<(Config, Options)>, inspects: bool, intercepts: bool)

  datatype State = State(applied: Option<Applied>, journal: Option<Journal>, nft: Nft, proxyRouting: bool, net: Kernel)

  function BundleOf(s: Snapshot): Nft {
    Nft(Some((s.config, s.options)), s.config.usesM3, s.config.usesM4)
  }

  // ---------------------------------------------------------- durable state

  ghost predicate Configured(c: Config) {
    Validated(c.net)
  }

  /** Network, nft and proxy routing all equal the applied record. */
  ghost predicate Agrees(s: State, record: Applied) {
    var c := record.Config();
    && Configured(c)
    && Exactly(s.net, c.net)
    && s.nft.policy.Some? && s.nft.policy.value.0 == c
    && (record.AppliedSnapshot? ==> s.nft.policy.value.1 == record.snapshot.options)
    && s.nft.inspects == c.usesM3
    && s.nft.intercepts == c.usesM4
    && s.proxyRouting == c.usesM4
    && (record.AppliedConfig? ==> !c.usesM3 && !c.usesM4)
  }

  ghost predicate Empty(s: State) {
    && Exactly(s.net, EMPTY_CONFIG)
    && !s.nft.inspects && !s.nft.intercepts && !s.proxyRouting
  }

  ghost predicate Settled(s: State) {
    if s.applied.Some? then Agrees(s, s.applied.value) else Empty(s)
  }

  function Mixture(p: Config, d: Config): Objects
    requires RoutesResolved(p.net) && ParentsKnown(p.net) && RoutesResolved(d.net) && ParentsKnown(d.net)
  {
    Union(ObjectsOf(p.net), ObjectsOf(d.net))
  }

  /** While a journal exists the kernel holds only objects of its two configurations. */
  ghost predicate Journaled(s: State, j: Journal) {
    && Configured(j.previous) && Configured(j.desired)
    && Within(s.net, Mixture(j.previous, j.desired))
    && (s.nft.inspects ==> j.previous.usesM3 || j.desired.usesM3)
    && (s.nft.intercepts ==> j.previous.usesM4 || j.desired.usesM4)
    && (s.proxyRouting ==> j.previous.usesM4 || j.desired.usesM4)
    && (!j.previousKnown ==> j.previous == ZERO_CONFIG)
    && (j.previousSnapshot.Some? <==> j.desiredSnapshot.Some?)
    && (j.previousSnapshot.Some? ==>
          && j.previousSnapshot.value.config == (if j.previousKnown then j.previous else DENY_ALL)
          && j.desiredSnapshot.value.config == j.desired)
    && (j.previousSnapshot.None? ==>
          && !j.previous.usesM3 && !j.previous.usesM4 && !j.desired.usesM3 && !j.desired.usesM4
          && (s.applied.Some? ==> !s.applied.value.Config().usesM3 && !s.applied.value.Config().usesM4))
  }

  /** What a crash leaves behind. */
  ghost predicate Durable(s: State) {
    if s.journal.Some? then Journaled(s, s.journal.value) else Settled(s)
  }

  /**
   The safety property: without a journal, the applied record describes the
   kernel; with one, the kernel holds only objects of its two configurations.
   */
  ghost predicate Safe(s: State) {
    && (s.applied.Some? && s.journal.None? ==> Agrees(s, s.applied.value))
    && (s.journal.Some? ==>
          && Configured(s.journal.value.previous) && Configured(s.journal.value.desired)
          && Within(s.net, Mixture(s.journal.value.previous, s.journal.value.desired)))
  }

  lemma DurableIsSafe(s: State)
    requires Durable(s)
    ensures Safe(s)
  {
  }

  // ------------------------------------------------------- value-level steps

  /** A settled state becomes a journaled one by writing the journal alone. */
  lemma JournalStarts(s: State, j: Journal)
    requires Settled(s) && Configured(j.previous) && Configured(j.desired)
    requires s.applied.Some? ==> j.previousKnown && j.previous == s.applied.value.Config()
    requires s.applied.None? ==> !j.previousKnown && j.previous == ZERO_CONFIG
    requires j.previousSnapshot.Some? <==> j.desiredSnapshot.Some?
    requires j.previousSnapshot.Some? ==>
               && j.previousSnapshot.value.config == (if j.previousKnown then j.previous else DENY_ALL)
               && j.desiredSnapshot.value.config == j.desired
    requires j.previousSnapshot.None? ==>
             !j.previous.usesM3 && !j.previous.usesM4 && !j.desired.usesM3 && !j.desired.usesM4
    ensures Journaled(s.(journal := Some(j)), j)
  {
    WithinMonotone(s.net, ObjectsOf(j.previous.net), Mixture(j.previous, j.desired));
  }

  lemma EmptyConfigured()
    ensures Configured(ZERO_CONFIG) && Configured(DENY_ALL)
  {
  }

  /** One directed restore between journaled configurations keeps the mixture. */
  lemma RestoreKeeps(k: Kernel, from: Config, to: Config, p: Config, d: Config, a: Attempt)
    requires Configured(p) && Configured(d) && Within(k, Mixture(p, d))
    requires from == p || from == d
    requires to == p || to == d
    ensures Within(RestoreEffect(k, from.net, to.net, a).kernel, Mixture(p, d))
  {
    PlanStaysWithin(from.net, to.net, k, a.env, Mixture(p, d));
  }

  lemma ReconcileKeeps(k: Kernel, from: Config, to: Config, p: Config, d: Config, a: Attempt, back: Attempt)
    requires Configured(p) && Configured(d) && Within(k, Mixture(p, d))
    requires from == p || from == d
    requires to == p || to == d
    ensures Within(ReconcileEffect(k, from.net, to.net, a, back).kernel, Mixture(p, d))
  {
    RestoreKeeps(k, from, to, p, d, a);
    RestoreKeeps(RestoreEffect(k, from.net, to.net, a).kernel, to, from, p, d, back);
  }

  /** A plan that completes and passes the transition check ends in exactly its target. */
  lemma VerifiedReaches(k: Kernel, from: Config, to: Config, a: Attempt)
    requires Configured(from) && Configured(to) && Within(k, Mixture(from, to))
    requires RestoreEffect(k, from.net, to.net, a).ok
    ensures Exactly(RestoreEffect(k, from.net, to.net, a).kernel, to.net)
  {
    hide ExecPlan, Plan, Within, Covers, ObjectsOf;
    var r := ExecPlan(Plan(from.net, to.net), k, a.env);
    PlanRemovesPrevious(from.net, to.net, k, a.env, Mixture(from, to));
    WithinMonotone(r.kernel, Union(Minus(Mixture(from, to), ObjectsOf(from.net)), ObjectsOf(to.net)),
                   ObjectsOf(to.net));
  }

  lemma ReconcileReaches(k: Kernel, from: Config, to: Config, a: Attempt, back: Attempt)
    requires Configured(from) && Configured(to) && Within(k, Mixture(from, to))
    requires ReconcileEffect(k, from.net, to.net, a, back).ok
    ensures Exactly(ReconcileEffect(k, from.net, to.net, a, back).kernel, to.net)
  {
    VerifiedReaches(k, from, to, a);
  }

  lemma RestoreReaches(k: Kernel, from: Config, to: Config, a: Attempt)
    requires Configured(from) && Configured(to) && Within(k, Mixture(from, to))
    requires RestoreEffect(k, from.net, to.net, a).ok
    ensures Exactly(RestoreEffect(k, from.net, to.net, a).kernel, to.net)
  {
    VerifiedReaches(k, from, to, a);
  }

  /** The two recovery replays, from the attempted and from the previous configuration. */
  lemma ReplayReaches(k: Kernel, d: Config, p: Config, target: Config, a: Attempt, b: Attempt)
    requires Configured(d) && Configured(p) && Configured(target) && Within(k, Mixture(p, d))
    requires RestoreEffect(k, d.net, target.net, a).ok
    requires RestoreEffect(RestoreEffect(k, d.net, target.net, a).kernel, p.net, target.net, b).ok
    ensures Exactly(RestoreEffect(RestoreEffect(k, d.net, target.net, a).kernel, p.net, target.net, b).kernel,
                    target.net)
  {
    WithinMonotone(k, Mixture(p, d), Union(ObjectsOf(d.net), ObjectsOf(p.net)));
    RecoveryCleans(d.net, p.net, target.net, k, a.env, b.env);
  }

  /** The two compensation plans back to the rollback configuration. */
  lemma UndoReaches(k: Kernel, attempted: Config, source: Config, rollback: Config, d: Config, a: Attempt, b: Attempt)
    requires Configured(attempted) && Configured(source) && Configured(rollback) && Configured(d)
    requires d == attempted || d == source
    requires Within(k, Mixture(rollback, d))
    requires RestoreEffect(k, attempted.net, rollback.net, a).ok
    requires RestoreEffect(RestoreEffect(k, attempted.net, rollback.net, a).kernel, source.net, rollback.net, b).ok
    ensures Exactly(RestoreEffect(RestoreEffect(k, attempted.net, rollback.net, a).kernel, source.net, rollback.net,
                                  b).kernel, rollback.net)
  {
    CompensationCleans(attempted.net, source.net, rollback.net, d.net, k, a.env, b.env);
  }
}
