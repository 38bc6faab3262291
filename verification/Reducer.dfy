/**
 The inspection reducer and the install-intent protocol of one session.  The
 store commits a reduction by compare-and-swap on the inspection revision and
 adds one to it; an acknowledged intent is merged into the latest state.
 */
module Reducer {
  import opened Wrappers
  import opened Applications

  datatype Mode = Off | Ids | Ips

  datatype PolicyState = NotApplicable | PendingApp | Matched | Mismatch | UnknownAllowed

  datatype Mechanism = NoMechanism | PacketQueue | SessionGuard

  datatype Status = NotRequested | Pending | Applied | Unavailable | Failed | Reported

  datatype Action = NoAction | Drop | Allow

  /** Operation ids spell out the session and the revision they were issued for. */
  datatype Operation = Operation(session: string, revision: nat)

  datatype Enforcement = Enforcement(mechanism: Mechanism, action: Action, status: Status, operation: Option<Operation>)

  const NO_ENFORCEMENT: Enforcement := Enforcement(NoMechanism, NoAction, NotRequested, None)

  datatype Inspection = Inspection(
    generation: nat, revision: nat, mode: Mode, profile: string, app: App, policy: PolicyState, deadline: Option<int>,
    threats: nat, lastEvent: string, enforcement: Enforcement)

  const DEFAULT: Inspection := Inspection(0, 0, Off, "", UNKNOWN, NotApplicable, None, 0, "", NO_ENFORCEMENT)

  datatype Selection = Selection(generation: nat, mode: Mode, profile: string, allowed: seq<string>, timeout: int)

  /** An alert with the enforcement its sensor reports; never a session guard. */
  datatype Alert = Alert(internal: bool, enforcement: Enforcement)

  datatype Observation = Observation(id: string, app: App, alert: Option<Alert>)

  datatype Intent = Intent(operation: Operation, session: string, identity: nat, generation: nat, expected: nat)

  datatype Reduction = Reduction(next: Inspection, intent: Option<Intent>)

  // ------------------------------------------------------------- evaluating

  /** `strongApplication` */
  predicate Strong(a: App) {
    !a.conflicted && a.source != PortHeuristic && (a.confidence == High || a.confidence == Verified)
  }

  /** `EvaluateAppRestriction` */
  function Evaluate(s: Selection, app: App, deadline: Option<int>, now: int): PolicyState {
    var a := Named(app);
    if |s.allowed| == 0 then NotApplicable
    else if a.conflicted then UnknownAllowed
    else if a.name == "UNKNOWN" || !Strong(a) then
      (if deadline.Some? && now >= deadline.value then UnknownAllowed else PendingApp)
    else if a.name in s.allowed then Matched
    else Mismatch
  }

  /** The method form walks the allowed names. */
  method EvaluateAppRestriction(s: Selection, app: App, deadline: Option<int>, now: int) returns (r: PolicyState)
    ensures r == Evaluate(s, app, deadline, now)
  {
    if |s.allowed| == 0 { return NotApplicable; }
    var a := Named(app);
    if a.conflicted { return UnknownAllowed; }
    if a.name == "UNKNOWN" || !Strong(a) {
      if deadline.Some? && now >= deadline.value { return UnknownAllowed; }
      return PendingApp;
    }
    for n := 0 to |s.allowed|
      invariant forall i :: 0 <= i < n ==> s.allowed[i] != a.name
    {
      if s.allowed[n] == a.name { return Matched; }
    }
    r := Mismatch;
  }

  /** The session's traffic is certainly of an application the policy forbids. */
  predicate Forbidden(s: Selection, policy: PolicyState, app: App) {
    policy == Mismatch && s.mode == Ips && Strong(app)
  }

  predicate GuardPending(e: Enforcement) {
    e.mechanism == SessionGuard && e.status == Pending
  }

  predicate GuardStands(e: Enforcement) {
    e.mechanism == SessionGuard && e.action == Drop && (e.status == Pending || e.status == Applied)
  }

  // --------------------------------------------------------------- reducing

  function Identified(current: Inspection, obs: Observation): App {
    if IsUnknown(obs.app) then Named(current.app) else Merge(current.app, obs.app)
  }

  predicate NewThreat(current: Inspection, obs: Observation) {
    obs.alert.Some? && !obs.alert.value.internal && current.lastEvent != obs.id
  }

  /** The enforcement after the alert, before the application rule is applied. */
  function AfterAlert(current: Inspection, obs: Observation): Enforcement {
    var e := current.enforcement;
    if NewThreat(current, obs) && !(e.mechanism == SessionGuard && (e.status == Pending || e.status == Applied))
    then obs.alert.value.enforcement else e
  }

  /** A pending guard that the evidence no longer supports is given up. */
  function Superseded(e: Enforcement, forbidden: bool): Enforcement {
    if GuardPending(e) && !forbidden then e.(status := Unavailable) else e
  }

  function Reduce(session: string, identity: nat, current: Inspection, s: Selection, obs: Observation,
                  now: int): Reduction {
    var base := current.(generation := s.generation, mode := s.mode, profile := s.profile);
    if s.mode == Off then Reduction(base.(policy := NotApplicable), None)
    else
      var app := Identified(current, obs);
      var policy := Evaluate(s, app, current.deadline, now);
      var forbidden := Forbidden(s, policy, app);
      var e := Superseded(AfterAlert(current, obs), forbidden);
      var operation := Operation(session, current.revision + 1);
      var issue := forbidden && !GuardStands(e);
      Reduction(
        base.(app := app, policy := policy,
              deadline := if |s.allowed| > 0 && current.deadline.None?
                  then Some(now + (if s.timeout <= 0 then 5000 else s.timeout)) else current.deadline,
              threats := if NewThreat(current, obs) then current.threats + 1 else current.threats,
              lastEvent := if NewThreat(current, obs) then obs.id else current.lastEvent,
              enforcement := if issue then Enforcement(SessionGuard, Drop, Pending, Some(operation)) else e),
        if issue then Some(Intent(operation, session, identity, s.generation, current.revision + 1)) else None)
  }

  /** `ReduceInspection`: a local copy is edited field by field. */
  method ReduceInspection(session: string, identity: nat, stored: Option<Inspection>, s: Selection, obs: Observation,
                          now: int)
    returns (r: Reduction)
    ensures r == Reduce(session, identity, if stored.Some? then stored.value else DEFAULT, s, obs, now)
  {
    hide Merge, Evaluate;
    var next := if stored.Some? then stored.value else DEFAULT;
    next := next.(generation := s.generation);
    next := next.(mode := s.mode, profile := s.profile);
    if s.mode == Off {
      next := next.(policy := NotApplicable);
      return Reduction(next, None);
    }
    next := Digest(next, obs);
    var policy := EvaluateAppRestriction(s, next.app, next.deadline, now);
    next := next.(policy := policy);
    if GuardPending(next.enforcement) && (policy != Mismatch || s.mode != Ips || !Strong(next.app)) {
      next := next.(enforcement := next.enforcement.(status := Unavailable));
    }
    if |s.allowed| > 0 && next.deadline.None? {
      next := next.(deadline := Some(now + (if s.timeout <= 0 then 5000 else s.timeout)));
    }
    var intent := None;
    if policy == Mismatch && s.mode == Ips && !next.app.conflicted && Strong(next.app)
       && !GuardStands(next.enforcement) {
      var operation := Operation(session, next.revision + 1);
      next := next.(enforcement := Enforcement(SessionGuard, Drop, Pending, Some(operation)));
      intent := Some(Intent(operation, session, identity, s.generation, next.revision + 1));
    }
    r := Reduction(next, intent);
  }

  /** Merge the observed application and count the threat. */
  method Digest(current: Inspection, obs: Observation) returns (next: Inspection)
    ensures next == current.(app := Identified(current, obs), enforcement := AfterAlert(current, obs),
                             threats := if NewThreat(current, obs) then current.threats + 1 else current.threats,
                             lastEvent := if NewThreat(current, obs) then obs.id else current.lastEvent)
  {
    hide Merge;
    next := current;
    if !IsUnknown(obs.app) {
      var app := MergeApplication(next.app, obs.app);
      next := next.(app := app);
    } else {
      next := next.(app := Named(next.app));
    }
    if obs.alert.Some? && !obs.alert.value.internal && next.lastEvent != obs.id {
      next := next.(threats := next.threats + 1, lastEvent := obs.id);
      var e := next.enforcement;
      if e.mechanism != SessionGuard || (e.status != Pending && e.status != Applied) {
        next := next.(enforcement := obs.alert.value.enforcement);
      }
    }
  }

  // ------------------------------------------------------------ re-selecting

  /** A fresh inspection that keeps the identity; none when the selection is the one stored. */
  function Reselected(session: string, identity: nat, stored: Option<Inspection>, s: Selection, deadline: int,
                      now: int): Option<Reduction> {
    var current := if stored.Some? then stored.value else DEFAULT;
    if stored.Some? && current.generation == s.generation && current.mode == s.mode && current.profile == s.profile
    then None
    else
      var restricted := s.mode != Off && |s.allowed| > 0;
      var policy := if restricted then Evaluate(s, current.app, Some(deadline), now) else NotApplicable;
      var guarded := current.enforcement.mechanism == SessionGuard && current.enforcement.status == Applied;
      var issue := restricted && Forbidden(s, policy, current.app) && !guarded;
      var operation := Operation(session, current.revision + 1);
      Some(Reduction(
        DEFAULT.(generation := s.generation, revision := current.revision, mode := s.mode, profile := s.profile,
                 app := current.app, policy := policy, deadline := if restricted then Some(deadline) else None,
                 enforcement := if issue then Enforcement(SessionGuard, Drop, Pending, Some(operation))
                                else NO_ENFORCEMENT),
        if issue then Some(Intent(operation, session, identity, s.generation, current.revision + 1)) else None))
  }

  /** `handleSessionChanged` up to its commit; `deadline` and `now` are its two readings of the clock. */
  method HandleSessionChanged(session: string, identity: nat, stored: Option<Inspection>, s: Selection, deadline: int,
                              now: int)
    returns (r: Option<Reduction>)
    ensures r == Reselected(session, identity, stored, s, deadline, now)
  {
    if stored.Some? && stored.value.generation == s.generation && stored.value.mode == s.mode
       && stored.value.profile == s.profile {
      return None;
    }
    var expected, next, install := 0, DEFAULT, false;
    if stored.Some? {
      expected := stored.value.revision;
      next := next.(app := stored.value.app);
    }
    next := next.(generation := s.generation, revision := expected, mode := s.mode, profile := s.profile);
    if s.mode != Off && |s.allowed| > 0 {
      next := next.(deadline := Some(deadline));
      var policy := EvaluateAppRestriction(s, next.app, next.deadline, now);
      next := next.(policy := policy);
      if policy == Mismatch && s.mode == Ips && Strong(next.app) {
        install := stored.None? || stored.value.enforcement.mechanism != SessionGuard
                   || stored.value.enforcement.status != Applied;
      }
    }
    if !install { return Some(Reduction(next, None)); }
    var operation := Operation(session, expected + 1);
    next := next.(enforcement := Enforcement(SessionGuard, Drop, Pending, Some(operation)));
    r := Some(Reduction(next, Some(Intent(operation, session, identity, s.generation, expected + 1))));
  }

  // --------------------------------------------------------------- the fence

  /** `MatchesSession` for an install intent */
  predicate Matches(i: Intent, session: string, identity: nat, stored: Option<Inspection>, generation: nat) {
    && session == i.session && identity == i.identity && generation == i.generation && stored.Some?
    && (var x := stored.value;
        && x.generation == i.generation && x.revision >= i.expected
        && x.mode == Ips && x.policy == Mismatch && Strong(x.app)
        && x.enforcement == Enforcement(SessionGuard, Drop, Pending, Some(i.operation)))
  }

  // ------------------------------------------------------------- the protocol

  /** One session, the policy generation in force, and every intent ever queued for it. */
  datatype World = World(session: string, identity: nat, generation: nat, stored: Option<Inspection>,
                         issued: set<Intent>)

  datatype Step =
    | Observe(selection: Selection, obs: Observation, now: int)
    | Reselect(selection: Selection, deadline: int, now: int)
    | Complete(intent: Intent, status: Status)
    | Activate(generation: nat)

  function Current(w: World): Inspection {
    if w.stored.Some? then w.stored.value else DEFAULT
  }

  function Committed(w: World, r: Reduction): World {
    w.(stored := Some(r.next.(revision := Current(w).revision + 1)),
       issued := if r.intent.Some? then w.issued + {r.intent.value} else w.issued)
  }

  /** A reduction made for another generation is dropped; a commit adds one to the revision. */
  function Next(w: World, step: Step): World {
    match step
    case Observe(s, obs, now) =>
      if s.generation != w.generation || Current(w).generation > s.generation then w
      else
        Committed(w, Reduce(w.session, w.identity, Current(w), s, obs, now))
    case Reselect(s, deadline, now) =>
      var r := Reselected(w.session, w.identity, w.stored, s, deadline, now);
      if s.generation != w.generation || Current(w).generation > s.generation || r.None? then w
      else Committed(w, r.value)
    case Complete(i, status) =>
      if i !in w.issued || !Matches(i, w.session, w.identity, w.stored, w.generation) then w
      else
        var done := Enforcement(SessionGuard, Drop, status, Some(i.operation));
        w.(stored := Some(w.stored.value.(revision := w.stored.value.revision + 1, enforcement := done)))
    case Activate(g) => if g > w.generation then w.(generation := g) else w
  }

  /** Sensors never report a session guard, and an executed intent is no longer pending. */
  predicate Legal(step: Step) {
    match step
    case Observe(_, obs, _) => obs.alert.Some? ==> obs.alert.value.enforcement.mechanism != SessionGuard
    case Reselect(_, _, _) => true
    case Complete(_, status) => status != Pending
    case Activate(_) => true
  }

  function Run(w: World, steps: seq<Step>): World {
    if |steps| == 0 then w else Next(Run(w, steps[..|steps| - 1]), steps[|steps| - 1])
  }

  function Fresh(session: string, identity: nat, generation: nat): World {
    World(session, identity, generation, None, {})
  }

  /** A session guard names an operation of an earlier commit. */
  predicate Signed(x: Inspection) {
    x.enforcement.mechanism == SessionGuard ==>
      x.enforcement.operation.Some? && x.enforcement.operation.value.revision <= x.revision
  }

  /** Intents are numbered by the revision that committed them, and a guard always names its own. */
  ghost predicate Numbered(w: World) {
    && (forall i :: i in w.issued ==>
        i.operation == Operation(w.session, i.expected) && i.expected <= Current(w).revision)
    && (forall i, j :: i in w.issued && j in w.issued && i.expected == j.expected ==> i == j)
    && Signed(Current(w))
  }

  /** A reduction signs what it leaves and numbers what it issues. */
  lemma ReduceSigns(session: string, identity: nat, current: Inspection, s: Selection, obs: Observation, now: int)
    requires Signed(current) && Legal(Observe(s, obs, now))
    ensures var r := Reduce(session, identity, current, s, obs, now);
            && Signed(r.next.(revision := current.revision + 1)) && r.next.revision == current.revision
            && (r.intent.Some? ==>
                r.intent.value.operation == Operation(session, current.revision + 1)
                    && r.intent.value.expected == current.revision + 1)
  {
    hide Identified, Evaluate, Strong;
  }

  lemma ReselectSigns(session: string, identity: nat, stored: Option<Inspection>, s: Selection, deadline: int, now: int)
    ensures var current := if stored.Some? then stored.value else DEFAULT;
            var r := Reselected(session, identity, stored, s, deadline, now);
            r.Some? ==>
              && Signed(r.value.next.(revision := current.revision + 1)) && r.value.next.revision == current.revision
              && r.value.next.app == current.app && r.value.next.generation == s.generation
              && (GuardPending(r.value.next.enforcement) ==>
                    r.value.next.enforcement.operation == Some(Operation(session, current.revision + 1)))
              && (r.value.intent.Some? ==>
                    && r.value.intent.value.operation == Operation(session, current.revision + 1)
                    && r.value.intent.value.expected == current.revision + 1)
  {
    hide Evaluate, Strong;
  }

  lemma StepNumbers(w: World, step: Step)
    requires Numbered(w) && Legal(step)
    ensures Numbered(Next(w, step)) && Current(w).revision <= Current(Next(w, step)).revision
            && w.issued <= Next(w, step).issued
  {
    hide Reduce, Reselected;
    if step.Observe? { ReduceSigns(w.session, w.identity, Current(w), step.selection, step.obs, step.now); }
    if step.Reselect? {
      ReselectSigns(w.session, w.identity, w.stored, step.selection, step.deadline, step.now);
    }
  }

  /** Whatever a step issues matches the state it is committed with, and only IPS issues anything. */
  lemma IssuedMatches(w: World, step: Step, i: Intent)
    requires i in Next(w, step).issued && i !in w.issued
    ensures (step.Observe? || step.Reselect?) && step.selection.mode == Ips
    ensures var t := Next(w, step); Matches(i, t.session, t.identity, t.stored, t.generation)
  {
  }

  /** At most one issued intent can still be executed. */
  lemma {:induction false} AtMostOneInFlight(w: World, steps: seq<Step>, i: Intent, j: Intent)
    requires Numbered(w) && (forall step :: step in steps ==> Legal(step))
    ensures Numbered(Run(w, steps))
    ensures var t := Run(w, steps);
            i in t.issued && j in t.issued
            && Matches(i, t.session, t.identity, t.stored, t.generation)
               && Matches(j, t.session, t.identity, t.stored, t.generation)
            ==> i == j
  {
    if |steps| > 0 {
      var last := steps[|steps| - 1];
      assert last in steps;
      AtMostOneInFlight(w, steps[..|steps| - 1], i, j);
      StepNumbers(Run(w, steps[..|steps| - 1]), last);
    }
  }

  // ------------------------------------------------------ giving up a guard

  /** The guard of an operation is waiting to be installed. */
  predicate Waiting(w: World, o: Operation) {
    w.stored.Some? && GuardPending(w.stored.value.enforcement) && w.stored.value.enforcement.operation == Some(o)
  }

  /** Evidence that is evaluated keeps a waiting guard if and only if it still forbids the application. */
  lemma EvidenceDecides(w: World, s: Selection, obs: Observation, now: int, o: Operation)
    requires Waiting(w, o) && s.generation == w.generation && Current(w).generation <= s.generation
             && Legal(Observe(s, obs, now))
    requires w.stored.value.enforcement.action == Drop
    ensures Waiting(Next(w, Observe(s, obs, now)), o) <==> s.mode == Off || StillForbidden(Current(w), s, obs, now)
  {
  }

  /** The merged evidence, evaluated under the selection, forbids the application. */
  predicate StillForbidden(current: Inspection, s: Selection, obs: Observation, now: int) {
    var app := Identified(current, obs);
    Forbidden(s, Evaluate(s, app, current.deadline, now), app)
  }

  /** A re-selection that commits ends every earlier guard, whatever it selects. */
  lemma ReselectionEnds(w: World, s: Selection, deadline: int, now: int, i: Intent)
    requires Numbered(w) && i in w.issued && s.generation == w.generation && Current(w).generation <= s.generation
    requires w.stored.Some? ==>
             !(w.stored.value.generation == s.generation && w.stored.value.mode == s.mode
               && w.stored.value.profile == s.profile)
    ensures !Waiting(Next(w, Reselect(s, deadline, now)), i.operation)
  {
    hide Evaluate;
    ReselectSigns(w.session, w.identity, w.stored, s, deadline, now);
  }

  /** A guard that was given up or acted on never waits again. */
  lemma NeverWaitsAgain(w: World, step: Step, o: Operation)
    requires Numbered(w) && Legal(step) && !Waiting(w, o) && o.session == w.session && o.revision <= Current(w).revision
    ensures !Waiting(Next(w, step), o)
  {
  }

  /** An intent whose guard is not waiting does not match, so it is never executed again. */
  lemma {:induction false} GivenUpForever(w: World, steps: seq<Step>, i: Intent)
    requires Numbered(w) && i in w.issued && !Waiting(w, i.operation) && forall step :: step in steps ==> Legal(step)
    ensures var t := Run(w, steps);
            Numbered(t) && i in t.issued && !Waiting(t, i.operation) && t.session == w.session
            && !Matches(i, t.session, t.identity, t.stored, t.generation)
  {
    if |steps| > 0 {
      var last := steps[|steps| - 1];
      assert last in steps;
      GivenUpForever(w, steps[..|steps| - 1], i);
      var t := Run(w, steps[..|steps| - 1]);
      StepNumbers(t, last);
      NeverWaitsAgain(t, last, i.operation);
    }
  }

  /** A generation change ends every earlier intent, whether or not its guard was waiting. */
  lemma ActivationEnds(w: World, g: nat, i: Intent)
    requires Numbered(w) && i in w.issued && i.generation <= w.generation < g
    ensures var t := Next(w, Activate(g)); !Matches(i, t.session, t.identity, t.stored, t.generation)
  {
  }

  /**
   Within a generation, an observation leaves a matching intent matching, or
   ends it for good, or, exactly when inspection is switched off, suspends it.
   */
  lemma OnlyOffSuspends(w: World, s: Selection, obs: Observation, now: int, i: Intent)
    requires Numbered(w) && i in w.issued && Matches(i, w.session, w.identity, w.stored, w.generation)
    requires s.generation == w.generation && Legal(Observe(s, obs, now))
    ensures var t := Next(w, Observe(s, obs, now));
            && (Matches(i, t.session, t.identity, t.stored, t.generation) <==>
                s.mode != Off && StillForbidden(Current(w), s, obs, now))
            && (s.mode == Off ==> Waiting(t, i.operation))
  {
    EvidenceDecides(w, s, obs, now, i.operation);
  }

  function Peer(): Observation {
    Observation("o", App("SSH", Sensor, High, None, None, 0, false), None)
  }

  /** The session after `n` observations of an application that only HTTP is allowed to be. */
  function Guarded(n: nat, mode: Mode): World {
    var o := Operation("s", 1);
    var x := Inspection(1, n, mode, "", App("SSH", Sensor, High, None, None, if n < 3 then 1 else 2, false),
                        if mode == Off then NotApplicable else Mismatch, Some(5000), 0, "",
                        Enforcement(SessionGuard, Drop, Pending, Some(o)));
    World("s", 7, 1, Some(x), {Intent(o, "s", 7, 1, 1)})
  }

  lemma NamesDiffer()
    ensures "SSH" != "HTTP" && "SSH" != "UNKNOWN" && "SSH" != ""
  {
    assert "SSH"[0] != "HTTP"[0] && "SSH"[0] != "UNKNOWN"[0];
  }

  lemma FirstIssues()
    ensures Next(Fresh("s", 7, 1), Observe(Selection(1, Ips, "", ["HTTP"], 0), Peer(), 0)) == Guarded(1, Ips)
  {
    NamesDiffer();
    var r := Reduce("s", 7, DEFAULT, Selection(1, Ips, "", ["HTTP"], 0), Peer(), 0);
    assert r.next.app == App("SSH", Sensor, High, None, None, 1, false);
    assert r.next.policy == Mismatch;
  }

  lemma ThirdRevives()
    ensures Next(Guarded(2, Off), Observe(Selection(1, Ips, "", ["HTTP"], 0), Peer(), 2)) == Guarded(3, Ips)
  {
    NamesDiffer();
    var r := Reduce("s", 7, Guarded(2, Off).stored.value, Selection(1, Ips, "", ["HTTP"], 0), Peer(), 2);
    assert r.next.app == App("SSH", Sensor, High, None, None, 2, false);
    assert r.next.policy == Mismatch;
  }

  /** Switched off and on again within a generation, an intent that did not match matches again. */
  lemma SuspendedRevives()
    ensures var on, off := Selection(1, Ips, "", ["HTTP"], 0), Selection(1, Off, "", [], 0);
            var a := Next(Fresh("s", 7, 1), Observe(on, Peer(), 0));
            var b := Next(a, Observe(off, Peer(), 1));
            var c := Next(b, Observe(on, Peer(), 2));
            var i := Intent(Operation("s", 1), "s", 7, 1, 1);
            && a.issued == {i} && Matches(i, "s", 7, a.stored, 1)
            && !Matches(i, "s", 7, b.stored, 1)
            && c.issued == {i} && Matches(i, "s", 7, c.stored, 1)
  {
    FirstIssues();
    assert Next(Guarded(1, Ips), Observe(Selection(1, Off, "", [], 0), Peer(), 1)) == Guarded(2, Off);
    ThirdRevives();
    hide Next;
  }

  // --------------------------------------------------------- the identity

  /** The named evidence of a run, in order: what was observed under the generation in force. */
  function Evidence(w: World, steps: seq<Step>): seq<App> {
    if |steps| == 0 then []
    else
      var init := steps[..|steps| - 1];
      Evidence(w, init) + Added(steps[|steps| - 1], Run(w, init).generation)
  }

  /** The identity is the merge of the evidence. */
  predicate Merged(w: World, e: seq<App>) {
    Current(w).generation <= w.generation && AllNamed(e) && Current(w).app == MergeAll(UNKNOWN, e)
  }

  /** Over every run the stored identity is the merge of all evidence, so its confidence only grows. */
  lemma {:induction false} IdentityIsMerge(session: string, identity: nat, generation: nat, steps: seq<Step>)
    ensures var w := Fresh(session, identity, generation); Merged(Run(w, steps), Evidence(w, steps))
  {
    if |steps| > 0 {
      hide Next, Merged;
      var w, init := Fresh(session, identity, generation), steps[..|steps| - 1];
      IdentityIsMerge(session, identity, generation, init);
      StepMerges(Run(w, init), steps[|steps| - 1], Evidence(w, init));
    }
  }

  function Added(step: Step, generation: nat): seq<App> {
    if step.Observe? && step.selection.generation == generation && step.selection.mode != Off
      && !IsUnknown(step.obs.app)
    then [step.obs.app] else []
  }

  lemma StepMerges(w: World, step: Step, e: seq<App>)
    requires Merged(w, e)
    ensures Merged(Next(w, step), e + Added(step, w.generation))
  {
    hide Merge;
    NamedMerge(e);
    if step.Activate? || step.Reselect? {
      assert e + Added(step, w.generation) == e;
      if step.Reselect? {
        hide Reselected;
        ReselectSigns(w.session, w.identity, w.stored, step.selection, step.deadline, step.now);
      }
    } else {
      hide Next;
      StepIdentifies(w, step);
      if Added(step, w.generation) == [] {
        assert e + Added(step, w.generation) == e;
      } else {
        assert (e + Added(step, w.generation))[..|e|] == e;
      }
    }
  }

  /** What an observation or an acknowledgement does to the identity. */
  lemma StepIdentifies(w: World, step: Step)
    requires step.Observe? || step.Complete?
    requires Current(w).generation <= w.generation && Named(Current(w).app) == Current(w).app
    ensures var t := Next(w, step);
            && t.generation == w.generation && Current(t).generation <= w.generation
            && Current(t).app == if step.Observe? && step.selection.generation == w.generation
               && step.selection.mode != Off && !IsUnknown(step.obs.app)
                                 then Merge(Current(w).app, step.obs.app) else Current(w).app
  {
    hide Merge, Evaluate, AfterAlert, Superseded;
  }

  lemma NamedMerge(e: seq<App>)
    requires AllNamed(e)
    ensures Named(MergeAll(UNKNOWN, e)) == MergeAll(UNKNOWN, e)
  {
    MergeAllMeans(e);
  }
}
