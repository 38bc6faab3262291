/**
 The conntrack fast path over whole runs: activations, packets, closed
 connections, foreign writes to the low byte, process restarts and reboots.
 */
module FastPath {
  import opened Wrappers
  import opened Policy
  import opened Marks
  import opened Epochs
  import opened ForwardChain
  import opened ForwardProofs

  // ------------------------------------------------------------- activations

  /** A compiled activation; `slots` is the list its cache rules range over. */
  datatype Snapshot = Snapshot(config: Config, options: Options, slots: seq<nat>)

  predicate UniqueIds(ps: seq<SecurityPolicy>) {
    forall i, j :: 0 <= i < j < |ps| ==> ps[i].id != ps[j].id
  }

  /** What validation guarantees of a configuration that is compiled. */
  predicate Accepted(s: Snapshot) {
    ValidPolicies(s.config.policies) && Compilable(s.config) && UniqueIds(s.config.policies)
        && SlotList(s.options, s.slots)
  }

  function ZoneSlots(ids: seq<string>): map<string, nat> {
    if |ids| == 0 then map[]
    else if |ids| > MAX_SLOT then ZoneSlots(ids[..|ids| - 1])
    else ZoneSlots(ids[..|ids| - 1])[ids[|ids| - 1] := |ids|]
  }

  predicate GoodSlots(slots: map<string, nat>) {
    && (forall z :: z in slots ==> SlotInRange(slots[z]))
    && (forall y, z :: y in slots && z in slots && slots[y] == slots[z] ==> y == z)
  }

  /** Slots are in range and tell zones apart. */
  lemma {:induction false} ZoneSlotsGood(ids: seq<string>)
    ensures GoodSlots(ZoneSlots(ids))
    ensures forall z :: z in ZoneSlots(ids) ==> ZoneSlots(ids)[z] <= |ids| && z in ids
  {
    if |ids| > 0 { ZoneSlotsGood(ids[..|ids| - 1]); }
  }

  /** `makeZoneSlots` on the sorted zone ids */
  method MakeZoneSlots(ids: seq<string>) returns (slots: map<string, nat>)
    ensures slots == ZoneSlots(ids) && GoodSlots(slots)
    ensures |ids| <= MAX_SLOT ==> slots.Keys == set id | id in ids
  {
    slots := map[];
    var index := 0;
    while index < |ids| && index < MAX_SLOT
      invariant index <= |ids| && index <= MAX_SLOT
      invariant slots == ZoneSlots(ids[..index])
      invariant slots.Keys == set id | id in ids[..index]
    {
      assert ids[..index + 1][..index] == ids[..index];
      slots := slots[ids[index] := index + 1];
      index := index + 1;
    }
    ZoneSlotsGood(ids);
    SlotsStop(ids, index);
    if |ids| <= MAX_SLOT { assert ids[..index] == ids; }
  }

  lemma {:induction false} SlotsStop(ids: seq<string>, n: nat)
    requires n <= |ids| && (n < |ids| ==> n == MAX_SLOT)
    ensures ZoneSlots(ids) == ZoneSlots(ids[..n])
    decreases |ids|
  {
    if n < |ids| {
      assert ids[..|ids| - 1][..n] == ids[..n];
      SlotsStop(ids[..|ids| - 1], n);
    } else {
      assert ids[..n] == ids;
    }
  }

  /** `compileOptions` */
  function OptionsFor(ids: seq<string>, epoch: Option<nat>): Options {
    var slots := ZoneSlots(ids);
    var e := if epoch.Some? then epoch.value else 0;
    Options(e, slots, e > 0 && |slots| > 0 && |slots| <= MAX_SLOT)
  }

  function Rules(s: Snapshot): (rules: seq<NftRule>) {
    M2Chain(s.config, s.options, s.slots).rules
  }

  // -------------------------------------------------------------------- runs

  /** An accepting forward or reverse policy line, and where it accepted. */
  datatype Grant = Grant(flow: nat, snapshot: Snapshot, line: NftRule)

  /**
   `minted` remembers what each epoch of this boot was allocated for; `stored`
   holds every snapshot a rollback or a recovery may install again.
   */
  datatype State = State(
    boot: string, file: EpochFile, highest: Option<nat>,
    minted: map<nat, Snapshot>, stored: set<Snapshot>, installed: Option<Snapshot>,
    flows: map<nat, nat>, grants: set<Grant>)

  /**
   `Fallback` prepares the configuration a failed activation of `target` goes
   back to, compiled with the options of `target`.
   */
  datatype Event =
    | Prepare(config: Config, ids: seq<string>, slots: seq<nat>, fate: WriteFate)
    | Fallback(config: Config, target: Snapshot)
    | Install(snapshot: Snapshot)
    | Arrive(flow: nat, packet: Packet, state: CtState)
    | Close(flow: nat)
    | WriteLow(flow: nat, low: nat)
    | Restarted
    | Rebooted(boot: string)

  function MarkOf(st: State, flow: nat): nat {
    if flow in st.flows then st.flows[flow] else 0
  }

  /** Decision of the installed chain for a packet of a flow. */
  function Decide(st: State, flow: nat, p: Packet, state: CtState): (o: Outcome)
    requires st.installed.Some? && ValidChain(Rules(st.installed.value))
  {
    Traverse(Rules(st.installed.value), Drop, p, state, MarkOf(st, flow))
  }

  predicate Running(st: State) {
    st.installed.Some? && ValidChain(Rules(st.installed.value))
  }

  function Arrived(st: State, flow: nat, p: Packet, state: CtState): State
    requires Running(st)
  {
    var o := Decide(st, flow, p, state);
    st.(flows := if flow in st.flows || o.action == Allow then st.flows[flow := o.mark] else st.flows,
        grants := if o.decider.Some? && o.decider.value.PolicyLine? && o.action == Allow
                  then st.grants + {Grant(flow, st.installed.value, o.decider.value)} else st.grants)
  }

  function Prepared(st: State, config: Config, ids: seq<string>, slots: seq<nat>, fate: WriteFate): State {
    var a := if st.highest.Some? then Allocated(st.highest.value, st.file, st.boot, fate)
        else Allocation(None, 0, st.file);
    var s := Snapshot(config, OptionsFor(ids, a.epoch), slots);
    var counted := st.(file := a.file, highest := if st.highest.Some? then Some(a.highest) else None);
    if !Accepted(s) then counted
    else counted.(stored := st.stored + {s}, minted := if a.epoch.Some? then st.minted[a.epoch.value := s]
                  else st.minted)
  }

  function Borrowed(config: Config, target: Snapshot): Snapshot {
    Snapshot(config, target.options, target.slots)
  }

  function Next(st: State, e: Event): State {
    match e
    case Prepare(config, ids, slots, fate) => Prepared(st, config, ids, slots, fate)
    case Fallback(config, target) =>
      if target in st.stored && Accepted(Borrowed(config, target))
      then st.(stored := st.stored + {Borrowed(config, target)}) else st
    case Install(s) => if s in st.stored then st.(installed := Some(s)) else st
    case Arrive(flow, p, state) => if Running(st) then Arrived(st, flow, p, state) else st
    case Close(flow) =>
      st.(flows := map f | f in st.flows && f != flow :: st.flows[f], grants := set g | g in st.grants
          && g.flow != flow)
    case WriteLow(flow, low) =>
      if flow in st.flows then st.(flows := st.flows[flow := Owned(st.flows[flow]) + low % LOW]) else st
    case Restarted => st.(highest := Opened(st.file, st.boot))
    case Rebooted(boot) =>
      st.(boot := boot, highest := Opened(st.file, boot), minted := map[], installed := None, flows := map[],
          grants := {})
  }

  function Run(st: State, events: seq<Event>): State {
    if |events| == 0 then st else Next(Run(st, events[..|events| - 1]), events[|events| - 1])
  }

  function Start(boot: string, file: EpochFile): State {
    State(boot, file, Opened(file, boot), map[], {}, None, map[], {})
  }

  // --------------------------------------------------------------- invariant

  /** The snapshot uses no cache, or the epoch this boot allocated for it. */
  predicate Current(st: State, s: Snapshot) {
    CacheActive(s.options) ==> s.options.epoch in st.minted && st.minted[s.options.epoch] == s
  }

  predicate MintedWell(st: State) {
    forall e :: e in st.minted ==>
      EpochInRange(e) && st.minted[e].options.epoch == e && GoodSlots(st.minted[e].options.slots)
          && Accepted(st.minted[e])
  }

  /** No allocation to come can return an epoch already given out. */
  predicate AllocatorAhead(st: State) {
    && (st.highest.Some? ==> forall e :: e in st.minted ==> e <= st.highest.value)
    && (forall e :: e in st.minted ==> Opened(st.file, st.boot).Some? && e <= Opened(st.file, st.boot).value)
    && (st.highest.Some? ==> Opened(st.file, st.boot).Some? && st.highest.value <= Opened(st.file, st.boot).value)
  }

  /** `q` is the single-zone-pair ALLOW policy whose line made the grant, and `value` its mark. */
  ghost predicate GrantedBy(g: Grant, q: SecurityPolicy, value: nat) {
    && g.line.PolicyLine? && g.line.action == Allow && g.line.policy == q.id && g.line in Rules(g.snapshot)
    && q in g.snapshot.config.policies && q.enabled && q.action == Allow
    && CacheActive(g.snapshot.options)
    && PolicyMark(q, g.snapshot.options).Some? && value == Pack(PolicyMark(q, g.snapshot.options).value)
  }

  ghost predicate Backed(st: State, flow: nat, value: nat) {
    exists g, q :: g in st.grants && g.flow == flow && Current(st, g.snapshot) && GrantedBy(g, q, value)
  }

  ghost predicate MarksBacked(st: State) {
    forall f :: f in st.flows && Owned(st.flows[f]) != 0 ==> Backed(st, f, Owned(st.flows[f]))
  }

  ghost predicate Inv(st: State) {
    && MintedWell(st) && AllocatorAhead(st) && MarksBacked(st)
    && (forall s :: s in st.stored ==> Accepted(s))
    && (st.installed.Some? ==> st.installed.value in st.stored && Current(st, st.installed.value))
  }

  // ------------------------------------------------------- marks in the chain

  /** The mark a line sets is the mark of the policy it belongs to. */
  ghost predicate MarkFromPolicy(s: Snapshot, r: NftRule)
    requires r.PolicyLine?
  {
    r.mark.Some? ==>
      && CacheActive(s.options) && r.action == Allow
      && exists q :: q in s.config.policies && q.id == r.policy && q.enabled && q.action == Allow
                     && PolicyMark(q, s.options).Some? && r.mark.value == Pack(PolicyMark(q, s.options).value)
  }

  ghost predicate CacheValue(s: Snapshot, value: nat) {
    && CacheActive(s.options)
    && exists a, b :: a in s.slots && b in s.slots && value == Pack(CacheMark(s.options.epoch, a, b))
  }

  function MarksFor(s: Snapshot): map<string, nat> {
    if CacheActive(s.options) then MarksOf(s.config.policies, s.options) else map[]
  }

  function Lines(s: Snapshot, reverse: bool): seq<NftRule> {
    MarkedAll(AllLines(SortByPriority(s.config.policies), s.config.interfaces, reverse), MarksFor(s))
  }

  lemma LineMarks(s: Snapshot, reverse: bool)
    requires Accepted(s)
    ensures ValidChain(Lines(s, reverse))
    ensures forall r :: r in Lines(s, reverse) ==> r.PolicyLine? && MarkFromPolicy(s, r)
  {
    hide Renderable, SortByPriority, AllLines;
    var ps := SortByPriority(s.config.policies);
    SortedPolicies(s.config);
    AllLinesShape(ps, s.config.interfaces, reverse);
    MarkedShape(ps, s.config.interfaces, reverse, MarksFor(s));
    MarkedMarks(AllLines(ps, s.config.interfaces, reverse), MarksFor(s));
    MarksOfPolicies(s.config.policies, s.options);
  }

  lemma RulesAre(s: Snapshot)
    ensures Rules(s) == [InvalidDrop] + CacheRules(s.options, s.slots) + Lines(s, false) + Lines(s, true)
            + Tail(s.config)
  {
  }

  /** Every rule of the chain, by kind. */
  lemma RuleKinds(s: Snapshot)
    requires Accepted(s)
    ensures ValidChain(Rules(s))
    ensures forall r :: r in Rules(s) && r.CacheAccept? ==> CacheValue(s, r.value)
    ensures forall r :: r in Rules(s) && r.PolicyLine? ==> MarkFromPolicy(s, r)
    ensures forall r: NftRule :: CacheActive(s.options) && r.CacheAccept? && CacheValue(s, r.value) ==>
            r in CacheRules(s.options, s.slots)
  {
    hide Accepted, Rules, Lines, MarkFromPolicy, MatchHits;
    RulesAre(s);
    LineMarks(s, false);
    LineMarks(s, true);
    CacheGridValues(s.options.epoch, s.slots, s.slots);
  }

  lemma MarkedMarks(lines: seq<NftRule>, marks: map<string, nat>)
    requires forall r :: r in lines ==> r.PolicyLine? && r.mark.None?
    ensures forall r :: r in MarkedAll(lines, marks) ==>
              r.PolicyLine?
                  && (r.mark.Some? ==> r.action == Allow && r.policy in marks && r.mark.value == marks[r.policy])
  {
    forall r | r in MarkedAll(lines, marks)
      ensures r.PolicyLine?
              && (r.mark.Some? ==> r.action == Allow && r.policy in marks && r.mark.value == marks[r.policy])
    {
      var i :| 0 <= i < |lines| && r == Marked(lines[i], marks);
      assert lines[i] in lines;
    }
  }

  lemma {:induction false} MarksOfPolicies(ps: seq<SecurityPolicy>, o: Options)
    ensures forall id :: id in MarksOf(ps, o) ==>
              exists q :: q in ps && q.id == id && q.enabled && q.action == Allow
                          && PolicyMark(q, o).Some? && MarksOf(ps, o)[id] == Pack(PolicyMark(q, o).value)
  {
    if |ps| > 0 { MarksOfPolicies(ps[..|ps| - 1], o); }
  }

  lemma {:induction false} CacheRowValues(epoch: nat, source: nat, slots: seq<nat>)
    ensures forall r :: r in CacheRow(epoch, source, slots) <==>
              r.CacheAccept? && exists b :: b in slots && r.value == Pack(CacheMark(epoch, source, b))
  {
    if |slots| > 0 {
      CacheRowValues(epoch, source, slots[..|slots| - 1]);
      assert slots == slots[..|slots| - 1] + [slots[|slots| - 1]];
    }
  }

  lemma {:induction false} CacheGridValues(epoch: nat, sources: seq<nat>, slots: seq<nat>)
    ensures forall r :: r in CacheGrid(epoch, sources, slots) <==>
              r.CacheAccept? && exists a, b :: a in sources && b in slots && r.value == Pack(CacheMark(epoch, a, b))
  {
    if |sources| > 0 {
      CacheGridValues(epoch, sources[..|sources| - 1], slots);
      CacheRowValues(epoch, sources[|sources| - 1], slots);
      assert sources == sources[..|sources| - 1] + [sources[|sources| - 1]];
    }
  }

  lemma {:induction false} DeciderHits(rules: seq<NftRule>, policy: Action, p: Packet, state: CtState, mark: nat)
    requires ValidChain(rules)
    ensures var t := Traverse(rules, policy, p, state, mark);
            match t.decider
            case None => t.mark == mark
            case Some(r) => r in rules && Hits(r, p, state, mark) && t.action == ActionOf(r)
                            && t.mark == if r.PolicyLine? && r.mark.Some? then mark % LOW + r.mark.value else mark
  {
    if |rules| > 0 && !Hits(rules[0], p, state, mark) { DeciderHits(rules[1..], policy, p, state, mark); }
  }

  /** A value the cache can set is its own owned part, whatever the low byte. */
  lemma OwnedOfPacked(m: CacheMark, low: nat)
    requires Packable(m) && low < LOW
    ensures Owned(low + Pack(m)) == Pack(m) && Pack(m) != 0
  {
    UnpackPack(m, low);
  }

  // --------------------------------------------------------- every step keeps

  lemma ArriveKeeps(st: State, flow: nat, p: Packet, state: CtState)
    requires Inv(st) && Running(st)
    ensures Inv(Arrived(st, flow, p, state))
  {
    hide Accepted, Rules, Traverse, ValidChain, Pack, MintedWell, AllocatorAhead, PolicyMark, CacheActive;
    var s := st.installed.value;
    var o := Decide(st, flow, p, state);
    var t := Arrived(st, flow, p, state);
    DeciderHits(Rules(s), Drop, p, state, MarkOf(st, flow));
    RuleKinds(s);
    forall f | f in t.flows && Owned(t.flows[f]) != 0 ensures Backed(t, f, Owned(t.flows[f])) {
      if f == flow && o.mark != MarkOf(st, flow) {
        FreshMark(st, flow, p, state);
      } else {
        assert Backed(st, f, Owned(t.flows[f]));
        var g, q :| g in st.grants && g.flow == f && Current(st, g.snapshot) && GrantedBy(g, q, Owned(t.flows[f]));
        assert g in t.grants && Current(t, g.snapshot);
      }
    }
    assert MintedWell(t) && AllocatorAhead(t) by { Untouched(st, t); }
  }

  /** The allocator's part of the invariant depends on these fields only. */
  lemma Untouched(st: State, t: State)
    requires MintedWell(st) && AllocatorAhead(st)
    requires t.minted == st.minted && t.file == st.file && t.highest == st.highest && t.boot == st.boot
    ensures MintedWell(t) && AllocatorAhead(t)
  {
  }

  lemma FreshMark(st: State, flow: nat, p: Packet, state: CtState)
    requires Inv(st) && Running(st) && Decide(st, flow, p, state).mark != MarkOf(st, flow)
    ensures var t := Arrived(st, flow, p, state);
            flow in t.flows && Backed(t, flow, Owned(t.flows[flow]))
  {
    hide Accepted, Rules, Traverse, ValidChain, MintedWell, AllocatorAhead, MarksBacked, CacheActive;
    var s := st.installed.value;
    var o := Decide(st, flow, p, state);
    var t := Arrived(st, flow, p, state);
    DeciderHits(Rules(s), Drop, p, state, MarkOf(st, flow));
    RuleKinds(s);
    var r := o.decider.value;
    assert MarkFromPolicy(s, r);
    var q :| q in s.config.policies && q.id == r.policy && q.enabled && q.action == Allow
             && PolicyMark(q, s.options).Some? && r.mark.value == Pack(PolicyMark(q, s.options).value);
    OwnedOfPacked(PolicyMark(q, s.options).value, MarkOf(st, flow) % LOW);
    var g := Grant(flow, s, r);
    assert g in t.grants && GrantedBy(g, q, Owned(t.flows[flow])) && Current(t, s);
  }

  /** An allocated epoch is new, so nothing minted is replaced. */
  lemma PreparedMints(st: State, config: Config, ids: seq<string>, slots: seq<nat>, fate: WriteFate)
    requires MintedWell(st) && AllocatorAhead(st)
    ensures var t := Prepared(st, config, ids, slots, fate);
            && MintedWell(t) && AllocatorAhead(t)
            && forall e :: e in st.minted ==> e in t.minted && t.minted[e] == st.minted[e]
  {
    hide Accepted, CacheActive, ZoneSlots, GoodSlots;
    ZoneSlotsGood(ids);
  }

  lemma PrepareKeeps(st: State, config: Config, ids: seq<string>, slots: seq<nat>, fate: WriteFate)
    requires Inv(st)
    ensures Inv(Prepared(st, config, ids, slots, fate))
    ensures forall s :: Current(st, s) ==> Current(Prepared(st, config, ids, slots, fate), s)
  {
    hide Accepted, CacheActive, OptionsFor, GrantedBy, MintedWell, AllocatorAhead, Allocated;
    var t := Prepared(st, config, ids, slots, fate);
    PreparedMints(st, config, ids, slots, fate);
    assert forall s :: Current(st, s) ==> Current(t, s);
    forall f | f in t.flows && Owned(t.flows[f]) != 0 ensures Backed(t, f, Owned(t.flows[f])) {
      assert Backed(st, f, Owned(t.flows[f]));
    }
  }

  lemma CloseKeeps(st: State, flow: nat)
    requires Inv(st)
    ensures Inv(Next(st, Close(flow)))
  {
    hide Accepted, CacheActive, GrantedBy, Rules;
    var t := Next(st, Close(flow));
    forall f | f in t.flows && Owned(t.flows[f]) != 0 ensures Backed(t, f, Owned(t.flows[f])) {
      assert Backed(st, f, Owned(t.flows[f]));
      var g, q :| g in st.grants && g.flow == f && Current(st, g.snapshot) && GrantedBy(g, q, Owned(t.flows[f]));
      assert g in t.grants && Current(t, g.snapshot);
    }
  }

  lemma WriteLowKeeps(st: State, flow: nat, low: nat)
    requires Inv(st)
    ensures Inv(Next(st, WriteLow(flow, low)))
  {
    hide Accepted, CacheActive, GrantedBy, Rules;
    var t := Next(st, WriteLow(flow, low));
    forall f | f in t.flows && Owned(t.flows[f]) != 0 ensures Backed(t, f, Owned(t.flows[f])) {
      if f == flow { OwnedKept(st.flows[f], low % LOW); }
      assert Backed(st, f, Owned(t.flows[f]));
      var g, q :| g in st.grants && g.flow == f && Current(st, g.snapshot) && GrantedBy(g, q, Owned(t.flows[f]));
      assert g in t.grants && Current(t, g.snapshot);
    }
  }

  lemma OwnedKept(mark: nat, low: nat)
    requires low < LOW
    ensures Owned(Owned(mark) + low) == Owned(mark)
  {
    assert Owned(mark) == mark / LOW * LOW;
    assert (mark / LOW * LOW + low) % LOW == low;
  }

  lemma InstallKeeps(st: State, s: Snapshot)
    requires Inv(st) && (s in st.stored ==> Current(st, s))
    ensures Inv(Next(st, Install(s)))
  {
    hide Accepted, CacheActive, GrantedBy, Rules;
    var t := Next(st, Install(s));
    forall f | f in t.flows && Owned(t.flows[f]) != 0 ensures Backed(t, f, Owned(t.flows[f])) {
      assert Backed(st, f, Owned(t.flows[f]));
      var g, q :| g in st.grants && g.flow == f && Current(st, g.snapshot) && GrantedBy(g, q, Owned(t.flows[f]));
      assert g in t.grants && Current(t, g.snapshot);
    }
  }

  lemma FallbackKeeps(st: State, config: Config, target: Snapshot)
    requires Inv(st)
    ensures Inv(Next(st, Fallback(config, target)))
  {
    hide Accepted, CacheActive, GrantedBy, Rules;
    var t := Next(st, Fallback(config, target));
    forall f | f in t.flows && Owned(t.flows[f]) != 0 ensures Backed(t, f, Owned(t.flows[f])) {
      assert Backed(st, f, Owned(t.flows[f]));
      var g, q :| g in st.grants && g.flow == f && Current(st, g.snapshot) && GrantedBy(g, q, Owned(t.flows[f]));
      assert g in t.grants && Current(t, g.snapshot);
    }
  }

  lemma RestartKeeps(st: State)
    requires Inv(st)
    ensures Inv(Next(st, Restarted))
  {
    hide Accepted, CacheActive, GrantedBy, Rules;
    var t := Next(st, Restarted);
    forall f | f in t.flows && Owned(t.flows[f]) != 0 ensures Backed(t, f, Owned(t.flows[f])) {
      assert Backed(st, f, Owned(t.flows[f]));
      var g, q :| g in st.grants && g.flow == f && Current(st, g.snapshot) && GrantedBy(g, q, Owned(t.flows[f]));
      assert g in t.grants && Current(t, g.snapshot);
    }
  }

  /** Every event keeps the invariant; an install must be of a current snapshot. */
  lemma NextKeeps(st: State, e: Event)
    requires Inv(st) && (e.Install? && e.snapshot in st.stored ==> Current(st, e.snapshot))
    ensures Inv(Next(st, e))
  {
    match e
    case Prepare(config, ids, slots, fate) => PrepareKeeps(st, config, ids, slots, fate);
    case Fallback(config, target) => FallbackKeeps(st, config, target);
    case Install(s) => InstallKeeps(st, s);
    case Arrive(flow, p, state) => if Running(st) { ArriveKeeps(st, flow, p, state); }
    case Close(flow) => CloseKeeps(st, flow);
    case WriteLow(flow, low) => WriteLowKeeps(st, flow, low);
    case Restarted => RestartKeeps(st);
    case Rebooted(boot) =>
  }

  // ---------------------------------------------------------------- theorems

  /** Each install is of a snapshot whose epoch this boot allocated for it. */
  predicate Guarded(st: State, events: seq<Event>) {
    |events| > 0 ==>
      var before := Run(st, events[..|events| - 1]);
      var last := events[|events| - 1];
      Guarded(st, events[..|events| - 1])
          && (last.Install? && last.snapshot in before.stored ==> Current(before, last.snapshot))
  }

  lemma {:induction false} RunKeeps(boot: string, file: EpochFile, events: seq<Event>)
    requires Guarded(Start(boot, file), events)
    ensures Inv(Run(Start(boot, file), events))
  {
    hide Inv, Next;
    if |events| > 0 {
      RunKeeps(boot, file, events[..|events| - 1]);
      NextKeeps(Run(Start(boot, file), events[..|events| - 1]), events[|events| - 1]);
    } else {
      StartHolds(boot, file);
    }
  }

  lemma StartHolds(boot: string, file: EpochFile)
    ensures Inv(Start(boot, file))
  {
  }

  /** A cache rule that accepts was preceded by a grant to the same flow. */
  lemma HitIsGranted(st: State, flow: nat, p: Packet, state: CtState)
    requires Inv(st) && Running(st)
    requires Decide(st, flow, p, state).decider.Some? && Decide(st, flow, p, state).decider.value.CacheAccept?
    ensures exists g, q :: g in st.grants && g.flow == flow && g.snapshot == st.installed.value
                           && GrantedBy(g, q, Decide(st, flow, p, state).decider.value.value)
  {
    hide Accepted, Rules, Traverse, ValidChain, AllocatorAhead, Pack;
    var s := st.installed.value;
    var v := Decide(st, flow, p, state).decider.value.value;
    DeciderHits(Rules(s), Drop, p, state, MarkOf(st, flow));
    RuleKinds(s);
    var a, b :| a in s.slots && b in s.slots && v == Pack(CacheMark(s.options.epoch, a, b));
    SlotsPackable(s, a);
    SlotsPackable(s, b);
    PackNonzero(CacheMark(s.options.epoch, a, b));
    assert flow in st.flows;
    assert Backed(st, flow, v);
    var g, q :| g in st.grants && g.flow == flow && Current(st, g.snapshot) && GrantedBy(g, q, v);
    PackInjective(CacheMark(s.options.epoch, a, b), PolicyMark(q, g.snapshot.options).value);
  }

  lemma SlotsPackable(s: Snapshot, a: nat)
    requires Accepted(s) && GoodSlots(s.options.slots) && a in s.slots
    ensures SlotInRange(a)
  {
  }

  /**
   Over every run, with any number of failed writes, restarts and reboots, a
   packet accepted by a cache rule belongs to a flow that a forward or reverse
   ALLOW line of a policy with that zone pair has already accepted under the
   configuration and epoch now installed.
   */
  lemma CacheAcceptsOnlyGranted(boot: string, file: EpochFile, events: seq<Event>, flow: nat, p: Packet, state: CtState)
    ensures var st := Run(Start(boot, file), events);
            Guarded(Start(boot, file), events) && Running(st)
            && Decide(st, flow, p, state).decider.Some? && Decide(st, flow, p, state).decider.value.CacheAccept?
            ==> exists g, q :: g in st.grants && g.flow == flow && g.snapshot == st.installed.value
                               && GrantedBy(g, q, Decide(st, flow, p, state).decider.value.value)
  {
    hide Inv, Run, GrantedBy, Start;
    var st := Run(Start(boot, file), events);
    if Guarded(Start(boot, file), events) && Running(st) {
      RunKeeps(boot, file, events);
      if Decide(st, flow, p, state).decider.Some? && Decide(st, flow, p, state).decider.value.CacheAccept? {
        HitIsGranted(st, flow, p, state);
      }
    }
  }

  /** The fallback caches under an epoch that was allocated for another configuration. */
  predicate Borrows(e: Event) {
    e.Fallback? && CacheActive(e.target.options) && e.config != e.target.config
  }

  /** A fallback is as current as its target exactly when it does not borrow. */
  lemma BorrowedIsStale(st: State, config: Config, target: Snapshot)
    requires Current(st, target)
    ensures Current(st, Borrowed(config, target)) <==> !Borrows(Fallback(config, target))
  {
  }

  /** In one boot, until a fallback borrows, every stored snapshot is current and nothing needs guarding. */
  lemma {:induction false} OneBootIsGuarded(boot: string, file: EpochFile, events: seq<Event>)
    requires forall e :: e in events ==> !e.Rebooted? && !Borrows(e)
    ensures var st := Run(Start(boot, file), events);
            Guarded(Start(boot, file), events) && forall s :: s in st.stored ==> Current(st, s)
  {
    if |events| > 0 {
      var init, last := events[..|events| - 1], events[|events| - 1];
      assert last in events;
      OneBootIsGuarded(boot, file, init);
      RunKeeps(boot, file, init);
      StepStaysCurrent(Run(Start(boot, file), init), last);
    }
  }

  lemma StepStaysCurrent(st: State, e: Event)
    requires Inv(st) && !e.Rebooted? && !Borrows(e) && forall s :: s in st.stored ==> Current(st, s)
    ensures var t := Next(st, e); forall s :: s in t.stored ==> Current(t, s)
  {
    hide Accepted, CacheActive, ZoneSlots, GrantedBy, Inv, Traverse, Rules;
    if e.Prepare? {
      PrepareKeeps(st, e.config, e.ids, e.slots, e.fate);
      PreparedIsCurrent(st, e.config, e.ids, e.slots, e.fate);
    } else if e.Fallback? && e.target in st.stored {
      BorrowedIsStale(st, e.config, e.target);
    }
  }

  lemma PreparedIsCurrent(st: State, config: Config, ids: seq<string>, slots: seq<nat>, fate: WriteFate)
    ensures var t := Prepared(st, config, ids, slots, fate);
            forall s :: s in t.stored && s !in st.stored ==> Current(t, s)
  {
  }

  // ----------------------------------------------- why the guard is needed

  lemma {:induction false} SomeRuleHits(rules: seq<NftRule>, r: NftRule, policy: Action, p: Packet, state: CtState,
                                        mark: nat)
    requires ValidChain(rules) && r in rules && Hits(r, p, state, mark)
    ensures Traverse(rules, policy, p, state, mark).decider.Some?
  {
    if !Hits(rules[0], p, state, mark) { SomeRuleHits(rules[1..], r, policy, p, state, mark); }
  }

  /** An established packet with a mark the chain caches is accepted by that cache rule. */
  lemma CacheRuleDecides(s: Snapshot, value: nat, p: Packet, mark: nat)
    requires Accepted(s) && CacheValue(s, value) && Owned(mark) == value
    ensures ValidChain(Rules(s))
    ensures Traverse(Rules(s), Drop, p, Established, mark).decider == Some(CacheAccept(value))
  {
    hide Accepted, Rules, Lines, MarkFromPolicy, Traverse, Pack;
    RuleKinds(s);
    RulesAre(s);
    LineMarks(s, false);
    LineMarks(s, true);
    var head, cache := [InvalidDrop], CacheRules(s.options, s.slots);
    var rest := Lines(s, false) + Lines(s, true) + Tail(s.config);
    assert Rules(s) == head + (cache + rest);
    CacheGridShape(s.options.epoch, s.slots, s.slots);
    TraverseMiss(head, Drop, p, Established, mark);
    TraverseAppend(head, cache + rest, Drop, p, Established, mark);
    TraverseAppend(cache, rest, Drop, p, Established, mark);
    SomeRuleHits(cache, CacheAccept(value), Drop, p, Established, mark);
    DeciderHits(cache, Drop, p, Established, mark);
  }

  function Relay(st: State, s: Snapshot, t: Snapshot, flow: nat, p: Packet): State {
    Next(Next(Next(st, Install(t)), Arrive(flow, p, New)), Install(s))
  }

  /**
   Two different snapshots with one epoch break the property: when `t` marks a
   new flow with a zone pair that `s` caches, installing `s` afterwards lets
   established packets of the flow through although no line of `s` granted it.
   */
  lemma SharedEpochViolates(st: State, s: Snapshot, t: Snapshot, flow: nat, p: Packet)
    requires s in st.stored && t in st.stored && s != t && Accepted(s) && Accepted(t)
    requires flow !in st.flows && forall g :: g in st.grants ==> g.flow != flow
    ensures ValidChain(Rules(t))
    ensures var o := Traverse(Rules(t), Drop, p, New, 0);
            var after := Relay(st, s, t, flow, p);
            o.action == Allow && CacheValue(s, Owned(o.mark)) ==>
              && Running(after)
              && Decide(after, flow, p, Established).decider == Some(CacheAccept(Owned(o.mark)))
              && forall g :: g in after.grants && g.flow == flow ==> g.snapshot != s
  {
    hide Accepted, Rules, Traverse, CacheValue;
    RuleKinds(t);
    RuleKinds(s);
    var o := Traverse(Rules(t), Drop, p, New, 0);
    if o.action == Allow && CacheValue(s, Owned(o.mark)) {
      CacheRuleDecides(s, Owned(o.mark), p, o.mark);
    }
  }

  // ------------------------------------------------ exactly when it holds

  ghost predicate GrantedHere(st: State, s: Snapshot, flow: nat, value: nat) {
    exists g, q :: g in st.grants && g.flow == flow && g.snapshot == s && GrantedBy(g, q, value)
  }

  /** Every cache accept of the installed chain is of a flow that its own lines have granted. */
  ghost predicate Sound(st: State) {
    Running(st) ==>
      forall flow, p, state ::
        var d := Decide(st, flow, p, state).decider;
        d.Some? && d.value.CacheAccept? ==> GrantedHere(st, st.installed.value, flow, d.value.value)
  }

  /** Every flow whose mark the snapshot caches has a grant of that snapshot. */
  ghost predicate MarksGranted(st: State, s: Snapshot) {
    forall flow: nat :: CacheValue(s, Owned(MarkOf(st, flow))) ==> GrantedHere(st, s, flow, Owned(MarkOf(st, flow)))
  }

  ghost predicate Stocked(st: State) {
    (forall s :: s in st.stored ==> Accepted(s)) && (st.installed.Some? ==> st.installed.value in st.stored)
  }

  /** What can be read from conntrack before an install decides whether the install is sound. */
  lemma SoundIff(st: State, s: Snapshot)
    requires Accepted(s)
    ensures Sound(st.(installed := Some(s))) <==> MarksGranted(st, s)
  {
    hide Accepted, Rules, Traverse, CacheValue, GrantedBy, ValidChain;
    var t := st.(installed := Some(s));
    RuleKinds(s);
    if Sound(t) {
      forall flow: nat | CacheValue(s, Owned(MarkOf(st, flow)))
        ensures GrantedHere(st, s, flow, Owned(MarkOf(st, flow)))
      {
        var value := Owned(MarkOf(st, flow));
        CacheRuleDecides(s, value, Probe(), MarkOf(st, flow));
        assert Decide(t, flow, Probe(), Established).decider == Some(CacheAccept(value));
        assert GrantedHere(t, s, flow, value);
      }
    }
    if MarksGranted(st, s) {
      forall flow, p, state | var d := Decide(t, flow, p, state).decider; d.Some? && d.value.CacheAccept?
        ensures GrantedHere(t, s, flow, Decide(t, flow, p, state).decider.value.value)
      {
        DeciderHits(Rules(s), Drop, p, state, MarkOf(t, flow));
        assert GrantedHere(st, s, flow, Owned(MarkOf(st, flow)));
      }
    }
  }

  /** A snapshot in range never caches the zero mark, so only tracked flows matter. */
  lemma OnlyTracked(st: State, s: Snapshot)
    requires Accepted(s) && EpochInRange(s.options.epoch) && GoodSlots(s.options.slots)
    ensures MarksGranted(st, s) <==>
            forall flow :: flow in st.flows && CacheValue(s, Owned(st.flows[flow])) ==>
              GrantedHere(st, s, flow, Owned(st.flows[flow]))
  {
    hide Accepted, GrantedHere, CacheValue;
    ZeroNotCached(s);
    assert Owned(0) == 0;
    forall flow: nat | CacheValue(s, Owned(MarkOf(st, flow))) ensures flow in st.flows {}
  }

  lemma ZeroNotCached(s: Snapshot)
    requires Accepted(s) && EpochInRange(s.options.epoch) && GoodSlots(s.options.slots)
    ensures !CacheValue(s, 0)
  {
    forall a, b | a in s.slots && b in s.slots ensures Pack(CacheMark(s.options.epoch, a, b)) != 0 {
      SlotsPackable(s, a);
      SlotsPackable(s, b);
      PackNonzero(CacheMark(s.options.epoch, a, b));
    }
  }

  lemma {:induction false} Beyond(flows: set<nat>) returns (n: nat)
    ensures forall f :: f in flows ==> f < n
  {
    n := 0;
    if flows != {} {
      var f :| f in flows;
      var m := Beyond(flows - {f});
      n := if m > f then m else f + 1;
      forall x | x in flows ensures x < n { assert x == f || x in flows - {f}; }
    }
  }

  /** A grant is never for the zero mark, and some flow is untracked. */
  lemma ZeroUncached(st: State, s: Snapshot)
    requires MarksGranted(st, s)
    ensures !CacheValue(s, 0)
  {
    hide CacheValue, GrantedBy;
    var n := Beyond(st.flows.Keys);
    assert n !in st.flows && MarkOf(st, n) == 0 && Owned(0) == 0;
    forall g, q ensures !GrantedBy(g, q, 0) { GrantNonzero(g, q); }
  }

  lemma GrantNonzero(g: Grant, q: SecurityPolicy)
    ensures !GrantedBy(g, q, 0)
  {
    if PolicyMark(q, g.snapshot.options).Some? { PackNonzero(PolicyMark(q, g.snapshot.options).value); }
  }

  lemma ArriveGrants(st: State, flow: nat, p: Packet, state: CtState)
    requires Stocked(st) && Running(st) && MarksGranted(st, st.installed.value)
    ensures MarksGranted(Arrived(st, flow, p, state), st.installed.value)
  {
    hide Accepted, Rules, Traverse, ValidChain, CacheValue, GrantedBy;
    var s := st.installed.value;
    var t := Arrived(st, flow, p, state);
    var mark := Decide(st, flow, p, state).mark;
    ZeroUncached(st, s);
    DeciderHits(Rules(s), Drop, p, state, MarkOf(st, flow));
    RuleKinds(s);
    forall f: nat | CacheValue(s, Owned(MarkOf(t, f))) ensures GrantedHere(t, s, f, Owned(MarkOf(t, f))) {
      if f == flow && mark != MarkOf(st, flow) {
        MarkGrants(st, flow, p, state);
      } else {
        assert GrantedHere(st, s, f, Owned(MarkOf(st, f)));
        var g, q :| g in st.grants && g.flow == f && g.snapshot == s && GrantedBy(g, q, Owned(MarkOf(st, f)));
        assert g in t.grants;
      }
    }
  }

  /** A packet that changes the mark of its flow leaves a grant for the new mark. */
  lemma MarkGrants(st: State, flow: nat, p: Packet, state: CtState)
    requires Stocked(st) && Running(st) && Decide(st, flow, p, state).mark != MarkOf(st, flow)
    ensures var t := Arrived(st, flow, p, state);
            flow in t.flows && GrantedHere(t, st.installed.value, flow, Owned(t.flows[flow]))
  {
    hide Accepted, Rules, Traverse, ValidChain, CacheActive, CacheValue, PolicyMark, Pack;
    var s := st.installed.value;
    var t := Arrived(st, flow, p, state);
    DeciderHits(Rules(s), Drop, p, state, MarkOf(st, flow));
    RuleKinds(s);
    var r := Decide(st, flow, p, state).decider.value;
    assert MarkFromPolicy(s, r);
    var q :| q in s.config.policies && q.id == r.policy && q.enabled && q.action == Allow
             && PolicyMark(q, s.options).Some? && r.mark.value == Pack(PolicyMark(q, s.options).value);
    MarkFits(q, s.options);
    OwnedOfPacked(PolicyMark(q, s.options).value, MarkOf(st, flow) % LOW);
    var g := Grant(flow, s, r);
    assert g in t.grants && GrantedBy(g, q, Owned(t.flows[flow]));
  }

  lemma MarkFits(q: SecurityPolicy, o: Options)
    ensures PolicyMark(q, o).Some? ==> Packable(PolicyMark(q, o).value)
  {
  }

  /** No event but an install makes a sound state unsound. */
  lemma EventGrants(st: State, e: Event)
    requires Stocked(st) && !e.Install? && (st.installed.Some? ==> MarksGranted(st, st.installed.value))
    ensures var t := Next(st, e); t.installed.Some? ==> MarksGranted(t, t.installed.value)
  {
    hide Accepted, Rules, Traverse, ValidChain, CacheValue, GrantedBy, CacheActive, Arrived;
    var t := Next(st, e);
    if t.installed.Some? {
      var s := t.installed.value;
      if e.Arrive? {
        if Running(st) { ArriveGrants(st, e.flow, e.packet, e.state); }
        ArrivedKeeps(st, e.flow, e.packet, e.state);
      } else {
        ZeroUncached(st, s);
        forall f: nat | CacheValue(s, Owned(MarkOf(t, f))) ensures GrantedHere(t, s, f, Owned(MarkOf(t, f))) {
          if e.WriteLow? && f == e.flow && f in st.flows { OwnedKept(st.flows[f], e.low % LOW); }
          assert Owned(0) == 0 && Owned(MarkOf(t, f)) == Owned(MarkOf(st, f));
          var g, q :| g in st.grants && g.flow == f && g.snapshot == s && GrantedBy(g, q, Owned(MarkOf(st, f)));
          assert g in t.grants;
        }
      }
    }
  }

  lemma ArrivedKeeps(st: State, flow: nat, p: Packet, state: CtState)
    ensures Running(st) ==> Arrived(st, flow, p, state).installed == st.installed
  {
  }

  lemma {:induction false} RunStocked(boot: string, file: EpochFile, events: seq<Event>)
    ensures Stocked(Run(Start(boot, file), events))
  {
    hide Accepted, Traverse, Rules, OptionsFor, Allocated;
    if |events| > 0 { RunStocked(boot, file, events[..|events| - 1]); }
  }

  /** The install leaves no flow with a mark its snapshot caches and did not grant. */
  ghost predicate InstallsSoundly(st: State, e: Event) {
    e.Install? && e.snapshot in st.stored ==> MarksGranted(st, e.snapshot)
  }

  ghost predicate SoundThroughout(st: State, events: seq<Event>) {
    Sound(Run(st, events)) && (|events| > 0 ==> SoundThroughout(st, events[..|events| - 1]))
  }

  ghost predicate InstallsSound(st: State, events: seq<Event>) {
    |events| > 0 ==>
      var init := events[..|events| - 1];
      InstallsSound(st, init) && InstallsSoundly(Run(st, init), events[|events| - 1])
  }

  /**
   Over every run, reboots and stale snapshots included: all states are sound
   if and only if every install is of a snapshot that granted all the marks it
   caches, as they stand at that moment.
   */
  lemma {:induction false} RunSoundIff(boot: string, file: EpochFile, events: seq<Event>)
    ensures SoundThroughout(Start(boot, file), events) <==> InstallsSound(Start(boot, file), events)
  {
    hide Sound, Next, InstallsSoundly, Stocked, Start;
    if |events| == 0 {
      StartSound(boot, file);
    } else {
      var init := events[..|events| - 1];
      RunSoundIff(boot, file, init);
      RunStocked(boot, file, init);
      if SoundThroughout(Start(boot, file), init) {
        StepSoundIff(Run(Start(boot, file), init), events[|events| - 1]);
      }
    }
  }

  lemma StartSound(boot: string, file: EpochFile)
    ensures Sound(Run(Start(boot, file), []))
  {
  }

  lemma StepSoundIff(st: State, e: Event)
    requires Stocked(st) && Sound(st)
    ensures Sound(Next(st, e)) <==> InstallsSoundly(st, e)
  {
    hide Accepted, Sound, MarksGranted;
    if st.installed.Some? {
      SoundIff(st, st.installed.value);
      assert st.(installed := st.installed) == st;
    }
    var t := Next(st, e);
    if e.Install? {
      if e.snapshot in st.stored { SoundIff(st, e.snapshot); }
    } else {
      EventGrants(st, e);
      StepStocked(st, e);
      if t.installed.Some? {
        SoundIff(t, t.installed.value);
        assert t.(installed := t.installed) == t;
      } else {
        NothingDecides(t);
      }
    }
  }

  lemma NothingDecides(st: State)
    requires st.installed.None?
    ensures Sound(st)
  {
  }

  lemma StepStocked(st: State, e: Event)
    requires Stocked(st)
    ensures Stocked(Next(st, e))
  {
    hide Accepted, Traverse, Rules, OptionsFor, Allocated;
  }

  /** A configuration that lets one zone talk to itself, and one that drops everything. */
  function Zone(): seq<Iface> { [Iface("eth0", "z")] }
  function Open(): Config {
    Config(Zone(), [SecurityPolicy("p", 1, true, Allow, ["z"], ["z"], [], [], [], "", true, false, [], false)], true)
  }
  function Shut(): Config { Config(Zone(), [], true) }
  function First(c: Config): Snapshot { Snapshot(c, Options(1, map["z" := 1], true), [1]) }
  function Probe(): Packet { Packet("eth0", "eth0", Addr(false, 1), Addr(false, 2), 6, 1000, 2000) }

  lemma FirstAccepted(c: Config)
    requires c == Open() || c == Shut()
    ensures Accepted(First(c)) && OptionsFor(["z"], Some(1)) == First(c).options
  {
    assert ["z"][..0] == [];
    assert ZoneSlots(["z"]) == map["z" := 1];
    assert Zone()[0] in Zone();
    assert First(c).options.slots["z"] == 1;
  }

  function OpenLine(): NftRule {
    PolicyLine(ForwardMatch(Open().policies[0], Zone()), Allow, Some(Pack(CacheMark(1, 1, 1))), "p", false)
  }

  lemma OpenLines()
    ensures Lines(First(Open()), false) == [OpenLine()]
  {
    var s, q := First(Open()), Open().policies[0];
    assert SortByPriority(Open().policies) == [q];
    assert [q][..0] == [];
    assert AllLines([q], Zone(), false) == PolicyLines(q, Zone(), false);
    assert MarksFor(s) == map["p" := Pack(CacheMark(1, 1, 1))];
  }

  lemma OpenLineHits()
    ensures ValidChain([OpenLine()])
    ensures Traverse([OpenLine()], Drop, Probe(), New, 0) == Outcome(Allow, Pack(CacheMark(1, 1, 1)), Some(OpenLine()))
  {
    assert Zone()[0] in Zone();
    assert "eth0" in ZoneNames(Zone(), ["z"]);
  }

  /** The chain of `Open` accepts and marks the probe. */
  lemma ProbeMarked()
    ensures ValidChain(Rules(First(Open())))
    ensures Traverse(Rules(First(Open())), Drop, Probe(), New, 0).action == Allow
    ensures Owned(Traverse(Rules(First(Open())), Drop, Probe(), New, 0).mark) == Pack(CacheMark(1, 1, 1))
  {
    hide Rules, Lines, Traverse, Open, OpenLine, Accepted, Zone;
    var s := First(Open());
    FirstAccepted(Open());
    RuleKinds(s);
    RulesAre(s);
    OpenLines();
    OpenLineHits();
    var head, rest := [InvalidDrop] + CacheRules(s.options, s.slots), Lines(s, true) + Tail(Open());
    CacheGridShape(1, [1], [1]);
    TraverseMiss(head, Drop, Probe(), New, 0);
    LineMarks(s, true);
    assert Rules(s) == head + ([OpenLine()] + rest);
    TraverseAppend(head, [OpenLine()] + rest, Drop, Probe(), New, 0);
    TraverseAppend([OpenLine()], rest, Drop, Probe(), New, 0);
    OwnedOfPacked(CacheMark(1, 1, 1), 0);
  }

  function StaleEvents(): seq<Event> {
    [Prepare(Shut(), ["z"], [1], Written), Rebooted("b"), Prepare(Open(), ["z"], [1], Written)]
  }

  lemma StaleStored()
    ensures var st := Run(Start("a", Missing), StaleEvents());
            First(Shut()) in st.stored && First(Open()) in st.stored && st.flows == map[] && st.grants == {}
  {
    hide Accepted, Open, Shut, Zone, OptionsFor;
    var e0, e1, e2 := Prepare(Shut(), ["z"], [1], Written), Rebooted("b"), Prepare(Open(), ["z"], [1], Written);
    FirstAccepted(Shut());
    FirstAccepted(Open());
    var s0 := Start("a", Missing);
    assert [e0, e1, e2][..2] == [e0, e1] && [e0, e1][..1] == [e0] && [e0][..0] == [];
    assert Run(s0, []) == s0;
    assert Run(s0, [e0]) == Next(s0, e0);
    assert Run(s0, [e0, e1]) == Next(Next(s0, e0), e1);
    assert Run(s0, [e0, e1, e2]) == Next(Next(Next(s0, e0), e1), e2);
  }

  /** The earlier boot's snapshot of `Shut` shares epoch one with this boot's snapshot of `Open`. */
  lemma StaleBootWitness()
    ensures var st := Run(Start("a", Missing), StaleEvents());
            var after := Relay(st, First(Shut()), First(Open()), 7, Probe());
            && Running(after)
            && Decide(after, 7, Probe(), Established).decider == Some(CacheAccept(Pack(CacheMark(1, 1, 1))))
            && forall g :: g in after.grants && g.flow == 7 ==> g.snapshot != First(Shut())
  {
    hide Accepted, Rules, Traverse, Run, Next;
    FirstAccepted(Shut());
    FirstAccepted(Open());
    ProbeMarked();
    StaleStored();
    assert First(Shut()).slots[0] == 1;
    assert CacheValue(First(Shut()), Pack(CacheMark(1, 1, 1)));
    SharedEpochViolates(Run(Start("a", Missing), StaleEvents()), First(Shut()), First(Open()), 7, Probe());
  }

  function LegacyEvents(): seq<Event> {
    [Prepare(Open(), ["z"], [1], Written), Fallback(Shut(), First(Open()))]
  }

  lemma LegacyStored()
    ensures var st := Run(Start("a", Missing), LegacyEvents());
            First(Shut()) in st.stored && First(Open()) in st.stored && st.flows == map[] && st.grants == {}
  {
    hide Accepted, Open, Shut, Zone, OptionsFor;
    var e0, e1 := Prepare(Open(), ["z"], [1], Written), Fallback(Shut(), First(Open()));
    FirstAccepted(Shut());
    FirstAccepted(Open());
    var s0 := Start("a", Missing);
    assert [e0, e1][..1] == [e0] && [e0][..0] == [];
    assert Run(s0, []) == s0;
    assert Run(s0, [e0]) == Next(s0, e0);
    assert Run(s0, [e0, e1]) == Next(Next(s0, e0), e1);
  }

  /**
   Within one boot: the activation of `Open` fails after its rules were loaded,
   and `Shut` comes back under its epoch.
   */
  lemma LegacyWitness()
    ensures var st := Run(Start("a", Missing), LegacyEvents());
            var after := Relay(st, First(Shut()), First(Open()), 7, Probe());
            && Running(after)
            && Decide(after, 7, Probe(), Established).decider == Some(CacheAccept(Pack(CacheMark(1, 1, 1))))
            && forall g :: g in after.grants && g.flow == 7 ==> g.snapshot != First(Shut())
  {
    hide Accepted, Rules, Traverse, Run, Next;
    FirstAccepted(Shut());
    FirstAccepted(Open());
    ProbeMarked();
    LegacyStored();
    assert First(Shut()).slots[0] == 1;
    assert CacheValue(First(Shut()), Pack(CacheMark(1, 1, 1)));
    SharedEpochViolates(Run(Start("a", Missing), LegacyEvents()), First(Shut()), First(Open()), 7, Probe());
  }

  /** The options the engine compiles, with an allocated epoch or none, never yield such a rule. */
  lemma EngineOptionsFit(ids: seq<string>, epoch: Option<nat>, slots: seq<nat>)
    requires (epoch.Some? ==> EpochInRange(epoch.value)) && SlotList(OptionsFor(ids, epoch), slots)
    ensures CacheAccept(0) !in CacheRules(OptionsFor(ids, epoch), slots)
  {
    hide ZoneSlots;
    ZoneSlotsGood(ids);
    ZeroRuleIff(OptionsFor(ids, epoch), slots);
  }

  /**
   A cache rule with the value of an unmarked packet exists exactly when the
   epoch or a slot does not fit the mark: the compiler ignores the error.
   */
  lemma ZeroRuleIff(o: Options, slots: seq<nat>)
    ensures CacheAccept(0) in CacheRules(o, slots) <==>
            CacheActive(o) && slots != [] && (!EpochInRange(o.epoch) || exists s :: s in slots && !SlotInRange(s))
  {
    CacheGridValues(o.epoch, slots, slots);
    if CacheActive(o) && slots != [] {
      assert slots[0] in slots;
      if !EpochInRange(o.epoch) { PackNonzero(CacheMark(o.epoch, slots[0], slots[0])); }
      if s :| s in slots && !SlotInRange(s) { PackNonzero(CacheMark(o.epoch, s, slots[0])); }
    }
  }
}
