/**
 Both compiled forward chains decide a new packet exactly as the in-memory
 program decides the packet's view.
 */
module ForwardProofs {
  import opened Wrappers
  import opened Policy
  import opened Marks
  import opened ForwardChain

  // -------------------------------------------------------- traversing rules

  lemma {:induction false} TraverseAppend(a: seq<NftRule>, b: seq<NftRule>, policy: Action, p: Packet, state: CtState,
                                          mark: nat)
    requires ValidChain(a) && ValidChain(b)
    ensures ValidChain(a + b)
    ensures var t := Traverse(a, policy, p, state, mark);
            Traverse(a + b, policy, p, state, mark) == if t.decider.Some? then t
                else Traverse(b, policy, p, state, mark)
  {
    if |a| == 0 {
      assert a + b == b;
    } else {
      assert (a + b)[1..] == a[1..] + b;
      TraverseAppend(a[1..], b, policy, p, state, mark);
    }
  }

  lemma {:induction false} TraverseMiss(rules: seq<NftRule>, policy: Action, p: Packet, state: CtState, mark: nat)
    requires ValidChain(rules)
    requires forall r :: r in rules ==> !Hits(r, p, state, mark)
    ensures Traverse(rules, policy, p, state, mark) == Outcome(policy, mark, None)
  {
    if |rules| > 0 {
      assert rules[0] in rules;
      TraverseMiss(rules[1..], policy, p, state, mark);
    }
  }

  lemma MarkedValid(rules: seq<NftRule>, marks: map<string, nat>)
    requires ValidChain(rules)
    ensures ValidChain(MarkedAll(rules, marks))
  {
    forall r | r in MarkedAll(rules, marks) ensures ValidNft(r) {
      var i :| 0 <= i < |rules| && r == Marked(rules[i], marks);
      assert rules[i] in rules;
    }
  }

  /** Marks change what a packet leaves behind, never whether a rule hits. */
  lemma {:induction false} TraverseMarked(rules: seq<NftRule>, marks: map<string, nat>, policy: Action,
                                          p: Packet, state: CtState, mark: nat)
    requires ValidChain(rules)
    ensures ValidChain(MarkedAll(rules, marks))
    ensures var t := Traverse(rules, policy, p, state, mark);
            var m := Traverse(MarkedAll(rules, marks), policy, p, state, mark);
            && m.action == t.action
            && (m.decider == if t.decider.Some? then Some(Marked(t.decider.value, marks)) else None)
  {
    MarkedValid(rules, marks);
    if |rules| > 0 {
      hide MatchHits;
      assert MarkedAll(rules, marks)[0] == Marked(rules[0], marks);
      assert MarkedAll(rules, marks)[1..] == MarkedAll(rules[1..], marks);
      TraverseMarked(rules[1..], marks, policy, p, state, mark);
    }
  }

  // ------------------------------------------------------ what a line tests

  lemma {:induction false} ServiceLinesShape(base: Match, p: SecurityPolicy, services: seq<Service>, reverse: bool)
    requires ValidPrefixes(base.source) && ValidPrefixes(base.destination)
    ensures ValidChain(ServiceLines(base, p, services, reverse))
    ensures forall r :: r in ServiceLines(base, p, services, reverse) ==>
              r.PolicyLine? && r.action == p.action && r.policy == p.id && r.reverse == reverse && r.mark.None?
              && r.match_.established == base.established
  {
    if |services| > 0 {
      ServiceLinesShape(base, p, services[..|services| - 1], reverse);
    }
  }

  lemma PolicyLinesShape(p: SecurityPolicy, interfaces: seq<Iface>, reverse: bool)
    requires ValidPolicy(p)
    ensures ValidChain(PolicyLines(p, interfaces, reverse))
    ensures forall r :: r in PolicyLines(p, interfaces, reverse) ==>
              r.PolicyLine? && r.action == p.action && r.policy == p.id && r.reverse == reverse && r.mark.None?
              && r.match_.established == reverse
  {
    var base := if reverse then ReverseMatch(p, interfaces) else ForwardMatch(p, interfaces);
    ServiceLinesShape(base, p, p.services, reverse);
  }

  lemma {:induction false} AllLinesShape(ps: seq<SecurityPolicy>, interfaces: seq<Iface>, reverse: bool)
    requires ValidPolicies(ps)
    ensures ValidChain(AllLines(ps, interfaces, reverse))
    ensures forall r :: r in AllLines(ps, interfaces, reverse) ==>
              r.PolicyLine? && r.reverse == reverse && r.mark.None? && r.match_.established == reverse
              && exists q :: && q in ps && q.enabled && r.policy == q.id && r.action == q.action
                             && r in PolicyLines(q, interfaces, reverse)
  {
    if |ps| > 0 {
      var last := ps[|ps| - 1];
      assert last in ps;
      AllLinesShape(ps[..|ps| - 1], interfaces, reverse);
      PolicyLinesShape(last, interfaces, reverse);
    }
  }

  /** A single line decides exactly when its base and its service match. */
  lemma LineHits(line: NftRule, base: Match, s: Service, p: Packet, state: CtState, mark: nat)
    requires ValidPrefixes(base.source) && ValidPrefixes(base.destination) && base.service.None? && line.PolicyLine?
    requires line.match_ == base.(service := Some(PortTest(s, false)))
    ensures ValidChain([line])
    ensures Hits(line, p, state, mark) <==> MatchHits(base, p, state) && ServiceMatch(s, p.protocol, p.destinationPort)
    ensures forall policy :: Traverse([line], policy, p, state, mark).decider ==
                             if Hits(line, p, state, mark) then Some(line) else None
    ensures forall policy :: Hits(line, p, state, mark) ==>
                             Traverse([line], policy, p, state, mark).action == line.action
  {
  }

  /** The lines of a policy hit exactly when its base and one of its services do. */
  lemma {:induction false} ServiceLinesHit(base: Match, q: SecurityPolicy, services: seq<Service>, policy: Action,
                                           p: Packet, state: CtState, mark: nat)
    requires ValidPrefixes(base.source) && ValidPrefixes(base.destination) && base.service.None?
    ensures ValidChain(ServiceLines(base, q, services, false))
    ensures var t := Traverse(ServiceLines(base, q, services, false), policy, p, state, mark);
            && (t.decider.Some? <==>
                && MatchHits(base, p, state)
                && exists s :: s in services && ServiceMatch(s, p.protocol, p.destinationPort))
            && (t.decider.Some? ==>
                t.action == q.action && t.decider.value.PolicyLine? && t.decider.value.policy == q.id)
  {
    ServiceLinesShape(base, q, services, false);
    if |services| > 0 {
      var init, last := services[..|services| - 1], services[|services| - 1];
      var line := PolicyLine(base.(service := Some(PortTest(last, false))), q.action, None, q.id, false);
      assert ServiceLines(base, q, services, false) == ServiceLines(base, q, init, false) + [line];
      assert services == init + [last];
      hide ServiceLines, ServiceMatch;
      ServiceLinesHit(base, q, init, policy, p, state, mark);
      TraverseAppend(ServiceLines(base, q, init, false), [line], policy, p, state, mark);
      LineHits(line, base, last, p, state, mark);
    }
  }

  lemma PolicyLinesHit(q: SecurityPolicy, interfaces: seq<Iface>, policy: Action, p: Packet, state: CtState, mark: nat)
    requires ValidPolicy(q)
    ensures ValidChain(PolicyLines(q, interfaces, false))
    ensures var t := Traverse(PolicyLines(q, interfaces, false), policy, p, state, mark);
            && (t.decider.Some? <==> MatchHits(ForwardMatch(q, interfaces), p, state)
                                     && ServicesMatch(q.services, p.protocol, p.destinationPort))
            && (t.decider.Some? ==>
                t.action == q.action && t.decider.value.PolicyLine? && t.decider.value.policy == q.id)
  {
    PolicyLinesShape(q, interfaces, false);
    if |q.services| > 0 {
      ServiceLinesHit(ForwardMatch(q, interfaces), q, q.services, policy, p, state, mark);
    }
  }

  // --------------------------------------------------------- packets as views

  /** The zone of a configured interface; no zone for any other name. */
  function ZoneOf(interfaces: seq<Iface>, name: string): string {
    if |interfaces| == 0 then ""
    else if interfaces[0].name == name then interfaces[0].zone
    else ZoneOf(interfaces[1..], name)
  }

  function ViewOf(c: Config, p: Packet): View {
    View(p.source, p.destination, p.sourcePort, p.destinationPort, p.protocol,
         ZoneOf(c.interfaces, p.iif), ZoneOf(c.interfaces, p.oif))
  }

  /** Interface names are set and assigned once. */
  predicate NamesUnique(interfaces: seq<Iface>) {
    && (forall i :: i in interfaces ==> i.name != "")
    && forall i, j :: 0 <= i < j < |interfaces| ==> interfaces[i].name != interfaces[j].name
  }

  lemma {:induction false} ZoneOfMember(interfaces: seq<Iface>, name: string)
    requires NamesUnique(interfaces)
    ensures forall i :: i in interfaces && i.name == name ==> ZoneOf(interfaces, name) == i.zone
    ensures ZoneOf(interfaces, name) != "" ==>
            exists i :: i in interfaces && i.name == name && i.zone == ZoneOf(interfaces, name)
  {
    if |interfaces| > 0 {
      var rest := interfaces[1..];
      assert interfaces == [interfaces[0]] + rest;
      assert NamesUnique(rest);
      ZoneOfMember(rest, name);
      if interfaces[0].name == name {
        forall i | i in interfaces && i.name == name ensures i == interfaces[0] {
          var k :| 0 <= k < |interfaces| && interfaces[k] == i;
        }
      }
    }
  }

  /** An interface set rendered from zones tests the packet's zone. */
  lemma ZoneTestIsZone(interfaces: seq<Iface>, zones: seq<string>, name: string)
    requires NamesUnique(interfaces) && forall z :: z in zones ==> ZoneHasInterface(interfaces, z)
    ensures (ZoneTest(interfaces, zones).Some? ==> name in ZoneTest(interfaces, zones).value)
            <==> (Elements(zones) != {} ==> ZoneOf(interfaces, name) in Elements(zones))
  {
    ZoneOfMember(interfaces, name);
    if |zones| > 0 {
      assert zones[0] in Elements(zones);
      assert name in ZoneNames(interfaces, zones) <==>
          exists i :: i in interfaces && i.zone != "" && i.zone in zones && i.name == name;
      if ZoneOf(interfaces, name) in zones {
        assert ZoneHasInterface(interfaces, ZoneOf(interfaces, name));
      }
    }
  }

  lemma ForwardMatchIsMatch(c: Config, q: SecurityPolicy, p: Packet)
    requires NamesUnique(c.interfaces) && ValidPolicy(q) && Renderable(q, c.interfaces)
    ensures Matches(RuleOf(q), ViewOf(c, p)) <==>
            MatchHits(ForwardMatch(q, c.interfaces), p, New) && ServicesMatch(q.services, p.protocol, p.destinationPort)
  {
    ZoneTestIsZone(c.interfaces, q.sourceZones, p.iif);
    ZoneTestIsZone(c.interfaces, q.destinationZones, p.oif);
  }

  /** The forward lines decide as the first matching rule does. */
  lemma {:induction false} AllLinesFirstMatch(c: Config, ps: seq<SecurityPolicy>, policy: Action, p: Packet, mark: nat)
    requires NamesUnique(c.interfaces) && ValidPolicies(ps)
    requires forall q :: q in ps && q.enabled ==> Renderable(q, c.interfaces)
    ensures ValidChain(AllLines(ps, c.interfaces, false)) && ValidRules(RulesOf(ps))
    ensures var t := Traverse(AllLines(ps, c.interfaces, false), policy, p, New, mark);
            var m := FirstMatch(RulesOf(ps), ViewOf(c, p));
            && (t.decider.Some? <==> m.Some?)
            && (m.Some? ==>
                t.action == m.value.action && t.decider.value.PolicyLine? && t.decider.value.policy == m.value.id)
  {
    AllLinesShape(ps, c.interfaces, false);
    RulesOfValid(ps);
    if |ps| > 0 {
      var init, last := ps[..|ps| - 1], ps[|ps| - 1];
      assert last in ps;
      AllLinesFirstMatch(c, init, policy, p, mark);
      if !last.enabled {
        assert RulesOf(ps) == RulesOf(init);
        assert AllLines(ps, c.interfaces, false) == AllLines(init, c.interfaces, false);
      } else {
        hide Renderable, MatchHits, Matches;
        assert FirstMatch([RuleOf(last)], ViewOf(c, p)) == if Matches(RuleOf(last), ViewOf(c, p))
            then Some(RuleOf(last)) else None;
        PolicyLinesHit(last, c.interfaces, policy, p, New, mark);
        ForwardMatchIsMatch(c, last, p);
        TraverseAppend(AllLines(init, c.interfaces, false), PolicyLines(last, c.interfaces, false), policy, p, New,
                       mark);
        FirstMatchAppend(RulesOf(init), [RuleOf(last)], ViewOf(c, p));
      }
    }
  }

  // ------------------------------------------------------------ the theorem

  lemma {:induction false} CacheRowShape(epoch: nat, source: nat, slots: seq<nat>)
    ensures forall r :: r in CacheRow(epoch, source, slots) ==> r.CacheAccept?
  {
    if |slots| > 0 { CacheRowShape(epoch, source, slots[..|slots| - 1]); }
  }

  lemma {:induction false} CacheGridShape(epoch: nat, sources: seq<nat>, slots: seq<nat>)
    ensures forall r :: r in CacheGrid(epoch, sources, slots) ==> r.CacheAccept?
  {
    if |sources| > 0 {
      CacheGridShape(epoch, sources[..|sources| - 1], slots);
      CacheRowShape(epoch, sources[|sources| - 1], slots);
    }
  }

  lemma SortedPolicies(c: Config)
    requires ValidPolicies(c.policies) && Compilable(c)
    ensures ValidPolicies(SortByPriority(c.policies))
    ensures forall q :: q in SortByPriority(c.policies) && q.enabled ==> Renderable(q, c.interfaces)
  {
  }

  ghost predicate Sound(c: Config) {
    NamesUnique(c.interfaces) && ValidPolicies(c.policies) && Compilable(c)
  }

  function ProgramOf(c: Config, generation: nat): Program {
    Program(RulesOf(SortByPriority(c.policies)), c.defaultDeny, generation)
  }

  /** M1 decides a new packet as the program decides its view. */
  lemma M1DecidesNew(c: Config, generation: nat, p: Packet, mark: nat)
    requires Sound(c)
    ensures ValidChain(M1Chain(c).rules) && ValidRules(ProgramOf(c, generation).rules)
    ensures Traverse(M1Chain(c).rules, M1Chain(c).policy, p, New, mark).action ==
            Evaluation(ProgramOf(c, generation), ViewOf(c, p)).action
  {
    hide Renderable, NamesUnique, Matches;
    var ps := SortByPriority(c.policies);
    SortedPolicies(c);
    AllLinesFirstMatch(c, ps, M1Chain(c).policy, p, mark);
    TraverseMiss([InvalidDrop, EstablishedAccept], M1Chain(c).policy, p, New, mark);
    TraverseAppend([InvalidDrop, EstablishedAccept], AllLines(ps, c.interfaces, false), M1Chain(c).policy, p, New,
                   mark);
    DefaultOutcome(AllLines(ps, c.interfaces, false), M1Chain(c).policy, p, New, mark);
  }

  lemma {:induction false} DefaultOutcome(rules: seq<NftRule>, policy: Action, p: Packet, state: CtState, mark: nat)
    requires ValidChain(rules)
    ensures var t := Traverse(rules, policy, p, state, mark); t.decider.None? ==> t == Outcome(policy, mark, None)
  {
    if |rules| > 0 { DefaultOutcome(rules[1..], policy, p, state, mark); }
  }

  /** What the parts of the M2 chain contribute to a new packet. */
  lemma M2Parts(c: Config, o: Options, slots: seq<nat>, p: Packet, mark: nat)
    requires Sound(c)
    ensures ValidChain(M2Chain(c, o, slots).rules)
    ensures var marks := if CacheActive(o) then MarksOf(c.policies, o) else map[];
            var forward := MarkedAll(AllLines(SortByPriority(c.policies), c.interfaces, false), marks);
            && ValidChain(forward + Tail(c))
            && Traverse(M2Chain(c, o, slots).rules, Drop, p, New, mark) ==
               Traverse(forward + Tail(c), Drop, p, New, mark)
  {
    hide Renderable, NamesUnique, MarksOf, MatchHits, CacheGrid;
    var ps := SortByPriority(c.policies);
    var marks := if CacheActive(o) then MarksOf(c.policies, o) else map[];
    var forward, reverse := MarkedAll(AllLines(ps, c.interfaces, false), marks),
        MarkedAll(AllLines(ps, c.interfaces, true), marks);
    var head := [InvalidDrop] + CacheRules(o, slots);
    SortedPolicies(c);
    MarkedShape(ps, c.interfaces, false, marks);
    MarkedShape(ps, c.interfaces, true, marks);
    CacheGridShape(o.epoch, slots, slots);
    assert M2Chain(c, o, slots).rules == head + (forward + (reverse + Tail(c)));
    TraverseMiss(head, Drop, p, New, mark);
    ReverseMisses(reverse, p, mark);
    TraverseAppend(reverse, Tail(c), Drop, p, New, mark);
    TraverseAppend(forward, reverse + Tail(c), Drop, p, New, mark);
    TraverseAppend(head, forward + (reverse + Tail(c)), Drop, p, New, mark);
    TraverseAppend(forward, Tail(c), Drop, p, New, mark);
  }

  lemma MarkedShape(ps: seq<SecurityPolicy>, interfaces: seq<Iface>, reverse: bool, marks: map<string, nat>)
    requires ValidPolicies(ps)
    ensures var rules := MarkedAll(AllLines(ps, interfaces, reverse), marks);
            && ValidChain(rules)
            && forall r :: r in rules ==> r.PolicyLine? && r.match_.established == reverse
  {
    AllLinesShape(ps, interfaces, reverse);
    var lines := AllLines(ps, interfaces, reverse);
    forall r | r in MarkedAll(lines, marks) ensures ValidNft(r) && r.PolicyLine? && r.match_.established == reverse {
      var i :| 0 <= i < |lines| && r == Marked(lines[i], marks);
      assert lines[i] in lines;
    }
  }

  lemma ReverseMisses(reverse: seq<NftRule>, p: Packet, mark: nat)
    requires ValidChain(reverse) && forall r :: r in reverse ==> r.PolicyLine? && r.match_.established
    ensures Traverse(reverse, Drop, p, New, mark) == Outcome(Drop, mark, None)
  {
    TraverseMiss(reverse, Drop, p, New, mark);
  }

  /**
   For every configuration and every new packet, the M2 chain, with or without
   cache and with either default, gives the verdict of the program.
   */
  lemma M2DecidesNew(c: Config, o: Options, slots: seq<nat>, generation: nat, p: Packet, mark: nat)
    requires Sound(c)
    ensures ValidChain(M2Chain(c, o, slots).rules) && ValidRules(ProgramOf(c, generation).rules)
    ensures Traverse(M2Chain(c, o, slots).rules, M2Chain(c, o, slots).policy, p, New, mark).action
         == Evaluation(ProgramOf(c, generation), ViewOf(c, p)).action
  {
    hide Renderable, NamesUnique, MarksOf, Matches, MatchHits, M2Chain;
    var ps := SortByPriority(c.policies);
    var marks := if CacheActive(o) then MarksOf(c.policies, o) else map[];
    SortedPolicies(c);
    M2Parts(c, o, slots, p, mark);
    M2PolicyIsDrop(c, o, slots);
    AllLinesFirstMatch(c, ps, Drop, p, mark);
    TraverseMarked(AllLines(ps, c.interfaces, false), marks, Drop, p, New, mark);
    TraverseAppend(MarkedAll(AllLines(ps, c.interfaces, false), marks), Tail(c), Drop, p, New, mark);
  }

  lemma M2PolicyIsDrop(c: Config, o: Options, slots: seq<nat>)
    ensures M2Chain(c, o, slots).policy == Drop
  {
  }
}
