/**
 The in-memory connectivity program: compiled first-match rules and their
 evaluation on a packet's view.  Names are already in canonical case.
 */
module Policy {
  import opened Wrappers

  // -------------------------------------------------------------- addresses

  datatype Addr = Addr(v6: bool, value: nat)

  /** A prefix keeps its `bits` leading bits; the others are ignored. */
  datatype Prefix = Prefix(v6: bool, value: nat, bits: nat)

  function Width(v6: bool): nat {
    if v6 then 128 else 32
  }

  /** Drop the `n` trailing bits. */
  function Shr(x: nat, n: nat): nat {
    if n == 0 then x else Shr(x, n - 1) / 2
  }

  predicate ValidPrefix(p: Prefix) {
    p.bits <= Width(p.v6)
  }

  /** `netip.Prefix.Contains`: same family and the same leading bits. */
  predicate Contains(p: Prefix, a: Addr)
    requires ValidPrefix(p)
  {
    p.v6 == a.v6 && Shr(a.value, Width(p.v6) - p.bits) == Shr(p.value, Width(p.v6) - p.bits)
  }

  predicate ValidPrefixes(ps: seq<Prefix>) {
    forall p :: p in ps ==> ValidPrefix(p)
  }

  /** `addressMatch`: an empty list matches every address. */
  predicate AddressMatch(ps: seq<Prefix>, a: Addr)
    requires ValidPrefixes(ps)
  {
    |ps| == 0 || exists p :: p in ps && Contains(p, a)
  }

  // --------------------------------------------------------- configurations

  datatype PortRange = PortRange(first: nat, last: nat) {
    predicate Has(port: nat) {
      first <= port <= last
    }
  }

  /** A parsed service selector; ICMP selectors carry no port. */
  datatype Service = AllPorts(protocol: nat) | Ports(protocol: nat, range: PortRange)

  predicate ServiceMatch(s: Service, protocol: nat, port: nat) {
    s.protocol == protocol && (s.Ports? ==> s.range.Has(port))
  }

  predicate ServicesMatch(ss: seq<Service>, protocol: nat, port: nat) {
    |ss| == 0 || exists s :: s in ss && ServiceMatch(s, protocol, port)
  }

  datatype Action = Allow | Drop | Reject | Unsupported

  datatype SecurityPolicy = SecurityPolicy(
    id: string, priority: int, enabled: bool, action: Action,
    sourceZones: seq<string>, destinationZones: seq<string>,
    sourceAddresses: seq<Prefix>, destinationAddresses: seq<Prefix>, services: seq<Service>,
    profile: string, sessionScope: bool, riskBounds: bool, applications: seq<string>, restrictsAllow: bool)

  datatype Rule = Rule(
    id: string, priority: int, action: Action, sourceZones: set<string>, destinationZones: set<string>,
    sourceAddresses: seq<Prefix>, destinationAddresses: seq<Prefix>, services: seq<Service>)

  datatype Program = Program(rules: seq<Rule>, defaultDeny: bool, generation: nat)

  datatype View = View(
    source: Addr, destination: Addr, sourcePort: nat, destinationPort: nat, protocol: nat,
    sourceZone: string, destinationZone: string)

  datatype Decision = Decision(action: Action, policy: Option<string>, generation: nat)

  predicate ValidPolicy(p: SecurityPolicy) {
    ValidPrefixes(p.sourceAddresses) && ValidPrefixes(p.destinationAddresses)
  }

  predicate ValidPolicies(ps: seq<SecurityPolicy>) {
    forall p :: p in ps ==> ValidPolicy(p)
  }

  predicate ValidRule(r: Rule) {
    ValidPrefixes(r.sourceAddresses) && ValidPrefixes(r.destinationAddresses)
  }

  predicate ValidRules(rs: seq<Rule>) {
    forall r :: r in rs ==> ValidRule(r)
  }

  // ------------------------------------------------------------- compiling

  /** Stable insertion: after every policy of the same or a smaller priority. */
  function InsertByPriority(p: SecurityPolicy, ps: seq<SecurityPolicy>): (r: seq<SecurityPolicy>)
    ensures forall q :: q in r <==> q == p || q in ps
  {
    if |ps| == 0 then [p]
    else if ps[|ps| - 1].priority <= p.priority then ps + [p]
    else InsertByPriority(p, ps[..|ps| - 1]) + [ps[|ps| - 1]]
  }

  /** `sort.SliceStable` by priority */
  function SortByPriority(ps: seq<SecurityPolicy>): (r: seq<SecurityPolicy>)
    ensures forall q :: q in r <==> q in ps
  {
    if |ps| == 0 then [] else
      assert ps == ps[..|ps| - 1] + [ps[|ps| - 1]];
      InsertByPriority(ps[|ps| - 1], SortByPriority(ps[..|ps| - 1]))
  }

  predicate Sorted(ps: seq<SecurityPolicy>) {
    forall i, j :: 0 <= i < j < |ps| ==> ps[i].priority <= ps[j].priority
  }

  lemma {:induction false} InsertKeepsSorted(p: SecurityPolicy, ps: seq<SecurityPolicy>)
    requires Sorted(ps)
    ensures Sorted(InsertByPriority(p, ps))
    ensures |InsertByPriority(p, ps)| == |ps| + 1
  {
    if |ps| > 0 && ps[|ps| - 1].priority > p.priority {
      InsertKeepsSorted(p, ps[..|ps| - 1]);
      var r := InsertByPriority(p, ps[..|ps| - 1]);
      forall i | 0 <= i < |r| ensures r[i].priority <= ps[|ps| - 1].priority {
        assert r[i] in r;
      }
    }
  }

  lemma {:induction false} InsertAdds(p: SecurityPolicy, ps: seq<SecurityPolicy>)
    ensures multiset(InsertByPriority(p, ps)) == multiset(ps) + multiset{p}
  {
    if |ps| > 0 {
      assert ps == ps[..|ps| - 1] + [ps[|ps| - 1]];
      InsertAdds(p, ps[..|ps| - 1]);
    }
  }

  lemma {:induction false} SortSorts(ps: seq<SecurityPolicy>)
    ensures Sorted(SortByPriority(ps))
    ensures multiset(SortByPriority(ps)) == multiset(ps) && |SortByPriority(ps)| == |ps|
  {
    if |ps| > 0 {
      assert ps == ps[..|ps| - 1] + [ps[|ps| - 1]];
      SortSorts(ps[..|ps| - 1]);
      InsertKeepsSorted(ps[|ps| - 1], SortByPriority(ps[..|ps| - 1]));
      InsertAdds(ps[|ps| - 1], SortByPriority(ps[..|ps| - 1]));
    }
  }

  function Elements(values: seq<string>): set<string> {
    set v | v in values
  }

  function RuleOf(p: SecurityPolicy): Rule {
    Rule(p.id, p.priority, p.action, Elements(p.sourceZones), Elements(p.destinationZones),
         p.sourceAddresses, p.destinationAddresses, p.services)
  }

  predicate DistinctPriorities(ps: seq<SecurityPolicy>) {
    forall i, j :: 0 <= i < j < |ps| ==> ps[i].priority != ps[j].priority
  }

  predicate Supported(ps: seq<SecurityPolicy>) {
    forall p :: p in ps && p.enabled ==> p.action != Unsupported
  }

  /** The enabled policies, in the order given, as rules. */
  function RulesOf(ps: seq<SecurityPolicy>): seq<Rule> {
    if |ps| == 0 then []
    else RulesOf(ps[..|ps| - 1]) + if ps[|ps| - 1].enabled then [RuleOf(ps[|ps| - 1])] else []
  }

  /** `Compile`: one pass over the sorted policies. */
  method Compile(policies: seq<SecurityPolicy>, defaultDeny: bool, generation: nat) returns (r: Result<Program>)
    ensures r.Success? <==> DistinctPriorities(SortByPriority(policies)) && Supported(policies)
    ensures r.Success? ==> r.value == Program(RulesOf(SortByPriority(policies)), defaultDeny, generation)
  {
    var rules := CompileSorted(SortByPriority(policies));
    assert Supported(SortByPriority(policies)) <==> Supported(policies);
    r := if rules.Success? then Success(Program(rules.value, defaultDeny, generation)) else Failure(rules.error);
  }

  method CompileSorted(ps: seq<SecurityPolicy>) returns (r: Result<seq<Rule>>)
    ensures r.Success? <==> DistinctPriorities(ps) && Supported(ps)
    ensures r.Success? ==> r.value == RulesOf(ps)
  {
    var seen: set<int> := {};
    var rules: seq<Rule> := [];
    for n := 0 to |ps|
      invariant DistinctPriorities(ps[..n])
      invariant seen == set i | 0 <= i < n :: ps[i].priority
      invariant Supported(ps[..n])
      invariant rules == RulesOf(ps[..n])
    {
      assert ps[..n + 1][..n] == ps[..n];
      if ps[n].priority in seen { return Failure("duplicate policy priority"); }
      seen := seen + {ps[n].priority};
      if ps[n].enabled {
        if ps[n].action == Unsupported { return Failure("action is not L3/L4"); }
        rules := rules + [RuleOf(ps[n])];
      }
    }
    assert ps[..|ps|] == ps;
    r := Success(rules);
  }

  lemma {:induction false} RulesOfValid(ps: seq<SecurityPolicy>)
    requires ValidPolicies(ps)
    ensures ValidRules(RulesOf(ps))
  {
    if |ps| > 0 {
      assert ps[|ps| - 1] in ps;
      RulesOfValid(ps[..|ps| - 1]);
    }
  }

  // ------------------------------------------------------------ evaluating

  /** `ruleMatches` */
  predicate Matches(r: Rule, v: View)
    requires ValidRule(r)
  {
    && (r.sourceZones != {} ==> v.sourceZone in r.sourceZones)
    && (r.destinationZones != {} ==> v.destinationZone in r.destinationZones)
    && AddressMatch(r.sourceAddresses, v.source)
    && AddressMatch(r.destinationAddresses, v.destination)
    && ServicesMatch(r.services, v.protocol, v.destinationPort)
  }

  /** The first matching rule, if any. */
  function FirstMatch(rules: seq<Rule>, v: View): Option<Rule>
    requires ValidRules(rules)
  {
    if |rules| == 0 then None
    else if Matches(rules[0], v) then Some(rules[0])
    else FirstMatch(rules[1..], v)
  }

  function Evaluation(p: Program, v: View): Decision
    requires ValidRules(p.rules)
  {
    var m := FirstMatch(p.rules, v);
    if m.Some? then Decision(m.value.action, Some(m.value.id), p.generation)
    else Decision(if p.defaultDeny then Drop else Allow, None, p.generation)
  }

  /** First match means: some rule matches, and no rule before it does. */
  lemma {:induction false} FirstMatchIsFirst(rules: seq<Rule>, v: View)
    requires ValidRules(rules)
    ensures FirstMatch(rules, v).None? <==> forall i :: 0 <= i < |rules| ==> !Matches(rules[i], v)
    ensures FirstMatch(rules, v).Some? ==>
              exists i :: 0 <= i < |rules| && FirstMatch(rules, v).value == rules[i] && Matches(rules[i], v)
                          && forall j :: 0 <= j < i ==> !Matches(rules[j], v)
  {
    if |rules| > 0 && !Matches(rules[0], v) {
      FirstMatchIsFirst(rules[1..], v);
      if FirstMatch(rules, v).Some? {
        var i :| 0 <= i < |rules[1..]| && FirstMatch(rules[1..], v).value == rules[1..][i] && Matches(rules[1..][i], v)
                 && forall j :: 0 <= j < i ==> !Matches(rules[1..][j], v);
        assert rules[i + 1] == rules[1..][i];
        forall j | 0 <= j < i + 1 ensures !Matches(rules[j], v) {
          if j > 0 { assert rules[j] == rules[1..][j - 1]; }
        }
      } else {
        forall i | 0 <= i < |rules| ensures !Matches(rules[i], v) {
          if i > 0 { assert rules[i] == rules[1..][i - 1]; }
        }
      }
    }
  }

  lemma {:induction false} FirstMatchAppend(a: seq<Rule>, b: seq<Rule>, v: View)
    requires ValidRules(a) && ValidRules(b)
    ensures ValidRules(a + b)
    ensures FirstMatch(a + b, v) == if FirstMatch(a, v).Some? then FirstMatch(a, v) else FirstMatch(b, v)
  {
    if |a| == 0 {
      assert a + b == b;
    } else {
      assert (a + b)[1..] == a[1..] + b;
      FirstMatchAppend(a[1..], b, v);
    }
  }

  method Evaluate(p: Program, v: View) returns (d: Decision)
    requires ValidRules(p.rules)
    ensures d == Evaluation(p, v)
  {
    for n := 0 to |p.rules|
      invariant FirstMatch(p.rules, v) == FirstMatch(p.rules[n..], v)
    {
      if Matches(p.rules[n], v) { return Decision(p.rules[n].action, Some(p.rules[n].id), p.generation); }
    }
    return Decision(if p.defaultDeny then Drop else Allow, None, p.generation);
  }
}
