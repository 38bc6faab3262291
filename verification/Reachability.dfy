/**
 Static shadowing analysis of policies.  A policy is reported when one policy
 of a smaller priority number covers every selector it has; dropping all
 reported policies at once never changes an evaluation.
 */
module Reachability {
  import opened Wrappers
  import opened Policy

  /** `isL3L4FirstMatchPolicy` without, and `...ForConfig` with, a configuration. */
  predicate Considered(p: SecurityPolicy, inspecting: bool) {
    && p.enabled && p.sessionScope && !p.riskBounds && p.action != Unsupported
    && (if inspecting then (p.applications != [] ==> p.action == Allow) && p.restrictsAllow
        else p.applications == [] && p.profile == "")
  }

  /** An empty list means any value, so it fits only inside another empty list. */
  predicate ZonesCover(earlier: seq<string>, later: seq<string>) {
    if later == [] then earlier == []
    else earlier == [] || forall z :: z in later ==> z in earlier
  }

  predicate PrefixCovers(candidate: Prefix, wanted: Prefix)
    requires ValidPrefix(candidate)
  {
    && candidate.v6 == wanted.v6 && candidate.bits <= wanted.bits
    && Contains(candidate, Addr(wanted.v6, wanted.value))
  }

  predicate AddressesCover(earlier: seq<Prefix>, later: seq<Prefix>)
    requires ValidPrefixes(earlier)
  {
    if later == [] then earlier == []
    else earlier == [] || forall w :: w in later ==> exists c :: c in earlier && PrefixCovers(c, w)
  }

  predicate ServiceCovers(candidate: Service, wanted: Service) {
    && candidate.protocol == wanted.protocol
    && (candidate.AllPorts?
        || (wanted.Ports? && candidate.range.first <= wanted.range.first && candidate.range.last >= wanted.range.last))
  }

  predicate ServicesCover(earlier: seq<Service>, later: seq<Service>) {
    if later == [] then earlier == []
    else earlier == [] || forall w :: w in later ==> exists c :: c in earlier && ServiceCovers(c, w)
  }

  /** `policyMatchCovers` */
  predicate Covers(earlier: SecurityPolicy, later: SecurityPolicy)
    requires ValidPolicy(earlier)
  {
    && ZonesCover(earlier.sourceZones, later.sourceZones)
    && ZonesCover(earlier.destinationZones, later.destinationZones)
    && AddressesCover(earlier.sourceAddresses, later.sourceAddresses)
    && AddressesCover(earlier.destinationAddresses, later.destinationAddresses)
    && ServicesCover(earlier.services, later.services)
  }

  // ------------------------------------------------------- cover is sound

  lemma {:induction false} ShrSplit(x: nat, y: nat, k: nat, n: nat)
    requires k <= n && Shr(x, k) == Shr(y, k)
    ensures Shr(x, n) == Shr(y, n)
  {
    if k < n {
      ShrSplit(x, y, k, n - 1);
    }
  }

  /** A covering prefix contains every address of the covered one. */
  lemma PrefixCoverSound(candidate: Prefix, wanted: Prefix, a: Addr)
    requires ValidPrefix(candidate) && ValidPrefix(wanted)
    ensures PrefixCovers(candidate, wanted) && Contains(wanted, a) ==> Contains(candidate, a)
  {
    if PrefixCovers(candidate, wanted) && Contains(wanted, a) {
      ShrSplit(a.value, wanted.value, Width(a.v6) - wanted.bits, Width(a.v6) - candidate.bits);
    }
  }

  lemma AddressCoverSound(earlier: seq<Prefix>, later: seq<Prefix>, a: Addr)
    requires ValidPrefixes(earlier) && ValidPrefixes(later)
    ensures AddressesCover(earlier, later) && AddressMatch(later, a) ==> AddressMatch(earlier, a)
  {
    if AddressesCover(earlier, later) && AddressMatch(later, a) && earlier != [] {
      var w :| w in later && Contains(w, a);
      var c :| c in earlier && PrefixCovers(c, w);
      PrefixCoverSound(c, w, a);
    }
  }

  lemma ServiceCoverSound(earlier: seq<Service>, later: seq<Service>, protocol: nat, port: nat)
    ensures ServicesCover(earlier, later) && ServicesMatch(later, protocol, port) ==>
            ServicesMatch(earlier, protocol, port)
  {
    if ServicesCover(earlier, later) && ServicesMatch(later, protocol, port) && earlier != [] {
      var w :| w in later && ServiceMatch(w, protocol, port);
      var c :| c in earlier && ServiceCovers(c, w);
      assert ServiceMatch(c, protocol, port);
    }
  }

  lemma ZoneCoverSound(earlier: seq<string>, later: seq<string>, zone: string)
    ensures ZonesCover(earlier, later) && (Elements(later) != {} ==> zone in Elements(later))
            ==> (Elements(earlier) != {} ==> zone in Elements(earlier))
  {
    if later != [] { assert later[0] in Elements(later); }
  }

  /** Cover implies that every view the later policy matches, the earlier one matches. */
  lemma CoverSound(earlier: SecurityPolicy, later: SecurityPolicy, v: View)
    requires ValidPolicy(earlier) && ValidPolicy(later)
    ensures Covers(earlier, later) && Matches(RuleOf(later), v) ==> Matches(RuleOf(earlier), v)
  {
    ZoneCoverSound(earlier.sourceZones, later.sourceZones, v.sourceZone);
    ZoneCoverSound(earlier.destinationZones, later.destinationZones, v.destinationZone);
    AddressCoverSound(earlier.sourceAddresses, later.sourceAddresses, v.source);
    AddressCoverSound(earlier.destinationAddresses, later.destinationAddresses, v.destination);
    ServiceCoverSound(earlier.services, later.services, v.protocol, v.destinationPort);
  }

  // ---------------------------------------------------------- the analysis

  predicate Shadows(earlier: SecurityPolicy, later: SecurityPolicy, inspecting: bool)
    requires ValidPolicy(earlier)
  {
    earlier.priority < later.priority && Considered(earlier, inspecting) && Covers(earlier, later)
  }

  /** The policies reported among the first `n` of the ordered list. */
  function Reported(ordered: seq<SecurityPolicy>, n: nat, inspecting: bool): set<SecurityPolicy>
    requires ValidPolicies(ordered) && n <= |ordered|
  {
    set i | 0 <= i < n && Considered(ordered[i], inspecting)
            && exists e :: 0 <= e < i && Shadows(ordered[e], ordered[i], inspecting) :: ordered[i]
  }

  lemma ReportedStep(ordered: seq<SecurityPolicy>, n: nat, e: nat, inspecting: bool)
    requires ValidPolicies(ordered) && n < |ordered|
    requires e <= n && forall d :: 0 <= d < e ==> !Shadows(ordered[d], ordered[n], inspecting)
    requires e < n ==> Shadows(ordered[e], ordered[n], inspecting)
    ensures Reported(ordered, n + 1, inspecting)
         == Reported(ordered, n, inspecting) + if Considered(ordered[n], inspecting) && e < n then {ordered[n]} else {}
  {
    hide Covers, Considered;
  }

  datatype Finding = Finding(later: SecurityPolicy, earlier: SecurityPolicy)

  function Laters(findings: seq<Finding>): set<SecurityPolicy> {
    set f | f in findings :: f.later
  }

  /** The finding is of two policies of the list, the second being the first that shadows the other. */
  ghost predicate NamesFirst(ordered: seq<SecurityPolicy>, f: Finding, inspecting: bool)
    requires ValidPolicies(ordered)
  {
    exists e, n :: 0 <= e < n < |ordered| && f == Finding(ordered[n], ordered[e])
                   && Shadows(ordered[e], ordered[n], inspecting)
                   && forall d :: 0 <= d < e ==> !Shadows(ordered[d], ordered[n], inspecting)
  }

  /** `unreachablePolicyErrors`: each finding names the first policy that covers it. */
  method UnreachablePolicies(policies: seq<SecurityPolicy>, inspecting: bool) returns (findings: seq<Finding>)
    requires ValidPolicies(policies)
    ensures Laters(findings) == Reported(SortByPriority(policies), |SortByPriority(policies)|, inspecting)
    ensures forall f :: f in findings ==> NamesFirst(SortByPriority(policies), f, inspecting)
  {
    hide Covers, Considered, Reported, Shadows, NamesFirst, Laters, SortByPriority, ValidPolicies, ValidPolicy;
    SortedValid(policies);
    findings := FindShadowed(SortByPriority(policies), inspecting);
  }

  /** The loop over the ordered policies. */
  method FindShadowed(ordered: seq<SecurityPolicy>, inspecting: bool) returns (findings: seq<Finding>)
    requires ValidPolicies(ordered)
    ensures Laters(findings) == Reported(ordered, |ordered|, inspecting)
    ensures forall f :: f in findings ==> NamesFirst(ordered, f, inspecting)
  {
    hide Covers, Considered, Reported, Shadows, NamesFirst, Laters, ValidPolicy;
    findings := [];
    NoneReported(ordered, inspecting);
    for n := 0 to |ordered|
      invariant Laters(findings) == Reported(ordered, n, inspecting)
      invariant forall f :: f in findings ==> NamesFirst(ordered, f, inspecting)
    {
      var e := FirstShadow(ordered, n, inspecting);
      ReportedStep(ordered, n, e, inspecting);
      if Considered(ordered[n], inspecting) && e < n {
        NamedFirst(ordered, n, e, inspecting);
        LatersGrow(findings, Finding(ordered[n], ordered[e]));
        findings := findings + [Finding(ordered[n], ordered[e])];
      }
    }
  }

  lemma SortedValid(policies: seq<SecurityPolicy>)
    requires ValidPolicies(policies)
    ensures ValidPolicies(SortByPriority(policies))
  {
  }

  lemma NoneReported(ordered: seq<SecurityPolicy>, inspecting: bool)
    requires ValidPolicies(ordered)
    ensures Laters([]) == Reported(ordered, 0, inspecting)
  {
  }

  lemma NamedFirst(ordered: seq<SecurityPolicy>, n: nat, e: nat, inspecting: bool)
    requires ValidPolicies(ordered) && e < n < |ordered| && Shadows(ordered[e], ordered[n], inspecting)
    requires forall d :: 0 <= d < e ==> !Shadows(ordered[d], ordered[n], inspecting)
    ensures NamesFirst(ordered, Finding(ordered[n], ordered[e]), inspecting)
  {
    hide Shadows;
  }

  lemma LatersGrow(findings: seq<Finding>, f: Finding)
    ensures Laters(findings + [f]) == Laters(findings) + {f.later}
  {
  }

  /** The first policy before `n` that shadows it; `n` itself when there is none. */
  method FirstShadow(ordered: seq<SecurityPolicy>, n: nat, inspecting: bool) returns (e: nat)
    requires ValidPolicies(ordered) && n < |ordered|
    ensures e <= n && forall d :: 0 <= d < e ==> !Shadows(ordered[d], ordered[n], inspecting)
    ensures e < n ==> Shadows(ordered[e], ordered[n], inspecting)
  {
    e := 0;
    while e < n && !Shadows(ordered[e], ordered[n], inspecting)
      invariant 0 <= e <= n
      invariant forall d :: 0 <= d < e ==> !Shadows(ordered[d], ordered[n], inspecting)
    {
      e := e + 1;
    }
  }

  // ------------------------------------------------- removing all at once

  function Keep(ps: seq<SecurityPolicy>, gone: set<SecurityPolicy>): seq<SecurityPolicy> {
    if |ps| == 0 then []
    else Keep(ps[..|ps| - 1], gone) + if ps[|ps| - 1] in gone then [] else [ps[|ps| - 1]]
  }

  lemma {:induction false} KeepMembers(ps: seq<SecurityPolicy>, gone: set<SecurityPolicy>)
    ensures forall p :: p in Keep(ps, gone) <==> p in ps && p !in gone
  {
    if |ps| > 0 {
      KeepMembers(ps[..|ps| - 1], gone);
      assert ps == ps[..|ps| - 1] + [ps[|ps| - 1]];
    }
  }

  lemma {:induction false} MatchFound(ps: seq<SecurityPolicy>, p: SecurityPolicy, v: View)
    requires ValidPolicies(ps) && p in ps && p.enabled && Matches(RuleOf(p), v)
    ensures ValidRules(RulesOf(ps)) && FirstMatch(RulesOf(ps), v).Some?
  {
    RulesOfValid(ps);
    var init, last := ps[..|ps| - 1], ps[|ps| - 1];
    assert ValidPolicies(init) && ValidPolicy(last);
    RulesOfValid(init);
    FirstMatchAppend(RulesOf(init), if last.enabled then [RuleOf(last)] else [], v);
    if p != last {
      assert p in init;
      MatchFound(init, p, v);
    }
  }

  /** Every dropped policy is matched no later than by a policy before it. */
  ghost predicate Redundant(ps: seq<SecurityPolicy>, gone: set<SecurityPolicy>)
    requires ValidPolicies(ps)
  {
    forall i :: 0 <= i < |ps| && ps[i] in gone ==>
      exists e :: 0 <= e < i && ps[e].enabled && Covers(ps[e], ps[i])
  }

  ghost predicate SameFirstMatch(ps: seq<SecurityPolicy>, gone: set<SecurityPolicy>, v: View)
    requires ValidRules(RulesOf(ps)) && ValidRules(RulesOf(Keep(ps, gone)))
  {
    FirstMatch(RulesOf(Keep(ps, gone)), v) == FirstMatch(RulesOf(ps), v)
  }

  lemma KeepValid(ps: seq<SecurityPolicy>, gone: set<SecurityPolicy>)
    requires ValidPolicies(ps)
    ensures ValidRules(RulesOf(ps)) && ValidRules(RulesOf(Keep(ps, gone)))
  {
    KeepMembers(ps, gone);
    RulesOfValid(ps);
    RulesOfValid(Keep(ps, gone));
  }

  lemma {:induction false} DroppingRedundant(ps: seq<SecurityPolicy>, gone: set<SecurityPolicy>, v: View)
    requires ValidPolicies(ps) && Redundant(ps, gone)
    ensures ValidRules(RulesOf(ps)) && ValidRules(RulesOf(Keep(ps, gone)))
    ensures SameFirstMatch(ps, gone, v)
  {
    hide SameFirstMatch, Covers, RulesOf, Keep, ValidRules;
    KeepValid(ps, gone);
    if |ps| == 0 {
      NothingDropped(gone, v);
    } else {
      var init, last := ps[..|ps| - 1], ps[|ps| - 1];
      assert ps == init + [last];
      assert last in ps;
      DroppingRedundant(init, gone, v);
      if last in gone {
        var e :| 0 <= e < |ps| - 1 && ps[e].enabled && Covers(ps[e], last);
        assert ps[e] == init[e];
        DropLast(init, last, gone, init[e], v);
      } else {
        KeepLast(init, last, gone, v);
      }
    }
  }

  lemma NothingDropped(gone: set<SecurityPolicy>, v: View)
    ensures ValidRules(RulesOf([])) && ValidRules(RulesOf(Keep([], gone))) && SameFirstMatch([], gone, v)
  {
  }

  lemma DropLast(init: seq<SecurityPolicy>, last: SecurityPolicy, gone: set<SecurityPolicy>, coverer: SecurityPolicy,
                 v: View)
    requires ValidPolicies(init) && ValidPolicy(last) && last in gone
    requires coverer in init && coverer.enabled && Covers(coverer, last)
    requires ValidRules(RulesOf(init)) && ValidRules(RulesOf(Keep(init, gone))) && SameFirstMatch(init, gone, v)
    requires ValidRules(RulesOf(init + [last])) && ValidRules(RulesOf(Keep(init + [last], gone)))
    ensures SameFirstMatch(init + [last], gone, v)
  {
    hide Covers, Matches;
    assert (init + [last])[..|init|] == init;
    assert Keep(init + [last], gone) == Keep(init, gone);
    LastRedundant(init, last, coverer, v);
    FirstMatchAppend(RulesOf(init), if last.enabled then [RuleOf(last)] else [], v);
  }

  lemma KeepLast(init: seq<SecurityPolicy>, last: SecurityPolicy, gone: set<SecurityPolicy>, v: View)
    requires ValidPolicies(init) && ValidPolicy(last) && last !in gone
    requires ValidRules(RulesOf(init)) && ValidRules(RulesOf(Keep(init, gone))) && SameFirstMatch(init, gone, v)
    requires ValidRules(RulesOf(init + [last])) && ValidRules(RulesOf(Keep(init + [last], gone)))
    ensures SameFirstMatch(init + [last], gone, v)
  {
    hide Matches;
    assert (init + [last])[..|init|] == init;
    KeepSnoc(init, last, gone);
    var tail := if last.enabled then [RuleOf(last)] else [];
    FirstMatchAppend(RulesOf(init), tail, v);
    FirstMatchAppend(RulesOf(Keep(init, gone)), tail, v);
  }

  lemma LastRedundant(init: seq<SecurityPolicy>, last: SecurityPolicy, coverer: SecurityPolicy, v: View)
    requires ValidPolicies(init) && ValidPolicy(last) && ValidRules(RulesOf(init))
    requires coverer in init && coverer.enabled && Covers(coverer, last)
    ensures FirstMatch(RulesOf(init), v).None? ==> FirstMatch(if last.enabled then [RuleOf(last)] else [], v).None?
  {
    CoverSound(coverer, last, v);
    if Matches(RuleOf(last), v) { MatchFound(init, coverer, v); }
  }

  lemma KeepSnoc(init: seq<SecurityPolicy>, last: SecurityPolicy, gone: set<SecurityPolicy>)
    requires last !in gone
    ensures Keep(init + [last], gone) == Keep(init, gone) + [last]
    ensures RulesOf(Keep(init + [last], gone)) == RulesOf(Keep(init, gone)) + if last.enabled then [RuleOf(last)]
            else []
  {
    assert (init + [last])[..|init|] == init;
    var kept := Keep(init, gone);
    assert (kept + [last])[..|kept|] == kept;
  }

  // ------------------------------------------- sorting the kept policies

  lemma KeepAppend(init: seq<SecurityPolicy>, last: SecurityPolicy, gone: set<SecurityPolicy>)
    ensures Keep(init + [last], gone) == Keep(init, gone) + if last in gone then [] else [last]
  {
    assert (init + [last])[..|init|] == init;
  }

  lemma InsertBefore(p: SecurityPolicy, init: seq<SecurityPolicy>, last: SecurityPolicy)
    ensures InsertByPriority(p, init + [last])
         == if last.priority <= p.priority then init + [last] + [p] else InsertByPriority(p, init) + [last]
  {
    assert (init + [last])[..|init|] == init;
  }

  lemma {:induction false} InsertThenKeep(p: SecurityPolicy, ps: seq<SecurityPolicy>, gone: set<SecurityPolicy>)
    requires Sorted(ps)
    ensures Keep(InsertByPriority(p, ps), gone) == if p in gone then Keep(ps, gone)
            else InsertByPriority(p, Keep(ps, gone))
  {
    hide Keep, InsertByPriority;
    if |ps| == 0 {
      InsertThenKeepEmpty(p, gone);
      assert ps == [];
    } else {
      var init, last := ps[..|ps| - 1], ps[|ps| - 1];
      assert ps == init + [last];
      InsertBefore(p, init, last);
      if last.priority <= p.priority {
        KeepAppend(ps, p, gone);
        InsertAtEnd(p, ps, gone);
      } else {
        InsertThenKeep(p, init, gone);
        KeepAppend(InsertByPriority(p, init), last, gone);
        KeepAppend(init, last, gone);
        InsertBefore(p, Keep(init, gone), last);
        if last in gone { assert Keep(ps, gone) == Keep(init, gone); }
      }
    }
  }

  lemma InsertThenKeepEmpty(p: SecurityPolicy, gone: set<SecurityPolicy>)
    ensures Keep(InsertByPriority(p, []), gone) == if p in gone then Keep([], gone)
            else InsertByPriority(p, Keep([], gone))
  {
    assert [p][..0] == [];
  }

  lemma InsertAtEnd(p: SecurityPolicy, ps: seq<SecurityPolicy>, gone: set<SecurityPolicy>)
    requires Sorted(ps) && |ps| > 0 && ps[|ps| - 1].priority <= p.priority
    ensures InsertByPriority(p, Keep(ps, gone)) == Keep(ps, gone) + [p]
  {
    KeepMembers(ps, gone);
    var kept := Keep(ps, gone);
    if |kept| > 0 {
      assert kept[|kept| - 1] in kept;
      var i :| 0 <= i < |ps| && ps[i] == kept[|kept| - 1];
    }
  }

  lemma SortSnoc(init: seq<SecurityPolicy>, last: SecurityPolicy)
    ensures SortByPriority(init + [last]) == InsertByPriority(last, SortByPriority(init))
  {
    assert (init + [last])[..|init|] == init;
  }

  /** Sorting what is left is the same as deleting from the sorted list. */
  lemma {:induction false} SortKeep(ps: seq<SecurityPolicy>, gone: set<SecurityPolicy>)
    ensures SortByPriority(Keep(ps, gone)) == Keep(SortByPriority(ps), gone)
  {
    if |ps| > 0 {
      var init, last := ps[..|ps| - 1], ps[|ps| - 1];
      assert ps == init + [last];
      SortKeep(init, gone);
      SortSorts(init);
      SortSnoc(init, last);
      InsertThenKeep(last, SortByPriority(init), gone);
      KeepAppend(init, last, gone);
      if last in gone {
        assert Keep(ps, gone) == Keep(init, gone);
      } else {
        SortSnoc(Keep(init, gone), last);
      }
    }
  }

  lemma ConsideredEnabled(p: SecurityPolicy, inspecting: bool)
    ensures Considered(p, inspecting) ==> p.enabled
  {
  }

  /** Everything reported has a strictly smaller coverer before it in the sorted list. */
  lemma ReportedRedundant(policies: seq<SecurityPolicy>, inspecting: bool)
    requires ValidPolicies(policies)
    ensures var ps := SortByPriority(policies); ValidPolicies(ps) && Redundant(ps, Reported(ps, |ps|, inspecting))
  {
    hide Covers, Considered, ValidPolicy, SortByPriority;
    var ps := SortByPriority(policies);
    SortSorts(policies);
    assert forall p :: p in ps ==> p in policies;
    var gone := Reported(ps, |ps|, inspecting);
    forall i | 0 <= i < |ps| && ps[i] in gone
      ensures exists e :: 0 <= e < i && ps[e].enabled && Covers(ps[e], ps[i])
    {
      var i', e :| 0 <= e < i' < |ps| && ps[i'] == ps[i] && Shadows(ps[e], ps[i'], inspecting);
      assert e < i;
      assert ps[e].enabled by { ConsideredEnabled(ps[e], inspecting); }
    }
  }

  /**
   Deleting every reported policy from the configuration and compiling the
   rest leaves the decision, and the policy it names, unchanged on every view.
   */
  lemma RemovingReportedIsInvisible(policies: seq<SecurityPolicy>, defaultDeny: bool, generation: nat, inspecting: bool,
                                    v: View)
    requires ValidPolicies(policies)
    ensures var gone := Reported(SortByPriority(policies), |SortByPriority(policies)|, inspecting);
            var before := Program(RulesOf(SortByPriority(policies)), defaultDeny, generation);
            var after := Program(RulesOf(SortByPriority(Keep(policies, gone))), defaultDeny, generation);
            ValidRules(before.rules) && ValidRules(after.rules) && Evaluation(after, v) == Evaluation(before, v)
  {
    hide Covers, Matches, FirstMatch, RulesOf, Keep, Reported, ValidRules;
    var gone := Reported(SortByPriority(policies), |SortByPriority(policies)|, inspecting);
    ReportedRedundant(policies, inspecting);
    SortKeep(policies, gone);
    DroppingRedundant(SortByPriority(policies), gone, v);
  }

  /** The reduced configuration compiles whenever the full one does. */
  lemma RemovingKeepsCompilable(policies: seq<SecurityPolicy>, gone: set<SecurityPolicy>)
    requires DistinctPriorities(SortByPriority(policies)) && Supported(policies)
    ensures DistinctPriorities(SortByPriority(Keep(policies, gone))) && Supported(Keep(policies, gone))
  {
    SortKeep(policies, gone);
    KeepMembers(policies, gone);
    KeepDistinct(SortByPriority(policies), gone);
  }

  lemma {:induction false} KeepDistinct(ps: seq<SecurityPolicy>, gone: set<SecurityPolicy>)
    requires DistinctPriorities(ps)
    ensures DistinctPriorities(Keep(ps, gone))
  {
    if |ps| > 0 {
      var init, last := ps[..|ps| - 1], ps[|ps| - 1];
      KeepDistinct(init, gone);
      KeepMembers(init, gone);
      var kept := Keep(init, gone);
      forall i | 0 <= i < |kept| ensures kept[i].priority != last.priority {
        assert kept[i] in kept;
      }
    }
  }
}
