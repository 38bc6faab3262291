/**
 TLS exclusions: domain, prefix and port selectors matched in configuration
 order, and the analysis that reports exclusions an earlier one covers.
 Selectors are already in canonical spelling.
 */
module TlsExclusions {
  import opened Wrappers
  import opened Policy
  import opened Reachability

  /** Alternatives within a group, conjunction across groups; an empty group matches all. */
  datatype Exclusion = Exclusion(id: string, enabled: bool, domains: seq<string>, cidrs: seq<Prefix>, ports: seq<nat>)

  /** A canonical host name, if the client sent a usable one, and the original destination. */
  datatype Target = Target(host: Option<string>, address: Addr, port: nat)

  predicate ValidExclusion(x: Exclusion) {
    ValidPrefixes(x.cidrs)
  }

  predicate ValidExclusions(xs: seq<Exclusion>) {
    forall i :: 0 <= i < |xs| ==> ValidExclusion(xs[i])
  }

  // ----------------------------------------------------------------- domains

  predicate HasSuffix(s: string, t: string) {
    |t| <= |s| && s[|s| - |t|..] == t
  }

  predicate Wildcard(d: string) {
    "*." <= d
  }

  function Apex(d: string): string {
    if Wildcard(d) then d[2..] else d
  }

  /** `tlsDomainCovers` */
  predicate DomainCovers(earlier: string, later: string) {
    earlier == later || (Wildcard(earlier) && HasSuffix(Apex(later), "." + Apex(earlier)))
  }

  /** `TLSDomainMatchesCanonical` */
  predicate HostMatches(pattern: string, host: Option<string>) {
    host.Some? && !Wildcard(host.value) && DomainCovers(pattern, host.value)
  }

  lemma SuffixTransitive(s: string, t: string, u: string)
    requires HasSuffix(s, t) && HasSuffix(t, u)
    ensures HasSuffix(s, u)
  {
    assert s[|s| - |u|..] == s[|s| - |t|..][|t| - |u|..];
  }

  /** A covering pattern matches every host the covered one does. */
  lemma DomainCoverSound(earlier: string, later: string, host: Option<string>)
    requires DomainCovers(earlier, later) && HostMatches(later, host)
    ensures HostMatches(earlier, host)
  {
    if earlier != later && later != host.value {
      var middle, outer := "." + Apex(later), "." + Apex(earlier);
      assert HasSuffix(middle, Apex(later)) by { assert middle[1..] == Apex(later); }
      SuffixTransitive(middle, Apex(later), outer);
      SuffixTransitive(host.value, middle, outer);
    }
  }

  /** Cover is transitive, so chains of covered exclusions lead to one that is kept. */
  lemma DomainCoverTransitive(a: string, b: string, c: string)
    requires DomainCovers(a, b) && DomainCovers(b, c)
    ensures DomainCovers(a, c)
  {
    if a != b && b != c {
      var middle, outer := "." + Apex(b), "." + Apex(a);
      assert HasSuffix(middle, Apex(b)) by { assert middle[1..] == Apex(b); }
      SuffixTransitive(middle, Apex(b), outer);
      SuffixTransitive(Apex(c), middle, outer);
    }
  }

  // ---------------------------------------------------------------- matching

  predicate DomainsMatch(domains: seq<string>, host: Option<string>) {
    |domains| == 0 || exists d :: d in domains && HostMatches(d, host)
  }

  predicate PortsMatch(ports: seq<nat>, port: nat) {
    |ports| == 0 || port in ports
  }

  /** `matches` */
  predicate Excludes(x: Exclusion, t: Target)
    requires ValidExclusion(x)
  {
    DomainsMatch(x.domains, t.host) && AddressMatch(x.cidrs, t.address) && PortsMatch(x.ports, t.port)
  }

  /** The first enabled exclusion that matches. */
  function First(xs: seq<Exclusion>, t: Target): Option<Exclusion>
    requires ValidExclusions(xs)
  {
    if |xs| == 0 then None
    else
      var m, last := First(xs[..|xs| - 1], t), xs[|xs| - 1];
      if m.Some? then m else if last.enabled && Excludes(last, t) then Some(last) else None
  }

  /** `compileTLSExclusions` keeps the enabled entries in order. */
  method Compile(xs: seq<Exclusion>) returns (rules: seq<Exclusion>)
    requires ValidExclusions(xs)
    ensures ValidExclusions(rules) && forall t :: First(rules, t) == First(xs, t)
    ensures forall i :: 0 <= i < |rules| ==> rules[i].enabled
  {
    rules := [];
    for n := 0 to |xs|
      invariant ValidExclusions(rules) && forall t :: First(rules, t) == First(xs[..n], t)
      invariant forall i :: 0 <= i < |rules| ==> rules[i].enabled
    {
      assert xs[..n + 1][..n] == xs[..n];
      if xs[n].enabled {
        forall t ensures First(rules + [xs[n]], t) == First(xs[..n + 1], t) {
          assert (rules + [xs[n]])[..|rules|] == rules;
          assert First(rules, t) == First(xs[..n], t);
        }
        rules := rules + [xs[n]];
      } else {
        forall t ensures First(rules, t) == First(xs[..n + 1], t) { assert First(rules, t) == First(xs[..n], t); }
      }
    }
    assert xs[..|xs|] == xs;
  }

  /** `MatchTLSExclusion` over compiled rules, for a plan that is in force. */
  method MatchTLSExclusion(rules: seq<Exclusion>, t: Target) returns (r: Option<Exclusion>)
    requires ValidExclusions(rules) && forall i :: 0 <= i < |rules| ==> rules[i].enabled
    ensures r == First(rules, t)
  {
    for n := 0 to |rules|
      invariant First(rules[..n], t).None?
    {
      assert rules[..n + 1][..n] == rules[..n];
      var hit := MatchesRule(rules[n], t);
      if hit {
        FirstStays(rules, n + 1, t);
        return Some(rules[n]);
      }
    }
    assert rules[..|rules|] == rules;
    r := None;
  }

  /** Three searches, each skipped when its group is empty. */
  method MatchesRule(x: Exclusion, t: Target) returns (r: bool)
    requires ValidExclusion(x)
    ensures r == Excludes(x, t)
  {
    if |x.domains| > 0 {
      var found := false;
      for n := 0 to |x.domains|
        invariant found == exists i :: 0 <= i < n && HostMatches(x.domains[i], t.host)
      {
        if HostMatches(x.domains[n], t.host) { found := true; }
      }
      assert found == exists d :: d in x.domains && HostMatches(d, t.host);
      if !found { return false; }
    }
    if |x.cidrs| > 0 {
      var found := false;
      for n := 0 to |x.cidrs|
        invariant found == exists i :: 0 <= i < n && Contains(x.cidrs[i], t.address)
      {
        if Contains(x.cidrs[n], t.address) { found := true; }
      }
      assert found == exists p :: p in x.cidrs && Contains(p, t.address);
      if !found { return false; }
    }
    r := |x.ports| == 0 || t.port in x.ports;
  }

  lemma {:induction false} FirstStays(xs: seq<Exclusion>, n: nat, t: Target)
    requires ValidExclusions(xs) && n <= |xs| && First(xs[..n], t).Some?
    ensures First(xs, t) == First(xs[..n], t)
    decreases |xs|
  {
    if n == |xs| {
      assert xs[..n] == xs;
    } else {
      assert xs[..|xs| - 1][..n] == xs[..n];
      FirstStays(xs[..|xs| - 1], n, t);
    }
  }

  // --------------------------------------------------------------- shadowing

  predicate DomainsCover(earlier: seq<string>, later: seq<string>) {
    |earlier| == 0 || (|later| > 0 && forall w :: w in later ==> exists c :: c in earlier && DomainCovers(c, w))
  }

  predicate CidrsCover(earlier: seq<Prefix>, later: seq<Prefix>)
    requires ValidPrefixes(earlier)
  {
    |earlier| == 0 || (|later| > 0 && forall w :: w in later ==> exists c :: c in earlier && PrefixCovers(c, w))
  }

  predicate PortsCover(earlier: seq<nat>, later: seq<nat>) {
    |earlier| == 0 || (|later| > 0 && forall p :: p in later ==> p in earlier)
  }

  /** `tlsExclusionCovers` */
  predicate ExclusionCovers(earlier: Exclusion, later: Exclusion)
    requires ValidExclusion(earlier)
  {
    DomainsCover(earlier.domains, later.domains) && CidrsCover(earlier.cidrs, later.cidrs)
        && PortsCover(earlier.ports, later.ports)
  }

  /** An exclusion that covers another matches whatever the other matches. */
  lemma ExclusionCoverSound(earlier: Exclusion, later: Exclusion, t: Target)
    requires ValidExclusion(earlier) && ValidExclusion(later) && ExclusionCovers(earlier, later) && Excludes(later, t)
    ensures Excludes(earlier, t)
  {
    if |earlier.domains| > 0 {
      var w :| w in later.domains && HostMatches(w, t.host);
      var c :| c in earlier.domains && DomainCovers(c, w);
      DomainCoverSound(c, w, t.host);
    }
    if |earlier.cidrs| > 0 {
      var w :| w in later.cidrs && Contains(w, t.address);
      var c :| c in earlier.cidrs && PrefixCovers(c, w);
      PrefixCoverSound(c, w, t.address);
    }
  }

  /** An enabled exclusion covered by an earlier enabled one. */
  predicate Shadowed(xs: seq<Exclusion>, i: nat)
    requires ValidExclusions(xs) && i < |xs|
  {
    xs[i].enabled && exists e :: 0 <= e < i && xs[e].enabled && ExclusionCovers(xs[e], xs[i])
  }

  /** `TLSExclusionSemanticErrors`: each finding pairs an exclusion with the first that covers it. */
  method ShadowedExclusions(xs: seq<Exclusion>) returns (findings: seq<(nat, nat)>)
    requires ValidExclusions(xs)
    ensures forall i :: 0 <= i < |xs| ==> (Shadowed(xs, i) <==> exists f :: f in findings && f.0 == i)
    ensures forall f :: f in findings ==>
              && f.1 < f.0 < |xs| && xs[f.0].enabled && xs[f.1].enabled && ExclusionCovers(xs[f.1], xs[f.0])
              && forall e :: 0 <= e < f.1 && xs[e].enabled ==> !ExclusionCovers(xs[e], xs[f.0])
  {
    findings := [];
    var earlier: seq<nat> := [];
    for n := 0 to |xs|
      invariant earlier == EnabledBelow(xs, n)
      invariant forall i :: 0 <= i < n ==> (Shadowed(xs, i) <==> exists f :: f in findings && f.0 == i)
      invariant forall f :: f in findings ==>
                  && f.1 < f.0 < n && xs[f.0].enabled && xs[f.1].enabled && ExclusionCovers(xs[f.1], xs[f.0])
                  && forall e :: 0 <= e < f.1 && xs[e].enabled ==> !ExclusionCovers(xs[e], xs[f.0])
    {
      hide ExclusionCovers, EnabledBelow;
      EnabledStep(xs, n);
      if !xs[n].enabled { continue; }
      var p := FirstCover(xs, earlier, n);
      ghost var before := findings;
      if p < |earlier| {
        findings := findings + [(n, earlier[p])];
        assert (n, earlier[p]) in findings;
      }
      forall i | 0 <= i <= n ensures Shadowed(xs, i) <==> exists f :: f in findings && f.0 == i {
        if i < n {
          assert (exists f :: f in findings && f.0 == i) <==> exists f :: f in before && f.0 == i;
        }
      }
      earlier := earlier + [n];
    }
  }

  /** The enabled indices below `n`, ascending. */
  function EnabledBelow(xs: seq<Exclusion>, n: nat): seq<nat>
    requires n <= |xs|
  {
    if n == 0 then [] else EnabledBelow(xs, n - 1) + if xs[n - 1].enabled then [n - 1] else []
  }

  lemma EnabledStep(xs: seq<Exclusion>, n: nat)
    requires n < |xs|
    ensures EnabledBelow(xs, n + 1) == EnabledBelow(xs, n) + if xs[n].enabled then [n] else []
  {
  }

  lemma {:induction false} EnabledBelowMeans(xs: seq<Exclusion>, n: nat)
    requires n <= |xs|
    ensures forall e: nat :: e in EnabledBelow(xs, n) <==> e < n && xs[e].enabled
    ensures forall i, j :: 0 <= i < j < |EnabledBelow(xs, n)| ==> EnabledBelow(xs, n)[i] < EnabledBelow(xs, n)[j]
  {
    if n > 0 {
      EnabledBelowMeans(xs, n - 1);
      var below := EnabledBelow(xs, n - 1);
      forall i | 0 <= i < |below| ensures below[i] < n - 1 { assert below[i] in below; }
    }
  }

  /** The first of the earlier exclusions that covers `n`; their number when none does. */
  method FirstCover(xs: seq<Exclusion>, earlier: seq<nat>, n: nat) returns (p: nat)
    requires ValidExclusions(xs) && n < |xs| && earlier == EnabledBelow(xs, n)
    ensures p <= |earlier|
    ensures p == |earlier| ==> forall e :: 0 <= e < n && xs[e].enabled ==> !ExclusionCovers(xs[e], xs[n])
    ensures p < |earlier| ==>
              && earlier[p] < n && xs[earlier[p]].enabled && ExclusionCovers(xs[earlier[p]], xs[n])
              && forall e :: 0 <= e < earlier[p] && xs[e].enabled ==> !ExclusionCovers(xs[e], xs[n])
  {
    hide ExclusionCovers;
    EnabledBelowMeans(xs, n);
    assert forall i :: 0 <= i < |earlier| ==> earlier[i] in earlier;
    p := 0;
    while p < |earlier|
      invariant p <= |earlier| && forall i :: 0 <= i < p ==> !ExclusionCovers(xs[earlier[i]], xs[n])
    {
      if ExclusionCovers(xs[earlier[p]], xs[n]) { break; }
      p := p + 1;
    }
    forall e | 0 <= e < n && xs[e].enabled && (p < |earlier| ==> e < earlier[p])
      ensures !ExclusionCovers(xs[e], xs[n])
    {
      assert e in earlier;
      var i :| 0 <= i < |earlier| && earlier[i] == e;
    }
  }

  // ---------------------------------------------------------------- deleting

  /** The first `n` exclusions without the shadowed ones. */
  function Survivors(xs: seq<Exclusion>, n: nat): (s: seq<Exclusion>)
    requires ValidExclusions(xs) && n <= |xs|
    ensures ValidExclusions(s)
  {
    if n == 0 then [] else Survivors(xs, n - 1) + if Shadowed(xs, n - 1) then [] else [xs[n - 1]]
  }

  /** An earlier enabled match is found before anything later. */
  lemma {:induction false} FirstFinds(xs: seq<Exclusion>, e: nat, t: Target)
    requires ValidExclusions(xs) && e < |xs| && xs[e].enabled && Excludes(xs[e], t)
    ensures First(xs, t).Some?
  {
    if e < |xs| - 1 { FirstFinds(xs[..|xs| - 1], e, t); }
  }

  lemma FirstStep(init: seq<Exclusion>, x: Exclusion, t: Target)
    requires ValidExclusions(init) && ValidExclusions(init + [x])
    ensures ValidExclusion(x)
    ensures First(init + [x], t) == if First(init, t).Some? then First(init, t)
                                    else if x.enabled && Excludes(x, t) then Some(x) else None
  {
    assert (init + [x])[|init|] == x && (init + [x])[..|init|] == init;
  }

  /** A shadowed exclusion matches only where something before it does. */
  lemma ShadowedIsFound(xs: seq<Exclusion>, k: nat, t: Target)
    requires ValidExclusions(xs) && k < |xs| && Shadowed(xs, k) && Excludes(xs[k], t)
    ensures First(xs[..k], t).Some?
  {
    hide Excludes, First;
    var e :| 0 <= e < k && xs[e].enabled && ExclusionCovers(xs[e], xs[k]);
    ExclusionCoverSound(xs[e], xs[k], t);
    FirstFinds(xs[..k], e, t);
  }

  /** Deleting every shadowed exclusion at once changes no match, for any host and destination. */
  lemma {:induction false} DeletingShadowedIsInvisible(xs: seq<Exclusion>, n: nat, t: Target)
    requires ValidExclusions(xs) && n <= |xs|
    ensures First(Survivors(xs, n), t) == First(xs[..n], t)
  {
    if n > 0 {
      hide First, Excludes, Shadowed;
      var k := n - 1;
      DeletingShadowedIsInvisible(xs, k, t);
      assert xs[..n] == xs[..k] + [xs[k]];
      FirstStep(xs[..k], xs[k], t);
      if Shadowed(xs, k) {
        assert Survivors(xs, n) == Survivors(xs, k) + [];
        assert Survivors(xs, k) + [] == Survivors(xs, k);
        if Excludes(xs[k], t) { ShadowedIsFound(xs, k, t); }
      } else {
        FirstStep(Survivors(xs, k), xs[k], t);
      }
    }
  }
}
