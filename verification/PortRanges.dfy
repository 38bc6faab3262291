/**
 The TCP ports a gated policy intercepts: collected from its services, sorted,
 and merged in place into a normal form that depends only on the port set.
 */
module PortRanges {
  import opened Policy

  const TCP: nat := 6
  const UDP: nat := 17

  predicate InRanges(rs: seq<PortRange>, port: nat) {
    exists r :: r in rs && r.Has(port)
  }

  predicate ValidRanges(rs: seq<PortRange>) {
    forall r :: r in rs ==> 0 < r.first <= r.last
  }

  // ----------------------------------------------------------------- sorting

  predicate Before(a: PortRange, b: PortRange) {
    a.first < b.first || (a.first == b.first && a.last <= b.last)
  }

  function InsertRange(r: PortRange, rs: seq<PortRange>): (out: seq<PortRange>)
    ensures forall q :: q in out <==> q == r || q in rs
  {
    if |rs| == 0 then [r]
    else if Before(rs[|rs| - 1], r) then rs + [r]
    else InsertRange(r, rs[..|rs| - 1]) + [rs[|rs| - 1]]
  }

  /** `sort.Slice` by first port, then by last port */
  function SortRanges(rs: seq<PortRange>): (out: seq<PortRange>)
    ensures forall q :: q in out <==> q in rs
  {
    if |rs| == 0 then []
    else
      assert rs == rs[..|rs| - 1] + [rs[|rs| - 1]];
      InsertRange(rs[|rs| - 1], SortRanges(rs[..|rs| - 1]))
  }

  predicate Ordered(rs: seq<PortRange>) {
    forall i, j :: 0 <= i < j < |rs| ==> Before(rs[i], rs[j])
  }

  lemma {:induction false} InsertOrders(r: PortRange, rs: seq<PortRange>)
    requires Ordered(rs)
    ensures Ordered(InsertRange(r, rs))
  {
    if |rs| > 0 && !Before(rs[|rs| - 1], r) {
      InsertOrders(r, rs[..|rs| - 1]);
      var out := InsertRange(r, rs[..|rs| - 1]);
      forall i | 0 <= i < |out| ensures Before(out[i], rs[|rs| - 1]) {
        assert out[i] in out;
      }
    }
  }

  lemma {:induction false} SortOrders(rs: seq<PortRange>)
    ensures Ordered(SortRanges(rs))
  {
    if |rs| > 0 {
      SortOrders(rs[..|rs| - 1]);
      InsertOrders(rs[|rs| - 1], SortRanges(rs[..|rs| - 1]));
    }
  }

  // ----------------------------------------------------------------- merging

  /** Add one range to a merged list: start a new range, or widen the last one. */
  function Absorb(merged: seq<PortRange>, r: PortRange): (out: seq<PortRange>)
    ensures |merged| <= |out| <= |merged| + 1
  {
    if |merged| == 0 || r.first > merged[|merged| - 1].last + 1 then merged + [r]
    else if r.last > merged[|merged| - 1].last then merged[|merged| - 1 := merged[|merged| - 1].(last := r.last)]
    else merged
  }

  function Merge(rs: seq<PortRange>): (out: seq<PortRange>)
    ensures |out| <= |rs|
  {
    if |rs| == 0 then [] else Absorb(Merge(rs[..|rs| - 1]), rs[|rs| - 1])
  }

  /** Non-empty, ascending, disjoint and not adjacent. */
  predicate Normal(rs: seq<PortRange>) {
    && (forall r :: r in rs ==> r.first <= r.last)
    && forall i, j :: 0 <= i < j < |rs| ==> rs[i].last + 1 < rs[j].first
  }

  lemma AbsorbKeeps(merged: seq<PortRange>, r: PortRange)
    requires Normal(merged) && r.first <= r.last
    requires |merged| > 0 ==> merged[|merged| - 1].first <= r.first
    ensures Normal(Absorb(merged, r))
    ensures Absorb(merged, r)[|Absorb(merged, r)| - 1].first <= r.first
  {
    var out := Absorb(merged, r);
    if |merged| == 0 || r.first > merged[|merged| - 1].last + 1 {
      NormalAppend(merged, r);
    } else {
      var k := |merged| - 1;
      assert forall i :: 0 <= i < k ==> out[i] == merged[i];
      forall q | q in out ensures q.first <= q.last {
        var i :| 0 <= i < |out| && out[i] == q;
        assert merged[i] in merged;
      }
    }
  }

  lemma NormalAppend(merged: seq<PortRange>, r: PortRange)
    requires Normal(merged) && r.first <= r.last && (|merged| > 0 ==> r.first > merged[|merged| - 1].last + 1)
    ensures Normal(merged + [r])
  {
    forall i | 0 <= i < |merged| ensures merged[i].last + 1 < r.first {
      if i < |merged| - 1 { assert merged[i].last + 1 < merged[|merged| - 1].first && merged[|merged| - 1] in merged; }
    }
  }

  lemma AbsorbPorts(merged: seq<PortRange>, r: PortRange, port: nat)
    requires r.first <= r.last && (|merged| > 0 ==> merged[|merged| - 1].first <= r.first)
    ensures InRanges(Absorb(merged, r), port) <==> InRanges(merged, port) || r.Has(port)
  {
    var out := Absorb(merged, r);
    if |merged| == 0 || r.first > merged[|merged| - 1].last + 1 {
      LastPorts(out, port);
      assert out[..|merged|] == merged;
    } else {
      var k := |merged| - 1;
      LastPorts(out, port);
      LastPorts(merged, port);
      assert out[..k] == merged[..k];
      assert out[k].Has(port) <==> merged[k].Has(port) || r.Has(port);
    }
  }

  /** Merging sorted ranges gives a normal form. */
  lemma {:induction false} MergeNormal(rs: seq<PortRange>)
    requires ValidRanges(rs) && Ordered(rs)
    ensures Normal(Merge(rs))
    ensures |rs| > 0 ==> |Merge(rs)| > 0 && Merge(rs)[|Merge(rs)| - 1].first <= rs[|rs| - 1].first
  {
    if |rs| > 0 {
      hide Absorb, Normal, InRanges, Ordered, ValidRanges;
      InitOrdered(rs);
      MergeNormal(rs[..|rs| - 1]);
      AbsorbKeeps(Merge(rs[..|rs| - 1]), rs[|rs| - 1]);
    }
  }

  /** Merging keeps the ports. */
  lemma {:induction false} MergePorts(rs: seq<PortRange>, port: nat)
    requires ValidRanges(rs) && Ordered(rs)
    ensures InRanges(Merge(rs), port) <==> InRanges(rs, port)
  {
    if |rs| > 0 {
      hide Absorb, Normal, InRanges, Ordered, ValidRanges;
      var init, last := rs[..|rs| - 1], rs[|rs| - 1];
      InitOrdered(rs);
      MergeNormal(init);
      MergePorts(init, port);
      AbsorbPorts(Merge(init), last, port);
      LastPorts(rs, port);
    }
  }

  lemma InitOrdered(rs: seq<PortRange>)
    requires |rs| > 0 && ValidRanges(rs) && Ordered(rs)
    ensures ValidRanges(rs[..|rs| - 1]) && Ordered(rs[..|rs| - 1])
    ensures rs[|rs| - 1].first <= rs[|rs| - 1].last
    ensures |rs| > 1 ==> rs[|rs| - 2].first <= rs[|rs| - 1].first
  {
    assert rs[|rs| - 1] in rs;
    if |rs| > 1 { assert Before(rs[|rs| - 2], rs[|rs| - 1]); }
  }

  lemma LastPorts(rs: seq<PortRange>, port: nat)
    requires |rs| > 0
    ensures InRanges(rs, port) <==> InRanges(rs[..|rs| - 1], port) || rs[|rs| - 1].Has(port)
  {
    assert rs[|rs| - 1] in rs;
    if InRanges(rs, port) {
      var q :| q in rs && q.Has(port);
      assert q != rs[|rs| - 1] ==> q in rs[..|rs| - 1];
    }
  }

  /** A normal form is determined by its ports. */
  lemma {:induction false} NormalUnique(a: seq<PortRange>, b: seq<PortRange>)
    requires Normal(a) && Normal(b) && forall port :: InRanges(a, port) <==> InRanges(b, port)
    ensures a == b
  {
    if |a| > 0 { NonEmptyToo(a, b); }
    if |b| > 0 { NonEmptyToo(b, a); }
    if |a| > 0 {
      HeadFirst(a, b);
      HeadFirst(b, a);
      HeadLast(a, b);
      HeadLast(b, a);
      forall port ensures InRanges(a[1..], port) <==> InRanges(b[1..], port) {
        TailPorts(a, port);
        TailPorts(b, port);
      }
      TailNormal(a);
      TailNormal(b);
      NormalUnique(a[1..], b[1..]);
      assert a == [a[0]] + a[1..] && b == [b[0]] + b[1..];
    }
  }

  lemma NonEmptyToo(a: seq<PortRange>, b: seq<PortRange>)
    requires Normal(a) && |a| > 0 && forall port :: InRanges(a, port) <==> InRanges(b, port)
    ensures |b| > 0
  {
    assert a[0] in a && InRanges(a, a[0].first);
    assert InRanges(b, a[0].first);
  }

  lemma TailNormal(a: seq<PortRange>)
    requires Normal(a) && |a| > 0
    ensures Normal(a[1..])
  {
    var t := a[1..];
    forall i, j | 0 <= i < j < |t| ensures t[i].last + 1 < t[j].first { assert t[i] == a[i + 1] && t[j] == a[j + 1]; }
  }

  lemma TailPorts(a: seq<PortRange>, port: nat)
    requires Normal(a) && |a| > 0
    ensures InRanges(a[1..], port) <==> InRanges(a, port) && !a[0].Has(port)
  {
    var t := a[1..];
    assert a[0] in a && a == [a[0]] + t;
    forall q | q in t ensures a[0].last < q.first {
      var i :| 0 <= i < |t| && t[i] == q;
      assert a[i + 1] == q;
    }
  }

  lemma HeadFirst(a: seq<PortRange>, b: seq<PortRange>)
    requires Normal(a) && Normal(b) && |a| > 0 && |b| > 0 && forall port :: InRanges(a, port) <==> InRanges(b, port)
    ensures a[0].first >= b[0].first
  {
    assert a[0] in a && b[0] in b && InRanges(a, a[0].first);
    var q :| q in b && q.Has(a[0].first);
    var i :| 0 <= i < |b| && b[i] == q;
    if i > 0 { assert b[0].last + 1 < b[i].first; }
  }

  lemma HeadLast(a: seq<PortRange>, b: seq<PortRange>)
    requires Normal(a) && Normal(b) && |a| > 0 && |b| > 0 && forall port :: InRanges(a, port) <==> InRanges(b, port)
    requires a[0].first == b[0].first
    ensures a[0].last <= b[0].last
  {
    var port := b[0].last + 1;
    GapAfterHead(b);
    assert a[0] in a && b[0] in b;
    assert !InRanges(a, port);
  }

  lemma GapAfterHead(b: seq<PortRange>)
    requires Normal(b) && |b| > 0
    ensures !InRanges(b, b[0].last + 1)
  {
    forall q | q in b ensures !q.Has(b[0].last + 1) {
      var i :| 0 <= i < |b| && b[i] == q;
      if i > 0 { assert b[0].last + 1 < b[i].first; }
    }
  }

  // -------------------------------------------------------------- gate ports

  function TcpRanges(services: seq<Service>): seq<PortRange> {
    if |services| == 0 then []
    else
      var last := services[|services| - 1];
      TcpRanges(services[..|services| - 1])
      + if last.protocol == TCP && last.Ports? && 0 < last.range.first <= last.range.last then [last.range] else []
  }

  function GatePorts(r: Rule): seq<PortRange> {
    if |r.services| == 0 then [PortRange(80, 80), PortRange(443, 443)]
    else Merge(SortRanges(TcpRanges(r.services)))
  }

  /** The ports a rule gates, read off its services. */
  predicate Gated(r: Rule, port: nat) {
    if |r.services| == 0 then port == 80 || port == 443
    else TcpService(r.services, port)
  }

  predicate TcpService(services: seq<Service>, port: nat) {
    exists s :: s in services && s.protocol == TCP && s.Ports? && s.range.first > 0 && s.range.Has(port)
  }

  lemma {:induction false} TcpRangesPorts(services: seq<Service>)
    ensures ValidRanges(TcpRanges(services))
    ensures forall port :: InRanges(TcpRanges(services), port) <==> TcpService(services, port)
  {
    if |services| > 0 {
      var init, last := services[..|services| - 1], services[|services| - 1];
      TcpRangesPorts(init);
      assert services == init + [last];
      var added := if last.protocol == TCP && last.Ports? && 0 < last.range.first <= last.range.last then [last.range]
          else [];
      forall port ensures InRanges(TcpRanges(services), port) <==> TcpService(services, port) {
        assert InRanges(TcpRanges(services), port) <==> InRanges(TcpRanges(init), port) || InRanges(added, port);
        assert TcpService(services, port) <==> TcpService(init, port) || TcpService([last], port);
        assert last in [last];
        assert |added| > 0 ==> added[0] in added;
      }
    }
  }

  /** Gate ports are a normal form of exactly the gated ports. */
  lemma GatePortsNormal(r: Rule)
    ensures Normal(GatePorts(r))
    ensures forall port :: InRanges(GatePorts(r), port) <==> Gated(r, port)
  {
    if |r.services| == 0 {
      var a, b := PortRange(80, 80), PortRange(443, 443);
      forall port ensures InRanges(GatePorts(r), port) <==> Gated(r, port) {
        assert a in [a, b] && b in [a, b];
        assert a.Has(port) <==> port == 80;
        assert b.Has(port) <==> port == 443;
      }
    } else {
      var ports := TcpRanges(r.services);
      TcpRangesPorts(r.services);
      SortOrders(ports);
      assert forall port :: InRanges(SortRanges(ports), port) <==> InRanges(ports, port);
      MergeNormal(SortRanges(ports));
      forall port ensures InRanges(GatePorts(r), port) <==> Gated(r, port) { MergePorts(SortRanges(ports), port); }
    }
  }

  /** Rules that gate the same ports have the same gate ports, however written. */
  lemma GatePortsCanonical(r: Rule, s: Rule)
    ensures GatePorts(r) == GatePorts(s) <==> forall port :: Gated(r, port) <==> Gated(s, port)
  {
    GatePortsNormal(r);
    GatePortsNormal(s);
    if forall port :: Gated(r, port) <==> Gated(s, port) {
      NormalUnique(GatePorts(r), GatePorts(s));
    } else {
      var port :| !(Gated(r, port) <==> Gated(s, port));
      assert InRanges(GatePorts(r), port) != InRanges(GatePorts(s), port);
    }
  }

  /** One round of the merge: fold the range at `n` into the merged prefix. */
  method AbsorbAt(ports: array<PortRange>, m: nat, n: nat) returns (grown: nat)
    requires m <= n < ports.Length
    modifies ports
    ensures grown <= n + 1
    ensures ports[..grown] == Absorb(old(ports[..m]), old(ports[n]))
    ensures ports[n + 1..] == old(ports[n + 1..])
  {
    var port := ports[n];
    grown := m;
    if m == 0 || port.first > ports[m - 1].last + 1 {
      ports[m] := port;
      grown := m + 1;
    } else if port.last > ports[m - 1].last {
      ports[m - 1] := ports[m - 1].(last := port.last);
    }
  }

  /** Merge in place: the result occupies a prefix of the array. */
  method MergeInPlace(ports: array<PortRange>) returns (m: nat)
    modifies ports
    ensures m <= ports.Length && ports[..m] == Merge(old(ports[..]))
  {
    hide Absorb;
    ghost var was := ports[..];
    m := 0;
    for n := 0 to ports.Length
      invariant m <= n
      invariant ports[..m] == Merge(was[..n])
      invariant ports[n..] == was[n..]
    {
      assert was[..n + 1][..n] == was[..n];
      assert ports[n] == ports[n..][0] == was[n];
      m := AbsorbAt(ports, m, n);
      assert was[n + 1..] == was[n..][1..];
    }
    assert was[..ports.Length] == was;
  }

  /** The usable TCP ranges, in the order of the services. */
  method CollectTcp(services: seq<Service>) returns (collected: seq<PortRange>)
    ensures collected == TcpRanges(services)
  {
    collected := [];
    for n := 0 to |services|
      invariant collected == TcpRanges(services[..n])
    {
      assert services[..n + 1][..n] == services[..n];
      var s := services[n];
      if s.protocol == TCP && s.Ports? && 0 < s.range.first <= s.range.last {
        collected := collected + [s.range];
      }
    }
    assert services[..|services|] == services;
  }

  /** `RequestGateTCPPorts` */
  method RequestGateTCPPorts(r: Rule) returns (ports: seq<PortRange>)
    ensures ports == GatePorts(r)
    ensures Normal(ports) && forall port :: InRanges(ports, port) <==> Gated(r, port)
  {
    hide Normal, InRanges, Gated, TcpRanges, SortRanges, Merge;
    GatePortsNormal(r);
    if |r.services| == 0 { return [PortRange(80, 80), PortRange(443, 443)]; }
    var collected := CollectTcp(r.services);
    var sorted := SortRanges(collected);
    var a := new PortRange[|sorted|](i requires 0 <= i < |sorted| => sorted[i]);
    assert a[..] == sorted;
    var m := MergeInPlace(a);
    ports := a[..m];
  }
}
