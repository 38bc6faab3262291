/**
 The evidence store of the gate service: storing decisions, annotating them
 with results, expiring them, and reading bounded pages of them.
 */
module GateEvidenceStore {
  import opened Wrappers
  import opened GateEvidence
  import opened Selection

  const TTL: nat := 600

  /** A proxy's report about a request it forwarded. */
  datatype Report = Report(
    request: string, connection: string, decision: string, generation: nat, status: nat, reason: string,
    certificate: bool)

  /** The record is one the report may annotate. */
  predicate Accepts(e: Evidence, r: Report, current: nat) {
    && e.connection == r.connection && e.decision == r.decision && e.generation == r.generation == current && e.allowed
    && (r.certificate || (|r.reason| >= 4 && r.reason[..4] == "TLS_") ==> e.https)
    && (r.reason == "TLS_UPSTREAM_MTLS_UNSUPPORTED" ==> r.certificate)
  }

  predicate SameResult(f: Forward, r: Report) {
    f.status == r.status && f.reason == r.reason && f.certificate == r.certificate
  }

  function Annotated(e: Evidence, r: Report, sequence: nat, now: nat): Evidence {
    e.(forward := Some(Forward(r.status, r.reason, r.certificate, now)), sequence := sequence)
  }

  /** What a report does to the store and answers. */
  ghost predicate Reports(c: Core, r: Report, current: nat, now: nat, limit: nat, maxBytes: nat, size: Evidence -> nat,
                          d: Core, ok: bool)
    requires Paired(c) && Paired(d)
  {
    if r.request !in c.records then d == c && !ok
    else
      var x := c.records[r.request];
      var e := Annotated(x.evidence, r, c.sequence + 1, now);
      if now >= x.expires then Contents(d) == Others(Contents(c), r.request) && d.sequence == c.sequence && !ok
      else if !Accepts(x.evidence, r, current) then d == c && !ok
      else if x.evidence.forward.Some? then d == c && ok == SameResult(x.evidence.forward.value, r)
      else if size(e) > maxBytes then d == c && !ok
      else
        && ok && d.sequence == c.sequence + 1
        && Contents(d) == Room(Others(Contents(c), r.request), size(e), limit, maxBytes)
           + [Record(e, x.expires, size(e))]
  }

  class EvidenceStore {
    const limit: nat
    const maxBytes: nat
    const size: Evidence -> nat
    var records: map<string, Record>
    var order: seq<string>
    var bytes: int
    var sequence: nat

    ghost function C(): Core
      reads this
    {
      Core(records, order, bytes, sequence)
    }

    ghost predicate Ok()
      reads this
    {
      limit > 0 && Valid(C(), limit, maxBytes, size)
    }

    ghost function Stored(): seq<Record>
      requires Ok()
      reads this
    {
      Contents(C())
    }

    constructor (maxDecisions: int, maxEvidenceBytes: int, encoder: Evidence -> nat)
      ensures Ok() && Stored() == [] && sequence == 0
      ensures limit == if maxDecisions <= 0 || maxDecisions > 10000 then 10000 else maxDecisions
      ensures maxBytes == if maxEvidenceBytes <= 0 || maxEvidenceBytes > 0x4000000 then 0x1000000 else maxEvidenceBytes
    {
      limit := if maxDecisions <= 0 || maxDecisions > 10000 then 10000 else maxDecisions;
      maxBytes := if maxEvidenceBytes <= 0 || maxEvidenceBytes > 0x4000000 then 0x1000000 else maxEvidenceBytes;
      size := encoder;
      records, order, bytes, sequence := map[], [], 0, 0;
    }

    /** The list node of a record. */
    method Node(id: string) returns (p: nat)
      requires Ok() && id in records
      ensures p < |order| && order[p] == id
    {
      assert id in order;
      p := 0;
      while order[p] != id
        invariant p < |order| && forall i :: 0 <= i < p ==> order[i] != id
        decreases |order| - p
      {
        p := p + 1;
      }
    }

    /** `removeGateDecisionLocked` */
    method RemoveDecision(id: string)
      requires Ok() && id in records
      modifies this
      ensures Ok() && Stored() == Others(old(Stored()), id) && sequence == old(sequence)
      ensures records == old(records) - {id} && bytes == old(bytes) - old(records)[id].size
      ensures exists p :: 0 <= p < |old(order)| && old(order)[p] == id && C() == Removed(old(C()), p)
    {
      hide Valid, Contents;
      Known(C(), limit, maxBytes, size);
      ghost var c := C();
      var p := Node(id);
      RemovedValid(c, p, limit, maxBytes, size);
      RemovedIsOthers(c, p);
      bytes := bytes - records[id].size;
      records := records - {id};
      order := order[..p] + order[p + 1..];
      assert C() == Removed(c, p);
    }

    /** `storeGateDecision` */
    method StoreDecision(decision: Evidence, now: nat)
      requires Ok()
      modifies this
      ensures Ok()
      ensures var e := decision.(sequence := old(sequence) + 1);
              if size(e) > maxBytes then C() == old(C())
              else
                && sequence == old(sequence) + 1
                && Stored() ==
                   Room(Others(old(Stored()), e.request), size(e), limit, maxBytes) + [Record(e, now + TTL, size(e))]
    {
      hide Valid, Contents, Room;
      ghost var c := C();
      Known(c, limit, maxBytes, size);
      var e := decision.(sequence := sequence + 1);
      var need := size(e);
      if need > maxBytes { return; }
      if e.request in records { RemoveDecision(e.request); } else { AbsentIsOthers(c, e.request); }
      MakeRoom(need, e.request);
      ghost var d := C();
      AppendedValid(d, Record(e, now + TTL, need), limit, maxBytes, size);
      sequence := sequence + 1;
      order := order + [e.request];
      records := records[e.request := Record(e, now + TTL, need)];
      bytes := bytes + need;
      assert C() == Appended(d, Record(e, now + TTL, need));
    }

    /** Evict from the front of the list until a record of `need` bytes fits. */
    method MakeRoom(need: nat, ghost id: string)
      requires Ok() && need <= maxBytes && id !in records
      modifies this
      ensures Ok() && Stored() == Room(old(Stored()), need, limit, maxBytes)
      ensures sequence == old(sequence) && id !in records && |order| < limit && bytes + need <= maxBytes
    {
      hide Valid, Contents;
      ghost var start := Stored();
      Known(C(), limit, maxBytes, size);
      while |order| >= limit || bytes + need > maxBytes
        invariant Ok() && sequence == old(sequence) && id !in records
        invariant |order| == |Stored()| && bytes == Sum(Stored())
        invariant Room(Stored(), need, limit, maxBytes) == Room(start, need, limit, maxBytes)
        decreases |order|
      {
        assert |order| > 0;
        ghost var c := C();
        Known(c, limit, maxBytes, size);
        FrontIsKey(c);
        var front := order[0];
        RemoveDecision(front);
        OthersOfFront(c);
        Known(C(), limit, maxBytes, size);
      }
    }
  
    /** `ReportRequestResult` on a well-formed report */
    method ReportResult(r: Report, current: nat, now: nat) returns (ok: bool)
      requires Ok()
      modifies this
      ensures Ok() && Reports(old(C()), r, current, now, limit, maxBytes, size, C(), ok)
    {
      hide Valid, Contents, Room, Others;
      ghost var c := C();
      Known(c, limit, maxBytes, size);
      if r.request !in records { return false; }
      var x := records[r.request];
      if now >= x.expires {
        RemoveDecision(r.request);
        return false;
      }
      if !Accepts(x.evidence, r, current) { return false; }
      if x.evidence.forward.Some? { return SameResult(x.evidence.forward.value, r); }
      var e := Annotated(x.evidence, r, sequence + 1, now);
      var need := size(e);
      if need > maxBytes { return false; }
      ShedOthers(r.request, need);
      MoveToBack(r.request, Record(e, x.expires, need));
      ok := true;
    }

    /** Evict other records, oldest first, until this one can grow to `need` bytes. */
    method ShedOthers(id: string, need: nat)
      requires Ok() && id in records && need <= maxBytes
      modifies this
      ensures Ok() && id in records && records[id] == old(records)[id] && sequence == old(sequence)
      ensures Others(Stored(), id) == Room(Others(old(Stored()), id), need, limit, maxBytes)
      ensures bytes - records[id].size + need <= maxBytes
    {
      hide Valid, Contents, Others;
      ghost var start := Others(Stored(), id);
      OthersCounted(C(), id, limit, maxBytes, size);
      while bytes - records[id].size + need > maxBytes
        invariant Ok() && id in records && records[id] == old(records)[id] && sequence == old(sequence)
        invariant |Others(Stored(), id)| == |order| - 1 < limit && Sum(Others(Stored(), id)) == bytes - records[id].size
        invariant Room(Others(Stored(), id), need, limit, maxBytes) == Room(start, need, limit, maxBytes)
        decreases |order|
      {
        ghost var c := C();
        Known(c, limit, maxBytes, size);
        assert |order| > 1;
        OldestOther(c, id);
        var front := if order[0] == id then order[1] else order[0];
        RemoveDecision(front);
        OthersCounted(C(), id, limit, maxBytes, size);
      }
    }

    /** Replace a record and make it the most recent one. */
    method MoveToBack(id: string, x: Record)
      requires Ok() && id in records && x.evidence.request == id && x.evidence.sequence == sequence + 1
      requires x.size == size(x.evidence) && bytes - records[id].size + x.size <= maxBytes
      modifies this
      ensures Ok() && sequence == old(sequence) + 1 && Stored() == Others(old(Stored()), id) + [x]
    {
      hide Valid, Contents, Others;
      ghost var c := C();
      Known(c, limit, maxBytes, size);
      var p := Node(id);
      MovedIs(c, p, x);
      MovedValid(c, p, x, limit, maxBytes, size);
      hide Paired, Cut, Appended, Removed;
      bytes := bytes + x.size - records[id].size;
      records := records[id := x];
      order := Cut(order, p) + [id];
      sequence := sequence + 1;
    }
  
    /**
     The loop both readers share: visit the map in any order, drop what has
     expired and keep the `n` matches of least rank.
     */
    method Select(keep: Evidence -> bool, rank: Evidence -> int, n: nat, now: nat)
      returns (items: seq<Evidence>, matching: nat)
      requires Ok() && n > 0 && forall x, y :: rank(x) == rank(y) ==> x.sequence == y.sequence
      modifies this
      ensures Ok() && records == Alive(old(records), now) && sequence == old(sequence)
      ensures var all := Matching(old(records), old(records).Keys, now, keep);
              Best(all, n, rank, items) && Ascending(items, rank) && matching == |all|
    {
      hide Valid, Contents, Others, Best, Ranked, Survives, Matching, Ascending;
      ghost var c := C();
      ghost var all: set<Evidence> := {};
      items, matching := [], 0;
      assert Best(all, n, rank, items) by { BestOfNone(n, rank); }
      var rest := records.Keys;
      NothingVisited(c.records, now, keep);
      while rest != {}
        invariant Ok() && sequence == old(sequence) && rest <= c.records.Keys
        invariant Survives(c.records, records, rest, now)
        invariant all == Matching(c.records, c.records.Keys - rest, now, keep)
        invariant Best(all, n, rank, items) && matching == |all|
        decreases rest
      {
        var id :| id in rest;
        ghost var before := rest;
        rest := rest - {id};
        StillThere(c.records, records, before, id, now);
        var record := records[id];
        OneMore(c.records, before, id, now, keep);
        if now >= record.expires {
          RemoveDecision(id);
          continue;
        }
        if keep(record.evidence) {
          NewMatch(c, before, id, now, keep, rank, limit, maxBytes, size);
          items := Visit(items, record.evidence, n, rank, all);
          all := all + {record.evidence};
          matching := matching + 1;
        }
      }
      assert c.records.Keys - {} == c.records.Keys;
      AllRanked(c, now, keep, rank, limit, maxBytes, size);
      BestIsSubset(all, n, rank, items);
      var sorted := SortByRank(items, rank);
      SortedIsBest(all, n, rank, items, sorted);
      items := sorted;
      AllVisited(c.records, records, now);
    }

    /** `ListRequestGateEvidence`: the oldest matches past a cursor. */
    method ListEvidence(after: nat, asked: int, now: nat) returns (items: seq<Evidence>, next: nat, more: bool)
      requires Ok()
      modifies this
      ensures Ok() && records == Alive(old(records), now) && sequence == old(sequence)
      ensures var all := Matching(old(records), old(records).Keys, now, (e: Evidence) => e.sequence > after);
              var n := if asked <= 0 || asked > 128 then 128 else asked;
              && Best(all, n, ByAge, items) && Ascending(items, ByAge)
              && (more <==> |all| > n) && next == (if |items| > 0 then items[|items| - 1].sequence else after)
    {
      hide Valid, Contents;
      var n := if asked <= 0 || asked > 128 then 128 else asked;
      var matching;
      items, matching := Select((e: Evidence) => e.sequence > after, ByAge, n, now);
      more := matching > |items|;
      next := if |items| > 0 then items[|items| - 1].sequence else after;
    }

    /** `RequestEvidenceForSession`: the newest records of a session, newest first. */
    method SessionEvidence(session: string, asked: int, now: nat) returns (items: seq<Evidence>)
      requires Ok()
      modifies this
      ensures Ok() && sequence == old(sequence)
      ensures session == "" ==> items == [] && C() == old(C())
      ensures session != "" ==>
                var all := Matching(old(records), old(records).Keys, now, (e: Evidence) => e.session == session);
                var n := if asked <= 0 || asked > 32 then 32 else asked;
                && records == Alive(old(records), now)
                && Best(all, n, ByRecency, items) && Ascending(items, ByRecency)
    {
      hide Valid, Contents;
      if session == "" { return []; }
      var n := if asked <= 0 || asked > 32 then 32 else asked;
      var matching;
      items, matching := Select((e: Evidence) => e.session == session, ByRecency, n, now);
    }
  }

  /** Oldest first. */
  function ByAge(e: Evidence): int {
    e.sequence
  }

  /** Newest first. */
  function ByRecency(e: Evidence): int {
    -(e.sequence as int)
  }

  function Alive(records: map<string, Record>, now: nat): map<string, Record> {
    map id | id in records && now < records[id].expires :: records[id]
  }

  /** The evidence of unexpired records under some of the keys that satisfies a filter. */
  function Matching(records: map<string, Record>, keys: set<string>, now: nat, keep: Evidence -> bool): set<Evidence> {
    set id | id in keys && id in records && now < records[id].expires
        && keep(records[id].evidence) :: records[id].evidence
  }

  /** Only expired records that were visited are gone. */
  predicate Survives(was: map<string, Record>, records: map<string, Record>, rest: set<string>, now: nat) {
    && (forall id :: id in records ==> id in was && records[id] == was[id])
    && (forall id :: id in was ==> (id in records <==> id in rest || now < was[id].expires))
  }

  lemma NothingVisited(records: map<string, Record>, now: nat, keep: Evidence -> bool)
    ensures Survives(records, records, records.Keys, now)
            && Matching(records, records.Keys - records.Keys, now, keep) == {}
  {
  }

  /** Visiting a record that is still there: it goes exactly if it has expired. */
  lemma StillThere(was: map<string, Record>, records: map<string, Record>, rest: set<string>, id: string, now: nat)
    requires Survives(was, records, rest, now) && id in rest && rest <= was.Keys
    ensures id in records && records[id] == was[id]
    ensures Survives(was, if now >= was[id].expires then records - {id} else records, rest - {id}, now)
  {
  }

  lemma AllVisited(was: map<string, Record>, records: map<string, Record>, now: nat)
    requires Survives(was, records, {}, now)
    ensures records == Alive(was, now)
  {
  }

  lemma OneMore(records: map<string, Record>, rest: set<string>, id: string, now: nat, keep: Evidence -> bool)
    requires id in rest && rest <= records.Keys
    ensures Matching(records, records.Keys - (rest - {id}), now, keep) ==
            Matching(records, records.Keys - rest, now, keep)
            + if now < records[id].expires && keep(records[id].evidence) then {records[id].evidence} else {}
  {
    assert records.Keys - (rest - {id}) == (records.Keys - rest) + {id};
  }

  lemma SequencesDiffer(c: Core, a: string, b: string, limit: nat, maxBytes: nat, size: Evidence -> nat)
    requires Valid(c, limit, maxBytes, size) && a in c.records && b in c.records
    requires c.records[a].evidence.sequence == c.records[b].evidence.sequence
    ensures a == b
  {
    assert a in c.order && b in c.order;
    var i :| 0 <= i < |c.order| && c.order[i] == a;
    var j :| 0 <= j < |c.order| && c.order[j] == b;
    RecordAt(c, i);
    RecordAt(c, j);
  }

  lemma AllRanked(c: Core, now: nat, keep: Evidence -> bool, rank: Evidence -> int, limit: nat, maxBytes: nat,
                  size: Evidence -> nat)
    requires Valid(c, limit, maxBytes, size) && forall x, y :: rank(x) == rank(y) ==> x.sequence == y.sequence
    ensures Ranked(Matching(c.records, c.records.Keys, now, keep), rank)
  {
    var all := Matching(c.records, c.records.Keys, now, keep);
    forall x, y | x in all && y in all && rank(x) == rank(y) ensures x == y {
      var a :| a in c.records && c.records[a].evidence == x;
      var b :| b in c.records && c.records[b].evidence == y;
      SequencesDiffer(c, a, b, limit, maxBytes, size);
    }
  }

  /** A match not visited before is new, and its rank is its own. */
  lemma NewMatch(c: Core, rest: set<string>, id: string, now: nat, keep: Evidence -> bool, rank: Evidence -> int,
                 limit: nat, maxBytes: nat, size: Evidence -> nat)
    requires Valid(c, limit, maxBytes, size) && forall x, y :: rank(x) == rank(y) ==> x.sequence == y.sequence
    requires id in rest && rest <= c.records.Keys && now < c.records[id].expires && keep(c.records[id].evidence)
    ensures var all := Matching(c.records, c.records.Keys - rest, now, keep);
            c.records[id].evidence !in all && Ranked(all + {c.records[id].evidence}, rank)
  {
    var all, e := Matching(c.records, c.records.Keys - rest, now, keep), c.records[id].evidence;
    AllRanked(c, now, keep, rank, limit, maxBytes, size);
    assert all + {e} <= Matching(c.records, c.records.Keys, now, keep);
    forall x | x in all ensures x != e {
      var a :| a in c.records.Keys - rest && c.records[a].evidence == x;
      RequestIsKey(c, a, limit, maxBytes, size);
      RequestIsKey(c, id, limit, maxBytes, size);
    }
  }

  lemma RequestIsKey(c: Core, id: string, limit: nat, maxBytes: nat, size: Evidence -> nat)
    requires Valid(c, limit, maxBytes, size) && id in c.records
    ensures c.records[id].evidence.request == id
  {
  }

  lemma BestOfNone(n: nat, rank: Evidence -> int)
    ensures Best({}, n, rank, [])
  {
  }

  lemma BestIsSubset(all: set<Evidence>, n: nat, rank: Evidence -> int, items: seq<Evidence>)
    requires Best(all, n, rank, items) && Ranked(all, rank)
    ensures Ranked(Elements(items), rank) && NoDuplicates(items)
  {
  }

  lemma SortedIsBest(all: set<Evidence>, n: nat, rank: Evidence -> int, items: seq<Evidence>, sorted: seq<Evidence>)
    requires Best(all, n, rank, items) && Ascending(sorted, rank) && Elements(sorted) == Elements(items)
             && |sorted| == |items|
    ensures Best(all, n, rank, sorted)
  {
    forall x, y | x in all && x !in sorted && y in sorted ensures rank(y) < rank(x) {
      assert y in Elements(sorted) && x !in Elements(sorted);
    }
  }

  lemma MovedIs(c: Core, p: nat, x: Record)
    requires Paired(c) && p < |c.order| && x.evidence.request == c.order[p] && x.evidence.sequence == c.sequence + 1
    ensures Appended(Removed(c, p), x) ==
            Core(c.records[c.order[p] := x], Cut(c.order, p) + [c.order[p]],
                 c.bytes + x.size - c.records[c.order[p]].size, c.sequence + 1)
  {
    hide Cut;
    assert (c.records - {c.order[p]})[c.order[p] := x] == c.records[c.order[p] := x];
  }

  lemma MovedValid(c: Core, p: nat, x: Record, limit: nat, maxBytes: nat, size: Evidence -> nat)
    requires Valid(c, limit, maxBytes, size) && Paired(c) && p < |c.order| && x.evidence.request == c.order[p]
    requires x.evidence.sequence == c.sequence + 1 && x.size == size(x.evidence)
    requires c.bytes - c.records[c.order[p]].size + x.size <= maxBytes
    ensures var d := Appended(Removed(c, p), x);
            Valid(d, limit, maxBytes, size) && Contents(d) == Others(Contents(c), c.order[p]) + [x]
  {
    assert |Cut(c.order, p)| == |c.order| - 1;
    Known(c, limit, maxBytes, size);
    hide Valid, Contents, Others, Cut, Paired, Appended;
    RemovedValid(c, p, limit, maxBytes, size);
    RemovedIsOthers(c, p);
    AppendedValid(Removed(c, p), x, limit, maxBytes, size);
  }

  lemma OthersCounted(c: Core, id: string, limit: nat, maxBytes: nat, size: Evidence -> nat)
    requires Valid(c, limit, maxBytes, size) && id in c.records
    ensures Paired(c) && |Others(Contents(c), id)| == |c.order| - 1 < limit
    ensures Sum(Others(Contents(c), id)) == c.bytes - c.records[id].size
  {
    hide Contents;
    Known(c, limit, maxBytes, size);
    assert id in c.order;
    var p :| 0 <= p < |c.order| && c.order[p] == id;
    RemovedIsOthers(c, p);
    RemovedContents(c, p);
    RecordAt(c, p);
    SumCut(Contents(c), p);
  }

  /** The oldest other record is at the front, or next to it. */
  lemma OldestOther(c: Core, id: string)
    requires Paired(c) && |c.order| > 1 && id in c.records
    ensures var front := if c.order[0] == id then c.order[1] else c.order[0];
            && front in c.records && front != id
            && |Others(Contents(c), id)| > 0
            && Others(Others(Contents(c), front), id) == Others(Contents(c), id)[1..]
  {
    var s := Contents(c);
    forall i | 0 <= i < |s| ensures s[i].evidence.request == c.order[i] {}
    if c.order[0] == id {
      var t := s[1..];
      OthersOfTwo(s, id, c.order[1]);
    } else {
      OthersCut(s, 0, c.order[0]);
      assert Cut(s, 0) == s[1..];
      assert Others(s, id) == [s[0]] + Others(s[1..], id);
    }
  }

  lemma OthersOfTwo(s: seq<Record>, id: string, front: string)
    requires |s| > 1 && s[0].evidence.request == id && s[1].evidence.request == front && front != id
    requires forall i :: 0 <= i < |s| ==>
             (s[i].evidence.request == id <==> i == 0) && (s[i].evidence.request == front <==> i == 1)
    ensures Others(s, id) == s[1..] && Others(Others(s, front), id) == s[1..][1..]
  {
    OthersCut(s, 0, id);
    assert Cut(s, 0) == s[1..];
    OthersCut(s, 1, front);
    var u := Cut(s, 1);
    assert u == [s[0]] + s[2..];
    OthersCut(u, 0, id);
    assert Cut(u, 0) == s[2..] == s[1..][1..];
  }

  /** Reporting the same result again changes nothing and is accepted again. */
  lemma RepeatChangesNothing(c: Core, r: Report, current: nat, now: nat, later: nat, limit: nat, maxBytes: nat,
                             size: Evidence -> nat,
                             d: Core, e: Core, ok: bool)
    requires Paired(c) && Paired(d) && Paired(e)
    requires Reports(c, r, current, now, limit, maxBytes, size, d, true) && r.request in d.records
    requires later < d.records[r.request].expires && Reports(d, r, current, later, limit, maxBytes, size, e, ok)
    ensures ok && e == d
  {
    if d != c {
      var s := Contents(d);
      var x := s[|s| - 1];
      RecordAt(d, |s| - 1);
    }
  }

  /** What validity says about the counters. */
  lemma Known(c: Core, limit: nat, maxBytes: nat, size: Evidence -> nat)
    requires Valid(c, limit, maxBytes, size)
    ensures Paired(c) && |Contents(c)| == |c.order| <= limit && c.bytes == Sum(Contents(c)) <= maxBytes
  {
  }

  lemma FrontIsKey(c: Core)
    requires Paired(c) && |c.order| > 0
    ensures c.order[0] in c.records
  {
  }

  lemma OthersOfFront(c: Core)
    requires Paired(c) && |c.order| > 0
    ensures |Contents(c)| > 0 && Others(Contents(c), c.order[0]) == Contents(c)[1..]
  {
    var s := Contents(c);
    forall i | 0 <= i < |s| ensures s[i].evidence.request == c.order[i] {}
    OthersCut(s, 0, c.order[0]);
    assert Cut(s, 0) == s[1..];
  }
}
