/**
 Request-gate evidence: a map of records and a recency list over the same
 request ids, under a count and a byte limit.
 */
module GateEvidence {
  import opened Wrappers

  datatype Forward = Forward(status: nat, reason: string, certificate: bool, observedAt: nat)

  /** `detail` stands for the fields no operation here reads. */
  datatype Evidence = Evidence(
    request: string, session: string, connection: string, decision: string, generation: nat, allowed: bool, https: bool,
    sequence: nat, forward: Option<Forward>, detail: string)

  datatype Record = Record(evidence: Evidence, expires: nat, size: nat)

  /** The fields of the store as one value; `order` is oldest first. */
  datatype Core = Core(records: map<string, Record>, order: seq<string>, bytes: int, sequence: nat)

  // ------------------------------------------------------------- cutting lists

  function Cut<T>(s: seq<T>, p: nat): seq<T>
    requires p < |s|
  {
    s[..p] + s[p + 1..]
  }

  function Sum(s: seq<Record>): nat {
    if |s| == 0 then 0 else s[0].size + Sum(s[1..])
  }

  lemma {:induction false} SumAppend(a: seq<Record>, b: seq<Record>)
    ensures Sum(a + b) == Sum(a) + Sum(b)
  {
    if |a| == 0 {
      assert a + b == b;
    } else {
      assert (a + b)[1..] == a[1..] + b;
      SumAppend(a[1..], b);
    }
  }

  lemma SumCut(s: seq<Record>, p: nat)
    requires p < |s|
    ensures Sum(Cut(s, p)) == Sum(s) - s[p].size
  {
    SumAppend(s[..p], s[p + 1..]);
    SumAppend(s[..p], s[p..]);
    assert s == s[..p] + s[p..] && s[p..][1..] == s[p + 1..];
  }

  // ------------------------------------------------------------- map and list

  predicate Distinct(order: seq<string>) {
    forall i, j :: 0 <= i < j < |order| ==> order[i] != order[j]
  }

  /** The list holds exactly the keys of the map, each once. */
  predicate Paired(c: Core) {
    && Distinct(c.order)
    && (forall i :: 0 <= i < |c.order| ==> c.order[i] in c.records)
    && (forall id :: id in c.records ==> id in c.order && c.records[id].evidence.request == id)
  }

  /** The records in list order. */
  function Contents(c: Core): seq<Record>
    requires Paired(c)
  {
    seq(|c.order|, i requires 0 <= i < |c.order| => c.records[c.order[i]])
  }

  /** List order is sequence order, and no sequence is ahead of the counter. */
  predicate Rising(s: seq<Record>, top: nat) {
    && (forall i, j :: 0 <= i < j < |s| ==> s[i].evidence.sequence < s[j].evidence.sequence)
    && (forall i :: 0 <= i < |s| ==> s[i].evidence.sequence <= top)
  }

  predicate Measured(s: seq<Record>, size: Evidence -> nat) {
    forall i :: 0 <= i < |s| ==> s[i].size == size(s[i].evidence)
  }

  predicate Valid(c: Core, limit: nat, maxBytes: nat, size: Evidence -> nat) {
    && Paired(c) && Rising(Contents(c), c.sequence) && Measured(Contents(c), size)
    && c.bytes == Sum(Contents(c)) <= maxBytes && |c.order| <= limit
  }

  // ------------------------------------------------------------ core updates

  /** Without the record whose list node is at `p`. */
  function Removed(c: Core, p: nat): Core
    requires Paired(c) && p < |c.order|
  {
    Core(c.records - {c.order[p]}, Cut(c.order, p), c.bytes - c.records[c.order[p]].size, c.sequence)
  }

  function Appended(c: Core, r: Record): Core {
    Core(c.records[r.evidence.request := r], c.order + [r.evidence.request], c.bytes + r.size, r.evidence.sequence)
  }

  lemma CutDistinct(order: seq<string>, p: nat)
    requires Distinct(order) && p < |order|
    ensures Distinct(Cut(order, p)) && forall x :: x in Cut(order, p) <==> x in order && x != order[p]
  {
    var t := Cut(order, p);
    forall i | 0 <= i < |t| ensures t[i] == order[if i < p then i else i + 1] {}
    forall x | x in order && x != order[p] ensures x in t {
      var i :| 0 <= i < |order| && order[i] == x;
      assert t[if i < p then i else i - 1] == x;
    }
  }

  lemma RemovedPaired(c: Core, p: nat)
    requires Paired(c) && p < |c.order|
    ensures Paired(Removed(c, p))
  {
    hide Distinct, Cut;
    var d := Removed(c, p);
    CutDistinct(c.order, p);
    forall i | 0 <= i < |d.order| ensures d.order[i] in d.records {
      assert d.order[i] in Cut(c.order, p);
      ListedIsKey(c, d.order[i]);
    }
  }

  lemma ListedIsKey(c: Core, id: string)
    requires Paired(c) && id in c.order
    ensures id in c.records
  {
  }

  lemma RemovedAt(c: Core, p: nat, i: nat)
    requires Paired(c) && p < |c.order| && i < |c.order| - 1 && Paired(Removed(c, p))
    ensures Contents(Removed(c, p))[i] == Contents(c)[if i < p then i else i + 1]
  {
    var d := Removed(c, p);
    assert d.order[i] == c.order[if i < p then i else i + 1];
  }

  lemma RemovedContents(c: Core, p: nat)
    requires Paired(c) && p < |c.order|
    ensures Paired(Removed(c, p)) && Contents(Removed(c, p)) == Cut(Contents(c), p)
  {
    RemovedPaired(c, p);
    LengthOf(c);
    LengthOf(Removed(c, p));
    hide Paired, Contents;
    var s, t := Contents(c), Contents(Removed(c, p));
    forall i | 0 <= i < |t| ensures t[i] == Cut(s, p)[i] { RemovedAt(c, p, i); }
  }

  lemma CutOrdered(s: seq<Record>, p: nat, top: nat, size: Evidence -> nat)
    requires p < |s| && Rising(s, top) && Measured(s, size)
    ensures Rising(Cut(s, p), top) && Measured(Cut(s, p), size)
  {
    var t := Cut(s, p);
    forall i | 0 <= i < |t| ensures t[i] == s[if i < p then i else i + 1] {}
  }

  lemma RemovedValid(c: Core, p: nat, limit: nat, maxBytes: nat, size: Evidence -> nat)
    requires Valid(c, limit, maxBytes, size) && p < |c.order|
    ensures Valid(Removed(c, p), limit, maxBytes, size) && Contents(Removed(c, p)) == Cut(Contents(c), p)
  {
    RemovedContents(c, p);
    LengthOf(c);
    RecordAt(c, p);
    hide Paired, Rising, Measured, Contents;
    CutOrdered(Contents(c), p, c.sequence, size);
    SumCut(Contents(c), p);
  }

  lemma RecordAt(c: Core, p: nat)
    requires Paired(c) && p < |c.order|
    ensures Contents(c)[p] == c.records[c.order[p]] && Contents(c)[p].evidence.request == c.order[p]
  {
  }

  lemma LengthOf(c: Core)
    requires Paired(c)
    ensures |Contents(c)| == |c.order|
  {
  }

  lemma AppendedContents(c: Core, r: Record)
    requires Paired(c) && r.evidence.request !in c.records
    ensures Paired(Appended(c, r)) && Contents(Appended(c, r)) == Contents(c) + [r]
  {
    var d, id := Appended(c, r), r.evidence.request;
    assert id !in c.order;
    forall i | 0 <= i < |c.order| ensures c.order[i] != id { assert c.order[i] in c.order; }
  }

  lemma AppendedValid(c: Core, r: Record, limit: nat, maxBytes: nat, size: Evidence -> nat)
    requires Valid(c, limit, maxBytes, size) && r.evidence.request !in c.records && r.evidence.sequence > c.sequence
    requires r.size == size(r.evidence) && |c.order| < limit && c.bytes + r.size <= maxBytes
    ensures Valid(Appended(c, r), limit, maxBytes, size) && Contents(Appended(c, r)) == Contents(c) + [r]
  {
    hide Paired, Contents;
    AppendedContents(c, r);
    LengthOf(c);
    SumAppend(Contents(c), [r]);
    assert Sum([r]) == r.size by { assert [r][1..] == []; }
  }

  // ------------------------------------------------------ what operations leave

  /** Drop the oldest records until one of `need` bytes fits. */
  function Room(s: seq<Record>, need: nat, limit: nat, maxBytes: nat): seq<Record> {
    if |s| > 0 && (|s| >= limit || Sum(s) + need > maxBytes) then Room(s[1..], need, limit, maxBytes) else s
  }

  /** Making room always succeeds for a record that fits by itself, and drops no more than it must. */
  lemma {:induction false} RoomFits(s: seq<Record>, need: nat, limit: nat, maxBytes: nat) returns (k: nat)
    requires limit > 0 && need <= maxBytes
    ensures k <= |s| && Room(s, need, limit, maxBytes) == s[k..] && |s[k..]| < limit && Sum(s[k..]) + need <= maxBytes
    ensures forall j :: 0 <= j < k ==> |s[j..]| >= limit || Sum(s[j..]) + need > maxBytes
  {
    k := 0;
    if |s| > 0 && (|s| >= limit || Sum(s) + need > maxBytes) {
      var rest := RoomFits(s[1..], need, limit, maxBytes);
      k := rest + 1;
      assert s[1..][rest..] == s[k..];
      forall j | 0 <= j < k ensures |s[j..]| >= limit || Sum(s[j..]) + need > maxBytes {
        if j > 0 { assert s[1..][j - 1..] == s[j..]; } else { assert s[0..] == s; }
      }
    } else {
      assert s[0..] == s;
    }
  }

  /** The records of other requests. */
  function Others(s: seq<Record>, id: string): seq<Record> {
    if |s| == 0 then []
    else (if s[0].evidence.request == id then [] else [s[0]]) + Others(s[1..], id)
  }

  lemma {:induction false} OthersNone(s: seq<Record>, id: string)
    requires forall i :: 0 <= i < |s| ==> s[i].evidence.request != id
    ensures Others(s, id) == s
  {
    if |s| > 0 { OthersNone(s[1..], id); }
  }

  lemma {:induction false} OthersCut(s: seq<Record>, p: nat, id: string)
    requires p < |s| && forall i :: 0 <= i < |s| ==> (s[i].evidence.request == id <==> i == p)
    ensures Others(s, id) == Cut(s, p)
  {
    if p == 0 {
      OthersNone(s[1..], id);
      assert Cut(s, 0) == s[1..];
    } else {
      OthersCut(s[1..], p - 1, id);
      assert Cut(s, p) == [s[0]] + Cut(s[1..], p - 1);
    }
  }

  /** Removing a record leaves the other records, in order. */
  lemma RemovedIsOthers(c: Core, p: nat)
    requires Paired(c) && p < |c.order|
    ensures Paired(Removed(c, p)) && Contents(Removed(c, p)) == Others(Contents(c), c.order[p])
  {
    RemovedContents(c, p);
    var s := Contents(c);
    forall i | 0 <= i < |s| ensures s[i].evidence.request == c.order[i] {}
    OthersCut(s, p, c.order[p]);
  }

  lemma AbsentIsOthers(c: Core, id: string)
    requires Paired(c) && id !in c.records
    ensures Contents(c) == Others(Contents(c), id)
  {
    var s := Contents(c);
    forall i | 0 <= i < |s| ensures s[i].evidence.request == c.order[i] {}
    OthersNone(s, id);
  }
}
