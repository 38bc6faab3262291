/**
 A client that follows the cursors of `ListRequestGateEvidence` while decisions
 are stored, annotated and evicted.  An annotation moves its record to a newer
 sequence, so the client sees the record again.
 */
module EvidenceReading {
  import opened Wrappers
  import opened GateEvidence
  import opened Selection
  import opened GateEvidenceStore

  datatype Action =
    | Decide(decision: Evidence, now: nat)
    | Annotate(report: Report, current: nat, now: nat)
    | List(asked: int, now: nat)

  /** Later contents: what was there before, or newer than anything there was. */
  predicate Follows(c: Core, d: Core)
    requires Paired(c) && Paired(d)
  {
    && c.sequence <= d.sequence
    && forall x :: x in Contents(d) ==> x in Contents(c) || c.sequence < x.evidence.sequence <= d.sequence
  }

  lemma {:induction false} OthersKept(s: seq<Record>, id: string)
    ensures forall x :: x in Others(s, id) ==> x in s
  {
    if |s| > 0 { OthersKept(s[1..], id); }
  }

  lemma {:induction false} RoomKept(s: seq<Record>, need: nat, limit: nat, maxBytes: nat)
    ensures forall x :: x in Room(s, need, limit, maxBytes) ==> x in s
  {
    if |s| > 0 && (|s| >= limit || Sum(s) + need > maxBytes) { RoomKept(s[1..], need, limit, maxBytes); }
  }

  lemma NewestFollows(c: Core, d: Core, id: string, x: Record, limit: nat, maxBytes: nat)
    requires Paired(c) && Paired(d) && d.sequence == c.sequence + 1 == x.evidence.sequence
    requires Contents(d) == Room(Others(Contents(c), id), x.size, limit, maxBytes) + [x]
    ensures Follows(c, d)
  {
    hide Contents, Paired, Room, Others;
    OthersKept(Contents(c), id);
    RoomKept(Others(Contents(c), id), x.size, limit, maxBytes);
  }

  lemma ReportFollows(c: Core, r: Report, current: nat, now: nat, limit: nat, maxBytes: nat, size: Evidence -> nat,
                      d: Core, ok: bool)
    requires Paired(c) && Paired(d) && Reports(c, r, current, now, limit, maxBytes, size, d, ok)
    ensures Follows(c, d)
  {
    hide Contents, Paired, Room, Others;
    if d != c {
      var x := c.records[r.request];
      if now >= x.expires {
        OthersKept(Contents(c), r.request);
      } else {
        var e := Annotated(x.evidence, r, c.sequence + 1, now);
        NewestFollows(c, d, r.request, Record(e, x.expires, size(e)), limit, maxBytes);
      }
    }
  }

  /** The list and the map hold the same records. */
  lemma ListedIsMapped(c: Core, x: Record)
    requires Paired(c)
    ensures x in Contents(c) <==> x.evidence.request in c.records && c.records[x.evidence.request] == x
  {
    if x.evidence.request in c.records && c.records[x.evidence.request] == x {
      assert x.evidence.request in c.order;
      var p :| 0 <= p < |c.order| && c.order[p] == x.evidence.request;
      assert Contents(c)[p] == x;
    }
  }

  /** The evidence is stored. */
  predicate Holds(c: Core, e: Evidence) {
    e.request in c.records && c.records[e.request].evidence == e
  }

  /**
   What was delivered rises and lies between start and cursor, and nothing that
   is stored was passed over: at or below the cursor all of it was delivered.
   */
  ghost predicate Read(c: Core, start: nat, cursor: nat, delivered: seq<Evidence>)
    requires Paired(c)
  {
    && (cursor == start || start < cursor <= c.sequence)
    && Ascending(delivered, ByAge) && (forall e :: e in delivered ==> start < e.sequence <= cursor)
    && forall x :: x in Contents(c) && start < x.evidence.sequence <= cursor ==> x.evidence in delivered
  }

  /** Everything stored past the start was delivered. */
  ghost predicate AllRead(c: Core, start: nat, delivered: seq<Evidence>)
    requires Paired(c)
  {
    forall x :: x in Contents(c) && x.evidence.sequence > start ==> x.evidence in delivered
  }

  lemma FollowsKeeps(c: Core, d: Core, start: nat, cursor: nat, delivered: seq<Evidence>)
    requires Paired(c) && Paired(d) && Follows(c, d) && Read(c, start, cursor, delivered)
    ensures Read(d, start, cursor, delivered)
  {
    hide Contents, Paired;
  }

  /** One page: the oldest evidence past the cursor, and all of it when no more is promised. */
  ghost predicate Listed(c: Core, d: Core, cursor: nat, n: nat, now: nat, items: seq<Evidence>, next: nat, more: bool) {
    var all := Matching(c.records, c.records.Keys, now, (e: Evidence) => e.sequence > cursor);
    && d.records == Alive(c.records, now) && d.sequence == c.sequence
    && Best(all, n, ByAge, items) && Ascending(items, ByAge)
    && (more <==> |all| > n) && next == if |items| > 0 then items[|items| - 1].sequence else cursor
  }

  lemma PageItems(c: Core, d: Core, cursor: nat, n: nat, now: nat, items: seq<Evidence>, next: nat, more: bool)
    requires Paired(c) && Listed(c, d, cursor, n, now, items, next, more) && n > 0
    ensures forall e :: e in items ==> cursor < e.sequence <= next && Holds(c, e)
    ensures next == cursor || exists e :: e in items && e.sequence == next
    ensures forall id :: id in d.records && cursor < d.records[id].evidence.sequence ==>
              d.records[id].evidence.sequence <= next || !more ==> d.records[id].evidence in items
  {
    var all := Matching(c.records, c.records.Keys, now, (e: Evidence) => e.sequence > cursor);
    if |items| > 0 { assert items[|items| - 1] in items; }
    forall e | e in items ensures cursor < e.sequence <= next && Holds(c, e) {
      assert e in Elements(items);
      var i :| 0 <= i < |items| && items[i] == e;
      assert ByAge(e) <= ByAge(items[|items| - 1]);
    }
    if !more {
      CountElements(items);
      AllOf(Elements(items), all);
    }
    forall id | id in d.records && cursor < d.records[id].evidence.sequence
                && (d.records[id].evidence.sequence <= next || !more)
      ensures d.records[id].evidence in items
    {
      var e := d.records[id].evidence;
      assert e in all;
      if !more { assert e in Elements(items); }
    }
  }

  lemma AllOf<T>(a: set<T>, b: set<T>)
    requires a <= b && |a| == |b|
    ensures a == b
  {
    assert |b - a| == |b| - |a|;
  }

  lemma ListKeeps(c: Core, d: Core, start: nat, cursor: nat, delivered: seq<Evidence>, n: nat, now: nat,
                  items: seq<Evidence>, next: nat, more: bool)
    requires Paired(c) && Paired(d) && Read(c, start, cursor, delivered) && n > 0
    requires Listed(c, d, cursor, n, now, items, next, more)
    requires forall id :: id in c.records ==> c.records[id].evidence.sequence <= c.sequence
    ensures Read(d, start, next, delivered + items)
    ensures !more <==> AllRead(d, start, delivered + items)
  {
    hide Contents, Listed;
    PageItems(c, d, cursor, n, now, items, next, more);
    ListedFacts(c, d, cursor, n, now, items, next, more);
    assert Ascending(delivered + items, ByAge) by { Joined(delivered, items, cursor); }
    forall x | x in Contents(d) && x.evidence.sequence > start && (x.evidence.sequence <= next || !more)
      ensures x.evidence in delivered + items
    {
      ListedIsMapped(d, x);
      ListedIsMapped(c, x);
    }
    if more {
      var x := LeftOver(c, d, cursor, n, now, items, next);
      ListedIsMapped(d, x);
      assert x.evidence !in delivered + items;
    }
  }

  /** A page that promises more leaves something behind. */
  lemma LeftOver(c: Core, d: Core, cursor: nat, n: nat, now: nat, items: seq<Evidence>, next: nat) returns (x: Record)
    requires Paired(c) && Listed(c, d, cursor, n, now, items, next, true) && n > 0
    ensures x.evidence.request in d.records && d.records[x.evidence.request] == x
    ensures x.evidence.sequence > cursor && x.evidence !in items
  {
    var all := Matching(c.records, c.records.Keys, now, (e: Evidence) => e.sequence > cursor);
    CountElements(items);
    assert |all - Elements(items)| == |all| - |Elements(items)|;
    var e :| e in all && e !in Elements(items);
    x := c.records[e.request];
  }

  lemma ListedFacts(c: Core, d: Core, cursor: nat, n: nat, now: nat, items: seq<Evidence>, next: nat, more: bool)
    requires Listed(c, d, cursor, n, now, items, next, more)
    ensures d.sequence == c.sequence && Ascending(items, ByAge)
    ensures forall id :: id in d.records ==> id in c.records && c.records[id] == d.records[id]
  {
  }

  lemma Joined(a: seq<Evidence>, b: seq<Evidence>, middle: nat)
    requires Ascending(a, ByAge) && Ascending(b, ByAge)
    requires (forall e :: e in a ==> e.sequence <= middle) && forall e :: e in b ==> e.sequence > middle
    ensures Ascending(a + b, ByAge)
  {
    forall i | 0 <= i < |a| ensures ByAge(a[i]) <= middle { assert a[i] in a; }
    forall i | 0 <= i < |b| ensures ByAge(b[i]) > middle { assert b[i] in b; }
  }

  ghost predicate SeenIn(trace: seq<Core>, e: Evidence) {
    exists i :: 0 <= i < |trace| && Holds(trace[i], e)
  }

  lemma RisesTo(c: Core, limit: nat, maxBytes: nat, size: Evidence -> nat)
    requires Valid(c, limit, maxBytes, size)
    ensures Paired(c) && forall id :: id in c.records ==> c.records[id].evidence.sequence <= c.sequence
  {
    forall id | id in c.records ensures c.records[id].evidence.sequence <= c.sequence {
      ListedIsMapped(c, c.records[id]);
      var i :| 0 <= i < |Contents(c)| && Contents(c)[i] == c.records[id];
    }
  }

  function Asked(asked: int): nat {
    if asked <= 0 || asked > 128 then 128 else asked
  }

  method NextPage(store: EvidenceStore, cursor: nat, asked: int, now: nat)
    returns (items: seq<Evidence>, next: nat, more: bool)
    requires store.Ok()
    modifies store
    ensures store.Ok() && Listed(old(store.C()), store.C(), cursor, Asked(asked), now, items, next, more)
  {
    hide Valid;
    items, next, more := store.ListEvidence(cursor, asked, now);
  }

  /** A decision or an annotation. */
  method Mutate(store: EvidenceStore, action: Action)
    requires store.Ok() && !action.List?
    modifies store
    ensures store.Ok() && Paired(old(store.C())) && Paired(store.C()) && Follows(old(store.C()), store.C())
  {
    hide Valid, Contents, Follows, Room, Others;
    ghost var c := store.C();
    RisesTo(c, store.limit, store.maxBytes, store.size);
    if action.Decide? {
      store.StoreDecision(action.decision, action.now);
      RisesTo(store.C(), store.limit, store.maxBytes, store.size);
      DecisionFollows(store, c, action.decision, action.now);
    } else {
      var ok := store.ReportResult(action.report, action.current, action.now);
      RisesTo(store.C(), store.limit, store.maxBytes, store.size);
      ReportFollows(c, action.report, action.current, action.now, store.limit, store.maxBytes, store.size,
                    store.C(), ok);
    }
  }

  /**
   Through any sequence of decisions, annotations and pages, the client gets
   evidence in rising order, each version at most once and only what was
   stored; it has everything stored at or below its cursor; and it knows that
   it has everything past its start exactly when its last page said so.
   */
  method Follow(store: EvidenceStore, start: nat, script: seq<Action>)
    returns (delivered: seq<Evidence>, cursor: nat, complete: bool, ghost trace: seq<Core>)
    requires store.Ok()
    modifies store
    ensures store.Ok() && Read(store.C(), start, cursor, delivered)
    ensures complete <==> script != [] && script[|script| - 1].List? && AllRead(store.C(), start, delivered)
    ensures forall e :: e in delivered ==> SeenIn(trace, e)
  {
    delivered, cursor, complete, trace := [], start, false, [];
    RisesTo(store.C(), store.limit, store.maxBytes, store.size);
    for k := 0 to |script|
      invariant store.Ok() && Read(store.C(), start, cursor, delivered)
      invariant complete <==> k > 0 && script[k - 1].List? && AllRead(store.C(), start, delivered)
      invariant forall e :: e in delivered ==> SeenIn(trace, e)
    {
      hide Valid, Contents, Read, Follows, SeenIn, Listed, Paired, Holds, AllRead;
      ghost var c := store.C();
      RisesTo(c, store.limit, store.maxBytes, store.size);
      Longer(trace, c, delivered);
      trace := trace + [c];
      if script[k].List? {
        var items, next, more := NextPage(store, cursor, script[k].asked, script[k].now);
        RisesTo(store.C(), store.limit, store.maxBytes, store.size);
        ghost var n := Asked(script[k].asked);
        ListKeeps(c, store.C(), start, cursor, delivered, n, script[k].now, items, next, more);
        PageItems(c, store.C(), cursor, n, script[k].now, items, next, more);
        NowSeen(trace, c, items);
        delivered, cursor, complete := delivered + items, next, !more;
      } else {
        Mutate(store, script[k]);
        complete := false;
        FollowsKeeps(c, store.C(), start, cursor, delivered);
      }
    }
  }

  lemma Longer(trace: seq<Core>, c: Core, delivered: seq<Evidence>)
    requires forall e :: e in delivered ==> SeenIn(trace, e)
    ensures forall e :: e in delivered ==> SeenIn(trace + [c], e)
  {
    forall e | e in delivered ensures SeenIn(trace + [c], e) {
      var i :| 0 <= i < |trace| && Holds(trace[i], e);
      assert (trace + [c])[i] == trace[i];
    }
  }

  lemma NowSeen(trace: seq<Core>, c: Core, items: seq<Evidence>)
    requires |trace| > 0 && trace[|trace| - 1] == c && forall e :: e in items ==> Holds(c, e)
    ensures forall e :: e in items ==> SeenIn(trace, e)
  {
  }

  lemma DecisionFollows(store: EvidenceStore, c: Core, decision: Evidence, now: nat)
    requires store.Ok() && Paired(c)
    requires var e := decision.(sequence := c.sequence + 1);
             if store.size(e) > store.maxBytes then store.C() == c
             else
               && store.sequence == c.sequence + 1
               && store.Stored() == Room(Others(Contents(c), e.request), store.size(e), store.limit, store.maxBytes)
                                    + [Record(e, now + TTL, store.size(e))]
    ensures Follows(c, store.C())
  {
    hide Contents, Room, Others;
    var e := decision.(sequence := c.sequence + 1);
    if store.size(e) <= store.maxBytes {
      NewestFollows(c, store.C(), e.request, Record(e, now + TTL, store.size(e)), store.limit, store.maxBytes);
    }
  }
}
