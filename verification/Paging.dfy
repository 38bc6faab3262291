/**
 Reading security events page by page: the store's `Query` and the response
 trimming of `fitSecurityPage`, followed by a client that hands each page's
 cursor to the next request.
 */
module Paging {
  import opened Wrappers
  import opened SecurityEvents

  const WORD: nat := 0x1_0000_0000_0000_0000

  datatype Query = Query(after: nat, stream: string, limit: int)

  datatype Page = Page(
    items: seq<Event>, stream: string, next: nat, more: bool, oldest: nat, gap: bool, gapFrom: nat, reset: bool,
    evicted: nat)

  /** What a query copies out of the store. */
  datatype Snapshot = Snapshot(events: seq<Event>, stream: string, next: nat, evicted: nat)

  predicate RisingEvents(s: seq<Event>, next: nat) {
    && (forall i, j :: 0 <= i < j < |s| ==> s[i].sequence < s[j].sequence)
    && (forall i :: 0 <= i < |s| ==> 0 < s[i].sequence <= next)
  }

  // ---------------------------------------------------------------- one query

  function Clamped(limit: int): (n: nat)
    ensures 1 <= n <= 200
  {
    if limit <= 0 then 50 else if limit > 200 then 200 else limit
  }

  datatype Scanned = Scanned(items: seq<Event>, next: nat, more: bool)

  /** The page built from the events in order, until one more would not fit. */
  function Scan(events: seq<Event>, after: nat, limit: nat, keep: Event -> bool): Scanned {
    if |events| == 0 then Scanned([], after, false)
    else
      var st, e := Scan(events[..|events| - 1], after, limit, keep), events[|events| - 1];
      if st.more || e.sequence <= after then st
      else if |st.items| >= limit then st.(more := true)
      else Scanned(if keep(e) then st.items + [e] else st.items, e.sequence, false)
  }

  predicate Resets(s: Snapshot, q: Query) {
    q.stream != "" && q.stream != s.stream
  }

  function Start(s: Snapshot, q: Query): nat {
    if Resets(s, q) then 0 else q.after
  }

  function Oldest(events: seq<Event>): nat {
    if |events| > 0 then events[0].sequence else 0
  }

  /** The oldest retained event is beyond the one after the cursor; the sum wraps at 64 bits. */
  predicate Behind(events: seq<Event>, after: nat) {
    Oldest(events) > 0 && Oldest(events) > (after + 1) % WORD
  }

  function PageOf(s: Snapshot, q: Query, keep: Event -> bool): Page {
    var after := Start(s, q);
    var st := Scan(s.events, after, Clamped(q.limit), keep);
    Page(st.items, s.stream, if st.next > s.next then s.next else st.next, st.more, Oldest(s.events),
         Resets(s, q) || Behind(s.events, after), if Behind(s.events, after) then Oldest(s.events)
             else 0, Resets(s, q), s.evicted)
  }

  /** `Query` */
  method List(s: Snapshot, q: Query, keep: Event -> bool) returns (page: Page)
    ensures page == PageOf(s, q, keep)
  {
    var limit := q.limit;
    if limit <= 0 { limit := 50; }
    if limit > 200 { limit := 200; }
    var oldest := 0;
    if |s.events| > 0 { oldest := s.events[0].sequence; }
    page := Page([], s.stream, q.after, false, oldest, false, 0, false, s.evicted);
    var after := q.after;
    if q.stream != "" && q.stream != s.stream {
      after := 0;
      page := page.(gap := true, reset := true, next := 0);
    }
    if oldest > 0 && oldest > (after + 1) % WORD { page := page.(gapFrom := oldest, gap := true); }
    var scanned := ScanEvents(s.events, after, limit, keep);
    page := page.(items := scanned.items, next := scanned.next, more := scanned.more);
    if page.next > s.next { page := page.(next := s.next); }
  }

  /** The loop of `Query`: collect until the page is full. */
  method ScanEvents(events: seq<Event>, after: nat, limit: nat, keep: Event -> bool) returns (r: Scanned)
    ensures r == Scan(events, after, limit, keep)
  {
    r := Scanned([], after, false);
    for n := 0 to |events|
      invariant r == Scan(events[..n], after, limit, keep) && !r.more
    {
      var e := events[n];
      assert events[..n + 1][..n] == events[..n];
      if e.sequence <= after { continue; }
      if |r.items| >= limit {
        r := r.(more := true);
        Stopped(events, n + 1, after, limit, keep);
        return;
      }
      r := r.(next := e.sequence);
      if keep(e) { r := r.(items := r.items + [e]); }
    }
    assert events[..|events|] == events;
  }

  /** Once the page is full the rest of the events changes nothing. */
  lemma {:induction false} Stopped(events: seq<Event>, n: nat, after: nat, limit: nat, keep: Event -> bool)
    requires n <= |events| && Scan(events[..n], after, limit, keep).more
    ensures Scan(events, after, limit, keep) == Scan(events[..n], after, limit, keep)
    decreases |events|
  {
    if n == |events| {
      assert events[..n] == events;
    } else {
      assert events[..|events| - 1][..n] == events[..n];
      Stopped(events[..|events| - 1], n, after, limit, keep);
    }
  }

  // ----------------------------------------------------------------- trimming

  /** The page without its last item, its cursor on the item before. */
  function Shortened(p: Page, after: nat): Page
    requires |p.items| > 1
  {
    var items := p.items[..|p.items| - 1];
    var last := items[|items| - 1].sequence;
    p.(items := items, more := true, next := if last < after then after else last)
  }

  function Fitted(p: Page, after: nat, maxBytes: nat, size: Page -> nat): Option<Page>
    decreases |p.items|
  {
    if size(p) <= maxBytes then Some(p)
    else if |p.items| <= 1 then None
    else Fitted(Shortened(p, after), after, maxBytes, size)
  }

  /** `fitSecurityPage` */
  method FitPage(p: Page, q: Query, budget: int, size: Page -> nat) returns (r: Option<Page>)
    ensures r == Fitted(p, q.after, if budget <= 0 then 1048576 else budget, size)
  {
    var maxBytes := if budget <= 0 then 1048576 else budget;
    var page := p;
    while true
      invariant Fitted(p, q.after, maxBytes, size) == Fitted(page, q.after, maxBytes, size)
      decreases |page.items|
    {
      if size(page) <= maxBytes { return Some(page); }
      if |page.items| <= 1 { return None; }
      var items := page.items[..|page.items| - 1];
      page := page.(items := items, more := true, next := items[|items| - 1].sequence);
      if page.next < q.after { page := page.(next := q.after); }
    }
  }

  // -------------------------------------------------------- what a page holds

  /** The matching events after `low`, up to and including `high`, in order. */
  function Between(events: seq<Event>, low: nat, high: nat, keep: Event -> bool): seq<Event> {
    if |events| == 0 then []
    else
      var e := events[|events| - 1];
      Between(events[..|events| - 1], low, high, keep) + if low < e.sequence <= high && keep(e) then [e] else []
  }

  lemma {:induction false} BetweenNothingNew(events: seq<Event>, low: nat, high: nat, higher: nat, keep: Event -> bool)
    requires high <= higher && forall e :: e in events ==> e.sequence <= high || e.sequence > higher
    ensures Between(events, low, high, keep) == Between(events, low, higher, keep)
  {
    if |events| > 0 {
      assert events[|events| - 1] in events;
      BetweenNothingNew(events[..|events| - 1], low, high, higher, keep);
    }
  }

  /** Where a cursor can stand: where it was, or on an event. */
  predicate OnEvent(events: seq<Event>, after: nat, next: nat) {
    next == after || (next > after && exists i :: 0 <= i < |events| && events[i].sequence == next)
  }

  lemma ScanStep(init: seq<Event>, e: Event, after: nat, limit: nat, keep: Event -> bool)
    ensures var before := Scan(init, after, limit, keep);
            Scan(init + [e], after, limit, keep) ==
              if before.more || e.sequence <= after then before
              else if |before.items| >= limit then before.(more := true)
              else Scanned(if keep(e) then before.items + [e] else before.items, e.sequence, false)
    ensures forall low: nat, high: nat :: Between(init + [e], low, high, keep) ==
              Between(init, low, high, keep) + if low < e.sequence <= high && keep(e) then [e] else []
  {
    assert (init + [e])[..|init|] == init;
  }

  /** What the scan has built, and how far it has read. */
  lemma {:induction false} ScanMeans(events: seq<Event>, after: nat, limit: nat, keep: Event -> bool, top: nat)
    requires RisingEvents(events, top) && limit >= 1
    ensures var st := Scan(events, after, limit, keep);
            && st.items == Between(events, after, st.next, keep) && |st.items| <= limit
            && OnEvent(events, after, st.next)
            && (st.more ==> |st.items| == limit)
            && (!st.more ==> forall e :: e in events ==> e.sequence <= st.next)
  {
    if |events| > 0 {
      hide Scan, Between;
      var init, e := events[..|events| - 1], events[|events| - 1];
      assert events == init + [e];
      ScanMeans(init, after, limit, keep, top);
      ScanStep(init, e, after, limit, keep);
      var before := Scan(init, after, limit, keep);
      assert before.next == after || before.next < e.sequence;
      if !before.more && e.sequence > after && |before.items| < limit {
        forall x | x in init ensures x.sequence <= before.next {}
        BetweenNothingNew(init, after, before.next, e.sequence, keep);
        assert events[|init|].sequence == e.sequence;
      } else {
        StillOnEvent(events, after, before.next);
      }
    } else {
      assert Scan(events, after, limit, keep) == Scanned([], after, false);
      assert Between(events, after, after, keep) == [];
    }
  }

  lemma StillOnEvent(events: seq<Event>, after: nat, next: nat)
    requires |events| > 0 && OnEvent(events[..|events| - 1], after, next)
    ensures OnEvent(events, after, next)
  {
    if next > after {
      var i :| 0 <= i < |events| - 1 && events[..|events| - 1][i].sequence == next;
      assert events[i].sequence == next;
    }
  }

  lemma {:induction false} BetweenMembers(events: seq<Event>, low: nat, high: nat, keep: Event -> bool, e: Event)
    ensures e in Between(events, low, high, keep) <==> e in events && low < e.sequence <= high && keep(e)
  {
    if |events| > 0 {
      BetweenMembers(events[..|events| - 1], low, high, keep, e);
      assert e in events <==> e in events[..|events| - 1] || e == events[|events| - 1];
    }
  }

  lemma {:induction false} BetweenRises(events: seq<Event>, low: nat, high: nat, keep: Event -> bool, top: nat)
    requires RisingEvents(events, top)
    ensures RisingEvents(Between(events, low, high, keep), top)
  {
    if |events| > 0 {
      var init, e := events[..|events| - 1], events[|events| - 1];
      BetweenRises(init, low, high, keep, top);
      var b := Between(init, low, high, keep);
      forall i | 0 <= i < |b| ensures b[i].sequence < e.sequence {
        BetweenMembers(init, low, high, keep, b[i]);
        var j :| 0 <= j < |init| && init[j] == b[i];
      }
    }
  }

  lemma BetweenOrdered(events: seq<Event>, low: nat, high: nat, keep: Event -> bool, top: nat)
    requires RisingEvents(events, top)
    ensures RisingEvents(Between(events, low, high, keep), top)
    ensures forall e :: e in Between(events, low, high, keep) <==> e in events && low < e.sequence <= high && keep(e)
  {
    BetweenRises(events, low, high, keep, top);
    forall e ensures e in Between(events, low, high, keep) <==> e in events && low < e.sequence <= high && keep(e) {
      BetweenMembers(events, low, high, keep, e);
    }
  }

  lemma {:induction false} BetweenNone(events: seq<Event>, low: nat, high: nat, keep: Event -> bool)
    requires forall e :: e in events ==> e.sequence <= low
    ensures Between(events, low, high, keep) == []
  {
    if |events| > 0 {
      assert events[|events| - 1] in events;
      BetweenNone(events[..|events| - 1], low, high, keep);
    }
  }

  /** Consecutive ranges join. */
  lemma {:induction false} BetweenJoins(events: seq<Event>, low: nat, middle: nat, high: nat, keep: Event -> bool,
                                        top: nat)
    requires RisingEvents(events, top) && low <= middle <= high
    ensures Between(events, low, middle, keep) + Between(events, middle, high, keep) == Between(events, low, high, keep)
  {
    if |events| > 0 {
      hide Between;
      var init, e := events[..|events| - 1], events[|events| - 1];
      BetweenJoins(init, low, middle, high, keep, top);
      BetweenLast(events, low, middle, keep);
      BetweenLast(events, middle, high, keep);
      BetweenLast(events, low, high, keep);
      var a, b := Between(init, low, middle, keep), Between(init, middle, high, keep);
      if e.sequence <= middle {
        forall x | x in events ensures x.sequence <= middle {
          var i :| 0 <= i < |events| && events[i] == x;
        }
        BetweenNone(init, middle, high, keep);
        assert a + b == a;
      } else {
        assert a + [] == a && b + [] == b;
        assert a + (b + [e]) == a + b + [e];
      }
    }
  }

  lemma BetweenLast(events: seq<Event>, low: nat, high: nat, keep: Event -> bool)
    requires |events| > 0
    ensures var e := events[|events| - 1];
            Between(events, low, high, keep) ==
            Between(events[..|events| - 1], low, high, keep) + if low < e.sequence <= high && keep(e) then [e] else []
  {
  }

  /** A prefix of a range is the range up to its last event. */
  lemma BetweenPrefix(events: seq<Event>, low: nat, high: nat, keep: Event -> bool, top: nat, k: nat)
    requires RisingEvents(events, top) && 1 <= k <= |Between(events, low, high, keep)|
    ensures var b := Between(events, low, high, keep);
            b[..k] == Between(events, low, b[k - 1].sequence, keep) && low < b[k - 1].sequence <= high
  {
    hide Between;
    var b := Between(events, low, high, keep);
    var last := b[k - 1];
    BetweenOrdered(events, low, high, keep, top);
    assert last in b;
    BetweenJoins(events, low, last.sequence, high, keep, top);
    var head, tail := Between(events, low, last.sequence, keep), Between(events, last.sequence, high, keep);
    BetweenOrdered(events, low, last.sequence, keep, top);
    BetweenOrdered(events, last.sequence, high, keep, top);
    forall i | |head| <= i < |b| ensures b[i].sequence > last.sequence {
      assert b[i] == tail[i - |head|] && tail[i - |head|] in tail;
    }
    assert head[|head| - 1] in head && b[|head| - 1] == head[|head| - 1];
  }

  /** A page that continues a stream delivers every match up to its cursor and nothing else. */
  ghost predicate Delivers(events: seq<Event>, after: nat, p: Page, keep: Event -> bool) {
    && after <= p.next && p.items == Between(events, after, p.next, keep)
    && (p.more ==> |p.items| > 0)
    && (!p.more ==> forall e :: e in events ==> e.sequence <= p.next)
  }

  /** Only a cursor of the same stream can be ahead of the store; it gets an empty page and is set back. */
  lemma PageDelivers(s: Snapshot, q: Query, keep: Event -> bool)
    requires RisingEvents(s.events, s.next)
    ensures var p := PageOf(s, q, keep);
            && p.next <= s.next
            && (Start(s, q) <= s.next ==> Delivers(s.events, Start(s, q), p, keep))
            && (Start(s, q) > s.next ==> !Resets(s, q) && p.items == [] && p.next == s.next && !p.more)
  {
    ScanMeans(s.events, Start(s, q), Clamped(q.limit), keep, s.next);
    if Start(s, q) > s.next { ScanAhead(s.events, Start(s, q), Clamped(q.limit), keep, s.next); }
  }

  lemma {:induction false} ScanAhead(events: seq<Event>, after: nat, limit: nat, keep: Event -> bool, top: nat)
    requires RisingEvents(events, top) && after > top
    ensures Scan(events, after, limit, keep) == Scanned([], after, false)
  {
    if |events| > 0 { ScanAhead(events[..|events| - 1], after, limit, keep, top); }
  }

  /** Trimming keeps that, as long as the cursor it is given is not ahead of the page. */
  lemma {:induction false} FitDelivers(events: seq<Event>, after: nat, p: Page, keep: Event -> bool, top: nat,
                                       maxBytes: nat, size: Page -> nat)
    requires RisingEvents(events, top) && Delivers(events, after, p, keep)
    ensures var r := Fitted(p, after, maxBytes, size);
            r.Some? ==>
              && Delivers(events, after, r.value, keep) && r.value.next <= p.next
              && (r.value.more ==> r.value.next > after)
    decreases |p.items|
  {
    if p.more { BetweenPrefix(events, after, p.next, keep, top, |p.items|); }
    if size(p) > maxBytes && |p.items| > 1 {
      BetweenPrefix(events, after, p.next, keep, top, |p.items| - 1);
      FitDelivers(events, after, Shortened(p, after), keep, top, maxBytes, size);
    }
  }

  // ------------------------------------------------------------ reading it all

  /** Follow cursors over a store that does not change, until no more is promised. */
  method Drain(s: Snapshot, start: nat, limit: int, keep: Event -> bool, budget: int, size: Page -> nat)
    returns (delivered: seq<Event>, complete: bool)
    requires RisingEvents(s.events, s.next) && start <= s.next
    ensures complete ==> delivered == Between(s.events, start, s.next, keep)
    ensures !complete ==>
              exists c :: && start <= c <= s.next && delivered == Between(s.events, start, c, keep)
                          && Fitted(PageOf(s, Query(c, s.stream, limit), keep), c, if budget <= 0 then 1048576
                                    else budget, size).None?
  {
    var cursor := start;
    delivered := [];
    BetweenEmpty(s.events, start, keep, s.next);
    while true
      invariant start <= cursor <= s.next && delivered == Between(s.events, start, cursor, keep)
      decreases s.next - cursor
    {
      var q := Query(cursor, s.stream, limit);
      var page := List(s, q, keep);
      var fitted := FitPage(page, q, budget, size);
      if fitted.None? { return delivered, false; }
      PageDelivers(s, q, keep);
      FitDelivers(s.events, cursor, page, keep, s.next, if budget <= 0 then 1048576 else budget, size);
      BetweenJoins(s.events, start, cursor, fitted.value.next, keep, s.next);
      delivered := delivered + fitted.value.items;
      cursor := fitted.value.next;
      if !fitted.value.more {
        BetweenNothingNew(s.events, start, cursor, s.next, keep);
        return delivered, true;
      }
    }
  }

  lemma {:induction false} BetweenEmpty(events: seq<Event>, at: nat, keep: Event -> bool, top: nat)
    ensures Between(events, at, at, keep) == []
  {
    if |events| > 0 { BetweenEmpty(events[..|events| - 1], at, keep, top); }
  }

  // -------------------------------------------------------- a page after a reset

  /** A trimmed page ends on its last item, or on the cursor of the request if that is higher. */
  lemma {:induction false} TrimmedCursor(p: Page, after: nat, maxBytes: nat, size: Page -> nat)
    ensures var r := Fitted(p, after, maxBytes, size);
            r.Some? && r.value != p ==>
              && 1 <= |r.value.items| < |p.items| && r.value.items == p.items[..|r.value.items|] && r.value.more
              && (var last := r.value.items[|r.value.items| - 1].sequence;
                  r.value.next == if last < after then after else last)
    decreases |p.items|
  {
    if size(p) > maxBytes && |p.items| > 1 {
      var t := Shortened(p, after);
      TrimmedCursor(t, after, maxBytes, size);
      var r := Fitted(t, after, maxBytes, size);
      if r.Some? && r.value != t { assert t.items[..|r.value.items|] == p.items[..|r.value.items|]; }
    }
  }

  /** The page a client gets after a reset, if it was trimmed, holds every match up to its cursor. */
  ghost predicate TrimExact(s: Snapshot, q: Query, keep: Event -> bool, maxBytes: nat, size: Page -> nat) {
    var p := PageOf(s, q, keep);
    var r := Fitted(p, q.after, maxBytes, size);
    r.Some? && r.value != p ==> r.value.items == Between(s.events, 0, r.value.next, keep)
  }

  /**
   After a stream reset a page starts over, but trimming it raises its cursor
   to the one of the old stream.  The trimmed page is still exact if and only
   if no matching event lies between its last item and that old cursor.
   */
  lemma ResetTrimExact(s: Snapshot, q: Query, keep: Event -> bool, maxBytes: nat, size: Page -> nat)
    requires RisingEvents(s.events, s.next) && Resets(s, q)
    ensures var p := PageOf(s, q, keep);
            var r := Fitted(p, q.after, maxBytes, size);
            r.Some? && r.value != p ==>
              && |r.value.items| > 0
              && (TrimExact(s, q, keep, maxBytes, size) <==>
                  forall e :: e in s.events && keep(e) && e.sequence > r.value.items[|r.value.items| - 1].sequence ==>
                    e.sequence > q.after)
  {
    hide Between, PageOf, Fitted, Resets;
    var p := PageOf(s, q, keep);
    var r := Fitted(p, q.after, maxBytes, size);
    PageDelivers(s, q, keep);
    TrimmedCursor(p, q.after, maxBytes, size);
    if r.Some? && r.value != p {
      var items := r.value.items;
      assert Start(s, q) == 0;
      BetweenPrefix(s.events, 0, p.next, keep, s.next, |items|);
      CursorExact(s.events, items, q.after, keep, s.next);
    }
  }

  /** Everything that matches, except for the first match, is newer than the old cursor. */
  predicate MatchesAreNewer(events: seq<Event>, after: nat, keep: Event -> bool) {
    forall i, j :: 0 <= i < j < |events| && keep(events[i]) && keep(events[j]) ==> events[j].sequence > after
  }

  lemma {:induction false} NewerSuffices(s: Snapshot, q: Query, keep: Event -> bool, maxBytes: nat, size: Page -> nat)
    requires RisingEvents(s.events, s.next) && Resets(s, q)
    requires Clamped(q.limit) == 1 || MatchesAreNewer(s.events, q.after, keep)
    ensures TrimExact(s, q, keep, maxBytes, size)
  {
    hide Between, Fitted, Resets, Scan;
    var p := PageOf(s, q, keep);
    var r := Fitted(p, q.after, maxBytes, size);
    ScanMeans(s.events, 0, Clamped(q.limit), keep, s.next);
    PageDelivers(s, q, keep);
    ResetTrimExact(s, q, keep, maxBytes, size);
    TrimmedCursor(p, q.after, maxBytes, size);
    if r.Some? && r.value != p {
      var last := r.value.items[|r.value.items| - 1];
      assert Start(s, q) == 0 && last == p.items[|r.value.items| - 1] && last in p.items;
      BetweenMembers(s.events, 0, p.next, keep, last);
      forall e | e in s.events && keep(e) && e.sequence > last.sequence ensures e.sequence > q.after {
        var i :| 0 <= i < |s.events| && s.events[i] == last;
        var j :| 0 <= j < |s.events| && s.events[j] == e;
        assert i < j;
      }
    }
  }

  /** Room for one event, and an older second match: the page ends on the first match and skips the second. */
  lemma OlderSkips(s: Snapshot, q: Query, keep: Event -> bool, i: nat, j: nat)
    requires RisingEvents(s.events, s.next) && Resets(s, q) && Clamped(q.limit) >= 2
    requires i < j < |s.events| && keep(s.events[i]) && keep(s.events[j]) && s.events[j].sequence <= q.after
    ensures !TrimExact(s, q, keep, 1, (p: Page) => |p.items|)
  {
    hide Between, Resets, Scan, Fitted;
    var size := (p: Page) => |p.items|;
    var p := PageOf(s, q, keep);
    var r := Fitted(p, q.after, 1, size);
    ScanMeans(s.events, 0, Clamped(q.limit), keep, s.next);
    PageDelivers(s, q, keep);
    assert Start(s, q) == 0;
    if !p.more {
      assert s.events[i] in s.events && s.events[j] in s.events;
      BetweenMembers(s.events, 0, p.next, keep, s.events[i]);
      BetweenMembers(s.events, 0, p.next, keep, s.events[j]);
    }
    assert |p.items| >= 2;
    OneIsLeft(p, q.after, size);
    assert r.Some? && |r.value.items| == 1;
    ResetTrimExact(s, q, keep, 1, size);
    TrimmedCursor(p, q.after, 1, size);
    var first := r.value.items[0];
    assert first == p.items[0];
    BetweenPrefix(s.events, 0, p.next, keep, s.next, 1);
    BetweenMembers(s.events, 0, first.sequence, keep, s.events[i]);
    BetweenMembers(s.events, 0, first.sequence, keep, s.events[j]);
    assert p.items[..1] == [first];
    assert s.events[j] in s.events && s.events[j].sequence > first.sequence;
  }

  lemma {:induction false} OneIsLeft(p: Page, after: nat, size: Page -> nat)
    requires |p.items| >= 1 && forall x: Page :: size(x) == |x.items|
    ensures Fitted(p, after, 1, size).Some? && |Fitted(p, after, 1, size).value.items| == 1
    decreases |p.items|
  {
    if |p.items| > 1 { OneIsLeft(Shortened(p, after), after, size); }
  }

  /**
   Whatever the encoding and its limit, pages after a reset are exact if and
   only if every match but the first is newer than the old cursor.  A page of
   one item is never trimmed.
   */
  lemma ResetExactIff(s: Snapshot, q: Query, keep: Event -> bool)
    requires RisingEvents(s.events, s.next) && Resets(s, q)
    ensures (forall maxBytes: nat, size: Page -> nat :: TrimExact(s, q, keep, maxBytes, size)) <==>
            Clamped(q.limit) == 1 || MatchesAreNewer(s.events, q.after, keep)
  {
    hide TrimExact, Resets;
    if Clamped(q.limit) == 1 || MatchesAreNewer(s.events, q.after, keep) {
      forall maxBytes: nat, size: Page -> nat ensures TrimExact(s, q, keep, maxBytes, size) {
        NewerSuffices(s, q, keep, maxBytes, size);
      }
    } else {
      var i, j :| 0 <= i < j < |s.events| && keep(s.events[i]) && keep(s.events[j]) && s.events[j].sequence <= q.after;
      OlderSkips(s, q, keep, i, j);
    }
  }

  /** An old cursor not below the new counter, as after a restart: no trimmed page is exact. */
  lemma StaleCursorSkips(s: Snapshot, q: Query, keep: Event -> bool, maxBytes: nat, size: Page -> nat)
    requires RisingEvents(s.events, s.next) && Resets(s, q) && q.after >= s.next
    ensures var p := PageOf(s, q, keep);
            var r := Fitted(p, q.after, maxBytes, size);
            r.Some? && r.value != p ==> r.value.next == q.after && !TrimExact(s, q, keep, maxBytes, size)
  {
    hide Between, PageOf, Fitted, Resets;
    var p := PageOf(s, q, keep);
    var r := Fitted(p, q.after, maxBytes, size);
    PageDelivers(s, q, keep);
    ResetTrimExact(s, q, keep, maxBytes, size);
    TrimmedCursor(p, q.after, maxBytes, size);
    if r.Some? && r.value != p {
      var k := |r.value.items|;
      var cut := p.items[k];
      assert Start(s, q) == 0 && r.value.items[k - 1] == p.items[k - 1] && cut in p.items;
      BetweenOrdered(s.events, 0, p.next, keep, s.next);
      assert p.items[k - 1].sequence < cut.sequence <= s.next;
    }
  }

  /** A run of events is exact up to a raised cursor if and only if the raise passes over no match. */
  lemma CursorExact(events: seq<Event>, items: seq<Event>, after: nat, keep: Event -> bool, top: nat)
    requires RisingEvents(events, top) && |items| > 0 && items == Between(events, 0, items[|items| - 1].sequence, keep)
    ensures var last := items[|items| - 1].sequence;
            var next := if last < after then after else last;
            items == Between(events, 0, next, keep) <==>
                forall e :: e in events && keep(e) && e.sequence > last ==> e.sequence > after
  {
    hide Between;
    var last := items[|items| - 1].sequence;
    var next := if last < after then after else last;
    BetweenJoins(events, 0, last, next, keep, top);
    var skipped := Between(events, last, next, keep);
    forall e ensures e in skipped <==> e in events && last < e.sequence <= next && keep(e) {
      BetweenMembers(events, last, next, keep, e);
    }
    assert items == items + skipped <==> |skipped| == 0;
    if |skipped| > 0 { assert skipped[0] in skipped; }
  }

  const FIRST := Event("a", 1, Correlation("", "", 0, "", ""), 0, "")
  const SECOND := Event("b", 2, Correlation("", "", 0, "", ""), 0, "")

  lemma TwoScanned(after: nat)
    ensures Scan([FIRST, SECOND], after, 50, e => true) ==
            if after == 0 then Scanned([FIRST, SECOND], 2, false)
            else if after == 1 then Scanned([SECOND], 2, false) else Scanned([], after, false)
  {
    var all := (e: Event) => true;
    assert [FIRST, SECOND][..1] == [FIRST] && [FIRST][..0] == [];
    assert Scan([], after, 50, all) == Scanned([], after, false);
    assert Scan([FIRST], after, 50, all) == if after == 0 then Scanned([FIRST], 1, false)
        else Scanned([], after, false);
  }

  /**
   A store that was restarted and has added two events, a client that had read
   five of the old stream, room for one event: the second event is skipped, and
   the next page sets the client to the end of the store.
   */
  lemma ResetTrimSkips()
    ensures var s := Snapshot([FIRST, SECOND], "new", 2, 0);
            var q := Query(5, "old", 50);
            var r := Fitted(PageOf(s, q, e => true), q.after, 1, (p: Page) => |p.items|);
            && r.Some? && r.value.items == [FIRST] && r.value.next == 5
            && PageOf(s, Query(5, "new", 50), e => true).items == []
               && PageOf(s, Query(5, "new", 50), e => true).next == 2
  {
    var s := Snapshot([FIRST, SECOND], "new", 2, 0);
    TwoScanned(0);
    TwoScanned(5);
    var p := PageOf(s, Query(5, "old", 50), e => true);
    assert p.items == [FIRST, SECOND];
    var t := Shortened(p, 5);
    assert t.items == [FIRST] && Fitted(t, 5, 1, (p: Page) => |p.items|) == Some(t);
  }
}
