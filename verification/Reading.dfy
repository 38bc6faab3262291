/**
 Reading a store that changes: events are added, refused, evicted and
 re-correlated while a client follows the cursors of its pages.
 */
module Reading {
  import opened Wrappers
  import opened SecurityEvents
  import opened Paging

  /**
   `log` is every event ever added, as it stands now; the first `dropped` are
   gone.  The reader starts at `origin`; `delivered` is what it got, as it was.
   */
  datatype World = World(log: seq<Event>, dropped: nat, next: nat, origin: nat, cursor: nat, delivered: seq<Event>,
                         warned: bool)

  datatype Step =
    | Write(event: Event)
    | Refuse
    | Evict
    | Correlate(index: nat, to: Correlation)
    | Poll(limit: int, maxBytes: nat)

  function Retained(w: World): seq<Event>
    requires w.dropped <= |w.log|
  {
    w.log[w.dropped..]
  }

  /** What `UpdateCorrelation` makes of an event. */
  function Recorrelated(e: Event, to: Correlation): Event {
    e.(correlation := to, revision := e.revision + 1)
  }

  predicate Changes(e: Event, to: Correlation) {
    ValidState(to.state) && e.correlation != to
  }

  /** The page a poll returns. */
  function Polled(w: World, limit: int, maxBytes: nat, keep: Event -> bool, size: Page -> nat): Option<Page>
    requires w.dropped <= |w.log|
  {
    var s, q := Snapshot(Retained(w), "s", w.next, w.dropped), Query(w.cursor, "s", limit);
    Fitted(PageOf(s, q, keep), w.cursor, maxBytes, size)
  }

  function Given(w: World, r: Page): World {
    w.(cursor := r.next, delivered := w.delivered + r.items, warned := w.warned || r.gap)
  }

  /**
   Sequence numbers are taken by refused events too; eviction takes the oldest.
   What a re-correlation evicts is an eviction of its own.
   */
  function Next(w: World, step: Step, keep: Event -> bool, size: Page -> nat): World
    requires w.dropped <= |w.log|
  {
    match step
    case Write(e) => w.(log := w.log + [e.(sequence := w.next + 1)], next := w.next + 1)
    case Refuse => w.(next := w.next + 1)
    case Evict => if w.dropped < |w.log| then w.(dropped := w.dropped + 1) else w
    case Correlate(i, to) =>
      if w.dropped <= i < |w.log| && Changes(w.log[i], to) then w.(log := w.log[i := Recorrelated(w.log[i], to)]) else w
    case Poll(limit, maxBytes) =>
      var r := Polled(w, limit, maxBytes, keep, size);
      if r.None? then w
      else Given(w, r.value)
  }

  // ---------------------------------------------------------- a faithful reader

  /** The delivered event is a logged one, up to its correlation. */
  predicate Logged(d: Event, log: seq<Event>) {
    exists e :: e in log && d.(correlation := e.correlation, revision := e.revision) == e
  }

  function Numbers(s: seq<Event>): set<nat> {
    set e | e in s :: e.sequence
  }

  /** What was delivered is in order and once, and matched when it was read. */
  ghost predicate ReadInOrder(w: World, keep: Event -> bool) {
    && w.dropped <= |w.log| && RisingEvents(w.log, w.next) && w.origin <= w.cursor <= w.next && w.next + 1 < WORD
    && RisingEvents(w.delivered, w.cursor)
    && forall d :: d in w.delivered ==> Logged(d, w.log) && keep(d) && d.sequence > w.origin
  }

  /** Every match among these events that is not beyond the cursor was delivered. */
  ghost predicate AllDelivered(w: World, events: seq<Event>, keep: Event -> bool) {
    forall e :: e in events && keep(e) && w.origin < e.sequence <= w.cursor ==> e.sequence in Numbers(w.delivered)
  }

  /** Nothing the store still holds was passed over, and without a warning nothing at all was. */
  ghost predicate Faithful(w: World, keep: Event -> bool) {
    ReadInOrder(w, keep) && AllDelivered(w, Retained(w), keep) && (!w.warned ==> AllDelivered(w, w.log, keep))
  }

  /** No re-correlation makes an event match that did not match before. */
  ghost predicate NeverStarts(keep: Event -> bool) {
    forall e: Event, to: Correlation ::
      0 < e.sequence && e.sequence + 5 < WORD && Changes(e, to) && keep(Recorrelated(e, to)) ==> keep(e)
  }

  lemma StillLogged(d: Event, log: seq<Event>, more: seq<Event>)
    requires Logged(d, log) && forall e :: e in log ==> e in more
    ensures Logged(d, more)
  {
  }

  lemma LogGrows(log: seq<Event>, e: Event, next: nat)
    requires RisingEvents(log, next) && e.sequence == next + 1
    ensures RisingEvents(log + [e], next + 1)
  {
  }

  lemma WriteKeeps(w: World, e: Event, keep: Event -> bool, size: Page -> nat)
    requires Faithful(w, keep) && w.next + 2 < WORD
    ensures Faithful(Next(w, Write(e), keep, size), keep)
  {
    hide RisingEvents, Logged;
    var t, x := Next(w, Write(e), keep, size), e.(sequence := w.next + 1);
    LogGrows(w.log, x, w.next);
    forall d | d in w.delivered ensures Logged(d, t.log) { StillLogged(d, w.log, t.log); }
    assert Retained(t) == Retained(w) + [x];
  }

  lemma RefuseKeeps(w: World, keep: Event -> bool, size: Page -> nat)
    requires Faithful(w, keep) && w.next + 2 < WORD
    ensures Faithful(Next(w, Refuse, keep, size), keep)
  {
    hide Logged;
    assert Retained(Next(w, Refuse, keep, size)) == Retained(w);
  }

  lemma EvictKeeps(w: World, keep: Event -> bool, size: Page -> nat)
    requires Faithful(w, keep)
    ensures Faithful(Next(w, Evict, keep, size), keep)
  {
    hide Logged;
    var t := Next(w, Evict, keep, size);
    if w.dropped < |w.log| { assert Retained(t) == Retained(w)[1..]; }
  }

  lemma CorrelateKeeps(w: World, i: nat, to: Correlation, keep: Event -> bool, size: Page -> nat)
    requires Faithful(w, keep) && w.next + 5 < WORD && NeverStarts(keep)
    ensures Faithful(Next(w, Correlate(i, to), keep, size), keep)
  {
    if w.dropped <= i < |w.log| && Changes(w.log[i], to) {
      var t, x := Next(w, Correlate(i, to), keep, size), Recorrelated(w.log[i], to);
      forall d | d in w.delivered ensures Logged(d, t.log) { RewrittenLogged(d, w.log, i, to); }
      assert w.log[i] in w.log && w.log[i] == Retained(w)[i - w.dropped];
      assert Retained(t) == Retained(w)[i - w.dropped := x];
    }
  }

  lemma RewrittenLogged(d: Event, log: seq<Event>, i: nat, to: Correlation)
    requires i < |log| && Logged(d, log)
    ensures Logged(d, log[i := Recorrelated(log[i], to)])
  {
    var e :| e in log && d.(correlation := e.correlation, revision := e.revision) == e;
    var j :| 0 <= j < |log| && log[j] == e;
    var more := log[i := Recorrelated(log[i], to)];
    assert more[j] in more;
  }

  lemma RetainedRises(w: World)
    requires w.dropped <= |w.log| && RisingEvents(w.log, w.next)
    ensures RisingEvents(Retained(w), w.next)
  {
    var r := Retained(w);
    forall i, j | 0 <= i < j < |r| ensures r[i].sequence < r[j].sequence {
      assert r[i] == w.log[w.dropped + i] && r[j] == w.log[w.dropped + j];
    }
    forall i | 0 <= i < |r| ensures 0 < r[i].sequence <= w.next { assert r[i] == w.log[w.dropped + i]; }
  }

  lemma {:induction false} FitKeepsGap(p: Page, after: nat, maxBytes: nat, size: Page -> nat)
    ensures Fitted(p, after, maxBytes, size).Some? ==> Fitted(p, after, maxBytes, size).value.gap == p.gap
    decreases |p.items|
  {
    if size(p) > maxBytes && |p.items| > 1 { FitKeepsGap(Shortened(p, after), after, maxBytes, size); }
  }

  lemma EmptyPage(after: nat, limit: nat, keep: Event -> bool, top: nat)
    ensures Scan([], after, limit, keep) == Scanned([], after, false)
  {
  }

  lemma NothingToTrim(p: Page, after: nat, maxBytes: nat, size: Page -> nat)
    requires |p.items| <= 1
    ensures Fitted(p, after, maxBytes, size).Some? ==> Fitted(p, after, maxBytes, size).value == p
  {
  }

  lemma PollDelivers(w: World, limit: int, maxBytes: nat, keep: Event -> bool, size: Page -> nat)
    requires w.dropped <= |w.log| && RisingEvents(w.log, w.next) && w.cursor <= w.next
    ensures var r := Polled(w, limit, maxBytes, keep, size);
            r.Some? ==>
              && Delivers(Retained(w), w.cursor, r.value, keep) && r.value.next <= w.next
              && r.value.gap == Behind(Retained(w), w.cursor)
              && (Retained(w) == [] ==> r.value.items == [] && r.value.next == w.cursor)
  {
    hide Between, Scan, Fitted;
    var s, q := Snapshot(Retained(w), "s", w.next, w.dropped), Query(w.cursor, "s", limit);
    var p := PageOf(s, q, keep);
    RetainedRises(w);
    PageDelivers(s, q, keep);
    FitDelivers(Retained(w), w.cursor, p, keep, w.next, maxBytes, size);
    FitKeepsGap(p, w.cursor, maxBytes, size);
    if Retained(w) == [] {
      EmptyPage(w.cursor, Clamped(limit), keep, w.next);
      NothingToTrim(p, w.cursor, maxBytes, size);
    }
  }

  lemma DeliveredRises(a: seq<Event>, b: seq<Event>, middle: nat, top: nat)
    requires RisingEvents(a, middle)
    requires (forall i, j :: 0 <= i < j < |b| ==> b[i].sequence < b[j].sequence) && middle <= top
    requires forall e :: e in b ==> middle < e.sequence <= top
    ensures RisingEvents(a + b, top)
  {
    forall i | 0 <= i < |b| ensures middle < b[i].sequence <= top { assert b[i] in b; }
  }

  lemma PollOrders(w: World, r: Page, keep: Event -> bool)
    requires ReadInOrder(w, keep) && Delivers(Retained(w), w.cursor, r, keep) && r.next <= w.next
    ensures ReadInOrder(Given(w, r), keep)
    ensures forall e :: e in r.items <==> e in Retained(w) && w.cursor < e.sequence <= r.next && keep(e)
  {
    hide Between;
    RetainedRises(w);
    BetweenOrdered(Retained(w), w.cursor, r.next, keep, w.next);
    DeliveredRises(w.delivered, r.items, w.cursor, r.next);
    forall e | e in r.items ensures Logged(e, w.log) { assert e in w.log; }
  }

  lemma PollCollects(w: World, r: Page, events: seq<Event>, keep: Event -> bool)
    requires AllDelivered(w, events, keep)
    requires forall e :: e in events && keep(e) && w.cursor < e.sequence <= r.next ==> e in r.items
    ensures AllDelivered(Given(w, r), events, keep)
  {
    assert Numbers(w.delivered + r.items) == Numbers(w.delivered) + Numbers(r.items);
  }

  lemma GoneIsRead(w: World)
    requires w.dropped < |w.log| && RisingEvents(w.log, w.next) && w.cursor + 1 < WORD && !Behind(Retained(w), w.cursor)
    ensures forall e :: e in w.log[..w.dropped] ==> e.sequence <= w.cursor
  {
    assert Oldest(Retained(w)) == w.log[w.dropped].sequence;
    forall e | e in w.log[..w.dropped] ensures e.sequence <= w.cursor {
      var i :| 0 <= i < w.dropped && w.log[i] == e;
    }
  }

  /** A page of a partly evicted log that warns of no gap misses nothing. */
  lemma NoGapNoLoss(w: World, high: nat, keep: Event -> bool)
    requires w.dropped <= |w.log| && RisingEvents(w.log, w.next) && w.cursor <= w.next && w.next + 1 < WORD
    requires Retained(w) != [] && !Behind(Retained(w), w.cursor) && w.cursor <= high
    ensures Between(Retained(w), w.cursor, high, keep) == Between(w.log, w.cursor, high, keep)
  {
    hide Between;
    var gone := w.log[..w.dropped];
    GoneIsRead(w);
    assert w.log == gone + Retained(w);
    BetweenNone(gone, w.cursor, high, keep);
    BetweenAppend(gone, Retained(w), w.cursor, high, keep);
  }

  lemma {:induction false} BetweenAppend(a: seq<Event>, b: seq<Event>, low: nat, high: nat, keep: Event -> bool)
    ensures Between(a + b, low, high, keep) == Between(a, low, high, keep) + Between(b, low, high, keep)
  {
    if |b| == 0 {
      assert a + b == a;
    } else {
      assert (a + b)[..|a + b| - 1] == a + b[..|b| - 1];
      BetweenAppend(a, b[..|b| - 1], low, high, keep);
    }
  }

  lemma PollKeeps(w: World, limit: int, maxBytes: nat, keep: Event -> bool, size: Page -> nat)
    requires Faithful(w, keep)
    ensures Faithful(Next(w, Poll(limit, maxBytes), keep, size), keep)
  {
    hide Polled, Behind, Delivers, RisingEvents, AllDelivered;
    var r := Polled(w, limit, maxBytes, keep, size);
    PollDelivers(w, limit, maxBytes, keep, size);
    if r.Some? {
      PollOrders(w, r.value, keep);
      PollCollects(w, r.value, Retained(w), keep);
      assert Retained(Next(w, Poll(limit, maxBytes), keep, size)) == Retained(w);
      if !w.warned && !r.value.gap { PollMissesNothing(w, r.value, keep); }
    }
  }

  /** Without a gap everything past the cursor is still stored. */
  lemma PollMissesNothing(w: World, r: Page, keep: Event -> bool)
    requires ReadInOrder(w, keep) && AllDelivered(w, w.log, keep) && !Behind(Retained(w), w.cursor)
    requires forall e :: e in r.items <==> e in Retained(w) && w.cursor < e.sequence <= r.next && keep(e)
    requires Retained(w) == [] ==> r.next == w.cursor
    ensures AllDelivered(Given(w, r), w.log, keep)
  {
    hide Behind, AllDelivered, Logged;
    if Retained(w) != [] {
      GoneIsRead(w);
      assert w.log == w.log[..w.dropped] + Retained(w);
    }
    PollCollects(w, r, w.log, keep);
  }

  lemma StepKeeps(w: World, step: Step, keep: Event -> bool, size: Page -> nat)
    requires Faithful(w, keep) && w.next + 5 < WORD && (step.Correlate? ==> NeverStarts(keep))
    ensures Faithful(Next(w, step, keep, size), keep)
  {
    match step
    case Write(e) => WriteKeeps(w, e, keep, size);
    case Refuse => RefuseKeeps(w, keep, size);
    case Evict => EvictKeeps(w, keep, size);
    case Correlate(i, to) => CorrelateKeeps(w, i, to, keep, size);
    case Poll(limit, maxBytes) => PollKeeps(w, limit, maxBytes, keep, size);
  }

  ghost predicate Reads(w: World, steps: seq<Step>, keep: Event -> bool, size: Page -> nat, t: World)
    decreases |steps|
  {
    if |steps| == 0 then w == t
    else w.dropped <= |w.log| && Reads(Next(w, steps[0], keep, size), steps[1..], keep, size, t)
  }

  /**
   However writes, refusals, evictions and polls interleave, a reader gets every
   match past its start once and in order, or is warned of a gap; and even then
   it has every one at or below its cursor that is still stored.  The same with
   re-correlations, for a filter that no re-correlation makes an event match.
   */
  lemma {:induction false} ReadingIsFaithful(w: World, steps: seq<Step>, keep: Event -> bool, size: Page -> nat,
                                             t: World)
    requires Faithful(w, keep) && w.next + |steps| + 4 < WORD && Reads(w, steps, keep, size, t)
    requires (exists step :: step in steps && step.Correlate?) ==> NeverStarts(keep)
    ensures Faithful(t, keep)
    decreases |steps|
  {
    if |steps| > 0 {
      hide Faithful, NeverStarts;
      assert steps[0] in steps;
      Bounded(w, steps[0], keep, size);
      StepKeeps(w, steps[0], keep, size);
      ReadingIsFaithful(Next(w, steps[0], keep, size), steps[1..], keep, size, t);
    }
  }

  lemma Bounded(w: World, step: Step, keep: Event -> bool, size: Page -> nat)
    requires w.dropped <= |w.log|
    ensures Next(w, step, keep, size).next <= w.next + 1
  {
  }

  /** An event evicted before it was read makes the next page over a non-empty store report a gap. */
  lemma UnseenEvictionWarns(w: World, i: nat, limit: int, keep: Event -> bool)
    requires w.dropped <= |w.log| && RisingEvents(w.log, w.next) && w.cursor <= w.next && w.next + 1 < WORD
    requires i < w.dropped && w.log[i].sequence > w.cursor && Retained(w) != []
    ensures PageOf(Snapshot(Retained(w), "s", w.next, w.dropped), Query(w.cursor, "s", limit), keep).gap
  {
    assert w.log[i].sequence < w.log[w.dropped].sequence == Oldest(Retained(w));
  }

  // ------------------------------------------------- re-correlated too late

  ghost predicate AlwaysFaithful(keep: Event -> bool) {
    forall w, steps, size, t | Faithful(w, keep) && w.next + |steps| + 4 < WORD && Reads(w, steps, keep, size, t) ::
      Faithful(t, keep)
  }

  /** An event that was read past and starts to match afterwards is never delivered. */
  lemma LateMatchIsLost(e: Event, to: Correlation, keep: Event -> bool)
    requires 0 < e.sequence && e.sequence + 5 < WORD && Changes(e, to) && keep(Recorrelated(e, to)) && !keep(e)
    ensures !AlwaysFaithful(keep)
  {
    var w := World([e], 0, e.sequence, e.sequence - 1, e.sequence, [], false);
    var size := (p: Page) => 0;
    var t := Next(w, Correlate(0, to), keep, size);
    assert Retained(w) == [e] && Faithful(w, keep);
    assert t.log == [Recorrelated(e, to)] && Retained(t)[0] == Recorrelated(e, to);
    assert [Correlate(0, to)][1..] == [] && Reads(t, [], keep, size, t);
    assert Reads(w, [Correlate(0, to)], keep, size, t);
    assert Recorrelated(e, to) in Retained(t) && !AllDelivered(t, Retained(t), keep);
  }

  /** A reader is faithful over every run if and only if its filter never starts to match. */
  lemma FaithfulIff(keep: Event -> bool)
    ensures AlwaysFaithful(keep) <==> NeverStarts(keep)
  {
    if NeverStarts(keep) {
      hide Faithful, NeverStarts, Reads;
      forall w, steps, size, t | Faithful(w, keep) && w.next + |steps| + 4 < WORD && Reads(w, steps, keep, size, t)
        ensures Faithful(t, keep)
      {
        ReadingIsFaithful(w, steps, keep, size, t);
      }
    } else {
      var e: Event, to: Correlation :| 0 < e.sequence && e.sequence + 5 < WORD && Changes(e, to)
                                       && keep(Recorrelated(e, to)) && !keep(e);
      LateMatchIsLost(e, to, keep);
    }
  }

  /** The part of `matchesSecurityQuery` that reads the correlation; an empty selector selects all. */
  datatype Filter = Filter(session: string, state: string, rest: string -> bool)

  predicate Selects(f: Filter, e: Event) {
    && (f.session == "" || e.correlation.session == f.session)
    && (f.state == "" || e.correlation.state == f.state)
    && f.rest(e.detail)
  }

  /**
   Which filters are safe: those that select neither by session nor by
   correlation, and those that no re-correlated event can match at all.
   */
  lemma SafeFilters(f: Filter)
    ensures NeverStarts(e => Selects(f, e)) <==>
            (f.session == "" && f.state == "") || (f.state != "" && !ValidState(f.state)) || forall d :: !f.rest(d)
  {
    if !(f.session == "" && f.state == "") && (f.state == "" || ValidState(f.state)) && exists d :: f.rest(d) {
      var d :| f.rest(d);
      var keep := (e: Event) => Selects(f, e);
      var other := if f.session == "" then "" else f.session + "x";
      var from := Correlation(other, "", 0, if f.state == "" then "" else f.state + "x", "");
      var to := Correlation(f.session, "", 0, if f.state == "" then "CORRELATED" else f.state, "");
      var e := Event("e", 1, from, 0, d);
      assert |f.session + "x"| != |f.session| && |f.state + "x"| != |f.state|;
      assert Changes(e, to) && keep(Recorrelated(e, to)) && !keep(e);
    }
  }

  const TO_SESSION := Correlation("s", "", 0, "CORRELATED", "")
  const FRESH := World([], 0, 0, 0, 0, [], false)

  predicate OfSession(e: Event) {
    e.correlation.session == "s"
  }

  /**
   The reader of one session, from an empty store: an alert is stored before it
   is correlated, the reader passes it, and its correlation comes too late.
   */
  lemma LateCorrelationWitness()
    ensures var size := (p: Page) => |p.items|;
            var read := Next(Next(FRESH, Write(FIRST), OfSession, size), Poll(50, 10), OfSession, size);
            var t := Next(read, Correlate(0, TO_SESSION), OfSession, size);
            && Retained(t) == [Recorrelated(FIRST, TO_SESSION)] && OfSession(Retained(t)[0])
            && t.cursor == 1 && t.delivered == [] && !t.warned
  {
    var size := (p: Page) => |p.items|;
    var a := Next(FRESH, Write(FIRST), OfSession, size);
    assert a.log == [FIRST] && Retained(a) == [FIRST];
    assert [FIRST][..0] == [] && Scan([], 0, 50, OfSession) == Scanned([], 0, false);
    assert Scan([FIRST], 0, 50, OfSession) == Scanned([], 1, false);
    var b := Next(a, Poll(50, 10), OfSession, size);
    assert b == World([FIRST], 0, 1, 0, 1, [], false);
  }
}
